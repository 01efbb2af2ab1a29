// code/virtio-input.c: every descriptor is a one-event buffer that stays with the device.

module InputSteps {
  import opened SeqFacts
  import opened QueueProtocol
  import opened QueueTheorems
  import opened DriverSteps

  const EVENT_SIZE := 8

  // The address of &events[i].
  function BufferAt(base: nat, i: nat): Iov {
    Iov(base + i * EVENT_SIZE, EVENT_SIZE)
  }

  // Descriptors 0..k-1 are one-descriptor chains, writable by the device and in flight; the others are
  // free, in order.
  ghost predicate Supplied(q: Queue, k: nat, base: nat) {
    && k <= q.num && |q.free| == q.num - k
    && (forall i :: 0 <= i < |q.free| ==> q.free[i] == k + i)
    && (forall h: nat :: h in q.chains <==> h < k)
    && (forall h :: h in q.chains ==> q.chains[h] == Chain([h], true, 0, [BufferAt(base, h)]))
    && q.place.Keys == q.chains.Keys
  }

  function Supply(q: Queue, buf: Iov): Queue
    requires q.free != []
  {
    Send(Cut(Alloc(q, 1), q.free[0], [buf], 0), q.free[0])
  }

  // A fresh one-descriptor chain may be written and sent.
  lemma OneDescriptor(q: Queue, buf: Iov, readable: nat)
    requires Inv(q) && q.free != [] && readable <= 1
    ensures var h, a := q.free[0], Alloc(q, 1);
            && h < q.num && a.chains[h].descs == [h]
            && Enabled(a, DoCut(h, [buf], readable)) && Enabled(Cut(a, h, [buf], readable), DoSend(h))
  {
    var h := q.free[0];
    assert h in q.free;
    assert q.free[..1] == [h];
    FreeHeadIsNew(q);
    assert forall g :: g in q.place ==> Placed(q, g);
  }

  lemma SupplyNext(q: Queue, k: nat, base: nat)
    requires Inv(q) && Supplied(q, k, base) && k < q.num
    ensures q.free[0] == k && Supplied(Supply(q, BufferAt(base, k)), k + 1, base)
  {
    var r := Supply(q, BufferAt(base, k));
    assert r.chains[k].descs == [k];
  }

  // Receiving one element and freeing its descriptor leaves exactly that descriptor free.
  lemma Recycled(q: Queue, base: nat)
    requires Inv(q) && Supplied(q, q.num, base) && Enabled(q, DoReceive)
    ensures var id := q.done[q.received]; var f := Release(Receive(q), id);
            && id < q.num && id in q.chains && Enabled(Receive(q), DoRelease(id))
            && f.free == [id] && f.chains == q.chains - {id} && f.place.Keys == q.place.Keys - {id}
  {
    ReceiveStep(q);
  }

  // So supplying a buffer uses it again, and every descriptor is back with the device.
  lemma SupplyAgain(q: Queue, base: nat)
    requires Inv(q) && Supplied(q, q.num, base) && Enabled(q, DoReceive)
    ensures var id := q.done[q.received];
            && id < q.num && id in q.chains && Enabled(Receive(q), DoRelease(id))
            && Release(Receive(q), id).free == [id]
            && Supplied(Supply(Release(Receive(q), id), BufferAt(base, id)), q.num, base)
            && Supply(Release(Receive(q), id), BufferAt(base, id)).num == q.num
            && Supply(Release(Receive(q), id), BufferAt(base, id)).done == q.done
            && Supply(Release(Receive(q), id), BufferAt(base, id)).received == q.received + 1
            && Supply(Release(Receive(q), id), BufferAt(base, id)).seen == q.seen
  {
    hide QueueProtocol.Inv;
    Recycled(q, base);
    var id := q.done[q.received];
    SuppliedBack(q, Release(Receive(q), id), id, base);
  }

  lemma SuppliedBack(q: Queue, f: Queue, id: nat, base: nat)
    requires Supplied(q, q.num, base) && id < q.num && f.num == q.num
    requires f.free == [id] && f.chains == q.chains - {id} && f.place.Keys == q.place.Keys - {id}
    ensures Supplied(Supply(f, BufferAt(base, id)), q.num, base)
  {
    var r := Supply(f, BufferAt(base, id));
    assert r.chains[id].descs == [id];
    assert r.chains == q.chains;
  }

  lemma DeviceSupplied(q: Queue, r: Queue, k: nat, base: nat)
    requires Supplied(q, k, base) && DeviceRan(q, r)
    ensures Supplied(r, k, base)
  {
  }

  // The buffer of each used element that the driver has not received holds the event that the device
  // wrote for it.
  ghost predicate Logged<Event>(q: Queue, events: seq<Event>, written: seq<Event>) {
    && |written| == |q.done|
    && forall i :: q.received <= i < |q.done| ==> q.done[i] < |events| && events[q.done[i]] == written[i]
  }

  lemma NothingYet<Event>(num: nat, base: nat)
    ensures Supplied(Initial(num), 0, base) && Initial(num).num == num && Initial(num).received == 0
    ensures forall events: seq<Event> :: Logged(Initial(num), events, [])
  {
  }

  // Filling a buffer that the device holds touches no event that still waits for the driver.
  lemma FillStaysLogged<Event>(q: Queue, events: seq<Event>, written: seq<Event>, h: nat, event: Event)
    requires Inv(q) && Logged(q, events, written) && Enabled(q, DoComplete(h)) && |events| == q.num
    ensures h < |events| && Logged(Complete(q, h), events[h := event], written + [event])
  {
    HeadsFit(q);
    var r := Complete(q, h);
    forall i | r.received <= i < |r.done|
      ensures r.done[i] < |events| && events[h := event][r.done[i]] == (written + [event])[i]
    {
      if i < |q.done| { assert q.place[q.done[i]] == Used(i); }
    }
  }

  lemma ReceivedStaysLogged<Event>(q: Queue, r: Queue, events: seq<Event>, written: seq<Event>)
    requires Logged(q, events, written) && q.received < |q.done| && r.done == q.done && r.received == q.received + 1
    ensures Logged(r, events, written)
    ensures q.done[q.received] < |events| && events[q.done[q.received]] == written[q.received]
  {
  }

  lemma QuietSupplied<Event>(q: Queue, s: Step, events: seq<Event>, written: seq<Event>, k: nat, base: nat)
    requires Inv(q) && Enabled(q, s) && s.ByDevice() && !s.DoComplete?
    requires Supplied(q, k, base) && Logged(q, events, written)
    ensures Supplied(Apply(q, s), k, base) && Logged(Apply(q, s), events, written) && DeviceRan(q, Apply(q, s))
  {
    DeviceStepRan(q, s);
  }
}

module InputDevices {
  import opened SeqFacts
  import opened QueueProtocol
  import opened QueueTheorems
  import opened DescriptorTable
  import opened RingSlots
  import opened DriverSteps
  import opened VirtQueues
  import opened InputSteps

  // struct virtio_input_event
  datatype Event = Event(kind: nat, code: nat, value: nat)

  class InputDev {
    const queue: VirtQueue
    const events: array<Event>
    // The bus address of `events`.
    const base: nat

    // How many buffers have been supplied, and every event that the device has written, in order.
    ghost var supplied: nat
    ghost var written: seq<Event>

    function Repr(): set<object> {
      {this, events} + queue.Repr()
    }

    // Descriptor i points at events[i].
    function Buffer(i: nat): Iov {
      BufferAt(base, i)
    }

    ghost predicate Bound(d: Desc, i: nat) {
      d.addr == Buffer(i).base && d.len == Buffer(i).len
    }

    ghost predicate Valid()
      reads Repr()
    {
      && this !in queue.Repr() && events !in queue.Repr()
      && queue.Valid() && events.Length == queue.q.num == queue.desc.Length
      && Supplied(queue.q, supplied, base)
      && (forall i :: 0 <= i < supplied ==> Bound(queue.desc[i], i))
      && Logged(queue.q, events[..], written)
    }

    // virtio_input_dev_init, the part about the queue. The device is already running.
    constructor (num: nat, addr: nat)
      requires Size(num)
      ensures Valid() && supplied == queue.q.num == num && fresh(Repr())
      ensures queue.q.received == 0
    {
      hide QueueProtocol.Inv, VirtQueue.Valid, Supplied, Logged, Initial;
      NothingYet<Event>(num, addr);
      queue := new VirtQueue(num);
      events := new Event[num](_ => Event(0, 0, 0));
      base := addr;
      supplied, written := 0, [];
      new;
      SupplyAll();
    }

    // The loop of virtio_input_dev_init.
    method SupplyAll()
      requires Valid() && supplied == 0
      modifies Repr()
      ensures Valid() && supplied == queue.q.num == old(queue.q.num) && queue.q.received == old(queue.q.received)
    {
      hide QueueProtocol.Inv, VirtQueue.Valid, Supplied, Logged, Bound;
      var num := queue.desc.Length;
      for i := 0 to num
        invariant Valid() && supplied == i && queue.q.num == old(queue.q.num)
        invariant queue.q.received == old(queue.q.received)
      {
        SupplyFirst(i);
        Interfere();
      }
    }

    // supply_buffer for a descriptor that has never been used: alloc hands them out in order.
    method SupplyFirst(i: nat)
      requires Valid() && i == supplied < queue.q.num
      modifies Repr()
      ensures Valid() && supplied == i + 1 && queue.q.num == old(queue.q.num)
      ensures queue.q.received == old(queue.q.received)
    {
      hide QueueProtocol.Inv, VirtQueue.Valid;
      ghost var p := queue.q;
      queue.View();
      SupplyNext(p, i, base);
      var index := SupplyBuffer(Buffer(i), 0);
      supplied := supplied + 1;
    }

    // supply_buffer: the assertion on the index is the source's.
    method SupplyBuffer(buf: Iov, read: nat) returns (index: nat)
      requires queue.Valid() && queue.q.free != [] && read <= 1
      modifies queue.Repr()
      ensures queue.Valid() && index == old(queue.q.free[0]) && index < queue.desc.Length
      ensures queue.q == QueueProtocol.Send(Cut(QueueProtocol.Alloc(old(queue.q), 1), index, [buf], read), index)
      ensures read == 0 ==> queue.q == Supply(old(queue.q), buf)
      ensures queue.desc[index].addr == buf.base && queue.desc[index].len == buf.len
      ensures forall d :: 0 <= d < queue.desc.Length && d != index ==> queue.desc[d] == old(queue.desc[d])
    {
      hide QueueProtocol.Inv, VirtQueue.Valid;
      queue.View();
      OneDescriptor(queue.q, buf, read);
      var i := queue.Alloc(1);
      assert i >= 0;
      index := i;
      queue.Writev(index, [buf], read);
      queue.Send(index);
    }

    // ---- The device ----

    // The device fills a buffer that it holds and returns it.
    method DeviceFill(h: nat, event: Event)
      requires Valid() && h in queue.held
      modifies Repr()
      ensures Valid() && DeviceRan(old(queue.q), queue.q) && supplied == old(supplied)
      ensures written == old(written) + [event] && queue.q.done == old(queue.q.done) + [h]
    {
      hide QueueProtocol.Inv, VirtQueue.Valid, Supplied;
      ghost var p := queue.q;
      queue.View();
      HeldMeansTaken(p, h);
      FillStaysLogged(p, events[..], written, h, event);
      events[h] := event;
      queue.DeviceComplete(h, EVENT_SIZE);
      DeviceStepRan(p, DoComplete(h));
      DeviceSupplied(p, queue.q, supplied, base);
      written := written + [event];
    }

    // Any number of device steps, with whatever events the device likes.
    method Interfere()
      requires Valid()
      modifies Repr()
      ensures Valid() && DeviceRan(old(queue.q), queue.q) && supplied == old(supplied) && old(written) <= written
    {
      hide QueueProtocol.Inv, VirtQueue.Valid, Supplied, Work, Logged, Found, Walk;
      var steps: nat := *;
      while steps > 0
        invariant Valid() && DeviceRan(old(queue.q), queue.q) && supplied == old(supplied) && old(written) <= written
        decreases steps
      {
        ghost var p := queue.q;
        queue.View();
        steps := steps - 1;
        if
        case queue.lastAvail != queue.availIdx =>
          var h := queue.DeviceTake();
          QuietSupplied(p, DoTake, events[..], written, supplied, base);
        case queue.held != {} =>
          var h :| h in queue.held;
          var event: Event := *;
          DeviceFill(h, event);
        case queue.usedIdx != queue.usedNext =>
          queue.DevicePublish();
          QuietSupplied(p, DoPublish, events[..], written, supplied, base);
        case queue.mustSignal =>
          queue.DeviceSignal();
          QuietSupplied(p, DoSignal, events[..], written, supplied, base);
        case true =>
      }
    }

    // ---- The driver ----

    // virtio_input_recv: hands over the oldest event not received yet, and gives its buffer back to the
    // device in the same descriptor.
    method Recv() returns (got: bool, event: Event)
      requires Valid() && supplied == queue.q.num
      modifies Repr()
      ensures Valid() && supplied == queue.q.num == old(queue.q.num) && written == old(written)
      ensures got <==> old(queue.q.received) < old(queue.q.seen)
      ensures got ==> queue.q.received == old(queue.q.received) + 1 && queue.q.seen == old(queue.q.seen)
      ensures got ==> old(queue.q.received) < |written| && event == written[old(queue.q.received)]
      ensures !got ==> queue.q == old(queue.q)
    {
      hide QueueProtocol.Inv, VirtQueue.Valid, Supplied, Logged, Supply, BufferAt;
      got, event := false, Event(0, 0, 0);
      ghost var p := queue.q;
      queue.View();
      CountersInOrder(p);
      var slot := queue.Recv();
      if slot == -1 {
        return;
      }
      SupplyAgain(p, base);
      ghost var log := events[..];
      ReceivedStaysLogged(p, Supply(Release(Receive(p), p.done[p.received]), Buffer(p.done[p.received])), log, written);
      got, event := true, events[queue.usedRing[slot].id];
      GiveBack(queue.usedRing[slot].id);
    }

    // The end of virtio_input_recv: the descriptor is freed and supplied again.
    method GiveBack(id: nat)
      requires queue.Valid() && Enabled(queue.q, DoRelease(id)) && Release(queue.q, id).free == [id]
      modifies queue.Repr()
      ensures queue.Valid() && id < queue.desc.Length && queue.q == Supply(Release(old(queue.q), id), Buffer(id))
      ensures Bound(queue.desc[id], id)
      ensures forall d :: 0 <= d < queue.desc.Length && d != id ==> Bound(old(queue.desc[d]), d) ==> Bound(queue.desc[d], d)
    {
      hide QueueProtocol.Inv, VirtQueue.Valid, Supply, BufferAt;
      queue.Free(id);
      var index := SupplyBuffer(Buffer(id), 0);
    }

    // virtio_queue_handle_event on this device's queue.
    method Load()
      requires Valid()
      modifies Repr()
      ensures Valid() && supplied == old(supplied) && written == old(written)
      ensures queue.q == QueueProtocol.HandleEvent(old(queue.q)) && queue.q.received <= queue.q.seen <= |written|
    {
      hide QueueProtocol.Inv, VirtQueue.Valid;
      queue.HandleEvent();
      queue.View();
      CountersInOrder(queue.q);
    }

    // What the compositors do on an event of the device: load the index and receive until there is
    // nothing left. Everything that was published by then is delivered, in order.
    method Handle() returns (got: seq<Event>)
      requires Valid() && supplied == queue.q.num
      modifies Repr()
      ensures Valid() && supplied == queue.q.num == old(queue.q.num)
      ensures old(queue.q.received) <= queue.q.received == queue.q.seen <= |written| && old(queue.q.published) <= queue.q.seen
      ensures got == written[old(queue.q.received)..queue.q.received] && old(written) <= written
    {
      hide QueueProtocol.Inv, VirtQueue.Valid, InputDev.Valid, Supplied, Logged;
      ghost var start := queue.q.received;
      Load();
      got := [];
      while true
        invariant Valid() && supplied == queue.q.num == old(queue.q.num)
        invariant start <= queue.q.received <= queue.q.seen <= |written| && old(queue.q.published) <= queue.q.seen
        invariant got == written[start..queue.q.received] && old(written) <= written
        decreases queue.q.seen - queue.q.received
      {
        Interfere();
        var more, event := Recv();
        if !more {
          break;
        }
        got := got + [event];
      }
    }

    // Any sequence of device steps, loads and receives: the events handed over are those that the device
    // has written, in order, each once; and between the calls all buffers are with the device, each in
    // its own descriptor.
    method Run(actions: seq<Action>) returns (got: seq<Event>)
      requires Valid() && supplied == queue.q.num && queue.q.received <= |written|
      modifies Repr()
      ensures Valid() && supplied == queue.q.num == old(queue.q.num)
      ensures forall i :: 0 <= i < queue.q.num ==> i < queue.desc.Length && Bound(queue.desc[i], i)
      ensures old(queue.q.received) <= queue.q.received <= |written| && old(written) <= written
      ensures got == written[old(queue.q.received)..queue.q.received]
    {
      hide QueueProtocol.Inv, VirtQueue.Valid, Supplied, Logged;
      ghost var start := queue.q.received;
      got := [];
      for k := 0 to |actions|
        invariant Valid() && supplied == queue.q.num == old(queue.q.num)
        invariant start <= queue.q.received <= |written| && old(written) <= written
        invariant got == written[start..queue.q.received]
      {
        match actions[k]
        case RunDevice => Interfere();
        case LoadIndex => Load();
        case TakeEvent =>
          var more, event := Recv();
          if more {
            got := got + [event];
          }
      }
    }
  }

  datatype Action = RunDevice | LoadIndex | TakeEvent

  // From power-on: the device has been initialised with num buffers, and nothing has been received yet.
  method RunFromStart(num: nat, addr: nat, actions: seq<Action>) returns (dev: InputDev, got: seq<Event>)
    requires Size(num)
    ensures dev.Valid() && dev.supplied == dev.queue.q.num == num
    ensures dev.queue.q.received <= |dev.written| && got == dev.written[..dev.queue.q.received]
  {
    dev := new InputDev(num, addr);
    got := dev.Run(actions);
  }
}
