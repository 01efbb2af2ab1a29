// struct virtio_gpu_dev and the functions that use its queue.

module GpuSnapshots {
  import opened QueueProtocol
  import opened QueueTheorems
  import opened GpuFences
  import opened DriverSteps

  datatype Snapshot = Snapshot(
    q: Queue, cmds: seq<Cmd>, fences: Fences,
    submitted: nat, completed: nat, reported: seq<nat>)

  ghost predicate SameRequests(a: Snapshot, b: Snapshot) {
    |b.cmds| == |a.cmds| && forall i :: 0 <= i < |a.cmds| ==> b.cmds[i].request == a.cmds[i].request
  }

  // Between a and b the driver has at most emptied the eventfd.
  ghost predicate Undisturbed(a: Snapshot, b: Snapshot) {
    && DeviceRan(a.q, b.q) && SameRequests(a, b)
    && b.fences.heads == a.fences.heads && b.fences.retired == a.fences.retired
    && b.submitted == a.submitted && b.completed == a.completed && b.reported == a.reported
  }

  // Nothing that the driver does has happened between a and b.
  ghost predicate DeviceOnly(a: Snapshot, b: Snapshot) {
    Undisturbed(a, b) && b.q.loading == a.q.loading && a.q.irq <= b.q.irq
  }

  // Between a and b the driver has received and freed chains, and done nothing else: what is still
  // allocated is as it was, and every fence is either outstanding or reported.
  ghost predicate Drained(a: Snapshot, b: Snapshot) {
    && b.q.num == a.q.num && b.q.sent == a.q.sent && b.q.carried == a.q.carried && a.q.done <= b.q.done && Work(b.q) <= Work(a.q)
    && a.q.received <= b.q.received
    && (forall h :: h in b.q.chains ==> h in a.q.chains && b.q.chains[h] == a.q.chains[h])
    && b.submitted == a.submitted && a.reported <= b.reported
    && b.fences.retired + |b.fences.heads| == a.fences.retired + |a.fences.heads|
  }

  // One command has gone out with these buffers, and it is the latest one.
  ghost predicate Issued(a: Queue, b: Queue, iov: seq<Iov>, readable: nat) {
    |b.sent| == |a.sent| + 1 && a.sent <= b.sent && b.carried == a.carried + [Buffers(iov, readable)]
  }

  function Latest(q: Queue): nat {
    if q.sent == [] then 0 else q.sent[|q.sent| - 1]
  }

  // The fences reported so far are 1, 2, 3, ..., each once.
  ghost predicate Reports(completed: nat, reported: seq<nat>, retired: nat) {
    && completed == FenceId(retired) && |reported| == retired
    && forall k :: 0 <= k < |reported| ==> reported[k] == FenceId(k + 1)
  }

  lemma NoFencesYet(num: nat)
    ensures Quiet(Initial(num)) && Initial(num).num == num && Reports(0, [], 0) && FenceId(0) == 0
    ensures forall cmds: seq<Cmd> :: FencesOk(Initial(num), cmds, Fences([], 0, 0, 0))
  {
  }

  // The driver's state after virtio_gpu_recv has returned an element.
  function AfterRecv(a: Snapshot): Snapshot
    requires a.q.received < |a.q.done| && a.q.done[a.q.received] < |a.cmds|
  {
    var h := a.q.done[a.q.received];
    var b := a.(q := Receive(a.q), fences := Retired(a.fences, h));
    match a.cmds[h].response
    case Plain => b
    case Fence(id) => b.(completed := id, reported := a.reported + [id])
  }

  lemma RecvKeeps(a: Snapshot)
    requires Inv(a.q) && Enabled(a.q, DoReceive) && |a.cmds| == a.q.num
    requires FencesOk(a.q, a.cmds, a.fences) && Reports(a.completed, a.reported, a.fences.retired)
    ensures Received(a.q)
    ensures var b, f := AfterRecv(a), a.fences;
            && FencesOk(b.q, b.cmds, b.fences) && Reports(b.completed, b.reported, b.fences.retired)
            && f.completed <= f.taken <= |f.heads| && b.fences.completed <= b.fences.taken <= |b.fences.heads|
            && b.fences.heads[b.fences.completed..b.fences.taken] == f.heads[f.completed..f.taken]
            && Drained(a, b)
  {
    assert a.fences.completed <= a.fences.taken <= |a.fences.heads|;
    hide QueueProtocol.Inv, Transit, Work, HeldSet, FencesOk, Received, Retired, Drained, Reports;
    TransitHolds(a.q);
    ReceiveStep(a.q);
    ReceiveFences(a.q, a.cmds, a.fences);
    PendingAfterReceive(a.q, a.cmds, a.fences);
    RecvDrains(a);
    RecvReports(a);
  }

  lemma RecvDrains(a: Snapshot)
    requires a.q.received < |a.q.done| && a.q.done[a.q.received] < |a.cmds| && Work(Receive(a.q)) == Work(a.q)
    requires var g := Retired(a.fences, a.q.done[a.q.received]);
      g.retired + |g.heads| == a.fences.retired + |a.fences.heads|
    ensures Drained(a, AfterRecv(a))
  {
    hide Work, Retired;
  }

  lemma RecvReports(a: Snapshot)
    requires a.q.received < |a.q.done| && a.q.done[a.q.received] < |a.cmds|
    requires Reports(a.completed, a.reported, a.fences.retired)
    requires var h := a.q.done[a.q.received]; var g := Retired(a.fences, h);
      match a.cmds[h].response
      case Plain => g == a.fences
      case Fence(id) => g.retired == a.fences.retired + 1 && id == FenceId(a.fences.retired + 1)
    ensures var b := AfterRecv(a); Reports(b.completed, b.reported, b.fences.retired)
  {
    hide Retired, FenceId;
  }

  // The device's list of fenced commands follows what it takes.
  lemma TakeKeeps(q: Queue, cmds: seq<Cmd>, f: Fences)
    requires Transit(q) && FencesOk(q, cmds, f) && Enabled(q, DoTake)
    ensures var h := q.sent[q.taken]; var g := TakenOne(f, h);
      && h < |cmds| && FencesOk(Take(q), cmds, g)
      && g.heads == f.heads && g.retired == f.retired && f.completed <= f.taken <= |f.heads|
      && g.completed <= g.taken <= |g.heads|
      && g.heads[g.completed..g.taken] ==
           f.heads[f.completed..f.taken] + if cmds[h].request.Fence? then [h] else []
  {
    TakeFences(q, cmds, f);
  }

  // The driver keeps draining while the device runs on.
  lemma DrainGoesOn(start: Snapshot, a: Snapshot, b: Snapshot, kept: set<nat>)
    requires Drained(start, a) && Draining(a.q, kept) && DeviceOnly(a, b)
    ensures Drained(start, b) && Draining(b.q, kept)
    ensures b.q.seen == a.q.seen && b.q.received == a.q.received && b.q.place.Keys == a.q.place.Keys
  {
  }

  // The chain waited for arrives only once.
  lemma KeptIsAway(q: Queue, kept: set<nat>)
    requires Draining(q, kept) && Received(q)
    ensures q.done[q.received] !in kept
  {
  }

  // The chain waited for arrives.
  lemma DrainKeeps(q: Queue, keep: nat)
    requires Draining(q, {}) && Received(q) && q.done[q.received] == keep
    ensures Draining(Receive(q), {keep}) && keep in q.place.Keys
    ensures Receive(q).place.Keys == q.place.Keys - {keep}
  {
  }

  // Any other chain arrives, and goes back to the free list.
  lemma DrainFrees(q: Queue, kept: set<nat>)
    requires Draining(q, kept) && Received(q) && q.done[q.received] !in kept
    ensures var id := q.done[q.received];
            && Enabled(Receive(q), DoRelease(id))
            && Draining(Release(Receive(q), id), kept)
            && Release(Receive(q), id).place.Keys == q.place.Keys - {id}
  {
  }

  // The driver blocks on the eventfd, wakes up and loads used.idx, while the device runs on.
  lemma WakeGoesOn(start: Snapshot, a: Snapshot, b: Snapshot, c: Snapshot, kept: set<nat>)
    requires Drained(start, a) && Draining(a.q, kept) && Undisturbed(a, b) && DeviceOnly(b, c) && Inv(c.q)
    ensures var d := c.(q := HandleEvent(c.q));
            && Drained(start, d) && Draining(d.q, kept)
            && d.q.place.Keys == a.q.place.Keys && Work(d.q) <= Work(b.q)
  {
    WorkStays(c.q, DoHandleEvent);
  }

  lemma DrainedWork(a: Snapshot, b: Snapshot)
    requires Drained(a, b)
    ensures Work(b.q) <= Work(a.q) && b.q.num == a.q.num && b.submitted == a.submitted && a.reported <= b.reported
    ensures b.q.sent == a.q.sent && b.q.carried == a.q.carried
    ensures b.fences.retired + |b.fences.heads| == a.fences.retired + |a.fences.heads|
  {
  }

  lemma DrainingWakesUp(q: Queue, h: nat)
    requires Inv(q) && Draining(q, {}) && q.received == q.seen && h in q.place
    ensures q.irq > 0 || DeviceBusy(q)
  {
    BlockedDriverWakesUp(q, h);
  }

  // Allocating one more chain leaves the others as they are.
  lemma AllocDrains(start: Snapshot, a: Snapshot, n: nat)
    requires Drained(start, a) && Inv(a.q) && 0 < n <= |a.q.free|
    ensures Drained(start, a.(q := Alloc(a.q, n).(chains := Alloc(a.q, n).chains - {a.q.free[0]})))
  {
    assert HeldSet(Alloc(a.q, n).(chains := Alloc(a.q, n).chains - {a.q.free[0]})) == HeldSet(a.q);
  }

  lemma DrainedAtFirst(a: Snapshot)
    ensures Drained(a, a)
  {
  }

  lemma ReleaseDrains(a: Snapshot, h: nat)
    requires h in a.q.chains && Work(Release(a.q, h)) == Work(a.q)
    ensures Drained(a, a.(q := Release(a.q, h)))
  {
  }

  lemma DeviceOnlyTwice(a: Snapshot, b: Snapshot, c: Snapshot)
    requires DeviceOnly(a, b) && DeviceOnly(b, c)
    ensures DeviceOnly(a, c)
  {
  }

  lemma DrainedTwice(a: Snapshot, b: Snapshot, c: Snapshot)
    requires Drained(a, b) && Drained(b, c)
    ensures Drained(a, c)
  {
  }
}

module GpuDevices {
  import opened Words
  import opened SeqFacts
  import opened QueueProtocol
  import opened QueueTheorems
  import opened DescriptorTable
  import opened RingSlots
  import opened VirtQueues
  import opened GpuFences
  import opened DriverSteps
  import opened GpuSnapshots

  class GpuDev {
    const queue: VirtQueue
    const cmds: array<Cmd>
    var fenceSubmitted: nat
    var fenceCompleted: nat
    // The calls of callbacks->write_fence, in order.
    var reported: seq<nat>

    // The device's own memory: fenced commands that it has taken and not completed, oldest first.
    var pending: seq<nat>

    ghost var fences: Fences

    function Repr(): set<object> {
      {this, cmds} + queue.Repr()
    }

    ghost predicate Separate() {
      && this !in queue.Repr() && cmds !in queue.Repr()
    }

    ghost predicate Valid()
      reads Repr()
    {
      && Separate() && queue.Valid() && cmds.Length == queue.q.num
      && FencesOk(queue.q, cmds[..], fences) && Reports(fenceCompleted, reported, fences.retired)
      && fences.completed <= fences.taken <= |fences.heads|
      && pending == fences.heads[fences.completed..fences.taken]
    }

    // The state between two calls of the public interface.
    ghost predicate Boundary()
      reads Repr()
    {
      Valid() && Quiet(queue.q) && fenceSubmitted == FenceId(fences.retired + |fences.heads|)
    }

    // virtio_gpu_dev_init, the part about the queue and the fences.
    constructor (num: nat)
      requires Size(num)
      ensures Boundary() && queue.q == Initial(num) && fences == Fences([], 0, 0, 0)
      ensures fresh(Repr())
    {
      hide QueueProtocol.Inv, VirtQueue.Valid, FencesOk, Reports, Quiet, Initial;
      NoFencesYet(num);
      queue := new VirtQueue(num);
      cmds := new Cmd[num](_ => Cmd(Plain, Plain));
      fenceSubmitted, fenceCompleted, reported, pending := 0, 0, [], [];
      fences := Fences([], 0, 0, 0);
      new;
      assert Separate();
      assert pending == fences.heads[fences.completed..fences.taken];
    }

    // ---- The device ----

    ghost function Now(): Snapshot
      reads Repr()
    {
      Snapshot(queue.q, cmds[..], fences, fenceSubmitted, fenceCompleted, reported)
    }

    method TakeOne()
      requires Valid() && queue.lastAvail != queue.availIdx
      modifies Repr()
      ensures Valid() && DeviceOnly(old(Now()), Now()) && Work(queue.q) < Work(old(queue.q))
      ensures queue.q.irq > 0 || DeviceBusy(queue.q)
    {
      hide QueueProtocol.Inv, Transit, VirtQueue.Valid, FencesOk, DeviceBusy, Work, HeldSet, TakenOne, Found, Walk;
      ghost var p, table, f := queue.q, cmds[..], fences;
      queue.View();
      var h := queue.DeviceTake();
      queue.View();
      DeviceStepRan(p, DoTake);
      TransitHolds(p);
      TakeKeeps(p, table, f);
      if cmds[h].request.Fence? {
        pending := pending + [h];
      }
      fences := TakenOne(f, h);
      assert cmds[..] == table;
    }

    method CompleteOne(h: nat)
      requires Valid() && h in queue.held && (h !in pending || h == pending[0])
      modifies Repr()
      ensures Valid() && DeviceOnly(old(Now()), Now()) && Work(queue.q) < Work(old(queue.q))
      ensures queue.q.irq > 0 || DeviceBusy(queue.q)
    {
      hide QueueProtocol.Inv, Transit, VirtQueue.Valid, FencesOk, DeviceBusy, Work, HeldSet;
      ghost var p, table, f := queue.q, cmds[..], fences;
      queue.View();
      TransitHolds(p);
      HeldMeansTaken(p, h);
      HeldFences(p, table, f);
      cmds[h] := cmds[h].(response := cmds[h].request);
      assert cmds[..] == table[h := table[h].(response := table[h].request)];
      queue.DeviceComplete(h, 0);
      DeviceStepRan(p, DoComplete(h));
      if h in pending {
        pending := pending[1..];
      }
      CompleteFences(p, table, f, h);
      fences := CompletedOne(f, h);
    }

    method PublishAll()
      requires Valid() && queue.usedIdx != queue.usedNext
      modifies Repr()
      ensures Valid() && DeviceOnly(old(Now()), Now()) && Work(queue.q) < Work(old(queue.q))
      ensures queue.q.irq > 0 || DeviceBusy(queue.q)
    {
      hide QueueProtocol.Inv, Transit, VirtQueue.Valid, FencesOk, DeviceBusy, Work, HeldSet;
      ghost var p, table := queue.q, cmds[..];
      queue.View();
      queue.DevicePublish();
      queue.View();
      DeviceStepRan(p, DoPublish);
      FencesStay(p, queue.q, table, cmds[..], fences);
    }

    method SignalOnce()
      requires Valid() && queue.mustSignal
      modifies Repr()
      ensures Valid() && DeviceOnly(old(Now()), Now()) && Work(queue.q) < Work(old(queue.q))
      ensures queue.q.irq > 0 || DeviceBusy(queue.q)
    {
      hide QueueProtocol.Inv, Transit, VirtQueue.Valid, FencesOk, DeviceBusy, Work, HeldSet;
      ghost var p, table := queue.q, cmds[..];
      queue.View();
      queue.DeviceSignal();
      queue.View();
      DeviceStepRan(p, DoSignal);
      FencesStay(p, queue.q, table, cmds[..], fences);
    }

    // One step of a device that obeys section 5.7.6. Which of its possible steps is up to the device.
    method DeviceStep()
      requires Valid() && DeviceBusy(queue.q)
      modifies Repr()
      ensures Valid() && DeviceOnly(old(Now()), Now()) && Work(queue.q) < Work(old(queue.q))
      ensures queue.q.irq > 0 || DeviceBusy(queue.q)
    {
      hide QueueProtocol.Inv, Transit, VirtQueue.Valid, FencesOk, Work, HeldSet;
      queue.View();
      HeldFences(queue.q, cmds[..], fences);
      CountersInOrder(queue.q);
      if
      case queue.lastAvail != queue.availIdx =>
        TakeOne();
      case queue.held != {} =>
        assert pending != [] ==> pending[0] in queue.held;
        assert exists h :: h in queue.held && (h !in pending || h == pending[0]);
        var h :| h in queue.held && (h !in pending || h == pending[0]);
        CompleteOne(h);
      case queue.usedIdx != queue.usedNext =>
        PublishAll();
      case queue.mustSignal =>
        SignalOnce();
    }

    // The device runs on for as long as it likes.
    method Interfere()
      requires Valid()
      modifies Repr()
      ensures Valid() && DeviceOnly(old(Now()), Now())
      ensures old(queue.q.irq > 0 || DeviceBusy(queue.q)) ==> queue.q.irq > 0 || DeviceBusy(queue.q)
    {
      hide QueueProtocol.Inv, Transit, VirtQueue.Valid, FencesOk, Work, HeldSet;
      ghost var start := Now();
      var steps: nat := *;
      queue.View();
      while steps > 0 && (queue.lastAvail != queue.availIdx || queue.held != {} || queue.usedIdx != queue.usedNext || queue.mustSignal)
        invariant Valid() && DeviceOnly(start, Now())
        invariant start.q.irq > 0 || DeviceBusy(start.q) ==> queue.q.irq > 0 || DeviceBusy(queue.q)
        decreases steps
      {
        queue.View();
        CountersInOrder(queue.q);
        ghost var before := Now();
        DeviceStep();
        DeviceOnlyTwice(start, before, Now());
        steps := steps - 1;
      }
    }

    // ---- The driver ----

    lemma CountersOrdered()
      requires Valid()
      ensures Inv(queue.q) && queue.q.received <= queue.q.seen
    {
      CountersInOrder(queue.q);
    }

    // How many fences have been submitted so far.
    ghost function Submissions(): nat
      reads this
    {
      fences.retired + |fences.heads|
    }

    // The device runs until it has signalled.
    method AwaitSignal()
      requires Valid() && (queue.q.irq > 0 || DeviceBusy(queue.q))
      modifies Repr()
      ensures Valid() && DeviceOnly(old(Now()), Now()) && queue.q.irq > 0 && Work(queue.q) <= Work(old(queue.q))
    {
      hide QueueProtocol.Inv, Transit, VirtQueue.Valid, FencesOk, HeldSet, DeviceBusy, Work;
      ghost var start := Now();
      queue.View();
      WorkIsBounded(queue.q);
      while queue.eventfd == 0
        invariant Valid() && DeviceOnly(start, Now())
        invariant queue.q.irq > 0 || DeviceBusy(queue.q)
        invariant 0 <= Work(queue.q)
        decreases Work(queue.q)
      {
        queue.View();
        ghost var before := Now();
        DeviceStep();
        DeviceOnlyTwice(start, before, Now());
        queue.View();
        WorkIsBounded(queue.q);
      }
      queue.View();
    }

    // vfio_pci_dev_clear_irq: the read blocks until the device has signalled. It always returns when
    // the eventfd is armed or the device has something left to do. The device runs on until the read
    // returns, and may signal again before it does.
    method ClearIrq()
      requires Valid() && (queue.q.irq > 0 || DeviceBusy(queue.q))
      modifies Repr()
      ensures Valid() && Undisturbed(old(Now()), Now())
      ensures queue.q.loading && 0 <= Work(queue.q) < Work(old(queue.q))
    {
      hide QueueProtocol.Inv, Transit, VirtQueue.Valid, FencesOk, HeldSet, DeviceBusy, Work;
      ghost var start := Now();
      AwaitSignal();
      ghost var awake := Now();
      Interfere();
      DeviceOnlyTwice(start, awake, Now());
      ghost var before := Now();
      queue.View();
      WorkGoesDown(before.q, DoClearIrq);
      queue.ReadEventfd();
      FencesStay(before.q, queue.q, before.cmds, cmds[..], fences);
      queue.View();
      WorkIsBounded(queue.q);
    }

    // virtio_queue_handle_event on this device's queue.
    method HandleEvent()
      requires Valid()
      modifies Repr()
      ensures Valid() && Now() == old(Now()).(q := QueueProtocol.HandleEvent(old(queue.q)))
    {
      hide QueueProtocol.Inv, Transit, VirtQueue.Valid, FencesOk, HeldSet;
      ghost var before := Now();
      queue.HandleEvent();
      queue.View();
      FencesStay(before.q, queue.q, before.cmds, cmds[..], fences);
      assert cmds[..] == before.cmds;
    }

    // virtio_gpu_recv: receives one used element and passes on its fence.
    method Recv() returns (slot: int)
      requires Valid()
      modifies Repr()
      ensures Valid() && Drained(old(Now()), Now())
      ensures old(queue.q.received) == old(queue.q.seen) ==> slot == -1 && Now() == old(Now())
      ensures old(queue.q.received) < old(queue.q.seen) ==>
                && Enabled(old(queue.q), DoReceive) && Received(old(queue.q)) && old(queue.q.num) == cmds.Length
                && Now() == AfterRecv(old(Now())) && queue.q == Receive(old(queue.q))
                && 0 <= slot < queue.usedRing.Length && queue.usedRing[slot].id == old(queue.q.done[queue.q.received])
    {
      hide QueueProtocol.Inv, Transit, VirtQueue.Valid, FencesOk, HeldSet, Work, Retired, Reports, Drained;
      ghost var before := Now();
      DrainedAtFirst(before);
      queue.View();
      CountersInOrder(queue.q);
      slot := queue.Recv();
      queue.View();
      assert cmds[..] == before.cmds;
      if slot >= 0 {
        RecvKeeps(before);
        var response := cmds[queue.usedRing[slot].id].response;
        fences := Retired(fences, queue.usedRing[slot].id);
        if response.Fence? {
          fenceCompleted := response.id;
          reported := reported + [response.id];
        }
      }
    }

    method Free(first: nat)
      requires Valid() && Enabled(queue.q, DoRelease(first))
      modifies Repr()
      ensures Valid() && Now() == old(Now()).(q := Release(old(queue.q), first))
      ensures Work(queue.q) == Work(old(queue.q))
    {
      hide QueueProtocol.Inv, Transit, VirtQueue.Valid, FencesOk, HeldSet, Work;
      ghost var before := Now();
      queue.View();
      WorkStays(before.q, DoRelease(first));
      queue.Free(first);
      queue.View();
      assert cmds[..] == before.cmds;
      FencesStay(before.q, queue.q, before.cmds, cmds[..], fences);
    }

    // The inner loop of virtio_gpu_wait, and with keep == -1 the one of virtio_gpu_poll: receives all
    // that is visible and frees it, except the chain that the caller waits for.
    method Drain(keep: int) returns (found: bool)
      requires Valid() && Draining(queue.q, {})
      modifies Repr()
      ensures Valid() && Drained(old(Now()), Now()) && queue.q.received == queue.q.seen
      ensures found ==> keep in old(queue.q.place.Keys) && Draining(queue.q, {keep})
      ensures !found ==> Draining(queue.q, {}) && (keep in old(queue.q.place.Keys) ==> keep in queue.q.place.Keys)
    {
      hide QueueProtocol.Inv, Transit, VirtQueue.Valid, FencesOk, HeldSet, Work, Retired;
      hide Draining, Drained, DeviceOnly, Reports, AfterRecv, GpuDev.Valid, Received;
      found := false;
      ghost var start := Now();
      ghost var kept: set<nat> := {};
      CountersOrdered();
      DrainedAtFirst(start);
      while true
        invariant Valid() && Drained(start, Now()) && Draining(queue.q, kept)
        invariant queue.q.received <= queue.q.seen == start.q.seen
        invariant kept == if found then {keep} else {}
        invariant queue.q.place.Keys <= start.q.place.Keys
        invariant keep in start.q.place.Keys ==> found || keep in queue.q.place.Keys
        invariant found ==> keep in start.q.place.Keys
        decreases queue.q.seen - queue.q.received
      {
        ghost var a := Now();
        Interfere();
        ghost var b := Now();
        DrainGoesOn(start, a, b, kept);
        var slot := Recv();
        DrainedTwice(start, b, Now());
        if slot == -1 { break; }
        var id := queue.usedRing[slot].id;
        KeptIsAway(b.q, kept);
        if id == keep {
          DrainKeeps(b.q, id);
          found, kept := true, {id};
          continue;
        }
        DrainFrees(b.q, kept);
        ghost var c := Now();
        Free(id);
        ReleaseDrains(c, id);
        DrainedTwice(start, c, Now());
      }
    }

    // virtio_gpu_wait: returns when chain id has come back. Every other chain that came back meanwhile
    // is free again; chain id is the caller's to free.
    method Wait(id: nat)
      requires Valid() && Quiet(queue.q) && id in queue.q.place
      modifies Repr()
      ensures Valid() && Drained(old(Now()), Now()) && Draining(queue.q, {id}) && queue.q.received == queue.q.seen
      ensures queue.q.num == old(queue.q.num) && queue.q.sent == old(queue.q.sent) && queue.q.carried == old(queue.q.carried)
      ensures Submissions() == old(Submissions())
      ensures fenceSubmitted == old(fenceSubmitted) && old(reported) <= reported
    {
      hide QueueProtocol.Inv, Transit, VirtQueue.Valid, FencesOk, HeldSet, Work, DeviceBusy;
      hide Draining, Drained, DeviceOnly, Undisturbed, Reports;
      ghost var start := Now();
      queue.View();
      QuietDrains(queue.q);
      DrainedAtFirst(start);
      WorkIsBounded(queue.q);
      var found := false;
      while !found
        invariant Valid() && Drained(start, Now()) && queue.q.received == queue.q.seen
        invariant Draining(queue.q, if found then {id} else {})
        invariant !found ==> id in queue.q.place.Keys
        invariant 0 <= Work(queue.q)
        decreases !found, Work(queue.q)
      {
        ghost var a := Now();
        queue.View();
        DrainingWakesUp(queue.q, id);
        ClearIrq();
        ghost var b := Now();
        Interfere();
        ghost var c := Now();
        queue.View();
        HandleEvent();
        WakeGoesOn(start, a, b, c, {});
        ghost var d := Now();
        found := Drain(id);
        DrainedTwice(start, d, Now());
        DrainedWork(d, Now());
        queue.View();
        WorkIsBounded(queue.q);
      }
      DrainedWork(start, Now());
    }

    // virtio_gpu_poll: drains, after blocking for an event if there is nothing to receive yet.
    method Poll()
      requires Valid() && Draining(queue.q, {})
      requires queue.q.received < queue.q.seen || queue.q.irq > 0 || DeviceBusy(queue.q)
      modifies Repr()
      ensures Valid() && Drained(old(Now()), Now()) && Quiet(queue.q)
      ensures queue.q.num == old(queue.q.num) && queue.q.sent == old(queue.q.sent) && queue.q.carried == old(queue.q.carried)
      ensures Submissions() == old(Submissions())
      ensures fenceSubmitted == old(fenceSubmitted) && old(reported) <= reported
      ensures old(queue.q.received) == old(queue.q.seen) ==> Work(queue.q) < Work(old(queue.q))
    {
      hide QueueProtocol.Inv, Transit, VirtQueue.Valid, FencesOk, HeldSet, Work, DeviceBusy, Retired;
      hide Draining, Drained, DeviceOnly, Undisturbed, Reports, Quiet;
      ghost var start := Now();
      DrainedAtFirst(start);
      queue.View();
      CountersInOrder(queue.q);
      var slot := Recv();
      if slot == -1 {
        ClearIrq();
        ghost var b := Now();
        Interfere();
        ghost var c := Now();
        queue.View();
        HandleEvent();
        WakeGoesOn(start, start, b, c, {});
      } else {
        var id := queue.usedRing[slot].id;
        DrainFrees(start.q, {});
        ghost var c := Now();
        Free(id);
        ReleaseDrains(c, id);
        DrainedTwice(start, c, Now());
      }
      ghost var d := Now();
      var found := Drain(-1);
      DrainedTwice(start, d, Now());
      DrainedWork(d, Now());
      DrainedWork(start, Now());
      DrainedQuiet(queue.q);
    }

    // virtio_gpu_alloc: blocks until enough descriptors are free. It always returns, because whatever
    // is not free is in flight, and the device returns it.
    method Alloc(iovcnt: int) returns (index: nat)
      requires Valid() && Quiet(queue.q) && 0 < iovcnt <= queue.q.num
      modifies Repr()
      ensures Valid() && Drained(old(Now()), Now().(q := queue.q.(chains := queue.q.chains - {index})))
      ensures Holding(queue.q, index) && index < cmds.Length && |queue.q.chains[index].descs| == iovcnt
      ensures queue.q.num == old(queue.q.num) && queue.q.sent == old(queue.q.sent) && queue.q.carried == old(queue.q.carried)
      ensures Submissions() == old(Submissions())
      ensures fenceSubmitted == old(fenceSubmitted) && old(reported) <= reported
    {
      hide QueueProtocol.Inv, Transit, VirtQueue.Valid, FencesOk, HeldSet, Work, DeviceBusy, Retired;
      hide Draining, Drained, DeviceOnly, Undisturbed, Reports, Quiet, Holding;
      ghost var start := Now();
      DrainedAtFirst(start);
      queue.View();
      WorkIsBounded(queue.q);
      while true
        invariant Valid() && Drained(start, Now()) && Quiet(queue.q) && queue.q.num == start.q.num
        invariant 0 <= Work(queue.q)
        decreases Work(queue.q)
      {
        ghost var a := Now();
        queue.View();
        var i := queue.Alloc(iovcnt);
        assert cmds[..] == a.cmds;
        FencesStay(a.q, queue.q, a.cmds, cmds[..], fences);
        if i >= 0 {
          AllocHolds(a.q, iovcnt);
          AllocDrains(start, a, iovcnt);
          DrainedWork(start, a);
          return i;
        }
        var h := ShortOfDescriptors(queue.q, iovcnt);
        QuietDrains(queue.q);
        QuietReceived(queue.q);
        DrainingWakesUp(queue.q, h);
        Poll();
        DrainedTwice(start, a, Now());
        queue.View();
        WorkIsBounded(queue.q);
      }
    }

    // dev->cmds[id].request = request, followed by virtio_gpu_send. The slot is the driver's: no chain
    // in flight has this head.
    method Send(id: nat, request: Header, iov: seq<Iov>, readcnt: nat)
      requires Valid() && Holding(queue.q, id) && id < cmds.Length
      requires |iov| == |queue.q.chains[id].descs| && readcnt <= |iov|
      requires request.Fence? ==> request.id == FenceId(fences.retired + |fences.heads| + 1)
      modifies Repr()
      ensures Valid() && Quiet(queue.q) && id in queue.q.place && queue.q.num == old(queue.q.num)
      ensures fences.retired == old(fences.retired)
      ensures queue.q == QueueProtocol.Send(Cut(old(queue.q), id, iov, readcnt), id)
      ensures cmds[..] == old(cmds[..])[id := old(cmds[id]).(request := request)]
      ensures fences.heads == old(fences.heads) + if request.Fence? then [id] else []
      ensures fenceSubmitted == old(fenceSubmitted) && fenceCompleted == old(fenceCompleted) && reported == old(reported)
    {
      hide QueueProtocol.Inv, Transit, VirtQueue.Valid, FencesOk, HeldSet, Holding, Quiet, Reports;
      ghost var p, table := queue.q, cmds[..];
      queue.View();
      HoldingAlone(p, id);
      cmds[id] := cmds[id].(request := request);
      FencesStay(p, p, table, cmds[..], fences);
      SendQuiets(p, id, iov, readcnt);
      queue.Writev(id, iov, readcnt);
      FencesStay(p, queue.q, cmds[..], cmds[..], fences);
      ghost var c := queue.q;
      queue.View();
      TransitHolds(c);
      queue.Send(id);
      queue.View();
      if request.Fence? {
        SendFenced(c, cmds[..], fences, id);
        fences := Submitted(fences, id);
        assert pending == fences.heads[fences.completed..fences.taken];
      } else {
        SendPlain(c, cmds[..], fences, id);
      }
    }

    // virtio_gpu_sendrecv (and the get_* functions, which inline it).
    method SendRecv(id: nat, request: Header, iov: seq<Iov>, readcnt: nat)
      requires Valid() && Holding(queue.q, id) && id < cmds.Length
      requires |iov| == |queue.q.chains[id].descs| && readcnt <= |iov|
      requires request.Fence? ==> request.id == FenceId(fences.retired + |fences.heads| + 1)
      modifies Repr()
      ensures Valid() && Quiet(queue.q) && queue.q.num == old(queue.q.num)
      ensures queue.q.sent == old(queue.q.sent) + [id] && id !in queue.q.chains
      ensures queue.q.carried == old(queue.q.carried) + [Buffers(iov, readcnt)]
      ensures fences.retired + |fences.heads| ==
              old(fences.retired + |fences.heads|) + if request.Fence? then 1 else 0
      ensures fenceSubmitted == old(fenceSubmitted) && old(reported) <= reported
    {
      hide QueueProtocol.Inv, Transit, VirtQueue.Valid, FencesOk, HeldSet, Holding, Quiet, Reports, FenceId;
      hide GpuDev.Valid, Drained, Draining, Work;
      Send(id, request, iov, readcnt);
      Wait(id);
      FreeQuiets(queue.q, id);
      Free(id);
    }

    // ---- The public interface ----

    // A command without a fence that nobody waits for: create_2d, attach and detach backing,
    // set_scanout, transfer_to_host_2d.
    method Async(iov: seq<Iov>, readcnt: nat)
      requires Boundary() && 0 < |iov| <= queue.q.num && readcnt <= |iov|
      modifies Repr()
      ensures Boundary() && queue.q.num == old(queue.q.num)
      ensures Issued(old(queue.q), queue.q, iov, readcnt) && Latest(queue.q) in queue.q.place
      ensures Latest(queue.q) < cmds.Length && cmds[Latest(queue.q)].request == Plain
      ensures Submissions() == old(Submissions()) && old(reported) <= reported
    {
      hide QueueProtocol.Inv, Transit, VirtQueue.Valid, FencesOk, HeldSet, Holding, Quiet, Reports, FenceId;
      hide GpuDev.Valid, Drained, Draining, Work;
      var id := Alloc(|iov|);
      Send(id, Plain, iov, readcnt);
    }

    // virtio_gpu_resource_flush: fenced, and nobody waits.
    method Flush(iov: seq<Iov>) returns (fence: nat)
      requires Boundary() && |iov| == 2 <= queue.q.num
      modifies Repr()
      ensures Boundary() && queue.q.num == old(queue.q.num) && old(reported) <= reported
      ensures Issued(old(queue.q), queue.q, iov, 1) && fences.heads != [] && fences.heads[|fences.heads| - 1] == Latest(queue.q)
      ensures Submissions() == old(Submissions()) + 1 && fence == FenceId(Submissions()) == Submissions() % 0x1_0000_0000
    {
      hide QueueProtocol.Inv, Transit, VirtQueue.Valid, FencesOk, HeldSet, Holding, Quiet, Reports;
      hide Drained, Draining, Work;
      var id := Alloc(2);
      FenceNext(Submissions());
      fenceSubmitted := (fenceSubmitted + 1) % U32;
      fence := fenceSubmitted;
      Send(id, Fence(fence), iov, 1);
    }

    // A command without a fence that is waited for: unref, create_3d, ctx_create, get_capset and so on.
    method Sync(iov: seq<Iov>, readcnt: nat)
      requires Boundary() && 0 < |iov| <= queue.q.num && readcnt <= |iov|
      modifies Repr()
      ensures Boundary() && queue.q.num == old(queue.q.num)
      ensures Issued(old(queue.q), queue.q, iov, readcnt) && Latest(queue.q) !in queue.q.chains
      ensures Submissions() == old(Submissions()) && old(reported) <= reported
    {
      hide QueueProtocol.Inv, Transit, VirtQueue.Valid, FencesOk, HeldSet, Holding, Quiet, Reports, FenceId;
      hide GpuDev.Valid, Drained, Draining, Work;
      var id := Alloc(|iov|);
      SendRecv(id, Plain, iov, readcnt);
    }

    // virtio_gpu_submit_cmd: the fence is numbered before the allocation, which may block and receive.
    method SubmitCmd(iov: seq<Iov>)
      requires Boundary() && |iov| == 3 <= queue.q.num
      modifies Repr()
      ensures Boundary() && queue.q.num == old(queue.q.num) && old(reported) <= reported
      ensures Issued(old(queue.q), queue.q, iov, 2) && Latest(queue.q) !in queue.q.chains
      ensures Submissions() == old(Submissions()) + 1
    {
      hide QueueProtocol.Inv, Transit, VirtQueue.Valid, FencesOk, HeldSet, Holding, Quiet, Reports, FenceId;
      hide Drained, Draining, Work;
      FenceNext(Submissions());
      fenceSubmitted := (fenceSubmitted + 1) % U32;
      var fence := fenceSubmitted;
      var id := Alloc(3);
      SendRecv(id, Fence(fence), iov, 2);
    }

    // Between public calls, fence_submitted == fence_completed exactly when no command in flight
    // carries a fence.
    lemma FenceEquality()
      requires Boundary()
      ensures fenceSubmitted == fenceCompleted <==> fences.heads == []
      ensures fenceSubmitted == fenceCompleted <==> forall h :: h in queue.q.place ==> cmds[..][h].request == Plain
      ensures forall k :: 0 <= k < |reported| ==> reported[k] == (k + 1) % 0x1_0000_0000
    {
      FenceEqualityIsExact(queue.q, cmds[..], fences);
    }

    // While a fence is outstanding, a poll never blocks for good.
    lemma BusyWakesUp()
      requires Boundary() && fenceSubmitted != fenceCompleted
      ensures Draining(queue.q, {}) && (queue.q.irq > 0 || DeviceBusy(queue.q))
    {
      hide QueueProtocol.Inv, FencesOk, Draining;
      FenceEquality();
      HeadsInFlight(queue.q, cmds[..], fences);
      assert fences.heads[0] in fences.heads;
      QuietDrains(queue.q);
      QuietReceived(queue.q);
      DrainingWakesUp(queue.q, fences.heads[0]);
    }

    // The loop of VCMD_RESOURCE_BUSY_WAIT in virgl-virtio.c: it ends, and then no fence is outstanding.
    method BusyWait()
      requires Boundary()
      modifies Repr()
      ensures Boundary() && fenceSubmitted == fenceCompleted && fences.heads == []
      ensures queue.q.num == old(queue.q.num) && Submissions() == old(Submissions()) && old(reported) <= reported
      ensures queue.q.sent == old(queue.q.sent) && queue.q.carried == old(queue.q.carried)
    {
      hide QueueProtocol.Inv, VirtQueue.Valid, GpuDev.Valid, FencesOk, Draining, Drained, DeviceBusy, Quiet, FenceId, Work;
      QuietWork();
      while fenceSubmitted != fenceCompleted
        invariant Boundary() && 0 <= Work(queue.q)
        invariant queue.q.num == old(queue.q.num) && Submissions() == old(Submissions()) && old(reported) <= reported
        invariant queue.q.sent == old(queue.q.sent) && queue.q.carried == old(queue.q.carried)
        decreases Work(queue.q)
      {
        BusyWakesUp();
        QuietReceived(queue.q);
        Poll();
        QuietWork();
      }
      FenceEquality();
    }

    lemma QuietWork()
      requires Valid()
      ensures 0 <= Work(queue.q)
    {
      WorkIsBounded(queue.q);
    }
  }
}
