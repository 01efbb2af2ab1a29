// virtio_9p_alloc, virtio_9p_sendrecv and virtio_9p_free of code/fuse-9p.c: one request at a time.

module NinePTransport {
  import opened SeqFacts
  import opened QueueProtocol
  import opened QueueTheorems
  import opened DescriptorTable
  import opened RingSlots
  import opened DriverSteps
  import opened VirtQueues

  // No request is in progress.
  ghost predicate Idle(q: Queue) {
    q.chains == map[] && q.place == map[] && q.received == q.seen && !q.loading && 2 <= q.num
  }

  // The request that started in idle state p, with head id, is the only one in progress.
  ghost predicate InProgress(p: Queue, q: Queue, id: nat, iov: seq<Iov>) {
    && 2 <= |p.free| && id == p.free[0] && q.num == p.num && q.free == p.free[2..]
    && q.chains == map[id := Chain(p.free[..2], true, 1, iov)]
    && q.received <= q.seen && q.sent == p.sent + [id] && q.carried == p.carried + [Buffers(iov, 1)]
  }

  lemma IdleHasAll(q: Queue)
    requires Inv(q) && Idle(q)
    ensures |q.free| == q.num
  {
    DescriptorsAreCounted(q);
    assert forall d :: d !in q.owner;
    assert q.owner == map[];
  }

  lemma RequestSent(p: Queue, iov: seq<Iov>)
    requires |iov| == 2 && Inv(p) && Idle(p) && 2 <= |p.free|
    ensures var a := Alloc(p, 2); var id := p.free[0];
            && Enabled(a, DoCut(id, iov, 1)) && Enabled(Cut(a, id, iov, 1), DoSend(id))
            && InProgress(p, Send(Cut(a, id, iov, 1), id), id, iov)
            && Send(Cut(a, id, iov, 1), id).place.Keys == {id}
  {
    hide QueueProtocol.Inv;
    assert p.chains[p.free[0] := Chain(p.free[..2], true, 1, iov)] == map[p.free[0] := Chain(p.free[..2], true, 1, iov)];
  }

  // The device works on the request, and nothing else changes for the driver.
  lemma RequestGoesOn(p: Queue, q: Queue, r: Queue, id: nat, iov: seq<Iov>)
    requires InProgress(p, q, id, iov) && DeviceRan(q, r)
    ensures InProgress(p, r, id, iov) && r.place.Keys == q.place.Keys && Work(r) <= Work(q)
  {
  }

  lemma RequestLoads(p: Queue, q: Queue, id: nat, iov: seq<Iov>)
    requires Inv(q) && InProgress(p, q, id, iov)
    ensures InProgress(p, HandleEvent(q), id, iov) && Work(HandleEvent(q)) == Work(q)
  {
    WorkStays(q, DoHandleEvent);
  }

  lemma InProgressOrdered(p: Queue, q: Queue, id: nat, iov: seq<Iov>)
    requires InProgress(p, q, id, iov)
    ensures q.received <= q.seen
  {
  }

  // The only element that can come back is the request.
  lemma RequestReturns(p: Queue, q: Queue, id: nat, iov: seq<Iov>)
    requires Inv(q) && InProgress(p, q, id, iov) && Enabled(q, DoReceive) && q.place.Keys == {id}
    ensures q.done[q.received] == id && Receive(q).received == q.seen && Receive(q).place == map[]
    ensures InProgress(p, Receive(q), id, iov)
  {
    assert q.place[q.done[q.received]] == Used(q.received);
    var transit := TransitIsDistinct(q);
    DistinctFits(transit, q.place.Keys);
  }

  lemma RequestFreed(p: Queue, q: Queue, id: nat, iov: seq<Iov>)
    requires InProgress(p, q, id, iov) && q.place == map[] && q.received == q.seen && !q.loading && 2 <= p.num
    ensures Enabled(q, DoRelease(id)) && Idle(Release(q, id)) && Release(q, id).free == p.free
    ensures q.sent == p.sent + [id] == Release(q, id).sent
    ensures q.carried == p.carried + [Buffers(iov, 1)] == Release(q, id).carried
  {
    assert p.free[..2] + p.free[2..] == p.free;
  }

  class Transport {
    const queue: VirtQueue

    constructor (num: nat)
      requires Size(num) && 2 <= num
      ensures queue.Valid() && Idle(queue.q) && fresh(queue.Repr())
    {
      queue := new VirtQueue(num);
    }

    // virtio_9p_alloc: the indices of the request and response messages. The assertion is the source's.
    method Alloc() returns (req: nat, res: nat)
      requires queue.Valid() && Idle(queue.q)
      modifies queue.Repr()
      ensures queue.Valid() && 2 <= |old(queue.q.free)| && queue.q == QueueProtocol.Alloc(old(queue.q), 2)
      ensures req == old(queue.q.free[0]) && res == old(queue.q.free[1]) && req != res
    {
      hide QueueProtocol.Inv, VirtQueue.Valid;
      ghost var p := queue.q;
      queue.View();
      IdleHasAll(p);
      var id := queue.Alloc(2);
      assert id >= 0;
      queue.SecondDescriptor(id);
      queue.View();
      req, res := id, queue.desc[id].next;
    }

    // virtio_9p_sendrecv: true when the response matches the request; on Rlerror it frees the chain itself.
    // Whether the server answers with an error is up to the server.
    method SendRecv(id: nat, iov: seq<Iov>, ghost p: Queue) returns (ok: bool)
      requires queue.Valid() && Inv(p) && Idle(p) && 2 <= |p.free| && queue.q == QueueProtocol.Alloc(p, 2) && id == p.free[0]
      requires |iov| == 2
      modifies queue.Repr()
      ensures queue.Valid()
      ensures ok ==> InProgress(p, queue.q, id, iov) && queue.q.place == map[] && queue.q.received == queue.q.seen && !queue.q.loading
      ensures !ok ==> Idle(queue.q) && queue.q.free == p.free
      ensures !ok ==> queue.q.sent == p.sent + [id] && queue.q.carried == p.carried + [Buffers(iov, 1)]
    {
      hide QueueProtocol.Inv, VirtQueue.Valid, DeviceRan, DeviceBusy, Work, InProgress;
      RequestSent(p, iov);
      queue.Writev(id, iov, 1);
      queue.Send(id);
      queue.View();
      WorkIsBounded(queue.q);
      var slot := -1;
      while slot == -1
        invariant queue.Valid() && InProgress(p, queue.q, id, iov) && !queue.q.loading && queue.q.received == queue.q.seen
        invariant slot == -1 ==> queue.q.place.Keys == {id}
        invariant slot != -1 ==> queue.q.place == map[] && 0 <= slot < queue.usedRing.Length && queue.usedRing[slot].id == id
        invariant 0 <= Work(queue.q)
        decreases slot == -1, Work(queue.q)
      {
        ghost var a := queue.q;
        queue.View();
        BlockedDriverWakesUp(a, id);
        queue.ClearEvents();
        ghost var b := queue.q;
        RequestGoesOn(p, a, b, id, iov);
        queue.Interfere();
        ghost var c := queue.q;
        RequestGoesOn(p, b, c, id, iov);
        queue.View();
        RequestLoads(p, c, id, iov);
        queue.HandleEvent();
        ghost var d := queue.q;
        queue.Interfere();
        ghost var e := queue.q;
        RequestGoesOn(p, d, e, id, iov);
        queue.View();
        InProgressOrdered(p, e, id, iov);
        slot := queue.Recv();
        if slot != -1 {
          RequestReturns(p, e, id, iov);
          WorkStays(e, DoReceive);
        }
        queue.View();
        WorkIsBounded(queue.q);
      }
      assert queue.usedRing[slot].id == id;
      ok := *;
      if ok {
        return;
      }
      RequestFreed(p, queue.q, id, iov);
      queue.Free(id);
    }

    // A whole operation: one request goes out and has come back, and every path ends with the free list
    // that it started with.
    method Request(iov: seq<Iov>) returns (ok: bool)
      requires queue.Valid() && Idle(queue.q) && |iov| == 2
      modifies queue.Repr()
      ensures queue.Valid() && Idle(queue.q) && queue.q.free == old(queue.q.free)
      ensures 2 <= |queue.q.free| && queue.q.sent == old(queue.q.sent) + [queue.q.free[0]]
      ensures queue.q.carried == old(queue.q.carried) + [Buffers(iov, 1)]
    {
      hide QueueProtocol.Inv, VirtQueue.Valid, InProgress;
      ghost var p := queue.q;
      queue.View();
      var req, res := Alloc();
      ok := SendRecv(req, iov, p);
      if ok {
        RequestFreed(p, queue.q, req, iov);
        queue.Free(req);
      }
    }

    // Any number of operations: each sends one request, always with the same head.
    method Requests(iovs: seq<seq<Iov>>)
      requires queue.Valid() && Idle(queue.q) && forall i :: 0 <= i < |iovs| ==> |iovs[i]| == 2
      modifies queue.Repr()
      ensures queue.Valid() && Idle(queue.q) && queue.q.free == old(queue.q.free)
      ensures |queue.q.sent| == |old(queue.q.sent)| + |iovs|
      ensures queue.q.carried == old(queue.q.carried) + seq(|iovs|, i requires 0 <= i < |iovs| => Buffers(iovs[i], 1))
      ensures forall i :: |old(queue.q.sent)| <= i < |queue.q.sent| ==> queue.q.free != [] && queue.q.sent[i] == queue.q.free[0]
    {
      hide QueueProtocol.Inv, VirtQueue.Valid, Idle;
      for i := 0 to |iovs|
        invariant queue.Valid() && Idle(queue.q) && queue.q.free == old(queue.q.free)
        invariant |queue.q.sent| == |old(queue.q.sent)| + i
        invariant queue.q.carried == old(queue.q.carried) + seq(i, j requires 0 <= j < i => Buffers(iovs[j], 1))
        invariant forall i :: |old(queue.q.sent)| <= i < |queue.q.sent| ==> queue.q.free != [] && queue.q.sent[i] == queue.q.free[0]
      {
        ghost var s := queue.q.sent;
        var ok := Request(iovs[i]);
        assert queue.q.sent[..|s|] == s && queue.q.sent[|s|] == queue.q.free[0];
      }
    }
  }
}
