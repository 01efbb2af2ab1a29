// Steps of either actor that the drivers on top of the queue reason with.

module DriverSteps {
  import opened SeqFacts
  import opened QueueProtocol
  import opened QueueTheorems

  // All that device steps may have changed from p to q, as far as the driver is concerned.
  ghost predicate DeviceRan(p: Queue, q: Queue) {
    && q.num == p.num && q.free == p.free && q.chains == p.chains && q.owner == p.owner && q.sent == p.sent
    && q.carried == p.carried
    && q.seen == p.seen && q.received == p.received
    && q.place.Keys == p.place.Keys && p.done <= q.done && Work(q) <= Work(p)
  }

  lemma DeviceKeepsKeys(p: Queue, s: Step)
    requires Transit(p) && Enabled(p, s) && s.ByDevice()
    ensures Apply(p, s).place.Keys == p.place.Keys && p.done <= Apply(p, s).done
  {
    if s.DoTake? { assert p.sent[p.taken] in p.place; }
  }

  // Whatever the device does, it then either has armed the eventfd or still has something to do.
  lemma DeviceStaysBusy(p: Queue, s: Step)
    requires Transit(p) && Enabled(p, s) && s.ByDevice()
    ensures Apply(p, s).irq > 0 || DeviceBusy(Apply(p, s))
  {
    if s.DoTake? { assert p.sent[p.taken] in HeldSet(Take(p)); }
  }

  lemma DeviceStepRan(p: Queue, s: Step)
    requires Inv(p) && Enabled(p, s) && s.ByDevice()
    ensures DeviceRan(p, Apply(p, s)) && Work(Apply(p, s)) < Work(p)
    ensures Apply(p, s).irq > 0 || DeviceBusy(Apply(p, s))
  {
    hide QueueProtocol.Inv, Work, HeldSet, DeviceBusy;
    WorkGoesDown(p, s);
    TransitHolds(p);
    DeviceKeepsKeys(p, s);
    DeviceStaysBusy(p, s);
  }

  lemma TransitHolds(q: Queue)
    requires Inv(q)
    ensures Transit(q) && 0 < q.num
  {
  }

  // Everything allocated is in flight and everything visible has been received: the state in which
  // every public function of virtio-gpu.c starts and ends.
  ghost predicate Quiet(q: Queue) {
    q.received == q.seen && !q.loading && q.chains.Keys == q.place.Keys
  }

  // What holds while a draining loop runs: exactly the chains in `kept` are the driver's.
  ghost predicate Draining(q: Queue, kept: set<nat>) {
    && !q.loading && q.chains.Keys == q.place.Keys + kept && q.place.Keys !! kept
    && forall h :: h in q.chains ==> q.chains[h].cut
  }

  lemma QuietDrains(q: Queue)
    requires Inv(q) && Quiet(q)
    ensures Draining(q, {})
  {
    assert forall h :: h in q.place ==> Placed(q, h);
  }

  // The driver has allocated chain h and not written it yet; everything else is in flight.
  ghost predicate Holding(q: Queue, h: nat) {
    && q.received == q.seen && !q.loading && h in q.chains && h !in q.place && !q.chains[h].cut
    && q.chains.Keys == q.place.Keys + {h}
  }

  lemma AllocHolds(q: Queue, n: nat)
    requires Inv(q) && Quiet(q) && 0 < n <= |q.free|
    ensures Holding(Alloc(q, n), q.free[0]) && q.free[0] < q.num
    ensures Alloc(q, n).chains[q.free[0]] == Chain(q.free[..n], false, 0, []) && Work(Alloc(q, n)) == Work(q)
  {
    AllocHead(q);
    AllocWork(q, n);
    hide QueueProtocol.Inv, HeldSet, Work;
  }

  lemma AllocHead(q: Queue)
    requires Inv(q) && q.free != []
    ensures q.free[0] !in q.chains && q.free[0] !in q.place && q.free[0] < q.num
  {
    hide Conserved;
    FreeHeadIsNew(q);
    assert q.free[0] in q.free;
    assert forall h :: h in q.place ==> Placed(q, h);
  }

  lemma AllocWork(q: Queue, n: nat)
    requires 0 < n <= |q.free|
    ensures Work(Alloc(q, n)) == Work(q)
  {
    assert HeldSet(Alloc(q, n)) == HeldSet(q);
  }

  lemma HoldingAlone(q: Queue, h: nat)
    requires Holding(q, h)
    ensures h !in q.place
  {
  }

  // writev and send put the chain in flight.
  lemma SendQuiets(q: Queue, h: nat, iov: seq<Iov>, readable: nat)
    requires Inv(q) && Holding(q, h) && readable <= |q.chains[h].descs| == |iov|
    ensures Enabled(q, DoCut(h, iov, readable)) && Enabled(Cut(q, h, iov, readable), DoSend(h))
    ensures Quiet(Send(Cut(q, h, iov, readable), h)) && h in Send(Cut(q, h, iov, readable), h).place
  {
  }

  // The chain waited for is freed.
  lemma FreeQuiets(q: Queue, h: nat)
    requires Draining(q, {h}) && q.received == q.seen
    ensures Enabled(q, DoRelease(h)) && Quiet(Release(q, h))
  {
    assert h in q.chains.Keys;
  }

  lemma QuietReceived(q: Queue)
    requires Quiet(q)
    ensures q.received == q.seen
  {
  }

  lemma DrainedQuiet(q: Queue)
    requires Draining(q, {}) && q.received == q.seen
    ensures Quiet(q)
  {
  }

  // With too few free descriptors, something is in flight.
  lemma ShortOfDescriptors(q: Queue, n: nat) returns (h: nat)
    requires Inv(q) && Quiet(q) && |q.free| < n <= q.num
    ensures h in q.place
  {
    DescriptorsAreCounted(q);
    assert |q.owner| > 0;
    var d :| d in q.owner;
    h := q.owner[d];
  }

  // The next chain to be received is one that the driver sent.
  ghost predicate Received(q: Queue) {
    q.received < |q.done| &&
    var h := q.done[q.received];
    h in q.place && h < q.num && h in q.chains && q.chains[h].cut
  }

  lemma ReceiveStep(q: Queue)
    requires Inv(q) && Enabled(q, DoReceive)
    ensures Received(q) && Work(Receive(q)) == Work(q)
  {
    assert Placed(q, q.done[q.received]);
    ChainsFit(q);
    WorkStays(q, DoReceive);
  }

  lemma HeadsFit(q: Queue)
    requires Inv(q)
    ensures forall h :: h in q.place ==> h in q.chains && h < q.num
  {
    ChainsFit(q);
    assert forall h :: h in q.place ==> Placed(q, h);
  }
}
