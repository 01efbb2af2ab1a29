// code/virtio.c over arrays: the descriptor table with its threaded free list, the two rings and the
// 16-bit counters. Field q is the abstract queue that the memory stands for; every method says which
// step of QueueProtocol it takes. The Device methods are the other side of the shared memory.

module DescriptorTable {
  import opened SeqFacts
  import opened QueueProtocol

  // more and write are the NEXT and WRITE flags.
  datatype Desc = Desc(addr: nat, len: nat, next: nat, more: bool, write: bool)

  function Nth(s: seq<nat>, k: nat, end: nat): nat {
    if k < |s| then s[k] else end
  }

  // Element k of the free list: NEXT is set, and next leads to element k + 1, or to num at the end.
  ghost predicate FreeLink(t: seq<Desc>, free: seq<nat>, k: nat)
    requires k < |free|
  {
    free[k] < |t| && t[free[k]].more && t[free[k]].next == Nth(free, k + 1, |t|)
  }

  ghost predicate FreeLinked(t: seq<Desc>, free: seq<nat>, head: nat) {
    head == Nth(free, 0, |t|) && forall k :: 0 <= k < |free| ==> FreeLink(t, free, k)
  }

  // Element k of a chain: next leads to element k + 1; once the chain is cut, NEXT is clear on the
  // last element, the readable elements come first, and each holds its buffer.
  ghost predicate ChainLink(t: seq<Desc>, c: Chain, k: nat)
    requires k < |c.descs|
  {
    && c.descs[k] < |t|
    && (k + 1 < |c.descs| ==> t[c.descs[k]].more && t[c.descs[k]].next == c.descs[k + 1])
    && (k + 1 == |c.descs| ==> t[c.descs[k]].more == !c.cut)
    && (c.cut ==> t[c.descs[k]].write == (k >= c.readable))
    && (c.cut ==> k < |c.iov| && t[c.descs[k]].addr == c.iov[k].base && t[c.descs[k]].len == c.iov[k].len)
  }

  ghost predicate ChainLinked(t: seq<Desc>, c: Chain) {
    forall k :: 0 <= k < |c.descs| ==> ChainLink(t, c, k)
  }

  ghost predicate ChainsLinked(t: seq<Desc>, q: Queue) {
    forall h :: h in q.chains ==> ChainLinked(t, q.chains[h])
  }

  ghost predicate Linked(t: seq<Desc>, q: Queue, head: nat) {
    |t| == q.num && FreeLinked(t, q.free, head) && ChainsLinked(t, q)
  }

  // What the device finds from a chain head: it follows next while NEXT is set.
  function Walk(t: seq<Desc>, d: nat, fuel: nat): (walk: seq<nat>)
    ensures forall k :: 0 <= k < |walk| ==> walk[k] < |t|
    decreases fuel
  {
    if fuel == 0 || d >= |t| then []
    else [d] + if t[d].more then Walk(t, t[d].next, fuel - 1) else []
  }

  // The device reads off exactly the descriptors the driver allocated, whatever surplus fuel it has.
  lemma {:induction false} WalkFindsChain(t: seq<Desc>, c: Chain, k: nat, fuel: nat)
    requires ChainLinked(t, c) && c.cut && k < |c.descs| && |c.descs| - k <= fuel
    ensures Walk(t, c.descs[k], fuel) == c.descs[k..]
    decreases |c.descs| - k
  {
    assert ChainLink(t, c, k);
    assert c.descs[k..] == [c.descs[k]] + c.descs[k + 1..];
    if k + 1 < |c.descs| { WalkFindsChain(t, c, k + 1, fuel - 1); }
  }

  // Following next from the head of the free list visits exactly the free descriptors.
  lemma {:induction false} WalkFindsFree(t: seq<Desc>, free: seq<nat>, k: nat, fuel: nat)
    requires FreeLinked(t, free, Nth(free, 0, |t|)) && k <= |free| && |free| - k <= fuel
    ensures Walk(t, Nth(free, k, |t|), fuel) == free[k..]
    decreases |free| - k
  {
    if k < |free| {
      assert FreeLink(t, free, k);
      WalkFindsFree(t, free, k + 1, fuel - 1);
      assert free[k..] == [free[k]] + free[k + 1..];
    }
  }

  // Every chain in flight is acyclic, ends without NEXT, and is readable first, writable after.
  lemma SentChainsAreFramed(t: seq<Desc>, q: Queue, head: nat, h: nat)
    requires Inv(q) && Linked(t, q, head) && h in q.place
    ensures h in q.chains && Walk(t, h, q.num) == q.chains[h].descs
    ensures Framed(t, Walk(t, h, q.num))
  {
    assert Placed(q, h);
    var c := q.chains[h];
    assert ChainOk(q, h) && ChainLinked(t, c);
    FramedChain(t, c, q.num);
  }

  lemma FramedChain(t: seq<Desc>, c: Chain, num: nat)
    requires ChainLinked(t, c) && c.cut && c.descs != [] && Distinct(c.descs) && |t| == num
    ensures Walk(t, c.descs[0], num) == c.descs && Framed(t, c.descs)
  {
    forall k | 0 <= k < |c.descs|
      ensures c.descs[k] < |t| && t[c.descs[k]].write == (k >= c.readable)
      ensures k + 1 == |c.descs| ==> !t[c.descs[k]].more
    {
      assert ChainLink(t, c, k);
    }
    DistinctFits(c.descs, Below(num));
    WalkFindsChain(t, c, 0, num);
    assert c.descs[0..] == c.descs;
  }

  // What a device that has walked a chain finds in it: the buffers in order, and how many of them it may
  // read rather than write.
  function Found(t: seq<Desc>, walk: seq<nat>): Buffers
    requires forall k :: 0 <= k < |walk| ==> walk[k] < |t|
  {
    Buffers(seq(|walk|, k requires 0 <= k < |walk| => Iov(t[walk[k]].addr, t[walk[k]].len)), CountReadable(t, walk))
  }

  function CountReadable(t: seq<Desc>, walk: seq<nat>): nat
    requires forall k :: 0 <= k < |walk| ==> walk[k] < |t|
  {
    if walk == [] then 0 else (if t[walk[0]].write then 0 else 1) + CountReadable(t, walk[1..])
  }

  lemma {:induction false} ReadableFirst(t: seq<Desc>, walk: seq<nat>, readable: nat)
    requires forall k :: 0 <= k < |walk| ==> walk[k] < |t| && t[walk[k]].write == (k >= readable)
    ensures CountReadable(t, walk) == if readable <= |walk| then readable else |walk|
    decreases |walk|
  {
    if walk != [] {
      ReadableFirst(t, walk[1..], if readable == 0 then 0 else readable - 1);
    }
  }

  // The device finds in chain h the buffers of the latest entry that sent it.
  ghost predicate AsSent(t: seq<Desc>, q: Queue, h: nat)
    requires |q.carried| == |q.sent|
  {
    exists i: nat :: i < |q.sent| && q.sent[i] == h && (forall j :: i < j < |q.sent| ==> q.sent[j] != h)
      && Found(t, Walk(t, h, q.num)) == q.carried[i]
  }

  // Whatever chain is in flight, the device finds in it the buffers that were handed over with it, in
  // order, with exactly the first ones readable.
  lemma SentChainsCarry(t: seq<Desc>, q: Queue, head: nat, h: nat)
    requires Inv(q) && Linked(t, q, head) && h in q.place
    ensures h in q.chains && Found(t, Walk(t, h, q.num)) == Carried(q.chains[h])
    ensures |q.carried| == |q.sent| && AsSent(t, q, h)
  {
    assert Placed(q, h) && ChainOk(q, h) && ChainLinked(t, q.chains[h]);
    SentChainsAreFramed(t, q, head, h);
    FoundInChain(t, q.chains[h]);
    hide Ownership, Transit, Conserved, Linked, Found, Walk;
    var i: nat :| SentLast(q, h, i);
    assert q.sent[i] == h;
  }

  lemma FoundInChain(t: seq<Desc>, c: Chain)
    requires ChainLinked(t, c) && c.cut && |c.iov| == |c.descs| && c.readable <= |c.descs|
    ensures (forall k :: 0 <= k < |c.descs| ==> c.descs[k] < |t|) && Found(t, c.descs) == Carried(c)
  {
    forall k | 0 <= k < |c.descs|
      ensures c.descs[k] < |t| && t[c.descs[k]].write == (k >= c.readable)
      ensures c.iov[k] == Iov(t[c.descs[k]].addr, t[c.descs[k]].len)
    {
      assert ChainLink(t, c, k);
    }
    ReadableFirst(t, c.descs, c.readable);
    assert Found(t, c.descs).iov == c.iov;
  }

  // The next entry to be taken.
  lemma NextEntryCarries(t: seq<Desc>, q: Queue, head: nat)
    requires Inv(q) && Linked(t, q, head) && q.taken < |q.sent|
    ensures |q.carried| == |q.sent| && Found(t, Walk(t, q.sent[q.taken], q.num)) == q.carried[q.taken]
  {
    assert q.sent[q.taken] in q.place;
    SentChainsCarry(t, q, head, q.sent[q.taken]);
  }

  // Section 2.7.4.2: no descriptor twice, NEXT clear on the last one, readable ones first.
  ghost predicate Framed(t: seq<Desc>, walk: seq<nat>) {
    && walk != [] && Distinct(walk)
    && (forall k :: 0 <= k < |walk| ==> walk[k] < |t|)
    && !t[walk[|walk| - 1]].more
    && forall i, j :: 0 <= i < j < |walk| && t[walk[i]].write ==> t[walk[j]].write
  }

  // What one step along a chain finds.
  lemma ChainNext(t: seq<Desc>, q: Queue, head: nat, h: nat, i: nat)
    requires Ownership(q) && Linked(t, q, head) && h in q.chains && i < |q.chains[h].descs|
    ensures q.chains[h].descs[0] == h && q.chains[h].descs[i] < |t|
    ensures var c := q.chains[h]; var d := t[c.descs[i]];
            && (i + 1 < |c.descs| ==> d.more && d.next == c.descs[i + 1])
            && (i + 1 == |c.descs| ==> d.more == !c.cut)
  {
    assert ChainOk(q, h) && ChainLinked(t, q.chains[h]) && ChainLink(t, q.chains[h], i);
  }

  lemma FreeIsLinked(t: seq<Desc>, q: Queue, head: nat)
    requires Linked(t, q, head)
    ensures |t| == q.num && FreeLinked(t, q.free, head) && head == Nth(q.free, 0, q.num)
  {
  }

  lemma ChainShape(t: seq<Desc>, q: Queue, head: nat, h: nat)
    requires Ownership(q) && Linked(t, q, head) && h in q.chains
    ensures var descs := q.chains[h].descs;
            && descs != [] && descs[0] == h && Distinct(descs) && ChainLinked(t, q.chains[h])
            && forall k :: 0 <= k < |descs| ==> descs[k] < |t|
  {
    var c := q.chains[h];
    assert ChainOk(q, h) && ChainLinked(t, c);
    forall k | 0 <= k < |c.descs|
      ensures c.descs[k] < |t|
    {
      assert ChainLink(t, c, k);
    }
  }

  // What writev leaves in descriptor number k of a chain.
  ghost predicate Written(before: Desc, d: Desc, iov: seq<Iov>, k: nat, readcnt: nat) {
    && k < |iov| && d.addr == iov[k].base && d.len == iov[k].len
    && d.next == before.next && d.write == (k >= readcnt) && d.more == (k + 1 < |iov|)
  }

  lemma WrittenLinks(t: seq<Desc>, u: seq<Desc>, q: Queue, head: nat, h: nat, iov: seq<Iov>, readcnt: nat)
    requires Ownership(q) && Linked(t, q, head) && h in q.chains && |u| == |t|
    requires |iov| == |q.chains[h].descs|
    requires forall d :: 0 <= d < |t| && d !in q.chains[h].descs ==> u[d] == t[d]
    requires forall k :: 0 <= k < |iov| && q.chains[h].descs[k] < |t| ==>
               Written(t[q.chains[h].descs[k]], u[q.chains[h].descs[k]], iov, k, readcnt)
    ensures Linked(u, Cut(q, h, iov, readcnt), head)
  {
    var c := q.chains[h];
    var r := c.(cut := true, iov := iov, readable := readcnt);
    forall k | 0 <= k < |r.descs|
      ensures ChainLink(u, r, k)
    {
      assert ChainLink(t, c, k);
    }
    CutLinks(t, u, q, head, h, iov, readcnt);
  }

  lemma SameLinks(t: seq<Desc>, q: Queue, r: Queue, head: nat)
    requires Linked(t, q, head) && r.num == q.num && r.free == q.free && r.chains == q.chains
    ensures Linked(t, r, head)
  {
  }

  // ---- How the table changes under the driver's operations ----

  lemma FreshChain(t: seq<Desc>, free: seq<nat>, head: nat, n: nat)
    requires FreeLinked(t, free, head) && 0 < n <= |free|
    ensures ChainLinked(t, Chain(free[..n], false, 0, []))
  {
    var descs := free[..n];
    forall k | 0 <= k < |descs|
      ensures ChainLink(t, Chain(descs, false, 0, []), k)
    {
      assert FreeLink(t, free, k);
    }
  }

  lemma AllocLinks(t: seq<Desc>, q: Queue, head: nat, n: nat)
    requires Ownership(q) && Linked(t, q, head) && 0 < n <= |q.free|
    ensures Linked(t, Alloc(q, n), Nth(q.free, n, |t|))
  {
    var r := Alloc(q, n);
    forall k | 0 <= k < |r.free|
      ensures FreeLink(t, r.free, k)
    {
      assert FreeLink(t, q.free, n + k);
    }
    FreshChain(t, q.free, head, n);
  }

  lemma ChainStays(t: seq<Desc>, u: seq<Desc>, c: Chain)
    requires ChainLinked(t, c) && |u| == |t|
    requires forall k :: 0 <= k < |c.descs| && c.descs[k] < |t| ==> u[c.descs[k]] == t[c.descs[k]]
    ensures ChainLinked(u, c)
  {
    forall k | 0 <= k < |c.descs|
      ensures ChainLink(u, c, k)
    {
      assert ChainLink(t, c, k);
    }
  }

  lemma FreeStays(t: seq<Desc>, u: seq<Desc>, free: seq<nat>, head: nat)
    requires FreeLinked(t, free, head) && |u| == |t|
    requires forall k :: 0 <= k < |free| && free[k] < |t| ==> u[free[k]] == t[free[k]]
    ensures FreeLinked(u, free, head)
  {
    forall k | 0 <= k < |free|
      ensures FreeLink(u, free, k)
    {
      assert FreeLink(t, free, k);
    }
  }

  // Writing into one chain's descriptors leaves every other list alone.
  lemma OthersStayLinked(t: seq<Desc>, u: seq<Desc>, q: Queue, head: nat, h: nat)
    requires Ownership(q) && Linked(t, q, head) && h in q.chains && |u| == |t|
    requires forall d :: 0 <= d < |t| && t[d] != u[d] ==> d in q.chains[h].descs
    ensures FreeLinked(u, q.free, head)
    ensures forall k :: k in q.chains && k != h ==> ChainLinked(u, q.chains[k])
  {
    assert ChainOk(q, h);
    forall i | 0 <= i < |q.free| && q.free[i] < |t|
      ensures u[q.free[i]] == t[q.free[i]]
    {
      assert q.free[i] in q.free;
    }
    FreeStays(t, u, q.free, head);
    forall k | k in q.chains && k != h
      ensures ChainLinked(u, q.chains[k])
    {
      assert ChainOk(q, k);
      var descs := q.chains[k].descs;
      forall i | 0 <= i < |descs| && descs[i] < |t|
        ensures u[descs[i]] == t[descs[i]]
      {
        assert descs[i] in descs;
      }
      ChainStays(t, u, q.chains[k]);
    }
  }

  lemma CutLinks(t: seq<Desc>, u: seq<Desc>, q: Queue, head: nat, h: nat, iov: seq<Iov>, readable: nat)
    requires Ownership(q) && Linked(t, q, head) && h in q.chains && |u| == |t|
    requires forall d :: 0 <= d < |t| && t[d] != u[d] ==> d in q.chains[h].descs
    requires ChainLinked(u, q.chains[h].(cut := true, iov := iov, readable := readable))
    ensures Linked(u, Cut(q, h, iov, readable), head)
  {
    OthersStayLinked(t, u, q, head, h);
  }

  // What freeing a chain leaves as it was.
  lemma ReleaseFields(q: Queue, h: nat)
    requires h in q.chains
    ensures var r := Release(q, h);
      && r.num == q.num && r.sent == q.sent && r.carried == q.carried && r.taken == q.taken && r.done == q.done && r.received == q.received
      && r.seen == q.seen && r.published == q.published && r.irq == q.irq && r.owed == q.owed
      && |r.free| == |q.free| + |q.chains[h].descs|
  {
  }

  // virtio_queue_free: the last descriptor is linked to the old free list.
  lemma ReleaseLinks(t: seq<Desc>, u: seq<Desc>, q: Queue, head: nat, h: nat, last: nat)
    requires Ownership(q) && Linked(t, q, head) && h in q.chains && |u| == |t|
    requires last == q.chains[h].descs[|q.chains[h].descs| - 1] && last < |t|
    requires u == t[last := t[last].(next := head, more := true)]
    ensures Linked(u, Release(q, h), h)
  {
    var descs, r := q.chains[h].descs, Release(q, h);
    assert ChainOk(q, h) && ChainLinked(t, q.chains[h]);
    assert last in descs;
    OthersStayLinked(t, u, q, head, h);
    JoinLinks(t, u, q.chains[h], q.free, head);
    assert ChainsLinked(u, r) by {
      assert forall k :: k in r.chains ==> k in q.chains && k != h && r.chains[k] == q.chains[k];
    }
  }

  lemma JoinLinks(t: seq<Desc>, u: seq<Desc>, c: Chain, free: seq<nat>, head: nat)
    requires c.descs != [] && Distinct(c.descs) && ChainLinked(t, c) && |u| == |t|
    requires FreeLinked(u, free, head)
    requires var last := c.descs[|c.descs| - 1]; last < |t| && u == t[last := t[last].(next := head, more := true)]
    ensures FreeLinked(u, c.descs + free, c.descs[0])
  {
    var all := c.descs + free;
    forall k | 0 <= k < |all|
      ensures FreeLink(u, all, k)
    {
      if k < |c.descs| {
        assert ChainLink(t, c, k);
      } else {
        assert FreeLink(u, free, k - |c.descs|);
      }
    }
  }
}

module RingSlots {
  import opened Words
  import opened QueueProtocol
  import opened QueueTheorems

  datatype UsedElem = UsedElem(id: nat, len: nat)

  // The value of a 16-bit counter that has been incremented x times, and one more increment.
  function Wrap(x: nat): nat {
    x % U16
  }

  function Bump(counter: nat): nat {
    (counter + 1) % U16
  }

  // The ring slot that a 16-bit counter points to.
  function SlotOf(counter: nat, num: nat): nat
    requires 0 < num
  {
    counter % num
  }

  lemma BumpWraps(x: nat)
    ensures Bump(Wrap(x)) == Wrap(x + 1)
  {
  }

  function Ids(ring: seq<UsedElem>): (ids: seq<nat>)
    ensures |ids| == |ring| && forall i :: 0 <= i < |ids| ==> ids[i] == ring[i].id
  {
    seq(|ring|, i requires 0 <= i < |ring| => ring[i].id)
  }

  // Comparing two 16-bit counters decides whether the unbounded ones differ, on either side.
  lemma WrapAgrees(q: Queue)
    requires Inv(q)
    ensures Wrap(q.received) == Wrap(q.seen) <==> q.received == q.seen
    ensures Wrap(q.taken) == Wrap(|q.sent|) <==> q.taken == |q.sent|
    ensures Wrap(q.published) == Wrap(|q.done|) <==> q.published == |q.done|
  {
    CountersAgree(q);
  }

  // The ring still holds entries lo, lo + 1, ... of the history, each in its slot.
  ghost predicate Holds(ring: seq<nat>, history: seq<nat>, lo: int) {
    && 0 < |ring| && 0 <= lo
    && forall i :: lo <= i < |history| ==> ring[i % |ring|] == history[i]
  }

  ghost predicate UsedHolds(ring: seq<UsedElem>, q: Queue) {
    Holds(Ids(ring), q.done, UsedFrom(q))
  }

  // The oldest used entry that somebody may still read.
  ghost function UsedFrom(q: Queue): int {
    if LastKept(q) then q.received - 1 else q.received
  }

  lemma HeldMeansTaken(q: Queue, h: nat)
    requires h in HeldSet(q)
    ensures Enabled(q, DoComplete(h))
  {
  }

  lemma HoldsLater(ring: seq<nat>, history: seq<nat>, lo: int, later: int)
    requires Holds(ring, history, lo) && lo <= later
    ensures Holds(ring, history, later)
  {
  }

  lemma SlotRead(ring: seq<nat>, history: seq<nat>, lo: int, i: nat)
    requires Holds(ring, history, lo) && lo <= i < |history| && 0 < |ring| && Size(|ring|)
    ensures SlotOf(Wrap(i), |ring|) < |ring| && ring[SlotOf(Wrap(i), |ring|)] == history[i]
  {
    WrappedSlot(i, |ring|);
  }

  lemma SlotWrite(ring: seq<nat>, history: seq<nat>, lo: int, x: nat)
    requires Holds(ring, history, lo) && 0 < |ring| && Size(|ring|)
    requires forall i :: lo <= i < |history| ==> i % |ring| != |history| % |ring|
    ensures SlotOf(Wrap(|history|), |ring|) < |ring|
    ensures Holds(ring[SlotOf(Wrap(|history|), |ring|) := x], history + [x], lo)
  {
    WrappedSlot(|history|, |ring|);
  }

  lemma AvailWrite(ring: seq<nat>, q: Queue, h: nat)
    requires Inv(q) && Enabled(q, DoSend(h)) && 0 < |ring| == q.num && Holds(ring, q.sent, q.taken)
    ensures SlotOf(Wrap(|q.sent|), q.num) < q.num
    ensures Holds(ring[SlotOf(Wrap(|q.sent|), q.num) := h], q.sent + [h], q.taken)
  {
    SendSlotIsFree(q, h);
    SlotWrite(ring, q.sent, q.taken, h);
  }

  lemma UsedWrite(ring: seq<UsedElem>, q: Queue, h: nat, len: nat)
    requires Inv(q) && Enabled(q, DoComplete(h)) && 0 < |ring| == q.num && UsedHolds(ring, q)
    ensures SlotOf(Wrap(|q.done|), q.num) < q.num
    ensures UsedHolds(ring[SlotOf(Wrap(|q.done|), q.num) := UsedElem(h, len)], Complete(q, h))
  {
    var slot := SlotOf(Wrap(|q.done|), q.num);
    CompleteSlotIsFree(q, h);
    SlotWrite(Ids(ring), q.done, UsedFrom(q), h);
    assert Ids(ring[slot := UsedElem(h, len)]) == Ids(ring)[slot := h];
  }

  lemma UsedRead(ring: seq<UsedElem>, q: Queue)
    requires Inv(q) && Enabled(q, DoReceive) && 0 < |ring| == q.num && UsedHolds(ring, q)
    ensures SlotOf(Wrap(q.received), q.num) < q.num
    ensures ring[SlotOf(Wrap(q.received), q.num)].id == q.done[q.received]
  {
    SlotRead(Ids(ring), q.done, UsedFrom(q), q.received);
  }

  // Every other step of either actor leaves the used ring meaningful as it is.
  lemma UsedStays(ring: seq<UsedElem>, q: Queue, s: Step)
    requires Inv(q) && Enabled(q, s) && !s.DoComplete? && UsedHolds(ring, q)
    ensures UsedHolds(ring, Apply(q, s))
  {
    hide Ownership, Conserved, BuffersStay, NoLostWakeup, HeldSet, Holds, Ids;
    HoldsLater(Ids(ring), q.done, UsedFrom(q), UsedFrom(Apply(q, s)));
  }

  // What the device holds after any step of either actor.
  lemma StepHeld(q: Queue, s: Step)
    requires Inv(q) && Enabled(q, s)
    ensures HeldSet(Apply(q, s)) ==
            match s
            case DoTake => HeldSet(q) + {q.sent[q.taken]}
            case DoComplete(h) => HeldSet(q) - {h}
            case _ => HeldSet(q)
  {
    if s.DoTake? {
      TakeTransit(q);
    } else if s.DoComplete? {
      CompleteTransit(q, s.head);
    } else {
      StepTransit(q, s);
    }
  }
}

module VirtQueues {
  import opened SeqFacts
  import opened QueueProtocol
  import opened QueueTheorems
  import opened DescriptorTable
  import opened RingSlots
  import opened DriverSteps

  class VirtQueue {
    // Shared memory: the vring.
    const desc: array<Desc>
    const availRing: array<nat>
    const usedRing: array<UsedElem>
    var availIdx: nat
    var usedIdx: nat

    // The driver's private fields (struct virtio_queue).
    var freeCount: nat
    var freeHead: nat
    var nextUsed: nat
    var usedIndex: nat
    var nextAvail: nat

    // The device's private fields, and the eventfd that carries its interrupts.
    var lastAvail: nat
    var usedNext: nat
    var held: set<nat>
    var mustSignal: bool
    var eventfd: nat

    ghost var q: Queue

    function Repr(): set<object> {
      {this, desc, availRing, usedRing}
    }

    ghost predicate Counters()
      reads this
    {
      && freeCount == |q.free|
      && nextAvail == availIdx == Wrap(|q.sent|)
      && nextUsed == Wrap(q.received) && usedIndex == Wrap(q.seen) && usedIdx == Wrap(q.published)
      && lastAvail == Wrap(q.taken) && usedNext == Wrap(|q.done|)
      && held == HeldSet(q) && mustSignal == q.owed && eventfd == q.irq
    }

    ghost predicate Valid()
      reads Repr()
    {
      && Inv(q) && Counters()
      && desc.Length == availRing.Length == usedRing.Length == q.num
      && Linked(desc[..], q, freeHead)
      && Holds(availRing[..], q.sent, q.taken)
      && UsedHolds(usedRing[..], q)
    }

    // What the concrete fields say about the abstract queue.
    lemma View()
      requires Valid()
      ensures Inv(q) && Counters() && 0 < q.num
      ensures desc.Length == availRing.Length == usedRing.Length == q.num
      ensures nextUsed == usedIndex <==> q.received == q.seen
      ensures lastAvail == availIdx <==> q.taken == |q.sent|
      ensures usedIdx == usedNext <==> q.published == |q.done|
    {
      CountersInOrder(q);
      WrapAgrees(q);
    }

    // The descriptor after the head of a chain is where desc[head].next says.
    lemma SecondDescriptor(h: nat)
      requires Valid() && h in q.chains && 2 <= |q.chains[h].descs|
      ensures h < desc.Length && desc[h].next == q.chains[h].descs[1] != h
    {
      CountersInOrder(q);
      ChainShape(desc[..], q, freeHead, h);
      ChainNext(desc[..], q, freeHead, h, 0);
      assert desc[..][h] == desc[h];
    }

    // Whatever is in flight, the device finds in it what was handed over with it.
    lemma InFlightCarries(h: nat)
      requires Valid() && h in q.place
      ensures h in q.chains && Found(desc[..], Walk(desc[..], h, q.num)) == Carried(q.chains[h])
      ensures |q.carried| == |q.sent| && AsSent(desc[..], q, h)
    {
      SentChainsCarry(desc[..], q, freeHead, h);
    }

    // virtio_pci_dev_init, the part about one queue.
    constructor (num: nat)
      requires Size(num)
      ensures Valid() && q == Initial(num)
      ensures fresh(desc) && fresh(availRing) && fresh(usedRing)
    {
      desc := new Desc[num](_ => Desc(0, 0, 0, false, false));
      availRing := new nat[num](_ => 0);
      usedRing := new UsedElem[num](_ => UsedElem(0, 0));
      availIdx, usedIdx := 0, 0;
      freeHead, freeCount, nextUsed, usedIndex, nextAvail := 0, num, 0, 0, 0;
      lastAvail, usedNext, held, mustSignal, eventfd := 0, 0, {}, false, 0;
      q := Initial(num);
      new;
      for j := 0 to num
        modifies desc
        invariant forall k :: 0 <= k < j ==> desc[k] == Desc(0, 0, k + 1, true, false)
      {
        desc[j] := Desc(0, 0, j + 1, true, false);
      }
      InitialInv(num);
    }

    // ---- The driver ----

    // The loop of virtio_queue_alloc: it steps over the first descriptors of the free list.
    method SkipFree(ghost free: seq<nat>, iovcnt: int) returns (next: nat)
      requires FreeLinked(desc[..], free, freeHead) && iovcnt <= |free| == freeCount
      modifies this`freeCount
      ensures next == if iovcnt <= 0 then freeHead else Nth(free, iovcnt, desc.Length)
      ensures freeCount == old(freeCount) - if iovcnt <= 0 then 0 else iovcnt
    {
      ghost var t := desc[..];
      next := freeHead;
      var i := 0;
      while i < iovcnt
        modifies this`freeCount
        invariant 0 <= i && (i == 0 || i <= iovcnt)
        invariant freeCount == old(freeCount) - i
        invariant next == Nth(free, i, desc.Length)
      {
        assert FreeLink(t, free, i);
        freeCount := freeCount - 1;
        next := desc[next].next;
        i := i + 1;
      }
    }

    method Alloc(iovcnt: int) returns (index: int)
      requires Valid()
      modifies this`freeCount, this`freeHead, this`q
      ensures Valid()
      ensures iovcnt > |old(q.free)| ==> index == -1 && q == old(q)
      ensures 0 < iovcnt <= |old(q.free)| ==> index == old(q.free[0]) && q == QueueProtocol.Alloc(old(q), iovcnt)
      ensures iovcnt <= 0 ==> index == freeHead && q == old(q)
    {
      hide QueueProtocol.Inv, Size, Ownership, HeldSet, Linked, Holds, UsedHolds, Wrap, Bump, SlotOf, FreeLinked;
      if freeCount < iovcnt {
        return -1;
      }
      var first := freeHead;
      ghost var t, p := desc[..], q;
      CountersInOrder(p);
      FreeIsLinked(t, p, first);
      var next := SkipFree(p.free, iovcnt);
      freeHead := next;
      index := first;
      if iovcnt > 0 {
        StepKeeps(p, DoAlloc(iovcnt));
        StepHeld(p, DoAlloc(iovcnt));
        UsedStays(usedRing[..], p, DoAlloc(iovcnt));
        AllocLinks(t, p, first, iovcnt);
        q := QueueProtocol.Alloc(p, iovcnt);
      }
    }

    // The loop of virtio_queue_writev over one uncut chain: the driver's buffers end up in its
    // descriptors, in order. The assertion on NEXT is the one of the source.
    method WriteChain(ghost c: Chain, first: nat, iov: seq<Iov>, readcnt: nat)
      requires c.descs != [] && first == c.descs[0] && |iov| == |c.descs|
      requires Distinct(c.descs) && ChainLinked(desc[..], c) && !c.cut
      requires forall k :: 0 <= k < |c.descs| ==> c.descs[k] < desc.Length
      modifies desc
      ensures forall k :: 0 <= k < |iov| ==> Written(old(desc[c.descs[k]]), desc[c.descs[k]], iov, k, readcnt)
      ensures forall d :: 0 <= d < desc.Length && d !in c.descs ==> desc[d] == old(desc[d])
    {
      ghost var t := desc[..];
      var index := first;
      for i := 0 to |iov|
        modifies desc
        invariant i < |iov| ==> index == c.descs[i]
        invariant forall k :: i <= k < |iov| ==> desc[c.descs[k]] == t[c.descs[k]]
        invariant forall k :: 0 <= k < i ==> Written(t[c.descs[k]], desc[c.descs[k]], iov, k, readcnt)
        invariant forall d :: 0 <= d < desc.Length && d !in c.descs ==> desc[d] == t[d]
      {
        assert ChainLink(t, c, i);
        assert index in c.descs;
        desc[index] := desc[index].(addr := iov[i].base, len := iov[i].len);
        if i < readcnt {
          desc[index] := desc[index].(write := false);
        } else {
          desc[index] := desc[index].(write := true);
        }
        assert desc[index].more;
        if i + 1 == |iov| {
          desc[index] := desc[index].(more := !desc[index].more);
        }
        index := desc[index].next;
      }
    }

    method Writev(first: nat, iov: seq<Iov>, readcnt: nat)
      requires Valid() && Enabled(q, DoCut(first, iov, readcnt))
      modifies desc, this`q
      ensures Valid() && q == Cut(old(q), first, iov, readcnt)
      ensures forall k :: 0 <= k < |iov| ==>
                var d := old(q.chains[first].descs[k]); d < desc.Length && desc[d].addr == iov[k].base && desc[d].len == iov[k].len
      ensures forall d :: 0 <= d < desc.Length && d !in old(q.chains[first].descs) ==> desc[d] == old(desc[d])
    {
      hide QueueProtocol.Inv, Size, Ownership, HeldSet, Linked, Holds, UsedHolds, Wrap, Bump, SlotOf;
      ghost var t, p, c := desc[..], q, q.chains[first];
      CountersInOrder(p);
      ChainShape(t, p, freeHead, first);
      WriteChain(c, first, iov, readcnt);
      WrittenLinks(t, desc[..], p, freeHead, first, iov, readcnt);
      StepKeeps(p, DoCut(first, iov, readcnt));
      StepHeld(p, DoCut(first, iov, readcnt));
      UsedStays(usedRing[..], p, DoCut(first, iov, readcnt));
      q := Cut(p, first, iov, readcnt);
    }

    method Send(index: nat)
      requires Valid() && Enabled(q, DoSend(index))
      modifies availRing, this`nextAvail, this`availIdx, this`q
      ensures Valid() && q == QueueProtocol.Send(old(q), index)
      ensures 0 < availRing.Length && availRing[..] == old(availRing[..])[old(availIdx) % availRing.Length := index]
      ensures availIdx == (old(availIdx) + 1) % 0x1_0000
    {
      hide QueueProtocol.Inv, Size, Ownership, HeldSet, Linked, Holds, UsedHolds, Wrap;
      ghost var p, ring := q, availRing[..];
      CountersInOrder(p);
      AvailWrite(ring, p, index);
      StepKeeps(p, DoSend(index));
      StepHeld(p, DoSend(index));
      UsedStays(usedRing[..], p, DoSend(index));
      availRing[SlotOf(nextAvail, availRing.Length)] := index;
      assert availRing[..] == ring[SlotOf(nextAvail, availRing.Length) := index];
      BumpWraps(|p.sent|);
      nextAvail := Bump(nextAvail);
      availIdx := nextAvail;
      q := QueueProtocol.Send(p, index);
      SameLinks(desc[..], p, q, freeHead);
    }

    // virtio_queue_recv returns a pointer into the used ring: here the slot, or -1 for NULL.
    method Recv() returns (slot: int)
      requires Valid()
      modifies this`nextUsed, this`q
      ensures Valid()
      ensures old(q.received) == old(q.seen) ==> slot == -1 && q == old(q)
      ensures old(q.received) < old(q.seen) ==>
                && Enabled(old(q), DoReceive) && q == Receive(old(q)) && 0 <= slot < usedRing.Length
                && usedRing[slot].id == old(q.done[q.received])
                && slot == old(nextUsed) % usedRing.Length && nextUsed == (old(nextUsed) + 1) % 0x1_0000
    {
      hide QueueProtocol.Inv, Size, Ownership, HeldSet, Linked, Holds, UsedHolds, Wrap;
      CountersInOrder(q);
      WrapAgrees(q);
      if nextUsed == usedIndex {
        return -1;
      }
      ghost var p := q;
      UsedRead(usedRing[..], p);
      StepKeeps(p, DoReceive);
      StepHeld(p, DoReceive);
      UsedStays(usedRing[..], p, DoReceive);
      slot := SlotOf(nextUsed, usedRing.Length);
      BumpWraps(p.received);
      nextUsed := Bump(nextUsed);
      q := Receive(p);
      SameLinks(desc[..], p, q, freeHead);
    }

    // The loop of virtio_queue_free over one cut chain: it counts the descriptors and finds the last.
    method CountChain(ghost c: Chain, first: nat) returns (last: nat)
      requires c.descs != [] && first == c.descs[0] && ChainLinked(desc[..], c) && c.cut
      requires forall k :: 0 <= k < |c.descs| ==> c.descs[k] < desc.Length
      modifies this`freeCount
      ensures last == c.descs[|c.descs| - 1] && freeCount == old(freeCount) + |c.descs|
    {
      ghost var t := desc[..];
      last := first;
      ghost var i := 0;
      assert ChainLink(t, c, 0);
      while desc[last].more
        invariant 0 <= i < |c.descs| && last == c.descs[i] && ChainLink(t, c, i)
        invariant freeCount == old(freeCount) + i
        decreases |c.descs| - i
      {
        freeCount := freeCount + 1;
        last := desc[last].next;
        i := i + 1;
        assert ChainLink(t, c, i);
      }
      freeCount := freeCount + 1;
    }

    method Free(first: nat)
      requires Valid() && Enabled(q, DoRelease(first))
      modifies desc, this`freeCount, this`freeHead, this`q
      ensures Valid() && q == Release(old(q), first)
      ensures forall d :: 0 <= d < desc.Length ==> desc[d].addr == old(desc[d].addr) && desc[d].len == old(desc[d].len)
    {
      hide QueueProtocol.Inv, Size, Ownership, HeldSet, Linked, Holds, UsedHolds, Wrap, Bump, SlotOf, ChainLinked, Release;
      ghost var t, p := desc[..], q;
      CountersInOrder(p);
      ChainShape(t, p, freeHead, first);
      var last := CountChain(p.chains[first], first);
      desc[last] := desc[last].(next := freeHead);
      desc[last] := desc[last].(more := true);
      assert desc[..] == t[last := t[last].(next := freeHead, more := true)];
      ReleaseFields(p, first);
      ReleaseLinks(t, desc[..], p, freeHead, first, last);
      StepKeeps(p, DoRelease(first));
      StepHeld(p, DoRelease(first));
      UsedStays(usedRing[..], p, DoRelease(first));
      freeHead := first;
      q := Release(p, first);
    }

    method HandleEvent()
      requires Valid()
      modifies this`usedIndex, this`q
      ensures Valid() && q == QueueProtocol.HandleEvent(old(q))
    {
      hide QueueProtocol.Inv, Size, Ownership, HeldSet, Linked, Holds, UsedHolds, Wrap, Bump, SlotOf;
      ghost var p := q;
      StepKeeps(p, DoHandleEvent);
      StepHeld(p, DoHandleEvent);
      UsedStays(usedRing[..], p, DoHandleEvent);
      usedIndex := usedIdx;
      q := QueueProtocol.HandleEvent(p);
      SameLinks(desc[..], p, q, freeHead);
    }

    // The read of vfio_pci_dev_clear_irq, at the moment it returns: it blocks while the counter is 0.
    method ReadEventfd()
      requires Valid() && eventfd > 0
      modifies this`eventfd, this`q
      ensures Valid() && q == ClearIrq(old(q))
    {
      hide QueueProtocol.Inv, Size, Ownership, HeldSet, Linked, Holds, UsedHolds, Wrap, Bump, SlotOf;
      ghost var p := q;
      StepKeeps(p, DoClearIrq);
      StepHeld(p, DoClearIrq);
      UsedStays(usedRing[..], p, DoClearIrq);
      eventfd := 0;
      q := ClearIrq(p);
      SameLinks(desc[..], p, q, freeHead);
    }

    // ---- The device: one method per access to shared memory that the driver can observe ----

    method DeviceTake() returns (head: nat)
      requires Valid() && lastAvail != availIdx
      modifies this`lastAvail, this`held, this`q
      ensures Valid() && Enabled(old(q), DoTake) && q == Take(old(q))
      ensures head == old(q.sent[q.taken])
      ensures |old(q.carried)| == |old(q.sent)| && Found(desc[..], Walk(desc[..], head, q.num)) == old(q.carried[q.taken])
    {
      hide QueueProtocol.Inv, Size, Ownership, HeldSet, Linked, Holds, UsedHolds, Wrap, Bump, SlotOf, Found, Walk;
      ghost var p := q;
      CountersInOrder(p);
      assert p.taken < |p.sent|;
      NextEntryCarries(desc[..], p, freeHead);
      SlotRead(availRing[..], p.sent, p.taken, p.taken);
      HoldsLater(availRing[..], p.sent, p.taken, p.taken + 1);
      StepKeeps(p, DoTake);
      StepHeld(p, DoTake);
      UsedStays(usedRing[..], p, DoTake);
      head := availRing[SlotOf(lastAvail, availRing.Length)];
      BumpWraps(p.taken);
      lastAvail := Bump(lastAvail);
      held := held + {head};
      q := Take(p);
      SameLinks(desc[..], p, q, freeHead);
    }

    method DeviceComplete(head: nat, len: nat)
      requires Valid() && head in held
      modifies usedRing, this`usedNext, this`held, this`q
      ensures Valid() && Enabled(old(q), DoComplete(head)) && q == Complete(old(q), head)
    {
      hide QueueProtocol.Inv, Size, Ownership, HeldSet, Linked, Holds, UsedHolds, Wrap, Bump, SlotOf;
      ghost var p, ring := q, usedRing[..];
      CountersInOrder(p);
      HeldMeansTaken(p, head);
      UsedWrite(ring, p, head, len);
      StepKeeps(p, DoComplete(head));
      StepHeld(p, DoComplete(head));
      usedRing[SlotOf(usedNext, usedRing.Length)] := UsedElem(head, len);
      assert usedRing[..] == ring[SlotOf(usedNext, usedRing.Length) := UsedElem(head, len)];
      BumpWraps(|p.done|);
      usedNext := Bump(usedNext);
      held := held - {head};
      q := Complete(p, head);
      SameLinks(desc[..], p, q, freeHead);
    }

    method DevicePublish()
      requires Valid() && usedIdx != usedNext
      modifies this`usedIdx, this`mustSignal, this`q
      ensures Valid() && Enabled(old(q), DoPublish) && q == Publish(old(q))
    {
      hide QueueProtocol.Inv, Size, Ownership, HeldSet, Linked, Holds, UsedHolds, Wrap, Bump, SlotOf;
      ghost var p := q;
      CountersInOrder(p);
      assert p.published < |p.done|;
      StepKeeps(p, DoPublish);
      StepHeld(p, DoPublish);
      UsedStays(usedRing[..], p, DoPublish);
      usedIdx := usedNext;
      mustSignal := true;
      q := Publish(p);
      SameLinks(desc[..], p, q, freeHead);
    }

    method DeviceSignal()
      requires Valid() && mustSignal
      modifies this`eventfd, this`mustSignal, this`q
      ensures Valid() && q == Signal(old(q))
    {
      hide QueueProtocol.Inv, Size, Ownership, HeldSet, Linked, Holds, UsedHolds, Wrap, Bump, SlotOf;
      ghost var p := q;
      StepKeeps(p, DoSignal);
      StepHeld(p, DoSignal);
      UsedStays(usedRing[..], p, DoSignal);
      eventfd := eventfd + 1;
      mustSignal := false;
      q := Signal(p);
      SameLinks(desc[..], p, q, freeHead);
    }

    // ---- A device that completes chains in any order it likes ----

    method DeviceStep()
      requires Valid() && DeviceBusy(q)
      modifies Repr()
      ensures Valid() && DeviceRan(old(q), q) && q.loading == old(q.loading) && Work(q) < Work(old(q))
      ensures q.irq > 0 || DeviceBusy(q)
      ensures desc[..] == old(desc[..]) && old(q.irq) <= q.irq
    {
      hide QueueProtocol.Inv, Transit, VirtQueue.Valid, Work, HeldSet;
      ghost var p := q;
      View();
      CountersInOrder(q);
      if
      case lastAvail != availIdx =>
        var h := DeviceTake();
        DeviceStepRan(p, DoTake);
      case held != {} =>
        var h :| h in held;
        DeviceComplete(h, 0);
        DeviceStepRan(p, DoComplete(h));
      case usedIdx != usedNext =>
        DevicePublish();
        DeviceStepRan(p, DoPublish);
      case mustSignal =>
        DeviceSignal();
        DeviceStepRan(p, DoSignal);
    }

    // The device runs on for as long as it likes.
    method Interfere()
      requires Valid()
      modifies Repr()
      ensures Valid() && DeviceRan(old(q), q) && q.loading == old(q.loading) && desc[..] == old(desc[..])
      ensures old(q.irq) <= q.irq
    {
      hide QueueProtocol.Inv, Transit, VirtQueue.Valid, Work, HeldSet;
      var steps: nat := *;
      View();
      while steps > 0 && (lastAvail != availIdx || held != {} || usedIdx != usedNext || mustSignal)
        invariant Valid() && DeviceRan(old(q), q) && q.loading == old(q.loading) && desc[..] == old(desc[..])
        invariant old(q.irq) <= q.irq
        decreases steps
      {
        View();
        CountersInOrder(q);
        DeviceStep();
        steps := steps - 1;
      }
    }

    // vfio_pci_dev_clear_irq: blocks until the device has signalled. The device runs on until the read
    // returns, and may signal again before it does.
    method ClearEvents()
      requires Valid() && (q.irq > 0 || DeviceBusy(q))
      modifies Repr()
      ensures Valid() && DeviceRan(old(q), q) && q.loading && 0 <= Work(q) < Work(old(q)) && desc[..] == old(desc[..])
    {
      hide QueueProtocol.Inv, Transit, VirtQueue.Valid, HeldSet, DeviceBusy, Work;
      View();
      WorkIsBounded(q);
      while eventfd == 0
        invariant Valid() && DeviceRan(old(q), q) && (q.irq > 0 || DeviceBusy(q)) && 0 <= Work(q)
        invariant desc[..] == old(desc[..])
        decreases Work(q)
      {
        View();
        DeviceStep();
        View();
        WorkIsBounded(q);
      }
      View();
      Interfere();
      View();
      WorkGoesDown(q, DoClearIrq);
      ReadEventfd();
      View();
      WorkIsBounded(q);
    }
  }
}
