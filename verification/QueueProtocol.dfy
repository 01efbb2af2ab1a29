// The split virtqueue as a protocol between two actors, section 2.7 of VIRTIO 1.2.
// The driver side is code/virtio.c; the device side is any device that obeys the specification.
// Everything here is a value: class VirtQueue refines it over arrays and 16-bit counters.

module SeqFacts {
  ghost predicate Distinct<T>(s: seq<T>) {
    forall i, j :: 0 <= i < j < |s| ==> s[i] != s[j]
  }

  // A duplicate-free sequence drawn from a set is no longer than the set.
  lemma {:induction false} DistinctFits<T>(s: seq<T>, from: set<T>)
    requires Distinct(s)
    requires forall x :: x in s ==> x in from
    ensures |s| <= |from|
  {
    if s != [] {
      var last := s[|s| - 1];
      var rest := s[..|s| - 1];
      assert last in s;
      forall x | x in rest
        ensures x in from - {last}
      {
        var i :| 0 <= i < |rest| && rest[i] == x;
        assert s[i] == x;
      }
      DistinctFits(rest, from - {last});
    }
  }

  // The numbers below n.
  function Below(n: nat): (r: set<nat>)
    ensures |r| == n
    ensures forall d: nat :: d in r <==> d < n
  {
    if n == 0 then {} else Below(n - 1) + {n - 1}
  }

  lemma {:induction false} ElemsSize<T>(s: seq<T>)
    ensures |set d | d in s| <= |s|
  {
    if s != [] {
      var rest := s[1..];
      ElemsSize(rest);
      assert (set d | d in s) == {s[0]} + set d | d in rest;
    }
  }
}

module QueueProtocol {
  import opened SeqFacts

  // Where a chain that the driver has made available currently is.
  // Avail(i): entry number i of the available ring, not consumed yet.
  // Held: consumed by the device, not returned yet.
  // Used(i): entry number i of the used ring, not received by the driver yet.
  datatype Place = Avail(index: nat) | Held | Used(index: nat)

  // A buffer, and what a chain presents to the device: buffers, the first `readable` of them
  // device-readable and the others device-writable.
  datatype Iov = Iov(base: nat, len: nat)
  datatype Buffers = Buffers(iov: seq<Iov>, readable: nat)

  // An allocated chain. cut says that writev has cleared NEXT on its last descriptor; its descriptors
  // then hold these buffers.
  datatype Chain = Chain(descs: seq<nat>, cut: bool, readable: nat, iov: seq<Iov>)

  function Carried(c: Chain): Buffers {
    Buffers(c.iov, c.readable)
  }

  // All counters are unbounded here. sent and done are the histories of the two rings, and carried says
  // what each chain sent carried.
  datatype Queue = Queue(
    num: nat,
    free: seq<nat>,
    chains: map<nat, Chain>,
    owner: map<nat, nat>,
    sent: seq<nat>,
    carried: seq<Buffers>,
    taken: nat,
    done: seq<nat>,
    published: nat,
    seen: nat,
    received: nat,
    place: map<nat, Place>,
    irq: nat,
    owed: bool,
    loading: bool)

  // Section 2.7: the queue size is a power of two, at most 32768.
  ghost predicate Size(num: nat) {
    1 <= num <= 32768 && 0x1_0000 % num == 0
  }

  function Initial(num: nat): Queue {
    Queue(num, seq(num, i => i), map[], map[], [], [], 0, [], 0, 0, 0, map[], 0, false, false)
  }

  ghost predicate ChainOk(q: Queue, h: nat)
    requires h in q.chains
  {
    var c := q.chains[h];
    && 0 < |c.descs| && c.descs[0] == h && Distinct(c.descs) && c.readable <= |c.descs|
    && (c.cut ==> |c.iov| == |c.descs|)
    && forall d :: d in c.descs ==> d in q.owner && q.owner[d] == h
  }

  // Every descriptor is either on the free list or in exactly one chain.
  ghost predicate Ownership(q: Queue) {
    && Distinct(q.free)
    && (forall d :: d in q.free ==> d < q.num && d !in q.owner)
    && (forall d: nat :: d < q.num ==> d in q.free || d in q.owner)
    && (forall d :: d in q.owner ==> d < q.num && q.owner[d] in q.chains && d in q.chains[q.owner[d]].descs)
    && (forall h :: h in q.chains ==> ChainOk(q, h))
  }

  ghost predicate Placed(q: Queue, h: nat)
    requires h in q.place
  {
    && h in q.chains && q.chains[h].cut
    && match q.place[h]
       case Avail(i) => q.taken <= i < |q.sent| && q.sent[i] == h
       case Held => true
       case Used(i) => q.received <= i < |q.done| && q.done[i] == h
  }

  // The counters are ordered, and each chain in flight is in exactly one place.
  ghost predicate Transit(q: Queue) {
    && q.taken <= |q.sent|
    && q.received <= q.seen <= q.published <= |q.done|
    && (forall i :: q.taken <= i < |q.sent| ==> q.sent[i] in q.place && q.place[q.sent[i]] == Avail(i))
    && (forall i :: q.received <= i < |q.done| ==> q.done[i] in q.place && q.place[q.done[i]] == Used(i))
    && (forall h :: h in q.place ==> Placed(q, h))
    && (forall i :: 0 <= i < |q.done| ==> q.done[i] < q.num)
  }

  // Whenever the driver's view of used.idx is stale, the eventfd is armed, or the device still owes the
  // signal, or the driver has just emptied the eventfd and is about to load used.idx.
  ghost predicate NoLostWakeup(q: Queue) {
    q.published != q.seen ==> q.irq > 0 || q.owed || q.loading
  }

  // The device returns exactly what it has taken: nothing lost, nothing invented, nothing twice.
  ghost predicate Conserved(q: Queue) {
    && q.taken <= |q.sent|
    && multiset(q.sent[..q.taken]) == multiset(q.done) + multiset(HeldSet(q))
  }

  // Entry i of the avail ring was the latest to send chain h, and carried what the chain still holds.
  ghost predicate SentLast(q: Queue, h: nat, i: nat)
    requires |q.carried| == |q.sent| && h in q.chains
  {
    && i < |q.sent| && q.sent[i] == h && q.carried[i] == Carried(q.chains[h])
    && forall j :: i < j < |q.sent| ==> q.sent[j] != h
  }

  // While a chain is in flight its descriptors hold what was sent.
  ghost predicate BuffersStay(q: Queue) {
    && |q.carried| == |q.sent|
    && (forall h :: h in q.place ==> h in q.chains && exists i :: SentLast(q, h, i))
    && (forall i :: q.taken <= i < |q.sent| ==>
         q.sent[i] in q.chains && q.carried[i] == Carried(q.chains[q.sent[i]]))
  }

  function HeldSet(q: Queue): set<nat> {
    set h | h in q.place && q.place[h].Held?
  }

  ghost predicate Inv(q: Queue) {
    Size(q.num) && Ownership(q) && Transit(q) && NoLostWakeup(q) && Conserved(q) && BuffersStay(q)
  }

  // ---- Driver steps (code/virtio.c) ----

  function Alloc(q: Queue, n: nat): Queue
    requires 0 < n <= |q.free|
  {
    var descs := q.free[..n];
    q.(free := q.free[n..],
       chains := q.chains[descs[0] := Chain(descs, false, 0, [])],
       owner := q.owner + (map d | d in descs :: descs[0]))
  }

  function Cut(q: Queue, h: nat, iov: seq<Iov>, readable: nat): Queue
    requires h in q.chains
  {
    q.(chains := q.chains[h := q.chains[h].(cut := true, iov := iov, readable := readable)])
  }

  function Send(q: Queue, h: nat): Queue
    requires h in q.chains
  {
    q.(sent := q.sent + [h], carried := q.carried + [Carried(q.chains[h])], place := q.place[h := Avail(|q.sent|)])
  }

  function Receive(q: Queue): Queue
    requires q.received < |q.done|
  {
    q.(received := q.received + 1, place := q.place - {q.done[q.received]})
  }

  function Release(q: Queue, h: nat): Queue
    requires h in q.chains
  {
    var descs := q.chains[h].descs;
    q.(free := descs + q.free, chains := q.chains - {h}, owner := q.owner - (set d | d in descs))
  }

  function ClearIrq(q: Queue): Queue {
    q.(irq := 0, loading := true)
  }

  function HandleEvent(q: Queue): Queue {
    q.(seen := q.published, loading := false)
  }

  // ---- Device steps (sections 2.7.7, 2.7.8 and 2.7.14 seen from the device) ----

  function Take(q: Queue): Queue
    requires q.taken < |q.sent|
  {
    q.(taken := q.taken + 1, place := q.place[q.sent[q.taken] := Held])
  }

  function Complete(q: Queue, h: nat): Queue {
    q.(done := q.done + [h], place := q.place[h := Used(|q.done|)])
  }

  function Publish(q: Queue): Queue {
    q.(published := |q.done|, owed := true)
  }

  function Signal(q: Queue): Queue {
    q.(irq := q.irq + 1, owed := false)
  }

  datatype Step =
    | DoAlloc(n: nat) | DoCut(head: nat, iov: seq<Iov>, readable: nat) | DoSend(head: nat) | DoReceive
    | DoRelease(head: nat) | DoClearIrq | DoHandleEvent
    | DoTake | DoComplete(head: nat) | DoPublish | DoSignal
  {
    predicate ByDevice() {
      DoTake? || DoComplete? || DoPublish? || DoSignal?
    }
  }

  // What each actor may do, and when. The driver's guards are the ones virtio.c relies on: a chain is
  // written once, before it is sent; it is sent and freed only while the device does not have it.
  predicate Enabled(q: Queue, s: Step) {
    match s
    case DoAlloc(n) => 0 < n <= |q.free|
    case DoCut(h, iov, r) => h in q.chains && !q.chains[h].cut && r <= |q.chains[h].descs| == |iov|
    case DoSend(h) => h in q.chains && q.chains[h].cut && h !in q.place
    case DoReceive => q.received < q.seen <= |q.done|
    case DoRelease(h) => h in q.chains && q.chains[h].cut && h !in q.place
    case DoClearIrq => q.irq > 0
    case DoHandleEvent => true
    case DoTake => q.taken < |q.sent|
    case DoComplete(h) => h in q.place && q.place[h].Held?
    case DoPublish => q.published < |q.done|
    case DoSignal => q.owed
  }

  function Apply(q: Queue, s: Step): Queue
    requires Enabled(q, s)
  {
    match s
    case DoAlloc(n) => Alloc(q, n)
    case DoCut(h, iov, r) => Cut(q, h, iov, r)
    case DoSend(h) => Send(q, h)
    case DoReceive => Receive(q)
    case DoRelease(h) => Release(q, h)
    case DoClearIrq => ClearIrq(q)
    case DoHandleEvent => HandleEvent(q)
    case DoTake => Take(q)
    case DoComplete(h) => Complete(q, h)
    case DoPublish => Publish(q)
    case DoSignal => Signal(q)
  }

  // ---- Every step keeps the invariant ----

  lemma InitialInv(num: nat)
    requires Size(num)
    ensures Inv(Initial(num))
  {
    var q := Initial(num);
    forall d: nat | d < num
      ensures d in q.free
    {
      assert q.free[d] == d;
    }
    assert HeldSet(q) == {};
  }

  // Ownership looks at four fields only.
  lemma SameOwnership(q: Queue, r: Queue)
    requires Ownership(q)
    requires r.num == q.num && r.free == q.free && r.chains == q.chains && r.owner == q.owner
    ensures Ownership(r)
  {
    forall k | k in r.chains
      ensures ChainOk(r, k)
    {
      assert ChainOk(q, k);
    }
  }

  lemma HeadOwnsItself(q: Queue, h: nat)
    requires Ownership(q) && h in q.chains
    ensures h in q.owner && q.owner[h] == h && h < q.num && h !in q.free
  {
    assert ChainOk(q, h);
    assert h in q.chains[h].descs;
  }

  lemma FreeHeadIsNew(q: Queue)
    requires Ownership(q) && q.free != []
    ensures q.free[0] !in q.chains
  {
    assert q.free[0] in q.free;
    if q.free[0] in q.chains { HeadOwnsItself(q, q.free[0]); }
  }

  lemma SplitDistinct(s: seq<nat>, n: nat)
    requires Distinct(s) && n <= |s|
    ensures Distinct(s[..n]) && Distinct(s[n..])
    ensures forall d :: d in s <==> d in s[..n] || d in s[n..]
    ensures forall d :: d in s[..n] ==> d !in s[n..]
  {
    assert s == s[..n] + s[n..];
    forall d | d in s[..n]
      ensures d !in s[n..]
    {
      var i :| 0 <= i < n && s[..n][i] == d;
      assert forall j :: 0 <= j < |s| - n ==> s[n..][j] == s[n + j] != s[i];
    }
  }

  lemma AllocOwnership(q: Queue, n: nat)
    requires Ownership(q) && 0 < n <= |q.free|
    ensures Ownership(Alloc(q, n))
  {
    var r := Alloc(q, n);
    var descs := q.free[..n];
    var h := descs[0];
    SplitDistinct(q.free, n);
    FreeHeadIsNew(q);
    assert h in descs;
    forall k | k in r.chains
      ensures ChainOk(r, k)
    {
      if k != h { assert ChainOk(q, k); }
    }
  }

  lemma CutOwnership(q: Queue, h: nat, iov: seq<Iov>, readable: nat)
    requires Ownership(q) && Enabled(q, DoCut(h, iov, readable))
    ensures Ownership(Cut(q, h, iov, readable))
  {
    var r := Cut(q, h, iov, readable);
    forall k | k in r.chains
      ensures ChainOk(r, k)
    {
      assert ChainOk(q, k);
    }
  }

  lemma JoinDistinct(a: seq<nat>, b: seq<nat>)
    requires Distinct(a) && Distinct(b)
    requires forall d :: d in a ==> d !in b
    ensures Distinct(a + b)
  {
    forall i, j | 0 <= i < j < |a + b|
      ensures (a + b)[i] != (a + b)[j]
    {
      if i < |a| <= j {
        assert a[i] in a;
        assert b[j - |a|] in b;
      }
    }
  }

  lemma ReleaseOwnership(q: Queue, h: nat)
    requires Ownership(q) && h in q.chains
    ensures Ownership(Release(q, h))
  {
    var r := Release(q, h);
    var descs := q.chains[h].descs;
    assert ChainOk(q, h);
    JoinDistinct(descs, q.free);
    forall d | d in r.free
      ensures d < q.num && d !in r.owner
    {
      assert d in descs || d in q.free;
      assert d in descs ==> d in q.owner;
    }
    forall d: nat | d < q.num
      ensures d in r.free || d in r.owner
    {
      assert d in q.free ==> d in r.free;
      assert d in descs ==> d in r.free;
    }
    forall k | k in r.chains
      ensures ChainOk(r, k)
    {
      assert ChainOk(q, k);
    }
  }

  // Transit does not look at descriptors: a step that leaves the rings alone keeps it, provided the
  // chains in flight stay cut.
  lemma SameTransit(q: Queue, r: Queue)
    requires Transit(q)
    requires r.sent == q.sent && r.taken == q.taken && r.done == q.done && r.received == q.received && r.place == q.place
    requires r.num == q.num && r.received <= r.seen <= r.published <= |r.done|
    requires forall h :: h in q.place && h in q.chains && q.chains[h].cut ==> h in r.chains && r.chains[h].cut
    ensures Transit(r) && HeldSet(r) == HeldSet(q)
  {
    forall g | g in r.place
      ensures Placed(r, g)
    {
      assert Placed(q, g);
    }
    assert HeldSet(r) == HeldSet(q);
  }

  lemma SendTransit(q: Queue, h: nat)
    requires Transit(q) && Enabled(q, DoSend(h))
    ensures Transit(Send(q, h)) && HeldSet(Send(q, h)) == HeldSet(q)
  {
    var r := Send(q, h);
    forall g | g in r.place
      ensures Placed(r, g)
    {
      if g != h { assert Placed(q, g); }
    }
    assert HeldSet(r) == HeldSet(q);
  }

  lemma ReceiveTransit(q: Queue)
    requires Transit(q) && Enabled(q, DoReceive)
    ensures Transit(Receive(q)) && HeldSet(Receive(q)) == HeldSet(q)
  {
    var r := Receive(q);
    assert q.place[q.done[q.received]] == Used(q.received);
    forall g | g in r.place
      ensures Placed(r, g)
    {
      assert Placed(q, g);
    }
    assert HeldSet(r) == HeldSet(q);
  }

  lemma TakeTransit(q: Queue)
    requires Transit(q) && Enabled(q, DoTake)
    ensures Transit(Take(q))
    ensures HeldSet(Take(q)) == HeldSet(q) + {q.sent[q.taken]} && q.sent[q.taken] !in HeldSet(q)
  {
    var r := Take(q);
    assert q.place[q.sent[q.taken]] == Avail(q.taken);
    forall g | g in r.place
      ensures Placed(r, g)
    {
      assert Placed(q, g);
    }
    assert HeldSet(r) == HeldSet(q) + {q.sent[q.taken]};
  }

  lemma HeldAfterComplete(q: Queue, h: nat)
    requires Enabled(q, DoComplete(h))
    ensures HeldSet(Complete(q, h)) == HeldSet(q) - {h} && h in HeldSet(q)
  {
  }

  lemma PlacedAfterComplete(q: Queue, h: nat, g: nat)
    requires Transit(q) && Enabled(q, DoComplete(h)) && g in q.place
    ensures Placed(Complete(q, h), g)
  {
    assert Placed(q, g) && Placed(q, h);
  }

  lemma CompleteTransit(q: Queue, h: nat)
    requires Ownership(q) && Transit(q) && Enabled(q, DoComplete(h))
    ensures Transit(Complete(q, h))
    ensures HeldSet(Complete(q, h)) == HeldSet(q) - {h} && h in HeldSet(q)
  {
    var r := Complete(q, h);
    assert h in q.chains && h < q.num by {
      assert Placed(q, h);
      HeadOwnsItself(q, h);
    }
    hide Ownership, HeldSet, Placed;
    forall g | g in r.place
      ensures Placed(r, g)
    {
      PlacedAfterComplete(q, h, g);
    }
    HeldAfterComplete(q, h);
  }

  lemma StepOwnership(q: Queue, s: Step)
    requires Ownership(q) && Enabled(q, s)
    ensures Ownership(Apply(q, s))
  {
    match s
    case DoAlloc(n) => AllocOwnership(q, n);
    case DoCut(h, iov, r) => CutOwnership(q, h, iov, r);
    case DoRelease(h) => ReleaseOwnership(q, h);
    case _ => SameOwnership(q, Apply(q, s));
  }

  lemma StepTransit(q: Queue, s: Step)
    requires Ownership(q) && Transit(q) && Enabled(q, s)
    ensures Transit(Apply(q, s))
    ensures !s.DoTake? && !s.DoComplete? ==> HeldSet(Apply(q, s)) == HeldSet(q)
  {
    hide Ownership, HeldSet;
    match s
    case DoAlloc(n) =>
      FreeHeadIsNew(q);
      SameTransit(q, Alloc(q, n));
    case DoSend(h) =>
      hide Transit;
      SendTransit(q, h);
    case DoReceive =>
      hide Transit;
      ReceiveTransit(q);
    case DoTake =>
      hide Transit;
      TakeTransit(q);
    case DoComplete(h) =>
      hide Transit;
      CompleteTransit(q, h);
    case _ => SameTransit(q, Apply(q, s));
  }

  // Balance of what was taken, what was returned and what is held, apart from the queue it belongs to.
  lemma TakeBalance(q: Queue, held: set<nat>)
    requires Conserved(q) && q.taken < |q.sent|
    requires q.sent[q.taken] !in HeldSet(q) && held == HeldSet(q) + {q.sent[q.taken]}
    ensures multiset(q.sent[..q.taken + 1]) == multiset(q.done) + multiset(held)
  {
    assert q.sent[..q.taken + 1] == q.sent[..q.taken] + [q.sent[q.taken]];
  }

  lemma CompleteBalance(q: Queue, h: nat, held: set<nat>)
    requires Conserved(q) && h in HeldSet(q) && held == HeldSet(q) - {h}
    ensures multiset(q.sent[..q.taken]) == multiset(q.done + [h]) + multiset(held)
  {
  }

  lemma SameBalance(q: Queue, s: Step)
    requires Conserved(q) && Enabled(q, s) && !s.DoTake? && !s.DoComplete? && HeldSet(Apply(q, s)) == HeldSet(q)
    ensures Conserved(Apply(q, s))
  {
    hide HeldSet;
    assert Apply(q, s).sent[..q.taken] == q.sent[..q.taken];
  }

  lemma StepConserved(q: Queue, s: Step)
    requires Ownership(q) && Transit(q) && Conserved(q) && Enabled(q, s)
    ensures Conserved(Apply(q, s))
  {
    hide Ownership, Transit, HeldSet;
    if s.DoTake? {
      TakeTransit(q);
      TakeBalance(q, HeldSet(Take(q)));
    } else if s.DoComplete? {
      CompleteTransit(q, s.head);
      CompleteBalance(q, s.head, HeldSet(Complete(q, s.head)));
    } else {
      StepTransit(q, s);
      SameBalance(q, s);
    }
  }

  // Steps that send nothing, take nothing back into flight, and leave the chains in flight alone.
  lemma SameBuffers(q: Queue, r: Queue)
    requires BuffersStay(q) && r.sent == q.sent && r.carried == q.carried && q.taken <= r.taken
    requires forall h :: h in r.place ==> h in q.place
    requires forall h :: h in q.place && h in r.place ==> h in r.chains && r.chains[h] == q.chains[h]
    requires forall i :: r.taken <= i < |r.sent| ==> r.sent[i] in q.place && r.sent[i] in r.place
    ensures BuffersStay(r)
  {
    forall h | h in r.place
      ensures h in r.chains && exists i :: SentLast(r, h, i)
    {
      var i :| SentLast(q, h, i);
      assert SentLast(r, h, i);
    }
  }

  lemma SendBuffers(q: Queue, h: nat)
    requires Transit(q) && BuffersStay(q) && Enabled(q, DoSend(h))
    ensures BuffersStay(Send(q, h))
  {
    var r := Send(q, h);
    forall g | g in r.place
      ensures g in r.chains && exists i :: SentLast(r, g, i)
    {
      if g == h {
        assert SentLast(r, h, |q.sent|);
      } else {
        var i :| SentLast(q, g, i);
        assert SentLast(r, g, i);
      }
    }
  }

  lemma AllocBuffers(q: Queue, n: nat)
    requires Ownership(q) && Transit(q) && BuffersStay(q) && Enabled(q, DoAlloc(n))
    ensures BuffersStay(Alloc(q, n))
  {
    FreeHeadIsNew(q);
    hide Ownership, BuffersStay, HeldSet;
    assert forall h :: h in q.place ==> Placed(q, h);
    SameBuffers(q, Alloc(q, n));
  }

  lemma ReceiveBuffers(q: Queue)
    requires Transit(q) && BuffersStay(q) && Enabled(q, DoReceive)
    ensures BuffersStay(Receive(q))
  {
    hide BuffersStay;
    assert q.place[q.done[q.received]] == Used(q.received);
    assert forall h :: h in q.place ==> Placed(q, h);
    SameBuffers(q, Receive(q));
  }

  lemma OtherBuffers(q: Queue, s: Step)
    requires Transit(q) && BuffersStay(q) && Enabled(q, s) && !s.DoAlloc? && !s.DoSend? && !s.DoReceive?
    ensures BuffersStay(Apply(q, s))
  {
    hide BuffersStay, HeldSet;
    assert forall h :: h in q.place ==> Placed(q, h);
    SameBuffers(q, Apply(q, s));
  }

  lemma StepBuffers(q: Queue, s: Step)
    requires Ownership(q) && Transit(q) && BuffersStay(q) && Enabled(q, s)
    ensures BuffersStay(Apply(q, s))
  {
    hide Ownership, Transit, BuffersStay, HeldSet;
    match s
    case DoAlloc(n) => AllocBuffers(q, n);
    case DoSend(h) => SendBuffers(q, h);
    case DoReceive => ReceiveBuffers(q);
    case _ => OtherBuffers(q, s);
  }

  lemma StepKeeps(q: Queue, s: Step)
    requires Inv(q) && Enabled(q, s)
    ensures Inv(Apply(q, s))
  {
    hide Ownership, Transit, Conserved, BuffersStay;
    StepBuffers(q, s);
    StepOwnership(q, s);
    StepTransit(q, s);
    StepConserved(q, s);
  }

  // A run is any interleaving of the two actors.
  ghost predicate IsRun(q: Queue, steps: seq<Step>)
    decreases |steps|
  {
    steps == [] || (Enabled(q, steps[0]) && IsRun(Apply(q, steps[0]), steps[1..]))
  }

  ghost function After(q: Queue, steps: seq<Step>): Queue
    requires IsRun(q, steps)
    decreases |steps|
  {
    if steps == [] then q else After(Apply(q, steps[0]), steps[1..])
  }

  lemma {:induction false} RunKeeps(q: Queue, steps: seq<Step>)
    requires Inv(q) && IsRun(q, steps)
    ensures Inv(After(q, steps))
    decreases |steps|
  {
    if steps != [] {
      StepKeeps(q, steps[0]);
      RunKeeps(Apply(q, steps[0]), steps[1..]);
    }
  }
}
