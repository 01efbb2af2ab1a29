// What the invariant of the protocol gives: ownership of descriptors, safety of the two rings across
// wrap-around, exactly-once delivery, no lost wakeup, and progress.

module QueueTheorems {
  import opened Words
  import opened SeqFacts
  import opened QueueProtocol


  ghost predicate InChain(q: Queue, d: nat, h: nat) {
    h in q.chains && d in q.chains[h].descs
  }

  lemma OwnerIsInChain(q: Queue, d: nat, h: nat)
    requires Inv(q)
    ensures InChain(q, d, h) <==> d in q.owner && q.owner[d] == h
  {
    if h in q.chains { assert ChainOk(q, h); }
  }

  // The free list and the allocated chains partition 0..num-1.
  lemma DescriptorsArePartitioned(q: Queue)
    requires Inv(q)
    ensures Distinct(q.free)
    ensures forall d: nat :: d < q.num ==> (d in q.free <==> !exists h :: InChain(q, d, h))
    ensures forall d, h, k :: InChain(q, d, h) && InChain(q, d, k) ==> h == k
    ensures |q.free| + |q.owner| == q.num
  {
    forall d: nat, h: nat
      ensures InChain(q, d, h) <==> d in q.owner && q.owner[d] == h
    {
      OwnerIsInChain(q, d, h);
    }
    forall d: nat | d < q.num
      ensures d in q.free <==> !exists h :: InChain(q, d, h)
    {
      if d in q.owner { assert InChain(q, d, q.owner[d]); }
    }
    DescriptorsAreCounted(q);
  }

  lemma SplitsRange(s: seq<nat>, others: set<nat>, n: nat)
    requires Distinct(s)
    requires forall d :: d in s ==> d < n && d !in others
    requires forall d :: d in others ==> d < n
    requires forall d: nat :: d < n ==> d in s || d in others
    ensures |s| + |others| == n
  {
    var elems := set d | d in s;
    assert elems + others == Below(n);
    assert |elems + others| == |elems| + |others|;
    ElemsSize(s);
    DistinctFits(s, elems);
  }

  lemma DescriptorsAreCounted(q: Queue)
    requires Inv(q)
    ensures |q.free| + |q.owner| == q.num
  {
    SplitsRange(q.free, q.owner.Keys, q.num);
  }

  // The plain part of the invariant, for code that needs no more.
  lemma CountersInOrder(q: Queue)
    requires Inv(q)
    ensures 0 < q.num && Size(q.num) && Ownership(q) && q.taken <= |q.sent| && q.received <= q.seen <= q.published <= |q.done|
  {
  }

  // Heads of distinct chains are distinct numbers below num.
  lemma ChainsFit(q: Queue)
    requires Inv(q)
    ensures forall h :: h in q.chains ==> h < q.num && h in q.owner && q.owner[h] == h
  {
    forall h | h in q.chains
      ensures h < q.num && h in q.owner && q.owner[h] == h
    {
      assert ChainOk(q, h);
      assert q.chains[h].descs[0] == h;
      assert h in q.chains[h].descs;
    }
  }

  // The ring entries in transit belong to chains in flight, each to a different one.
  lemma TransitIsDistinct(q: Queue) returns (all: seq<nat>)
    requires Inv(q)
    ensures Distinct(all) && |all| == |q.sent| - q.taken + |q.done| - q.received
    ensures forall h :: h in all ==> h in q.place && !q.place[h].Held?
  {
    var a, u := q.sent[q.taken..], q.done[q.received..];
    forall i | 0 <= i < |a|
      ensures a[i] in q.place && q.place[a[i]] == Avail(q.taken + i)
    {
      assert a[i] == q.sent[q.taken + i];
    }
    forall i | 0 <= i < |u|
      ensures u[i] in q.place && q.place[u[i]] == Used(q.received + i)
    {
      assert u[i] == q.done[q.received + i];
    }
    all := a + u;
  }

  // The entries of both rings that are still in transit, together with any further descriptors that do
  // not head a chain in a ring, are at most num.
  lemma InFlightFits(q: Queue, others: seq<nat>)
    requires Inv(q) && Distinct(others)
    requires forall h :: h in others ==> h < q.num && (h in q.place ==> q.place[h].Held?)
    ensures |q.sent| - q.taken + |q.done| - q.received + |others| <= q.num
  {
    var transit := TransitIsDistinct(q);
    var all := transit + others;
    assert forall i :: 0 <= i < |others| ==> others[i] in others && all[|transit| + i] == others[i];
    assert forall i :: 0 <= i < |transit| ==> transit[i] in transit && all[i] == transit[i];
    assert Distinct(all);
    ChainsFit(q);
    forall h | h in all
      ensures h in Below(q.num)
    {
      if h in q.place { assert Placed(q, h); }
    }
    DistinctFits(all, Below(q.num));
  }

  lemma MulPositive(t: int, num: int)
    requires num > 0 && t >= 1
    ensures t * num >= num
  {
    assert (t - 1) * num >= 0;
  }

  // Division with remainder is unique.
  lemma ModUnique(x: int, a: int, b: int, num: int)
    requires 0 < num && x == a * num + b && 0 <= b < num
    ensures x % num == b
  {
    var t := x / num - a;
    assert t * num == b - x % num by {
      assert t * num == (x / num) * num - a * num;
      assert x == (x / num) * num + x % num;
    }
    if t >= 1 { MulPositive(t, num); }
    if t <= -1 { MulPositive(-t, num); }
  }

  // Two positions closer than num never share a ring slot.
  lemma SlotsDiffer(i: int, j: int, num: nat)
    requires 0 < num && i < j < i + num
    ensures i % num != j % num
  {
    var a, r := i / num, i % num;
    if r + (j - i) < num {
      ModUnique(j, a, r + (j - i), num);
    } else {
      assert (a + 1) * num == a * num + num;
      ModUnique(j, a + 1, r + (j - i) - num, num);
    }
  }

  // A 16-bit counter indexes the ring as the unbounded one does, because num divides 65536.
  lemma WrappedSlot(x: nat, num: nat)
    requires Size(num)
    ensures (x % U16) % num == x % num
  {
    var k, m, y := x / U16, U16 / num, x % U16;
    assert U16 == m * num;
    assert (k * m + y / num) * num == k * (m * num) + (y / num) * num;
    ModUnique(x, k * m + y / num, y % num, num);
  }

  // send never overwrites an available slot that the device has not consumed.
  lemma SendSlotIsFree(q: Queue, h: nat)
    requires Inv(q) && Enabled(q, DoSend(h))
    ensures forall i :: q.taken <= i < |q.sent| ==> i % q.num != |q.sent| % q.num
  {
    ChainsFit(q);
    InFlightFits(q, [h]);
    forall i | q.taken <= i < |q.sent|
      ensures i % q.num != |q.sent| % q.num
    {
      SlotsDiffer(i, |q.sent|, q.num);
    }
  }

  // The device never overwrites a used slot that the driver has not received, nor the slot received
  // last until a chain with that head is sent again.
  lemma CompleteSlotIsFree(q: Queue, h: nat)
    requires Inv(q) && Enabled(q, DoComplete(h))
    ensures forall i :: q.received <= i < |q.done| ==> i % q.num != |q.done| % q.num
    ensures LastKept(q) ==> (q.received - 1) % q.num != |q.done| % q.num
  {
    assert Placed(q, h);
    ChainsFit(q);
    InFlightFits(q, [h]);
    forall i | q.received <= i < |q.done|
      ensures i % q.num != |q.done| % q.num
    {
      SlotsDiffer(i, |q.done|, q.num);
    }
    if LastKept(q) {
      InFlightFits(q, [h, q.done[q.received - 1]]);
      SlotsDiffer(q.received - 1, |q.done|, q.num);
    }
  }

  // The head returned by the latest receive has not been sent again.
  ghost predicate LastKept(q: Queue) {
    0 < q.received <= |q.done| && q.done[q.received - 1] !in q.place
  }

  // 16-bit counters are equal exactly when the unbounded ones are: next_used == used_index when nothing
  // visible is pending, and likewise for the counters that the device compares.
  lemma CountersAgree(q: Queue)
    requires Inv(q)
    ensures q.received % U16 == q.seen % U16 <==> q.received == q.seen
    ensures q.taken % U16 == |q.sent| % U16 <==> q.taken == |q.sent|
    ensures q.published % U16 == |q.done| % U16 <==> q.published == |q.done|
  {
    InFlightFits(q, []);
    if q.received < q.seen { SlotsDiffer(q.received, q.seen, U16); }
    if q.taken < |q.sent| { SlotsDiffer(q.taken, |q.sent|, U16); }
    if q.published < |q.done| { SlotsDiffer(q.published, |q.done|, U16); }
  }

  // With nothing in flight, the driver has received each chain exactly as often as it sent it.
  lemma AllReturned(q: Queue)
    requires Inv(q) && q.place == map[]
    ensures q.received == |q.done| && q.taken == |q.sent|
    ensures multiset(q.done[..q.received]) == multiset(q.sent)
  {
    assert HeldSet(q) == {};
    var transit := TransitIsDistinct(q);
    DistinctFits(transit, {});
    assert q.done[..q.received] == q.done && q.sent[..q.taken] == q.sent;
  }

  ghost predicate Extends(q: Queue, r: Queue) {
    && q.sent <= r.sent && q.carried <= r.carried && q.done <= r.done && q.taken <= r.taken
    && q.received <= |q.done| && q.received <= r.received <= |r.done| && q.done[..q.received] <= r.done[..r.received]
  }

  lemma StepExtends(q: Queue, s: Step)
    requires Transit(q) && Enabled(q, s)
    ensures Extends(q, Apply(q, s))
  {
  }

  // No element is ever taken back from either ring: what the driver receives, in order, is what the
  // device returned, in order.
  lemma {:induction false} RunExtends(q: Queue, steps: seq<Step>)
    requires Inv(q) && IsRun(q, steps)
    ensures Extends(q, After(q, steps))
    decreases |steps|
  {
    if steps != [] {
      StepKeeps(q, steps[0]);
      StepExtends(q, steps[0]);
      RunExtends(Apply(q, steps[0]), steps[1..]);
    }
  }

  // Over every run from power-on: at most one return per send.
  lemma DeliveredAtMostOnce(num: nat, steps: seq<Step>)
    requires Size(num) && IsRun(Initial(num), steps)
    ensures var q := After(Initial(num), steps);
            && Inv(q)
            && multiset(q.done[..q.received]) <= multiset(q.sent)
  {
    InitialInv(num);
    RunKeeps(Initial(num), steps);
    ReceivedWithinSent(After(Initial(num), steps));
  }

  lemma ReceivedWithinSent(q: Queue)
    requires Conserved(q) && q.received <= |q.done|
    ensures multiset(q.done[..q.received]) <= multiset(q.sent)
  {
    assert q.done == q.done[..q.received] + q.done[q.received..];
    assert q.sent == q.sent[..q.taken] + q.sent[q.taken..];
  }

  // alloc, writev and free of one chain restore the queue exactly, the free list as a sequence included.
  lemma FreeUndoesAlloc(q: Queue, n: nat, iov: seq<Iov>, readable: nat)
    requires Inv(q) && 0 < n <= |q.free|
    ensures Release(Cut(Alloc(q, n), q.free[0], iov, readable), q.free[0]) == q
  {
    FreeHeadIsNew(q);
    SplitDistinct(q.free, n);
    UndoneFields(q, n, iov, readable);
  }

  lemma UndoneFields(q: Queue, n: nat, iov: seq<Iov>, readable: nat)
    requires 0 < n <= |q.free| && q.free[0] !in q.chains
    requires forall d :: d in q.free[..n] ==> d !in q.owner
    ensures Release(Cut(Alloc(q, n), q.free[0], iov, readable), q.free[0]) == q
  {
    var h := q.free[0];
    var r := Release(Cut(Alloc(q, n), h, iov, readable), h);
    assert q.free[..n] + q.free[n..] == q.free;
    assert r.chains == q.chains;
    assert r.owner == q.owner;
  }

  // ---- Progress ----

  // Everything the device still has to do, weighted so that each of its steps uses some up, plus the
  // signals that the driver has not consumed yet.
  function Work(q: Queue): int {
    2 * (4 * (|q.sent| - q.taken) + 3 * |HeldSet(q)| + 2 * (|q.done| - q.published) + if q.owed then 1 else 0) + q.irq
  }

  lemma WorkIsBounded(q: Queue)
    requires Inv(q)
    ensures Work(q) >= 0
  {
  }

  lemma WorkGoesDown(q: Queue, s: Step)
    requires Inv(q) && Enabled(q, s) && (s.ByDevice() || s.DoClearIrq?)
    ensures Work(Apply(q, s)) < Work(q)
  {
    hide BuffersStay, Conserved;
    if s.DoTake? {
      TakeTransit(q);
    } else if s.DoComplete? {
      CompleteTransit(q, s.head);
    } else {
      assert HeldSet(Apply(q, s)) == HeldSet(q);
    }
  }

  lemma WorkStays(q: Queue, s: Step)
    requires Inv(q) && Enabled(q, s) && (s.DoHandleEvent? || s.DoReceive? || s.DoRelease?)
    ensures Work(Apply(q, s)) == Work(q)
  {
    if s.DoReceive? { ReceiveTransit(q); } else { assert HeldSet(Apply(q, s)) == HeldSet(q); }
  }

  // The device can act.
  predicate DeviceBusy(q: Queue) {
    q.taken < |q.sent| || HeldSet(q) != {} || q.published < |q.done| || q.owed
  }

  // A driver that has drained what it can see and is blocked on the eventfd with a chain in flight is
  // never stuck: the eventfd is armed, or the device still has a step to take.
  lemma BlockedDriverWakesUp(q: Queue, h: nat)
    requires Inv(q) && h in q.place && q.received == q.seen && !q.loading
    ensures q.irq > 0 || DeviceBusy(q)
  {
    assert Placed(q, h);
    match q.place[h]
    case Avail(i) =>
    case Held => assert h in HeldSet(q);
    case Used(i) =>
  }
}
