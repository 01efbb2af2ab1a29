// code/virtio-gpu.c: commands, fences and the two draining loops, over one virtqueue and a device that
// runs at the same time.

module GpuFences {
  import opened Words
  import opened SeqFacts
  import opened QueueProtocol
  import opened QueueTheorems


  // The part of struct virtio_gpu_ctrl_hdr that matters here: the FENCE flag and the fence id.
  datatype Header = Plain | Fence(id: nat)
  datatype Cmd = Cmd(request: Header, response: Header)

  // Fence number n (the first one is 1), as the 32-bit id that goes over the wire.
  function FenceId(n: nat): nat {
    n % U32
  }

  lemma FenceNext(n: nat)
    ensures (FenceId(n) + 1) % U32 == FenceId(n + 1)
  {
  }

  // The fenced commands in flight, in order of submission. The device has completed the first
  // `completed` of them and holds the next ones, up to `taken`; the rest it has not looked at yet.
  // retired counts the fences that the driver has received.
  datatype Fences = Fences(heads: seq<nat>, completed: nat, taken: nat, retired: nat)

  ghost predicate InFlight(q: Queue, cmds: seq<Cmd>, f: Fences, k: nat)
    requires k < |f.heads|
  {
    var h := f.heads[k];
    && h in q.place && h < |cmds| && cmds[h].request == Fence(FenceId(f.retired + k + 1))
    && (k < f.completed <==> q.place[h].Used?)
    && (f.completed <= k < f.taken <==> q.place[h].Held?)
  }

  // Section 5.7.6: a completed command carries its fence back, and fences complete in order.
  ghost predicate FencesOk(q: Queue, cmds: seq<Cmd>, f: Fences) {
    && f.completed <= f.taken <= |f.heads|
    && (forall k :: 0 <= k < |f.heads| ==> InFlight(q, cmds, f, k))
    && (forall j, k :: 0 <= j < k < |f.heads| ==> Before(q, f.heads[j], f.heads[k]))
    && (forall h :: h in q.place ==> h < |cmds|)
    && (forall h :: h in q.place && h !in f.heads ==> cmds[h].request == Plain)
    && (forall h :: h in q.place && q.place[h].Used? ==> cmds[h].response == cmds[h].request)
  }

  // j was made available before k, and if both are in the same ring, its entry comes first.
  ghost predicate Before(q: Queue, j: nat, k: nat) {
    && j != k
    && (j in q.place && k in q.place ==>
         && (q.place[j].Used? && q.place[k].Used? ==> q.place[j].index < q.place[k].index)
         && (q.place[j].Avail? && q.place[k].Avail? ==> q.place[j].index < q.place[k].index))
  }

  // A step that moves no chain, with the commands in flight left alone.
  lemma FencesStay(q: Queue, r: Queue, cmds: seq<Cmd>, cmds': seq<Cmd>, f: Fences)
    requires FencesOk(q, cmds, f) && r.place == q.place && |cmds'| == |cmds|
    requires forall h :: h in q.place && h < |cmds| ==> cmds'[h] == cmds[h]
    ensures FencesOk(r, cmds', f)
  {
    forall k | 0 <= k < |f.heads|
      ensures InFlight(r, cmds', f, k)
    {
      assert InFlight(q, cmds, f, k);
    }
    forall j, k | 0 <= j < k < |f.heads|
      ensures Before(r, f.heads[j], f.heads[k])
    {
      assert Before(q, f.heads[j], f.heads[k]);
    }
  }

  lemma HeadsInFlight(q: Queue, cmds: seq<Cmd>, f: Fences)
    requires FencesOk(q, cmds, f)
    ensures forall h :: h in f.heads ==> h in q.place
    ensures Distinct(f.heads)
  {
    forall h | h in f.heads
      ensures h in q.place
    {
      var k :| 0 <= k < |f.heads| && f.heads[k] == h;
      assert InFlight(q, cmds, f, k);
    }
    forall j, k | 0 <= j < k < |f.heads|
      ensures f.heads[j] != f.heads[k]
    {
      assert Before(q, f.heads[j], f.heads[k]);
    }
  }

  function Submitted(f: Fences, h: nat): Fences {
    f.(heads := f.heads + [h])
  }

  lemma SendPlain(q: Queue, cmds: seq<Cmd>, f: Fences, h: nat)
    requires Transit(q) && FencesOk(q, cmds, f) && h in q.chains && h !in q.place && h < |cmds| && cmds[h].request == Plain
    ensures FencesOk(Send(q, h), cmds, f)
  {
    var r := Send(q, h);
    forall k | 0 <= k < |f.heads|
      ensures InFlight(r, cmds, f, k)
    {
      assert InFlight(q, cmds, f, k);
    }
    forall j, k | 0 <= j < k < |f.heads|
      ensures Before(r, f.heads[j], f.heads[k])
    {
      assert Before(q, f.heads[j], f.heads[k]);
      assert InFlight(q, cmds, f, j) && InFlight(q, cmds, f, k);
    }
  }

  lemma SendFenced(q: Queue, cmds: seq<Cmd>, f: Fences, h: nat)
    requires Transit(q) && FencesOk(q, cmds, f) && h in q.chains && h !in q.place && h < |cmds|
    requires cmds[h].request == Fence(FenceId(f.retired + |f.heads| + 1))
    ensures FencesOk(Send(q, h), cmds, Submitted(f, h))
  {
    var r, g := Send(q, h), Submitted(f, h);
    forall k | 0 <= k < |g.heads|
      ensures InFlight(r, cmds, g, k)
    {
      if k < |f.heads| { assert InFlight(q, cmds, f, k); }
    }
    forall j, k | 0 <= j < k < |g.heads|
      ensures Before(r, g.heads[j], g.heads[k])
    {
      assert InFlight(q, cmds, f, j) && Placed(q, f.heads[j]);
      if k < |f.heads| {
        assert InFlight(q, cmds, f, k) && Before(q, f.heads[j], f.heads[k]);
      }
    }
    forall x | x in r.place && x !in g.heads
      ensures cmds[x].request == Plain
    {
      assert h in g.heads;
      assert x !in f.heads;
    }
  }

  // Rings are first in, first out: nothing submitted earlier is still where the oldest entry is.
  lemma OldestAvail(q: Queue, cmds: seq<Cmd>, f: Fences, j: nat, k: nat)
    requires Transit(q) && FencesOk(q, cmds, f) && j < k < |f.heads| && f.heads[k] in q.place
    requires q.place[f.heads[k]] == Avail(q.taken)
    ensures j < f.taken
  {
    assert InFlight(q, cmds, f, j) && Placed(q, f.heads[j]) && Before(q, f.heads[j], f.heads[k]);
  }

  lemma OldestUsed(q: Queue, cmds: seq<Cmd>, f: Fences, j: nat, k: nat)
    requires Transit(q) && FencesOk(q, cmds, f) && j < k < |f.heads| && f.heads[k] in q.place
    requires q.place[f.heads[k]] == Used(q.received)
    ensures f.completed <= j
  {
    assert InFlight(q, cmds, f, j) && Placed(q, f.heads[j]) && Before(q, f.heads[j], f.heads[k]);
  }

  // The next available chain, if fenced, is the first fenced one that the device has not taken.
  lemma NextTaken(q: Queue, cmds: seq<Cmd>, f: Fences)
    requires Transit(q) && FencesOk(q, cmds, f) && Enabled(q, DoTake) && q.sent[q.taken] in f.heads
    ensures f.taken < |f.heads| && f.heads[f.taken] == q.sent[q.taken]
  {
    var h := q.sent[q.taken];
    assert q.place[h] == Avail(q.taken);
    var k :| 0 <= k < |f.heads| && f.heads[k] == h;
    assert InFlight(q, cmds, f, k);
    if f.taken < k { OldestAvail(q, cmds, f, f.taken, k); }
  }

  // The next used chain, if fenced, is the first fenced one in flight.
  lemma NextReceived(q: Queue, cmds: seq<Cmd>, f: Fences)
    requires Transit(q) && FencesOk(q, cmds, f) && Enabled(q, DoReceive) && q.done[q.received] in f.heads
    ensures f.heads[0] == q.done[q.received] && 0 < f.completed
  {
    var h := q.done[q.received];
    assert q.place[h] == Used(q.received);
    var k :| 0 <= k < |f.heads| && f.heads[k] == h;
    assert InFlight(q, cmds, f, k);
    if 0 < k { OldestUsed(q, cmds, f, 0, k); }
  }

  // What becomes of the fences when the device takes the next available chain.
  function TakenOne(f: Fences, h: nat): Fences {
    if h in f.heads then f.(taken := f.taken + 1) else f
  }

  lemma TakeInFlight(q: Queue, cmds: seq<Cmd>, f: Fences, k: nat)
    requires Transit(q) && FencesOk(q, cmds, f) && Enabled(q, DoTake) && k < |f.heads|
    ensures InFlight(Take(q), cmds, TakenOne(f, q.sent[q.taken]), k)
  {
    var h := q.sent[q.taken];
    assert q.place[h] == Avail(q.taken);
    HeadsInFlight(q, cmds, f);
    if h in f.heads {
      NextTaken(q, cmds, f);
      assert InFlight(q, cmds, f, f.taken);
    }
    assert InFlight(q, cmds, f, k);
    if h in f.heads && k != f.taken { assert f.heads[k] != h; }
  }

  lemma TakeFences(q: Queue, cmds: seq<Cmd>, f: Fences)
    requires Transit(q) && FencesOk(q, cmds, f) && Enabled(q, DoTake)
    ensures FencesOk(Take(q), cmds, TakenOne(f, q.sent[q.taken]))
    ensures q.sent[q.taken] in f.heads ==> f.taken < |f.heads| && f.heads[f.taken] == q.sent[q.taken]
    ensures q.sent[q.taken] < |cmds| && (cmds[q.sent[q.taken]].request.Fence? <==> q.sent[q.taken] in f.heads)
  {
    var r, h := Take(q), q.sent[q.taken];
    var g := TakenOne(f, h);
    assert q.place[h] == Avail(q.taken);
    if h in f.heads {
      NextTaken(q, cmds, f);
      assert InFlight(q, cmds, f, f.taken);
    }
    hide InFlight;
    forall k | 0 <= k < |g.heads|
      ensures InFlight(r, cmds, g, k)
    {
      TakeInFlight(q, cmds, f, k);
    }
    forall j, k | 0 <= j < k < |g.heads|
      ensures Before(r, g.heads[j], g.heads[k])
    {
      assert Before(q, f.heads[j], f.heads[k]);
    }
  }

  // What the device holds, seen from the fences.
  lemma HeldFences(q: Queue, cmds: seq<Cmd>, f: Fences)
    requires FencesOk(q, cmds, f)
    ensures forall h :: h in f.heads[f.completed..f.taken] ==> h in HeldSet(q)
    ensures forall h :: h in HeldSet(q) && h in f.heads ==> h in f.heads[f.completed..f.taken]
    ensures forall h :: h in HeldSet(q) ==> h < |cmds| && (cmds[h].request.Fence? <==> h in f.heads)
  {
    forall h | h in f.heads[f.completed..f.taken]
      ensures h in HeldSet(q)
    {
      var k :| 0 <= k < f.taken - f.completed && f.heads[f.completed..f.taken][k] == h;
      assert InFlight(q, cmds, f, f.completed + k);
    }
    forall h | h in HeldSet(q) && h in f.heads
      ensures h in f.heads[f.completed..f.taken] && cmds[h].request.Fence?
    {
      var k :| 0 <= k < |f.heads| && f.heads[k] == h;
      assert InFlight(q, cmds, f, k);
      assert f.heads[f.completed..f.taken][k - f.completed] == h;
    }
  }

  // The device may complete a command unless an earlier fenced one is still to be completed.
  ghost predicate InOrder(f: Fences, h: nat) {
    h in f.heads ==> f.completed < |f.heads| && f.heads[f.completed] == h
  }

  function CompletedOne(f: Fences, h: nat): Fences {
    if h in f.heads then f.(completed := f.completed + 1) else f
  }

  lemma CompleteInFlight(q: Queue, cmds: seq<Cmd>, f: Fences, h: nat, k: nat)
    requires FencesOk(q, cmds, f) && Enabled(q, DoComplete(h)) && InOrder(f, h)
    requires h < |cmds| && k < |f.heads|
    ensures InFlight(Complete(q, h), cmds[h := cmds[h].(response := cmds[h].request)], CompletedOne(f, h), k)
  {
    HeadsInFlight(q, cmds, f);
    if h in f.heads { assert InFlight(q, cmds, f, f.completed); }
    assert InFlight(q, cmds, f, k);
    if h in f.heads && k != f.completed { assert f.heads[k] != h; }
  }

  lemma CompleteBefore(q: Queue, cmds: seq<Cmd>, f: Fences, h: nat, j: nat, k: nat)
    requires Transit(q) && FencesOk(q, cmds, f) && Enabled(q, DoComplete(h)) && InOrder(f, h)
    requires h < |cmds| && j < k < |f.heads|
    ensures Before(Complete(q, h), f.heads[j], f.heads[k])
  {
    if h in f.heads { assert InFlight(q, cmds, f, f.completed); }
    assert Before(q, f.heads[j], f.heads[k]) && InFlight(q, cmds, f, j) && InFlight(q, cmds, f, k);
    if f.heads[k] == h { assert Placed(q, f.heads[j]); }
  }

  lemma CompleteFences(q: Queue, cmds: seq<Cmd>, f: Fences, h: nat)
    requires Transit(q) && FencesOk(q, cmds, f) && Enabled(q, DoComplete(h)) && InOrder(f, h)
    requires h < |cmds|
    ensures FencesOk(Complete(q, h), cmds[h := cmds[h].(response := cmds[h].request)], CompletedOne(f, h))
  {
    hide InFlight, Before;
    var r, g, cmds' := Complete(q, h), CompletedOne(f, h), cmds[h := cmds[h].(response := cmds[h].request)];
    if h in f.heads { FirstHeld(q, cmds, f); }
    forall k | 0 <= k < |g.heads|
      ensures InFlight(r, cmds', g, k)
    {
      CompleteInFlight(q, cmds, f, h, k);
    }
    forall j, k | 0 <= j < k < |g.heads|
      ensures Before(r, g.heads[j], g.heads[k])
    {
      CompleteBefore(q, cmds, f, h, j, k);
    }
  }

  lemma FirstHeld(q: Queue, cmds: seq<Cmd>, f: Fences)
    requires FencesOk(q, cmds, f) && f.completed < |f.heads|
    requires f.heads[f.completed] in q.place && q.place[f.heads[f.completed]].Held?
    ensures f.completed < f.taken
  {
    assert InFlight(q, cmds, f, f.completed);
  }

  // The fence, if any, that comes back with the next used element is the oldest one outstanding.
  function Retired(f: Fences, h: nat): Fences {
    if h in f.heads && f.heads != [] && f.completed > 0 && f.taken > 0
    then Fences(f.heads[1..], f.completed - 1, f.taken - 1, f.retired + 1)
    else f
  }

  lemma RetiredInFlight(q: Queue, cmds: seq<Cmd>, f: Fences, k: nat)
    requires Transit(q) && FencesOk(q, cmds, f) && Enabled(q, DoReceive) && q.done[q.received] in f.heads
    requires k + 1 < |f.heads|
    ensures InFlight(Receive(q), cmds, Retired(f, q.done[q.received]), k)
  {
    HeadsInFlight(q, cmds, f);
    NextReceived(q, cmds, f);
    assert InFlight(q, cmds, f, k + 1);
  }

  lemma ReceiveFenced(q: Queue, cmds: seq<Cmd>, f: Fences)
    requires Transit(q) && FencesOk(q, cmds, f) && Enabled(q, DoReceive) && q.done[q.received] in f.heads
    ensures var h := q.done[q.received];
            && h < |cmds| && FencesOk(Receive(q), cmds, Retired(f, h))
            && Retired(f, h).retired == f.retired + 1 && |Retired(f, h).heads| == |f.heads| - 1
            && cmds[h].response == Fence(FenceId(f.retired + 1))
  {
    var r, h := Receive(q), q.done[q.received];
    assert q.place[h] == Used(q.received);
    NextReceived(q, cmds, f);
    assert InFlight(q, cmds, f, 0);
    var g := Retired(f, h);
    hide InFlight, Transit;
    forall k | 0 <= k < |g.heads|
      ensures InFlight(r, cmds, g, k)
    {
      RetiredInFlight(q, cmds, f, k);
    }
    forall j, k | 0 <= j < k < |g.heads|
      ensures Before(r, g.heads[j], g.heads[k])
    {
      assert Before(q, f.heads[j + 1], f.heads[k + 1]);
    }
    assert f.heads == [h] + g.heads;
  }

  lemma ReceivePlain(q: Queue, cmds: seq<Cmd>, f: Fences)
    requires Transit(q) && FencesOk(q, cmds, f) && Enabled(q, DoReceive) && q.done[q.received] !in f.heads
    ensures var h := q.done[q.received]; h < |cmds| && FencesOk(Receive(q), cmds, f) && cmds[h].response == Plain
  {
    var r, h := Receive(q), q.done[q.received];
    assert q.place[h] == Used(q.received);
    forall k | 0 <= k < |f.heads|
      ensures InFlight(r, cmds, f, k)
    {
      assert InFlight(q, cmds, f, k);
    }
    forall j, k | 0 <= j < k < |f.heads|
      ensures Before(r, f.heads[j], f.heads[k])
    {
      assert Before(q, f.heads[j], f.heads[k]);
    }
  }

  lemma ReceiveFences(q: Queue, cmds: seq<Cmd>, f: Fences)
    requires Transit(q) && FencesOk(q, cmds, f) && Enabled(q, DoReceive)
    ensures var h := q.done[q.received];
            && h < |cmds|
            && FencesOk(Receive(q), cmds, Retired(f, h))
            && (cmds[h].response == Plain ==> Retired(f, h) == f)
            && (cmds[h].response.Fence? ==>
                 && Retired(f, h).retired == f.retired + 1 && |Retired(f, h).heads| == |f.heads| - 1
                 && cmds[h].response.id == FenceId(f.retired + 1))
  {
    hide FencesOk, Transit;
    if q.done[q.received] in f.heads {
      ReceiveFenced(q, cmds, f);
    } else {
      ReceivePlain(q, cmds, f);
    }
  }

  // Receiving does not disturb what the device still works on.
  lemma PendingAfterReceive(q: Queue, cmds: seq<Cmd>, f: Fences)
    requires Transit(q) && FencesOk(q, cmds, f) && Enabled(q, DoReceive)
    ensures var g := Retired(f, q.done[q.received]);
            && g.completed <= g.taken <= |g.heads|
            && g.heads[g.completed..g.taken] == f.heads[f.completed..f.taken]
  {
    if q.done[q.received] in f.heads {
      NextReceived(q, cmds, f);
      assert f.heads[1..][f.completed - 1..f.taken - 1] == f.heads[f.completed..f.taken];
    }
  }

  lemma FewHeads(q: Queue, cmds: seq<Cmd>, f: Fences)
    requires Inv(q) && FencesOk(q, cmds, f)
    ensures |f.heads| <= q.num <= 32768
  {
    HeadsInFlight(q, cmds, f);
    ChainsFit(q);
    hide Ownership, Conserved, NoLostWakeup, BuffersStay;
    forall h | h in f.heads
      ensures h in Below(q.num)
    {
      assert Placed(q, h);
    }
    DistinctFits(f.heads, Below(q.num));
  }

  // fence_submitted == fence_completed exactly when no command in flight carries a fence, although both
  // are 32-bit numbers that wrap.
  lemma FenceEqualityIsExact(q: Queue, cmds: seq<Cmd>, f: Fences)
    requires Inv(q) && FencesOk(q, cmds, f)
    ensures FenceId(f.retired + |f.heads|) == FenceId(f.retired) <==>
            forall h :: h in q.place ==> cmds[h].request == Plain
    ensures FenceId(f.retired + |f.heads|) == FenceId(f.retired) <==> f.heads == []
  {
    HeadsInFlight(q, cmds, f);
    FewHeads(q, cmds, f);
    hide Transit, Ownership, Conserved, NoLostWakeup, BuffersStay;
    if f.heads != [] {
      SlotsDiffer(f.retired, f.retired + |f.heads|, U32);
      assert InFlight(q, cmds, f, 0);
      assert cmds[f.heads[0]].request != Plain;
    }
  }
}
