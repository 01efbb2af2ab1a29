// The FUSE operations of code/fuse-9p.c as they update the device structure in place. Each is proved to do
// what NinePFids.Apply says, for some replies of the server; every request it sends is in line.

module NinePClients {
  import opened NinePFids
  import opened NinePService
  import opened Words

  datatype Answer = Entry(ino: nat) | Opened(fh: nat) | Done | Failed | Aborted

  class Client {
    var nextFid: nat
    var freeFid: array<nat>
    var freeSize: nat
    var rootQid: nat
    var nodes: map<nat, Node>

    // What the server and the kernel know, together with what the fields above must be.
    ghost var state: State

    // free_cap is the length of the array.
    ghost predicate Valid()
      reads this, freeFid
    {
      && freeSize <= freeFid.Length
      && state.next == nextFid && state.stack == freeFid[..freeSize]
      && state.root == rootQid && state.nodes == nodes
    }

    // k fids can be freed before the 32-bit doubling of free_cap wraps.
    predicate Growable(k: nat)
      reads this
    {
      freeSize + k <= if freeFid.Length <= 0x8000_0000 then 0x8000_0000 else freeFid.Length
    }

    constructor (root: nat)
      ensures Valid() && state == Initial(root) && Inv(state) && fresh(freeFid)
    {
      nextFid, freeSize := 1, 0;
      freeFid := new nat[0];
      rootQid := root;
      nodes := map[ROOT_INO := Node(1, 0)];
      state := Initial(root);
      new;
      InitialHolds(root);
    }

    // virtio_9p_alloc_fid
    method TakeFid() returns (fid: nat)
      requires Valid()
      modifies `freeSize, `nextFid, `state
      ensures Valid() && (state, fid) == AllocFid(old(state))
    {
      state := AllocFid(state).0;
      if freeSize > 0 {
        freeSize := freeSize - 1;
        return freeFid[freeSize];
      }
      fid := nextFid;
      nextFid := (nextFid + 1) % U32;
    }

    // virtio_9p_free_fid
    method GiveFid(fid: nat)
      requires Valid() && Growable(1)
      modifies `freeFid, `freeSize, `state, freeFid
      ensures Valid() && state == FreeFid(old(state), fid)
      ensures freeFid == old(freeFid) || fresh(freeFid)
      ensures freeFid.Length >= old(freeFid.Length) && freeSize == old(freeSize) + 1
    {
      state := FreeFid(state, fid);
      if freeSize == freeFid.Length {
        var cap := Grown(freeFid.Length);
        GrowthIsExact(freeFid.Length);
        var larger, smaller := new nat[cap], freeFid;
        for i := 0 to freeSize
          modifies larger
          invariant larger[..i] == smaller[..i]
        {
          larger[i] := smaller[i];
        }
        freeFid := larger;
      }
      freeFid[freeSize] := fid;
      freeSize := freeSize + 1;
    }

    // virtio_9p_walk with a name
    method WalkTo(fid: nat, newfid: nat, name: string) returns (reply: NinePFids.Reply)
      requires fid in state.open && newfid !in state.open && newfid != NOFID
      modifies `state
      ensures reply.Granted? ==> state == Walk(old(state), fid, newfid, [name], reply.qid)
      ensures reply.Error? ==> state == WalkRefused(old(state), fid, newfid, [name])
    {
      reply := *;
      state := if reply.Granted? then Walk(state, fid, newfid, [name], reply.qid) else WalkRefused(state, fid, newfid, [name]);
    }

    // virtio_9p_walk without a name: newfid is opened on the file of fid.
    method Clone(fid: nat, newfid: nat) returns (ok: bool)
      requires fid in state.open && newfid !in state.open && newfid != NOFID
      modifies `state
      ensures ok ==> state == Walk(old(state), fid, newfid, [], old(state).open[fid])
      ensures !ok ==> state == WalkRefused(old(state), fid, newfid, [])
    {
      ok := *;
      state := if ok then Walk(state, fid, newfid, [], state.open[fid]) else WalkRefused(state, fid, newfid, []);
    }

    // virtio_9p_getattr, virtio_9p_lopen, and the other requests that only name a fid
    method Request(fid: nat, what: What) returns (ok: bool)
      requires fid in state.open
      modifies `state
      ensures state == Ask(old(state), fid, what)
    {
      ok := *;
      state := Ask(state, fid, what);
    }

    // virtio_9p_clunk. keeps: after an error the server still has the fid.
    method TryClunk(fid: nat) returns (ok: bool, ghost keeps: bool)
      requires Valid() && fid in state.open && Growable(1)
      modifies `freeFid, `freeSize, `state, freeFid
      ensures Valid()
      ensures ok ==> state == Clunk(old(state), fid)
      ensures !ok ==> var t := SendClunk(old(state), fid); state == t.(open := if keeps then t.open else t.open - {fid})
      ensures freeFid == old(freeFid) || fresh(freeFid)
      ensures freeFid.Length >= old(freeFid.Length) && freeSize == old(freeSize) + if ok then 1 else 0
    {
      ok := *;
      var drops: bool := *;
      keeps := !drops;
      state := SendClunk(state, fid);
      if ok {
        state := state.(open := state.open - {fid});
        GiveFid(fid);
      } else if drops {
        state := state.(open := state.open - {fid});
      }
    }

    // assert(virtio_9p_clunk(dev, fid) == 0): on an error the program ends.
    method MustClunk(fid: nat) returns (ok: bool)
      requires Valid() && fid in state.open && Growable(1)
      modifies `freeFid, `freeSize, `state, freeFid
      ensures Valid() && state == AssertedClunk(old(state), fid, ok)
      ensures freeFid == old(freeFid) || fresh(freeFid)
      ensures freeFid.Length >= old(freeFid.Length) && freeSize == old(freeSize) + if ok then 1 else 0
    {
      ghost var before := state;
      ghost var keeps;
      ok, keeps := TryClunk(fid);
      if !ok {
        state := SendClunk(before, fid).(status := Refused);
      }
    }

    // virtio_9p_op_lookup, lines 685-697
    method AlreadyKnown(ino: nat, newfid: nat) returns (answer: Answer, clunkOk: bool, getattrOk: bool)
      requires Valid() && Held(state, {newfid}) && newfid in state.open && ino in nodes && Growable(1)
      modifies this, freeFid
      ensures Valid() && (freeFid == old(freeFid) || fresh(freeFid))
      ensures state == FoundNode(old(state), ino, newfid, clunkOk, getattrOk)
      ensures answer == if !clunkOk then Aborted else if getattrOk then Answer.Entry(ino) else Failed
      ensures if answer.Aborted? then state.status.Refused? else Inv(state)
    {
      hide Held;
      ghost var w := state;
      HeldIsRunning(w, {newfid});
      getattrOk := true;
      FoundKeeps(w, ino, newfid, true, true);
      clunkOk := MustClunk(newfid);
      if !clunkOk {
        return Aborted, clunkOk, getattrOk;
      }
      getattrOk := Request(nodes[ino].fid, Attributes);
      FoundKeeps(w, ino, newfid, true, getattrOk);
      if !getattrOk {
        return Failed, clunkOk, getattrOk;
      }
      state := Grant(state, ino, Node(nodes[ino].nlookup + 1, nodes[ino].fid));
      nodes := nodes[ino := Node(nodes[ino].nlookup + 1, nodes[ino].fid)];
      return Answer.Entry(ino), clunkOk, getattrOk;
    }

    // virtio_9p_op_lookup, lines 700-717
    method NewlyKnown(ino: nat, newfid: nat) returns (answer: Answer, clunkOk: bool, getattrOk: bool)
      requires Valid() && Held(state, {newfid}) && newfid in state.open && ino !in nodes && Growable(1)
      requires ino == Fix(rootQid, state.open[newfid])
      modifies this, freeFid
      ensures Valid() && (freeFid == old(freeFid) || fresh(freeFid))
      ensures state == FreshNode(old(state), ino, newfid, clunkOk, getattrOk)
      ensures answer == if getattrOk then Answer.Entry(ino) else if clunkOk then Failed else Aborted
      ensures if answer.Aborted? then state.status.Refused? else Inv(state)
    {
      hide Held;
      ghost var w := state;
      HeldIsRunning(w, {newfid});
      clunkOk := true;
      AskKeeps(w, newfid, Attributes, {newfid});
      getattrOk := Request(newfid, Attributes);
      if !getattrOk {
        clunkOk := MustClunk(newfid);
        FreshKeeps(w, ino, newfid, clunkOk, getattrOk);
        return if clunkOk then Failed else Aborted, clunkOk, getattrOk;
      }
      FreshKeeps(w, ino, newfid, clunkOk, getattrOk);
      state := Grant(state, ino, Node(1, newfid));
      nodes := nodes[ino := Node(1, newfid)];
      return Answer.Entry(ino), clunkOk, getattrOk;
    }

    // virtio_9p_op_lookup
    method Look(parent: nat, name: string) returns (answer: Answer, ghost op: Op)
      requires Valid() && Inv(state) && Known(state, parent) && FidRoom(state) && Growable(1)
      modifies this, freeFid
      ensures Valid() && (freeFid == old(freeFid) || fresh(freeFid))
      ensures op.Lookup? && op.parent == parent && op.name == name && state == Apply(old(state), op)
      ensures KernelOf(state) == Served(KernelOf(old(state)), op, 0)
      ensures answer.Entry? ==> op.walk.Granted? && answer.ino == InodeOf(KernelOf(old(state)), op.walk.qid)
      ensures if answer.Aborted? then state.status.Refused? else Inv(state)
      ensures answer.Entry? ==> answer.ino in nodes && Balance(state, answer.ino) == Balance(old(state), answer.ino) + 1
      ensures answer.Failed? ==> state.ledger == old(state).ledger && nodes == old(nodes)
    {
      hide Held, FoundNode, FreshNode, Served, Fix, InodeOf;
      ghost var s := state;
      FixIsInodeOf(s);
      HeldIsRunning(s, {});
      KnownNode(s, parent);
      AllocKeeps(s);
      assert parent in nodes;
      var fid := nodes[parent].fid;
      var newfid := TakeFid();
      ghost var a := state;
      HeldIsRunning(a, {newfid});
      var walk := WalkTo(fid, newfid, name);
      if walk.Error? {
        WalkKeeps(a, fid, newfid, [name], 0);
        FreeKeeps(state, newfid);
        GiveFid(newfid);
        op := Lookup(parent, name, walk, true, true);
        LookupIsServed(s, op);
        return Failed, op;
      }
      WalkKeeps(a, fid, newfid, [name], walk.qid);
      ghost var w := state;
      var ino := Fix(rootQid, walk.qid);
      var clunkOk, getattrOk;
      if ino in nodes {
        answer, clunkOk, getattrOk := AlreadyKnown(ino, newfid);
        FoundCounts(w, ino, newfid, clunkOk, getattrOk);
      } else {
        answer, clunkOk, getattrOk := NewlyKnown(ino, newfid);
        FreshCounts(w, ino, newfid, clunkOk, getattrOk);
      }
      op := Lookup(parent, name, walk, clunkOk, getattrOk);
      LookupIsServed(s, op);
    }

    // virtio_9p_op_forget, and one turn of virtio_9p_op_forget_multi
    method Drop(ino: nat, n: nat) returns (ok: bool)
      requires Valid() && Inv(state) && ForgetLegal(state, ino, n) && Growable(1)
      modifies this, freeFid
      ensures Valid() && state == DoForget(old(state), ino, n, ok)
      ensures KernelOf(state) == Forgotten(KernelOf(old(state)), ino, n, ok)
      ensures freeFid == old(freeFid) || fresh(freeFid)
      ensures ok ==> Inv(state)
      ensures !ok ==> state.status.Refused?
      ensures freeFid.Length >= old(freeFid.Length) && freeSize <= old(freeSize) + 1
    {
      hide Held, DoForget, Clunk, AssertedClunk, ForgetLegal, Forgotten;
      ghost var s := state;
      ForgetServes(s, ino, n, true);
      ForgetServes(s, ino, n, false);
      ForgetIs(s, ino, n, true);
      ForgetIs(s, ino, n, false);
      assert ino in nodes && n <= nodes[ino].nlookup;
      var node := Node(nodes[ino].nlookup - n, nodes[ino].fid);
      state := Lowered(s, ino, n);
      ok := true;
      if node.nlookup > 0 {
        nodes := nodes[ino := node];
      } else {
        nodes := nodes - {ino};
        ok := MustClunk(node.fid);
        ClunkIsAsserted(Lowered(s, ino, n), node.fid);
      }
    }

    // virtio_9p_op_forget_multi. The kernel's batch is legal if it would be with every clunk granted.
    method DropMany(batch: seq<(nat, nat)>) returns (ghost items: seq<Item>)
      requires Valid() && Inv(state) && Growable(|batch|) && ForgetsLegal(state, Granting(batch))
      modifies this, freeFid
      ensures Valid() && |items| == |batch|
      ensures forall k :: 0 <= k < |items| ==> items[k].ino == batch[k].0 && items[k].n == batch[k].1
      ensures state == DoForgetMulti(old(state), items)
      ensures KernelOf(state) == AllForgotten(KernelOf(old(state)), items)
      ensures state.status.Refused? || Inv(state)
    {
      hide Held, ForgetLegal, DoForget, Granting, DoForgetMulti, ForgetsLegal, Fix, Balance, AllocFid, Forgotten, AllForgotten;
      ghost var s := state;
      HeldIsRunning(s, {});
      items := [];
      Beginning(s, batch);
      for i := 0 to |batch|
        invariant Valid() && (freeFid == old(freeFid) || fresh(freeFid))
        invariant |items| == i && state == DoForgetMulti(s, items) && Inv(state)
        invariant KernelOf(state) == AllForgotten(KernelOf(s), items)
        invariant forall k :: 0 <= k < i ==> items[k].ino == batch[k].0 && items[k].n == batch[k].1
        invariant Growable(|batch| - i) && ForgetsLegal(state, Granting(batch[i..]))
      {
        HeldIsRunning(state, {});
        GrantingStep(state, batch, i);
        ghost var before := state;
        var ok := Drop(batch[i].0, batch[i].1);
        ghost var item := Item(batch[i].0, batch[i].1, ok);
        ForgetOneMore(s, items, before, item);
        if !ok {
          ghost var rest := Granting(batch[i + 1..]);
          ForgetNoMore(s, items + [item], state, rest);
          items := items + [item] + rest;
          return;
        }
        items := items + [item];
      }
    }

    // virtio_9p_op_open, lines 805-813, and virtio_9p_op_opendir, lines 876-884
    method OpenNewFid(ghost ino: nat, newfid: nat, flags: nat) returns (answer: Answer, lopenOk: bool, clunkOk: bool)
      requires Valid() && Held(state, {newfid}) && newfid in state.open && Growable(1)
      requires state.open[newfid] == Fix(state.root, ino)
      modifies this, freeFid
      ensures Valid() && (freeFid == old(freeFid) || fresh(freeFid))
      ensures state == OpenFid(old(state), ino, newfid, flags, lopenOk, clunkOk)
      ensures answer == if lopenOk then Opened(newfid) else if clunkOk then Failed else Aborted
      ensures if answer.Aborted? then state.status.Refused? else Inv(state)
    {
      hide Held;
      ghost var w := state;
      HeldIsRunning(w, {newfid});
      lopenOk := Request(newfid, OpenIt(flags));
      clunkOk := true;
      if !lopenOk {
        clunkOk := MustClunk(newfid);
        OpenFidKeeps(w, ino, newfid, flags, lopenOk, clunkOk);
        return if clunkOk then Failed else Aborted, lopenOk, clunkOk;
      }
      OpenFidKeeps(w, ino, newfid, flags, lopenOk, clunkOk);
      state := state.(handles := state.handles[newfid := ino]);
      return Opened(newfid), lopenOk, clunkOk;
    }

    // virtio_9p_op_open, virtio_9p_op_opendir: the handle returned is open on the file of the inode.
    method OpenNode(ino: nat, flags: nat) returns (answer: Answer, ghost op: Op)
      requires Valid() && Inv(state) && Known(state, ino) && FidRoom(state) && Growable(1)
      modifies this, freeFid
      ensures Valid() && (freeFid == old(freeFid) || fresh(freeFid))
      ensures op.Open? && op.ino == ino && op.flags == flags && state == Apply(old(state), op)
      ensures if answer.Aborted? then state.status.Refused? else Inv(state)
      ensures KernelOf(state) == Served(KernelOf(old(state)), op, if answer.Opened? then answer.fh else 0)
      ensures answer.Opened? ==> Fresh(KernelOf(old(state)), answer.fh) && state.handles == old(state).handles[answer.fh := ino]
      ensures answer.Opened? ==> answer.fh in state.open && state.open[answer.fh] == FileAt(KernelOf(state), ino)
      ensures answer.Failed? ==> state.handles == old(state).handles
    {
      hide Held, OpenFid;
      ghost var s := state;
      HeldIsRunning(s, {});
      KnownNode(s, ino);
      AllocKeeps(s);
      assert ino in nodes;
      var fid := nodes[ino].fid;
      var newfid := TakeFid();
      ghost var a := state;
      HeldIsRunning(a, {newfid});
      WalkKeeps(a, fid, newfid, [], s.open[fid]);
      var ok := Clone(fid, newfid);
      if !ok {
        FreeKeeps(state, newfid);
        GiveFid(newfid);
        op := Open(ino, flags, false, true, true);
        OpenIsServed(s, op);
        return Failed, op;
      }
      OpenFidKeeps(state, ino, newfid, flags, true, true);
      var lopenOk, clunkOk;
      answer, lopenOk, clunkOk := OpenNewFid(ino, newfid, flags);
      op := Open(ino, flags, true, lopenOk, clunkOk);
      OpenIsServed(s, op);
      if answer.Opened? {
        HandleIsForItsFile(state, newfid);
        FixIsInodeOf(state);
      }
    }

    // virtio_9p_op_release, virtio_9p_op_releasedir
    method ReleaseHandle(fh: nat) returns (answer: Answer, ghost op: Op)
      requires Valid() && Inv(state) && fh in state.handles && Growable(1)
      modifies this, freeFid
      ensures Valid() && Inv(state) && (freeFid == old(freeFid) || fresh(freeFid))
      ensures op.Release? && op.fh == fh && state == Apply(old(state), op)
      ensures KernelOf(state) == Served(KernelOf(old(state)), op, 0)
      ensures fh !in state.handles && (answer.Failed? <==> fh in state.lost)
    {
      hide Held;
      ghost var s := state;
      HeldIsRunning(s, {});
      DropHandleKeeps(s, fh);
      assert fh != 0;
      state := s.(handles := s.handles - {fh});
      PendingIsNoHandle(state, fh);
      ghost var keeps;
      var ok;
      ok, keeps := TryClunk(fh);
      op := Release(fh, ok, keeps);
      ReleaseKeeps(s, fh, ok, keeps);
      ApplyServes(s, op);
      if !ok {
        state := state.(lost := state.lost + {fh});
        return Failed, op;
      }
      return Done, op;
    }

    // virtio_9p_op_read and virtio_9p_op_readdir, up to the answer
    method UseHandle(fh: nat, what: What) returns (ok: bool, ghost op: Op)
      requires Valid() && Inv(state) && fh in state.handles
      modifies `state
      ensures Valid() && Inv(state)
      ensures op == NinePFids.UseHandle(fh, what) && state == Apply(old(state), op)
      ensures KernelOf(state) == Served(KernelOf(old(state)), op, 0)
    {
      hide Held;
      op := NinePFids.UseHandle(fh, what);
      HeldIsRunning(state, {});
      ApplyKeeps(state, op);
      ApplyServes(state, op);
      DropHandleKeeps(state, fh);
      assert fh != 0;
      ok := Request(fh, what);
    }

    // virtio_9p_op_getattr, virtio_9p_op_readlink and virtio_9p_op_statfs, up to the answer
    method UseNode(ino: nat, what: What) returns (ok: bool, ghost op: Op)
      requires Valid() && Inv(state) && Known(state, ino)
      modifies `state
      ensures Valid() && Inv(state)
      ensures op == NinePFids.UseNode(ino, what) && state == Apply(old(state), op)
      ensures KernelOf(state) == Served(KernelOf(old(state)), op, 0)
    {
      hide Held;
      op := NinePFids.UseNode(ino, what);
      HeldIsRunning(state, {});
      KnownNode(state, ino);
      ApplyKeeps(state, op);
      ApplyServes(state, op);
      ok := Request(nodes[ino].fid, what);
    }
  }

  lemma LookupIsServed(s: State, op: Op)
    requires Inv(s) && op.Lookup? && Known(s, op.parent) && FidRoom(s)
    ensures KernelOf(Apply(s, op)) == Served(KernelOf(s), op, 0)
  {
    hide Held, Looked;
    ApplyServes(s, op);
  }

  // An open that fails makes no handle.
  lemma OpenIsServed(s: State, op: Op)
    requires Inv(s) && op.Open? && Known(s, op.ino) && FidRoom(s)
    ensures var fh := AllocFid(s).1;
      && KernelOf(Apply(s, op)) == Served(KernelOf(s), op, if op.walkOk && op.lopenOk then fh else 0)
      && Fresh(KernelOf(s), fh)
      && Apply(s, op).handles == if op.walkOk && op.lopenOk then s.handles[fh := op.ino] else s.handles
  {
    hide Held, DoOpen;
    HeldIsRunning(s, {});
    ApplyServes(s, op);
  }

  function Granting(batch: seq<(nat, nat)>): (items: seq<Item>)
    ensures |items| == |batch|
    ensures forall k :: 0 <= k < |batch| ==> items[k] == Item(batch[k].0, batch[k].1, true)
  {
    seq(|batch|, k requires 0 <= k < |batch| => Item(batch[k].0, batch[k].1, true))
  }

  lemma GrantingStep(s: State, batch: seq<(nat, nat)>, i: nat)
    requires i < |batch| && s.status.Running? && ForgetsLegal(s, Granting(batch[i..]))
    ensures ForgetLegal(s, batch[i].0, batch[i].1)
    ensures ForgetsLegal(DoForget(s, batch[i].0, batch[i].1, true), Granting(batch[i + 1..]))
  {
    assert Granting(batch[i..])[1..] == Granting(batch[i + 1..]);
  }

  lemma Beginning(s: State, batch: seq<(nat, nat)>)
    ensures batch[0..] == batch && DoForgetMulti(s, []) == s && AllForgotten(KernelOf(s), []) == KernelOf(s)
  {
  }

  lemma ClunkIsAsserted(t: State, f: nat)
    ensures AssertedClunk(t, f, true) == Clunk(t, f)
  {
  }

  // One more forget of a batch.
  lemma ForgetOneMore(s: State, items: seq<Item>, t: State, item: Item)
    requires t.status.Running? && t == DoForgetMulti(s, items) && KernelOf(t) == AllForgotten(KernelOf(s), items)
    ensures DoForgetMulti(s, items + [item]) == DoForget(t, item.ino, item.n, item.clunkOk)
    ensures AllForgotten(KernelOf(s), items + [item]) == Forgotten(KernelOf(t), item.ino, item.n, item.clunkOk)
  {
    ForgetMultiAppend(s, items, [item]);
    ForgottenAppend(KernelOf(s), items, [item]);
    hide DoForget, Forgotten;
    assert [item][1..] == [];
  }

  // After a refusal nothing more happens.
  lemma ForgetNoMore(s: State, items: seq<Item>, t: State, rest: seq<Item>)
    requires t.status.Refused? && t == DoForgetMulti(s, items) && KernelOf(t) == AllForgotten(KernelOf(s), items)
    ensures DoForgetMulti(s, items + rest) == t && AllForgotten(KernelOf(s), items + rest) == KernelOf(t)
  {
    ForgetMultiAppend(s, items, rest);
    ForgottenAppend(KernelOf(s), items, rest);
  }

  lemma FoundCounts(w: State, ino: nat, f: nat, clunkOk: bool, getattrOk: bool)
    requires ino in w.nodes
    ensures var t := FoundNode(w, ino, f, clunkOk, getattrOk);
      if clunkOk && getattrOk then ino in t.nodes && Balance(t, ino) == Balance(w, ino) + 1
      else t.ledger == w.ledger && t.nodes == w.nodes
  {
  }

  lemma FreshCounts(w: State, ino: nat, f: nat, clunkOk: bool, getattrOk: bool)
    ensures var t := FreshNode(w, ino, f, clunkOk, getattrOk);
      if getattrOk then ino in t.nodes && Balance(t, ino) == Balance(w, ino) + 1
      else t.ledger == w.ledger && t.nodes == w.nodes
  {
  }
}
