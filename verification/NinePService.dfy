// What the FUSE client of code/fuse-9p.c does for the kernel, without fids and nodes: which files the server
// is asked about, what the kernel is granted, and which file an open handle stands for. The client of
// NinePFids is proved to do exactly this.

module NinePService {
  import opened NinePFids

  // Inodes with the lookups granted and not forgotten, handles with the inodes that they were opened for,
  // and the requests so far. It ends when the server refuses a clunk that is asserted.
  datatype Kernel = Kernel(root: nat, ledger: map<nat, nat>, handles: map<nat, nat>, log: seq<Request>, running: bool)

  function KernelOf(s: State): Kernel {
    Kernel(s.root, s.ledger, s.handles, s.log, s.status.Running?)
  }

  // The kernel has been granted the inode and has not given it back. The root is there from the start.
  predicate Grants(k: Kernel, ino: nat) {
    ino == ROOT_INO || (ino in k.ledger && k.ledger[ino] > 0)
  }

  // The root has inode 1, a file whose qid is 1 has the root's qid for an inode, and any other its own.
  function InodeOf(k: Kernel, file: nat): nat {
    if file == k.root then ROOT_INO else if file == ROOT_INO then k.root else file
  }

  // The server file of an inode: the same the other way round.
  function FileAt(k: Kernel, ino: nat): (file: nat)
    ensures InodeOf(k, file) == ino
  {
    if ino == ROOT_INO then k.root else if ino == k.root then ROOT_INO else ino
  }

  function Send(k: Kernel, r: Request): Kernel {
    k.(log := k.log + [r])
  }

  // A clunk that must succeed.
  function Close(k: Kernel, file: nat, ok: bool): Kernel {
    Send(k, Clunked(file)).(running := ok)
  }

  // One more lookup of the inode is granted.
  function Reply(k: Kernel, ino: nat): Kernel {
    k.(ledger := k.ledger[ino := (if ino in k.ledger then k.ledger[ino] else 0) + 1])
  }

  // lookup: walk from the parent to the name, and ask for the attributes of the file found. A second fid
  // on a file that the kernel knows is closed at once; one on a new file if there are no attributes.
  function Looked(k: Kernel, parent: nat, name: string, walk: NinePFids.Reply, clunkOk: bool, getattrOk: bool): Kernel {
    var a := Send(k, Walked(FileAt(k, parent), [name]));
    match walk
    case Error => a
    case Granted(file) =>
      if Grants(k, InodeOf(k, file)) then FoundAgain(a, file, clunkOk, getattrOk) else FoundFirst(a, file, clunkOk, getattrOk)
  }

  function FoundAgain(k: Kernel, file: nat, clunkOk: bool, getattrOk: bool): Kernel {
    var a := Close(k, file, clunkOk);
    if !clunkOk then a
    else
      var b := Send(a, Asked(file, Attributes));
      if getattrOk then Reply(b, InodeOf(k, file)) else b
  }

  function FoundFirst(k: Kernel, file: nat, clunkOk: bool, getattrOk: bool): Kernel {
    var a := Send(k, Asked(file, Attributes));
    if getattrOk then Reply(a, InodeOf(k, file)) else Close(a, file, clunkOk)
  }

  // forget: a file that the kernel does not know any more is closed.
  function Forgotten(k: Kernel, ino: nat, n: nat, clunkOk: bool): Kernel {
    var left := (if ino in k.ledger then k.ledger[ino] else 0) - n;
    var a := k.(ledger := k.ledger[ino := if left < 0 then 0 else left]);
    if Grants(a, ino) then a else Close(a, FileAt(k, ino), clunkOk)
  }

  function AllForgotten(k: Kernel, items: seq<Item>): Kernel
    decreases |items|
  {
    if items == [] || !k.running then k
    else AllForgotten(Forgotten(k, items[0].ino, items[0].n, items[0].clunkOk), items[1..])
  }

  lemma {:induction false} ForgottenAppend(k: Kernel, items: seq<Item>, more: seq<Item>)
    ensures AllForgotten(k, items + more) == AllForgotten(AllForgotten(k, items), more)
    decreases |items|
  {
    if items == [] {
      assert items + more == more;
    } else if k.running {
      assert (items + more)[1..] == items[1..] + more;
      ForgottenAppend(Forgotten(k, items[0].ino, items[0].n, items[0].clunkOk), items[1..], more);
    }
  }

  // open: the file of the inode is opened, and the new handle stands for it.
  function MadeHandle(k: Kernel, ino: nat, flags: nat, walkOk: bool, lopenOk: bool, clunkOk: bool, fh: nat): Kernel {
    var a := Send(k, Walked(FileAt(k, ino), []));
    if !walkOk then a
    else
      var b := Send(a, Asked(FileAt(k, ino), OpenIt(flags)));
      if lopenOk then b.(handles := b.handles[fh := ino]) else Close(b, FileAt(k, ino), clunkOk)
  }

  // One operation; fh is the handle that an open returns. What is served for a handle is served for the
  // file that it was opened for.
  function Served(k: Kernel, op: Op, fh: nat): Kernel {
    if !k.running then k
    else
      match op
      case Lookup(parent, name, walk, clunkOk, getattrOk) => Looked(k, parent, name, walk, clunkOk, getattrOk)
      case Forget(ino, n, clunkOk) => Forgotten(k, ino, n, clunkOk)
      case ForgetMulti(items) => AllForgotten(k, items)
      case Open(ino, flags, walkOk, lopenOk, clunkOk) => MadeHandle(k, ino, flags, walkOk, lopenOk, clunkOk, fh)
      case Release(h, _, _) =>
        if h !in k.handles then k else Send(k, Clunked(FileAt(k, k.handles[h]))).(handles := k.handles - {h})
      case UseHandle(h, what) => if h !in k.handles then k else Send(k, Asked(FileAt(k, k.handles[h]), what))
      case UseNode(ino, what) => Send(k, Asked(FileAt(k, ino), what))
  }

  // A handle is not 0, and no other open handle has the same number.
  predicate Fresh(k: Kernel, fh: nat) {
    fh != 0 && fh !in k.handles
  }

  // ---- The client does this ----

  // Its nodes are the inodes that the kernel knows, each with a fid on the right file.
  lemma NodesAreGrants(s: State, ino: nat)
    requires Inv(s)
    ensures ino in s.nodes <==> Grants(KernelOf(s), ino)
    ensures ino in s.nodes ==> s.nodes[ino].fid in s.open && s.open[s.nodes[ino].fid] == FileAt(KernelOf(s), ino)
  {
    NodeWhileLookedUp(s, ino);
    FixIsInvolution(s.root, ino, ino);
  }

  lemma FixIsInodeOf(s: State)
    ensures forall file: nat :: Fix(s.root, file) == InodeOf(KernelOf(s), file) == FileAt(KernelOf(s), file)
  {
  }

  lemma FoundServes(w: State, ino: nat, f: nat, clunkOk: bool, getattrOk: bool)
    requires Held(w, {f}) && f in w.open && ino in w.nodes && ino == Fix(w.root, w.open[f])
    ensures KernelOf(FoundNode(w, ino, f, clunkOk, getattrOk)) == FoundAgain(KernelOf(w), w.open[f], clunkOk, getattrOk)
  {
    hide Held, Nodes, Fix;
    HeldIsRunning(w, {f});
    NodeIsOnFile(w, ino);
    PendingHasNoNode(w, ino, f);
    FixIsInodeOf(w);
  }

  lemma PendingHasNoNode(w: State, ino: nat, f: nat)
    requires Held(w, {f}) && ino in w.nodes
    ensures w.nodes[ino].fid != f
  {
    NodeIsOnFile(w, ino);
  }

  lemma NodeIsOnFile(w: State, ino: nat)
    requires Nodes(w) && ino in w.nodes
    ensures w.nodes[ino].fid in w.open && Fix(w.root, w.open[w.nodes[ino].fid]) == ino && OfNode(w, w.nodes[ino].fid)
    ensures forall file: nat :: ino == Fix(w.root, file) ==> w.open[w.nodes[ino].fid] == file
  {
    FixIsInvolution(w.root, ino, ino);
    forall file: nat | ino == Fix(w.root, file)
      ensures w.open[w.nodes[ino].fid] == file
    {
      FixIsInvolution(w.root, file, file);
    }
  }

  lemma FreshServes(w: State, ino: nat, f: nat, clunkOk: bool, getattrOk: bool)
    requires f in w.open && w.status.Running? && ino == Fix(w.root, w.open[f])
    ensures KernelOf(FreshNode(w, ino, f, clunkOk, getattrOk)) == FoundFirst(KernelOf(w), w.open[f], clunkOk, getattrOk)
  {
    FixIsInodeOf(w);
  }

  lemma LookupServes(s: State, parent: nat, name: string, walk: NinePFids.Reply, clunkOk: bool, getattrOk: bool)
    requires Inv(s) && Known(s, parent) && FidRoom(s)
    ensures KernelOf(DoLookup(s, parent, name, walk, clunkOk, getattrOk)) ==
            Looked(KernelOf(s), parent, name, walk, clunkOk, getattrOk)
  {
    hide Held, FoundNode, FreshNode, FoundAgain, FoundFirst;
    HeldIsRunning(s, {});
    KnownNode(s, parent);
    NodesAreGrants(s, parent);
    AllocKeeps(s);
    var (a, f) := AllocFid(s);
    var fid := s.nodes[parent].fid;
    HeldIsRunning(a, {f});
    FixIsInodeOf(s);
    if walk.Granted? {
      WalkKeeps(a, fid, f, [name], walk.qid);
      var w, ino := Walk(a, fid, f, [name], walk.qid), Fix(s.root, walk.qid);
      HeldIsRunning(w, {f});
      NodesAreGrants(s, ino);
      if ino in w.nodes {
        FoundServes(w, ino, f, clunkOk, getattrOk);
      } else {
        FreshServes(w, ino, f, clunkOk, getattrOk);
      }
    }
  }

  lemma ForgetServes(s: State, ino: nat, n: nat, clunkOk: bool)
    requires Inv(s) && ForgetLegal(s, ino, n)
    ensures KernelOf(DoForget(s, ino, n, clunkOk)) == Forgotten(KernelOf(s), ino, n, clunkOk)
  {
    hide Held;
    HeldIsRunning(s, {});
    KnownNode(s, ino);
    NodesAreGrants(s, ino);
    NodeWhileLookedUp(s, ino);
  }

  lemma {:induction false} ForgetMultiServes(s: State, items: seq<Item>)
    requires Inv(s) && ForgetsLegal(s, items)
    ensures KernelOf(DoForgetMulti(s, items)) == AllForgotten(KernelOf(s), items)
    decreases |items|
  {
    hide Held, Forgotten, DoForget, ForgetLegal;
    HeldIsRunning(s, {});
    if items != [] {
      ForgetServes(s, items[0].ino, items[0].n, items[0].clunkOk);
      ForgetKeeps(s, items[0].ino, items[0].n, items[0].clunkOk);
      var t := DoForget(s, items[0].ino, items[0].n, items[0].clunkOk);
      if !t.status.Refused? {
        ForgetMultiServes(t, items[1..]);
      }
    }
  }

  lemma OpenServes(s: State, ino: nat, flags: nat, walkOk: bool, lopenOk: bool, clunkOk: bool)
    requires Inv(s) && Known(s, ino) && FidRoom(s)
    ensures KernelOf(DoOpen(s, ino, flags, walkOk, lopenOk, clunkOk)) ==
            MadeHandle(KernelOf(s), ino, flags, walkOk, lopenOk, clunkOk, AllocFid(s).1)
    ensures Fresh(KernelOf(s), AllocFid(s).1)
  {
    AllocKeeps(s);
    PendingIsNoHandle(AllocFid(s).0, AllocFid(s).1);
    hide Held;
    HeldIsRunning(s, {});
    KnownNode(s, ino);
    NodesAreGrants(s, ino);
  }

  // One operation of the client is one operation of the service.
  lemma ApplyServes(s: State, op: Op)
    requires Inv(s) && Legal(s, op) && (Allocates(op) ==> FidRoom(s))
    ensures KernelOf(Apply(s, op)) == Served(KernelOf(s), op, AllocFid(s).1)
    ensures op.Open? ==> Fresh(KernelOf(s), AllocFid(s).1)
  {
    HeldIsRunning(s, {});
    FixIsInodeOf(s);
    match op
    case Lookup(parent, name, walk, clunkOk, getattrOk) =>
      hide Looked, DoLookup;
      LookupServes(s, parent, name, walk, clunkOk, getattrOk);
    case Forget(ino, n, clunkOk) => ForgetServes(s, ino, n, clunkOk);
    case ForgetMulti(items) => ForgetMultiServes(s, items);
    case Open(ino, flags, walkOk, lopenOk, clunkOk) => OpenServes(s, ino, flags, walkOk, lopenOk, clunkOk);
    case Release(fh, _, _) => HandleIsForItsFile(s, fh);
    case UseHandle(fh, _) => HandleIsForItsFile(s, fh);
    case UseNode(ino, _) => NodesAreGrants(s, ino);
  }

  // ---- Runs ----

  // A run of the service, in which each open returns a handle of these.
  function AfterService(k: Kernel, ops: seq<Op>, fhs: seq<nat>): Kernel
    requires |fhs| == |ops|
    decreases |ops|
  {
    if ops == [] then k else AfterService(Served(k, ops[0], fhs[0]), ops[1..], fhs[1..])
  }

  predicate HandlesAreFresh(k: Kernel, ops: seq<Op>, fhs: seq<nat>)
    requires |fhs| == |ops|
    decreases |ops|
  {
    ops == [] || ((k.running && ops[0].Open? ==> Fresh(k, fhs[0])) && HandlesAreFresh(Served(k, ops[0], fhs[0]), ops[1..], fhs[1..]))
  }

  lemma {:induction false} StoppedService(k: Kernel, ops: seq<Op>, fhs: seq<nat>)
    requires |fhs| == |ops| && !k.running
    ensures AfterService(k, ops, fhs) == k && HandlesAreFresh(k, ops, fhs)
    decreases |ops|
  {
    if ops != [] {
      StoppedService(k, ops[1..], fhs[1..]);
    }
  }

  // Every run of the client, with its fids, is a run of the service, without.
  lemma {:induction false} RunServes(s: State, ops: seq<Op>) returns (fhs: seq<nat>)
    requires Inv(s) && LegalRun(s, ops)
    ensures |fhs| == |ops| && HandlesAreFresh(KernelOf(s), ops, fhs)
    ensures KernelOf(After(s, ops)) == AfterService(KernelOf(s), ops, fhs)
    decreases |ops|
  {
    hide Held, Served, Apply, Legal;
    HeldIsRunning(s, {});
    if ops == [] {
      fhs := [];
    } else {
      ApplyServes(s, ops[0]);
      ApplyKeeps(s, ops[0]);
      var t, rest := Apply(s, ops[0]), ops[1..];
      var others: seq<nat> := seq(|rest|, i => 0);
      if t.status.Refused? {
        StoppedStays(t, rest);
        StoppedService(KernelOf(t), rest, others);
      } else {
        others := RunServes(t, rest);
      }
      fhs := [AllocFid(s).1] + others;
      assert fhs[1..] == others;
    }
  }
}
