// Fids, nodes and lookup counts of code/fuse-9p.c: what the client believes, what the server has open,
// and what the kernel has been granted. Replies of the server are part of each operation.

module NinePFids {
  import opened SeqFacts
  import opened Words

  const NOFID := 0xFFFF_FFFF
  const ROOT_INO := 1

  // struct virtio_9p_node, without its key.
  datatype Node = Node(nlookup: nat, fid: nat)

  // Refused: the server answered a clunk with an error where the source asserts that it does not.
  // Violated: a request named a fid the server does not have open, or walked to one that it has, or
  // one of the source's own assertions about nodes and handles failed.
  datatype Status = Running | Refused | Violated

  // A request as the server understands it: the file that its fid is open on, and what is asked. A walk
  // without names opens one more fid on the same file.
  datatype What =
    | Attributes | LinkTarget | FileSystem | OpenIt(flags: nat)
    | Bytes(offset: nat, size: nat) | Entries(offset: nat, size: nat)

  datatype Request = Walked(file: nat, names: seq<string>) | Clunked(file: nat) | Asked(file: nat, what: What)

  datatype State = State(
    // The client: next_fid, free_fid[..free_size] and the hash table.
    next: nat, stack: seq<nat>, nodes: map<nat, Node>,
    // The server: the qid of each open fid.
    open: map<nat, nat>, root: nat,
    // The kernel: lookups granted minus lookups forgotten, and open file handles with the inodes that they
    // were opened for.
    ledger: map<nat, nat>, handles: map<nat, nat>,
    // Fids whose clunk failed.
    lost: set<nat>,
    // All requests so far.
    log: seq<Request>,
    status: Status)

  function Fix(root: nat, qid: nat): nat {
    if qid == root then ROOT_INO else if qid == ROOT_INO then root else qid
  }

  // So distinct server files get distinct inodes, and the server's qid can be read back.
  lemma FixIsInvolution(root: nat, a: nat, b: nat)
    ensures Fix(root, Fix(root, a)) == a
    ensures Fix(root, a) == Fix(root, b) <==> a == b
  {
  }

  function Balance(s: State, ino: nat): nat {
    if ino in s.ledger then s.ledger[ino] else 0
  }

  // virtio_9p_dev_init after a successful attach.
  function Initial(root: nat): State {
    State(1, [], map[ROOT_INO := Node(1, 0)], map[0 := root], root, map[], map[], {}, [], Running)
  }

  // ---- Fids ----

  function AllocFid(s: State): (State, nat) {
    if |s.stack| > 0 then (s.(stack := s.stack[..|s.stack| - 1]), s.stack[|s.stack| - 1])
    else (s.(next := (s.next + 1) % U32), s.next)
  }

  function FreeFid(s: State, fid: nat): State {
    s.(stack := s.stack + [fid])
  }

  // ---- Requests ----

  function Check(s: State, good: bool): State {
    if good then s else s.(status := Violated)
  }

  function FileOf(s: State, fid: nat): nat {
    if fid in s.open then s.open[fid] else 0
  }

  // Any request that only names a fid.
  function Ask(s: State, fid: nat, what: What): State {
    Check(s, fid in s.open).(log := s.log + [Asked(FileOf(s, fid), what)])
  }

  function WalkRefused(s: State, fid: nat, newfid: nat, names: seq<string>): State {
    Check(s, fid in s.open && newfid !in s.open && newfid != NOFID).(log := s.log + [Walked(FileOf(s, fid), names)])
  }

  // A walk that the server grants, with the qid that it reports.
  function Walk(s: State, fid: nat, newfid: nat, names: seq<string>, qid: nat): State {
    WalkRefused(s, fid, newfid, names).(open := s.open[newfid := qid])
  }

  // A clunk, before it is answered.
  function SendClunk(s: State, fid: nat): State {
    Check(s, fid in s.open).(log := s.log + [Clunked(FileOf(s, fid))])
  }

  // A clunk that succeeds: the client frees the fid.
  function Clunk(s: State, fid: nat): State {
    var t := SendClunk(s, fid);
    FreeFid(t.(open := t.open - {fid}), fid)
  }

  // assert(virtio_9p_clunk(dev, fid) == 0)
  function AssertedClunk(s: State, fid: nat, ok: bool): State {
    if ok then Clunk(s, fid) else SendClunk(s, fid).(status := Refused)
  }

  // ---- FUSE operations ----

  // One entry of a batched forget, with the server's answer should the node's fid be clunked.
  datatype Item = Item(ino: nat, n: nat, clunkOk: bool)

  datatype Reply = Granted(qid: nat) | Error

  datatype Op =
    | Lookup(parent: nat, name: string, walk: Reply, clunkOk: bool, getattrOk: bool)
    | Forget(ino: nat, n: nat, clunkOk: bool)
    | ForgetMulti(items: seq<Item>)
    // open and opendir
    | Open(ino: nat, flags: nat, walkOk: bool, lopenOk: bool, clunkOk: bool)
    // release and releasedir; keeps says whether a server that reports an error still has the fid
    | Release(fh: nat, clunkOk: bool, keeps: bool)
    // read and readdir
    | UseHandle(fh: nat, what: What)
    // getattr, readlink and statfs
    | UseNode(ino: nat, what: What)

  function Grant(s: State, ino: nat, node: Node): State {
    s.(nodes := s.nodes[ino := node], ledger := s.ledger[ino := Balance(s, ino) + 1])
  }

  // The walk arrived at a file that has a node: the new fid is not needed.
  function FoundNode(w: State, ino: nat, newfid: nat, clunkOk: bool, getattrOk: bool): State
    requires ino in w.nodes
  {
    var c := AssertedClunk(w, newfid, clunkOk);
    if !clunkOk then c
    else
      var g := Ask(c, w.nodes[ino].fid, Attributes);
      if getattrOk then Grant(g, ino, Node(w.nodes[ino].nlookup + 1, w.nodes[ino].fid)) else g
  }

  // The walk arrived at a new file: its node keeps the new fid.
  function FreshNode(w: State, ino: nat, newfid: nat, clunkOk: bool, getattrOk: bool): State {
    var g := Ask(w, newfid, Attributes);
    if getattrOk then Grant(g, ino, Node(1, newfid)) else AssertedClunk(g, newfid, clunkOk)
  }

  // virtio_9p_op_lookup
  function DoLookup(s: State, parent: nat, name: string, walk: Reply, clunkOk: bool, getattrOk: bool): State {
    if parent !in s.nodes then s.(status := Violated)
    else
      var (a, newfid) := AllocFid(s);
      match walk
      case Error => FreeFid(WalkRefused(a, s.nodes[parent].fid, newfid, [name]), newfid)
      case Granted(qid) =>
        var w := Walk(a, s.nodes[parent].fid, newfid, [name], qid);
        var ino := Fix(s.root, qid);
        if ino in w.nodes then FoundNode(w, ino, newfid, clunkOk, getattrOk)
        else FreshNode(w, ino, newfid, clunkOk, getattrOk)
  }

  // virtio_9p_op_forget
  function DoForget(s: State, ino: nat, n: nat, clunkOk: bool): State {
    if ino !in s.nodes || s.nodes[ino].nlookup < n then s.(status := Violated)
    else
      var node := Node(s.nodes[ino].nlookup - n, s.nodes[ino].fid);
      var t := s.(ledger := s.ledger[ino := if n <= Balance(s, ino) then Balance(s, ino) - n else 0]);
      if node.nlookup > 0 then t.(nodes := t.nodes[ino := node])
      else AssertedClunk(t.(nodes := t.nodes - {ino}), node.fid, clunkOk)
  }

  // virtio_9p_op_forget_multi: an assertion that fails ends the batch.
  function DoForgetMulti(s: State, items: seq<Item>): State
    decreases |items|
  {
    if items == [] || !s.status.Running? then s
    else DoForgetMulti(DoForget(s, items[0].ino, items[0].n, items[0].clunkOk), items[1..])
  }

  lemma {:induction false} ForgetMultiAppend(s: State, items: seq<Item>, more: seq<Item>)
    ensures DoForgetMulti(s, items + more) == DoForgetMulti(DoForgetMulti(s, items), more)
    decreases |items|
  {
    if items == [] {
      assert items + more == more;
    } else if s.status.Running? {
      assert (items + more)[1..] == items[1..] + more;
      ForgetMultiAppend(DoForget(s, items[0].ino, items[0].n, items[0].clunkOk), items[1..], more);
    }
  }

  // The new fid is opened and becomes a handle, or is given back.
  function OpenFid(w: State, ino: nat, newfid: nat, flags: nat, lopenOk: bool, clunkOk: bool): State {
    var g := Ask(w, newfid, OpenIt(flags));
    if lopenOk then g.(handles := g.handles[newfid := ino]) else AssertedClunk(g, newfid, clunkOk)
  }

  // virtio_9p_op_open, virtio_9p_op_opendir
  function DoOpen(s: State, ino: nat, flags: nat, walkOk: bool, lopenOk: bool, clunkOk: bool): State {
    if ino !in s.nodes then s.(status := Violated)
    else
      var (a, newfid) := AllocFid(s);
      var fid := s.nodes[ino].fid;
      if !walkOk then FreeFid(WalkRefused(a, fid, newfid, []), newfid)
      else OpenFid(Walk(a, fid, newfid, [], FileOf(s, fid)), ino, newfid, flags, lopenOk, clunkOk)
  }

  // virtio_9p_op_release, virtio_9p_op_releasedir: on an error the fid is neither freed nor used again.
  function DoRelease(s: State, fh: nat, clunkOk: bool, keeps: bool): State {
    var t := Check(s, fh != 0).(handles := s.handles - {fh});
    if clunkOk then Clunk(t, fh)
    else SendClunk(t, fh).(lost := t.lost + {fh}, open := if keeps then t.open else t.open - {fh})
  }

  function Apply(s: State, op: Op): State {
    if !s.status.Running? then s
    else
      match op
      case Lookup(parent, name, walk, clunkOk, getattrOk) => DoLookup(s, parent, name, walk, clunkOk, getattrOk)
      case Forget(ino, n, clunkOk) => DoForget(s, ino, n, clunkOk)
      case ForgetMulti(items) => DoForgetMulti(s, items)
      case Open(ino, flags, walkOk, lopenOk, clunkOk) => DoOpen(s, ino, flags, walkOk, lopenOk, clunkOk)
      case Release(fh, clunkOk, keeps) => DoRelease(s, fh, clunkOk, keeps)
      case UseHandle(fh, what) => Ask(Check(s, fh != 0), fh, what)
      case UseNode(ino, what) => if ino in s.nodes then Ask(s, s.nodes[ino].fid, what) else s.(status := Violated)
  }

  // ---- What the kernel promises ----

  predicate Known(s: State, ino: nat) {
    ino == ROOT_INO || Balance(s, ino) > 0
  }

  predicate ForgetLegal(s: State, ino: nat, n: nat) {
    Known(s, ino) && n <= Balance(s, ino)
  }

  predicate ForgetsLegal(s: State, items: seq<Item>)
    decreases |items|
  {
    items == [] || !s.status.Running? ||
    (ForgetLegal(s, items[0].ino, items[0].n) &&
     ForgetsLegal(DoForget(s, items[0].ino, items[0].n, items[0].clunkOk), items[1..]))
  }

  // The kernel names inodes that it has been granted, never forgets more than that, and uses handles
  // between open and release.
  predicate Legal(s: State, op: Op) {
    match op
    case Lookup(parent, _, _, _, _) => Known(s, parent)
    case Forget(ino, n, _) => ForgetLegal(s, ino, n)
    case ForgetMulti(items) => ForgetsLegal(s, items)
    case Open(ino, _, _, _, _) => Known(s, ino)
    case Release(fh, _, _) => fh in s.handles
    case UseHandle(fh, _) => fh in s.handles
    case UseNode(ino, _) => Known(s, ino)
  }

  // There is a fid left to allocate.
  predicate FidRoom(s: State) {
    |s.stack| > 0 || s.next < NOFID
  }

  predicate Allocates(op: Op) {
    op.Lookup? || op.Open?
  }

  // ---- The invariant ----

  // The node of the file that fid f is open on keeps f.
  ghost predicate OfNode(s: State, f: nat) {
    f in s.open && Fix(s.root, s.open[f]) in s.nodes && s.nodes[Fix(s.root, s.open[f])].fid == f
  }

  ghost predicate FreeFids(s: State) {
    Distinct(s.stack) && 1 <= s.next <= NOFID &&
    forall f <- s.stack :: f < s.next && f !in s.open && f !in s.handles && f !in s.lost
  }

  // Every open fid has a holder; pending is held by the operation in progress.
  ghost predicate OpenFids(s: State, pending: set<nat>) {
    forall f <- s.open :: f < s.next && (OfNode(s, f) || f in s.handles || f in s.lost || f in pending)
  }

  ghost predicate Handles(s: State) {
    forall f <- s.handles ::
      f in s.open && s.open[f] == Fix(s.root, s.handles[f]) && !OfNode(s, f) && f !in s.lost
  }

  ghost predicate Lost(s: State) {
    forall f <- s.lost :: f < s.next && !OfNode(s, f)
  }

  ghost predicate Pending(s: State, pending: set<nat>) {
    forall f <- pending :: f < s.next && f !in s.stack && f !in s.handles && f !in s.lost && !OfNode(s, f)
  }

  // No fid is forgotten.
  ghost predicate Covered(s: State, pending: set<nat>) {
    forall f: nat | f < s.next :: f in s.stack || f in s.open || f in s.lost || f in pending
  }

  ghost predicate Nodes(s: State) {
    && ROOT_INO in s.nodes && s.nodes[ROOT_INO].fid == 0
    && forall i <- s.nodes ::
         s.nodes[i].nlookup > 0 && s.nodes[i].fid in s.open && s.open[s.nodes[i].fid] == Fix(s.root, i)
  }

  function Granted(s: State, ino: nat): nat {
    Balance(s, ino) + if ino == ROOT_INO then 1 else 0
  }

  function Counted(s: State, ino: nat): nat {
    if ino in s.nodes then s.nodes[ino].nlookup else 0
  }

  ghost predicate Counts(s: State) {
    forall i: nat :: Counted(s, i) == Granted(s, i)
  }

  ghost predicate Held(s: State, pending: set<nat>) {
    && FreeFids(s) && OpenFids(s, pending) && Handles(s) && Lost(s) && Pending(s, pending) && Covered(s, pending)
    && Nodes(s) && Counts(s) && s.status.Running?
  }

  ghost predicate Inv(s: State) {
    Held(s, {})
  }

  // A handle leads to the file that the inode it was opened for stands for.
  lemma HandleIsForItsFile(s: State, fh: nat)
    requires Inv(s) && fh in s.handles
    ensures fh in s.open && s.open[fh] == Fix(s.root, s.handles[fh])
  {
  }

  // ---- The steps keep it ----

  // It does not look at the requests.
  lemma LogKeeps(s: State, log: seq<Request>, pending: set<nat>)
    requires Held(s, pending)
    ensures Held(s.(log := log), pending)
  {
    var t := s.(log := log);
    assert forall g: nat :: OfNode(t, g) == OfNode(s, g);
    assert forall i: nat :: Counted(t, i) == Counted(s, i) && Granted(t, i) == Granted(s, i);
  }

  lemma InitialHolds(root: nat)
    ensures Inv(Initial(root))
  {
  }

  lemma KnownNode(s: State, ino: nat)
    requires Inv(s) && Known(s, ino)
    ensures ino in s.nodes && s.nodes[ino].fid in s.open && OfNode(s, s.nodes[ino].fid)
    ensures s.open[s.nodes[ino].fid] == Fix(s.root, ino)
    ensures Balance(s, ino) <= s.nodes[ino].nlookup
  {
    assert Counted(s, ino) == Granted(s, ino);
    FixIsInvolution(s.root, ino, ino);
  }

  // Nodes and counts do not look at the stack of fids.
  lemma NodesStay(s: State, t: State)
    requires Nodes(s) && Counts(s) && t.nodes == s.nodes && t.open == s.open && t.root == s.root && t.ledger == s.ledger
    ensures Nodes(t) && Counts(t) && forall g: nat :: OfNode(t, g) == OfNode(s, g)
  {
    assert forall i: nat :: Counted(t, i) == Counted(s, i) && Granted(t, i) == Granted(s, i);
  }

  lemma AllocKeeps(s: State)
    requires Inv(s) && FidRoom(s)
    ensures var (a, f) := AllocFid(s);
      Held(a, {f}) && f !in a.open && f != NOFID && a.open == s.open && a.nodes == s.nodes && a.root == s.root
      && a.ledger == s.ledger && a.handles == s.handles && a.log == s.log
  {
    var (a, f) := AllocFid(s);
    assert !OfNode(s, f) by { TakenFid(s); }
    NodesStay(s, a);
    TakenFid(s);
    hide Nodes, Counts, OfNode, FreeFids, Covered, AllocFid;
  }

  // What allocation does to the stack.
  lemma TakenFid(s: State)
    requires FreeFids(s) && OpenFids(s, {}) && Handles(s) && Lost(s) && Covered(s, {}) && FidRoom(s)
    ensures var (a, f) := AllocFid(s);
      && a == s.(next := a.next, stack := a.stack) && s.next <= a.next && FreeFids(a) && Covered(a, {f})
      && f < a.next && f != NOFID && f !in a.stack && f !in s.open && f !in s.handles && f !in s.lost
  {
    hide OfNode;
    var (a, f) := AllocFid(s);
    if |s.stack| > 0 {
      assert s.stack == a.stack + [f];
      assert f in s.stack;
      assert forall g <- a.stack :: g in s.stack && g != f;
      assert forall g <- s.stack :: g in a.stack || g == f;
    }
  }

  lemma FreeKeeps(s: State, f: nat)
    requires Held(s, {f}) && f !in s.open
    ensures Inv(FreeFid(s, f))
  {
    var t := FreeFid(s, f);
    assert forall g: nat :: OfNode(t, g) == OfNode(s, g);
    assert forall g :: g in t.stack <==> g in s.stack || g == f;
    assert forall i: nat :: Counted(t, i) == Counted(s, i) && Granted(t, i) == Granted(s, i);
  }

  lemma WalkKeeps(s: State, fid: nat, f: nat, names: seq<string>, qid: nat)
    requires Held(s, {f}) && f !in s.open && f != NOFID && fid in s.open
    ensures var w := Walk(s, fid, f, names, qid);
      Held(w, {f}) && f in w.open && fid in w.open && w.open[f] == qid && w.nodes == s.nodes && w.root == s.root
      && w.ledger == s.ledger
    ensures Held(WalkRefused(s, fid, f, names), {f})
  {
    var w := s.(open := s.open[f := qid]);
    assert forall i <- s.nodes :: s.nodes[i].fid != f;
    assert forall g: nat :: OfNode(w, g) == OfNode(s, g);
    assert forall i: nat :: Counted(w, i) == Counted(s, i) && Granted(w, i) == Granted(s, i);
    var log := s.log + [Walked(s.open[fid], names)];
    assert Held(w, {f});
    LogKeeps(w, log, {f});
    LogKeeps(s, log, {f});
  }

  lemma ClunkKeeps(s: State, f: nat)
    requires Held(s, {f}) && f in s.open
    ensures Inv(Clunk(s, f))
    ensures Clunk(s, f).nodes == s.nodes && Clunk(s, f).ledger == s.ledger && Clunk(s, f).root == s.root
  {
    var t := s.(open := s.open - {f});
    FixIsInvolution(s.root, 0, 0);
    forall i | i in s.nodes ensures s.nodes[i].fid != f {
      FixIsInvolution(s.root, i, i);
    }
    assert forall g: nat :: OfNode(t, g) == OfNode(s, g);
    assert forall i: nat :: Counted(t, i) == Counted(s, i) && Granted(t, i) == Granted(s, i);
    assert Held(t, {f});
    var log := s.log + [Clunked(s.open[f])];
    LogKeeps(t, log, {f});
    FreeKeeps(t.(log := log), f);
  }

  lemma AskKeeps(s: State, fid: nat, what: What, pending: set<nat>)
    requires Held(s, pending) && fid in s.open
    ensures Held(Ask(s, fid, what), pending)
  {
    LogKeeps(s, s.log + [Asked(s.open[fid], what)], pending);
  }

  // As long as fids stay where they are, only nodes and counts have to be looked at.
  lemma FidsStay(s: State, t: State, pending: set<nat>)
    requires Held(s, pending) && Nodes(t) && Counts(t)
    requires t.next == s.next && t.stack == s.stack && t.open == s.open && t.root == s.root
    requires t.handles == s.handles && t.lost == s.lost && t.status == s.status
    requires forall g: nat :: OfNode(t, g) == OfNode(s, g)
    ensures Held(t, pending)
  {
    hide Nodes, Counts, OfNode;
  }

  lemma GrantAgainKeeps(s: State, ino: nat)
    requires Inv(s) && ino in s.nodes
    ensures Inv(Grant(s, ino, Node(s.nodes[ino].nlookup + 1, s.nodes[ino].fid)))
  {
    hide FreeFids, OpenFids, Handles, Lost, Pending, Covered;
    var t := Grant(s, ino, Node(s.nodes[ino].nlookup + 1, s.nodes[ino].fid));
    GrantCounts(s, ino, Node(s.nodes[ino].nlookup + 1, s.nodes[ino].fid));
    hide Counts;
    assert forall g: nat :: OfNode(t, g) == OfNode(s, g);
    FidsStay(s, t, {});
  }

  lemma GrantCounts(s: State, ino: nat, node: Node)
    requires Counts(s) && node.nlookup == Counted(s, ino) + 1
    ensures Counts(Grant(s, ino, node))
  {
    var t := Grant(s, ino, node);
    forall i: nat ensures Counted(t, i) == Granted(t, i) {
      assert Counted(s, i) == Granted(s, i);
      assert i != ino ==> Counted(t, i) == Counted(s, i) && Granted(t, i) == Granted(s, i);
    }
  }

  lemma GrantFirstKeeps(s: State, ino: nat, f: nat)
    requires Held(s, {f}) && f in s.open && ino !in s.nodes && ino == Fix(s.root, s.open[f])
    ensures Inv(Grant(s, ino, Node(1, f)))
  {
    var t := Grant(s, ino, Node(1, f));
    FixIsInvolution(s.root, s.open[f], s.open[f]);
    GrantCounts(s, ino, Node(1, f));
    hide Counts;
    forall g: nat ensures OfNode(t, g) == (OfNode(s, g) || g == f) {
    }
  }

  lemma FoundKeeps(w: State, ino: nat, f: nat, clunkOk: bool, getattrOk: bool)
    requires Held(w, {f}) && f in w.open && ino in w.nodes
    ensures var t := FoundNode(w, ino, f, clunkOk, getattrOk); t.status.Refused? || Inv(t)
    ensures w.nodes[ino].fid in Clunk(w, f).open && Clunk(w, f).nodes == w.nodes && Clunk(w, f).status.Running?
  {
    hide Held;
    ClunkKeeps(w, f);
    HeldIsRunning(w, {f});
    var c := Clunk(w, f);
    HeldIsRunning(c, {});
    AskKeeps(c, w.nodes[ino].fid, Attributes, {});
    GrantAgainKeeps(Ask(c, w.nodes[ino].fid, Attributes), ino);
  }

  lemma FreshKeeps(w: State, ino: nat, f: nat, clunkOk: bool, getattrOk: bool)
    requires Held(w, {f}) && f in w.open && ino !in w.nodes && ino == Fix(w.root, w.open[f])
    ensures var t := FreshNode(w, ino, f, clunkOk, getattrOk); t.status.Refused? || Inv(t)
  {
    hide Held;
    AskKeeps(w, f, Attributes, {f});
    ClunkKeeps(Ask(w, f, Attributes), f);
    GrantFirstKeeps(Ask(w, f, Attributes), ino, f);
  }

  lemma LookupKeeps(s: State, parent: nat, name: string, walk: Reply, clunkOk: bool, getattrOk: bool)
    requires Inv(s) && Known(s, parent) && FidRoom(s)
    ensures var t := DoLookup(s, parent, name, walk, clunkOk, getattrOk); t.status.Refused? || Inv(t)
  {
    hide Held, FoundNode, FreshNode;
    KnownNode(s, parent);
    AllocKeeps(s);
    var (a, f) := AllocFid(s);
    var fid := s.nodes[parent].fid;
    HeldIsRunning(a, {f});
    match walk
    case Error =>
      WalkKeeps(a, fid, f, [name], 0);
      FreeKeeps(WalkRefused(a, fid, f, [name]), f);
    case Granted(qid) =>
      WalkKeeps(a, fid, f, [name], qid);
      var w := Walk(a, fid, f, [name], qid);
      var ino := Fix(s.root, qid);
      if ino in w.nodes {
        FoundKeeps(w, ino, f, clunkOk, getattrOk);
      } else {
        FreshKeeps(w, ino, f, clunkOk, getattrOk);
      }
  }

  lemma HeldIsRunning(s: State, pending: set<nat>)
    requires Held(s, pending)
    ensures s.status.Running? && Nodes(s)
  {
  }

  // The table and the ledger after n lookups of ino are forgotten.
  function Lowered(s: State, ino: nat, n: nat): State
    requires ino in s.nodes && n <= s.nodes[ino].nlookup && n <= Balance(s, ino)
  {
    var t := s.(ledger := s.ledger[ino := Balance(s, ino) - n]);
    if n < s.nodes[ino].nlookup then t.(nodes := t.nodes[ino := Node(s.nodes[ino].nlookup - n, s.nodes[ino].fid)])
    else t.(nodes := t.nodes - {ino})
  }

  lemma LoweredCounts(s: State, ino: nat, n: nat)
    requires Counts(s) && ino in s.nodes && n <= s.nodes[ino].nlookup && n <= Balance(s, ino)
    ensures Counts(Lowered(s, ino, n))
  {
    var t := Lowered(s, ino, n);
    forall i: nat ensures Counted(t, i) == Granted(t, i) {
      assert Counted(s, i) == Granted(s, i);
    }
  }

  lemma LoweredKeeps(s: State, ino: nat, n: nat)
    requires Inv(s) && ForgetLegal(s, ino, n) && ino in s.nodes && n < s.nodes[ino].nlookup
    ensures Inv(Lowered(s, ino, n))
  {
    hide FreeFids, OpenFids, Handles, Lost, Pending, Covered;
    var t := Lowered(s, ino, n);
    LoweredCounts(s, ino, n);
    hide Counts;
    assert forall g: nat :: OfNode(t, g) == OfNode(s, g);
    FidsStay(s, t, {});
  }

  // The fid of a node that leaves the table becomes pending.
  lemma DroppedKeeps(s: State, ino: nat, n: nat)
    requires Inv(s) && ForgetLegal(s, ino, n) && ino in s.nodes && n == s.nodes[ino].nlookup
    ensures Held(Lowered(s, ino, n), {s.nodes[ino].fid})
  {
    hide Counts;
    var t := Lowered(s, ino, n);
    var f := s.nodes[ino].fid;
    LoweredCounts(s, ino, n);
    KnownNode(s, ino);
    FixIsInvolution(s.root, ino, ino);
    forall g: nat ensures OfNode(t, g) == (OfNode(s, g) && g != f) {
    }
    assert ino != ROOT_INO by { RootCount(s); }
    assert Nodes(t);
    hide Nodes, OfNode;
  }

  lemma RootCount(s: State)
    requires Counts(s)
    ensures ROOT_INO in s.nodes && s.nodes[ROOT_INO].nlookup == Balance(s, ROOT_INO) + 1
  {
    assert Counted(s, ROOT_INO) == Granted(s, ROOT_INO);
  }

  // What a forget comes to, with and without a clunk.
  lemma ForgetIs(s: State, ino: nat, n: nat, clunkOk: bool)
    requires Inv(s) && ForgetLegal(s, ino, n)
    ensures ino in s.nodes && n <= s.nodes[ino].nlookup && n <= Balance(s, ino) && s.status.Running?
    ensures n < s.nodes[ino].nlookup ==>
      DoForget(s, ino, n, clunkOk) == Lowered(s, ino, n) && Inv(Lowered(s, ino, n))
    ensures n == s.nodes[ino].nlookup ==>
      var t, f := Lowered(s, ino, n), s.nodes[ino].fid;
      && DoForget(s, ino, n, clunkOk) == AssertedClunk(t, f, clunkOk) && f in t.open && Inv(Clunk(t, f))
      && AssertedClunk(t, f, false).status.Refused?
  {
    hide Held;
    KnownNode(s, ino);
    HeldIsRunning(s, {});
    if n < s.nodes[ino].nlookup {
      LoweredKeeps(s, ino, n);
    } else {
      DroppedKeeps(s, ino, n);
      ClunkKeeps(Lowered(s, ino, n), s.nodes[ino].fid);
    }
  }

  lemma ForgetKeeps(s: State, ino: nat, n: nat, clunkOk: bool)
    requires Inv(s) && ForgetLegal(s, ino, n)
    ensures var t := DoForget(s, ino, n, clunkOk); t.status.Refused? || Inv(t)
  {
    hide Held, DoForget, Clunk;
    ForgetIs(s, ino, n, clunkOk);
  }

  lemma {:induction false} ForgetMultiKeeps(s: State, items: seq<Item>)
    requires Inv(s) && ForgetsLegal(s, items)
    ensures var t := DoForgetMulti(s, items); t.status.Refused? || Inv(t)
    decreases |items|
  {
    if items != [] {
      ForgetKeeps(s, items[0].ino, items[0].n, items[0].clunkOk);
      var t := DoForget(s, items[0].ino, items[0].n, items[0].clunkOk);
      if t.status.Running? {
        ForgetMultiKeeps(t, items[1..]);
      }
    }
  }

  lemma HandleKeeps(s: State, ino: nat, f: nat)
    requires Held(s, {f}) && f in s.open && s.open[f] == Fix(s.root, ino)
    ensures Inv(s.(handles := s.handles[f := ino]))
  {
    var t := s.(handles := s.handles[f := ino]);
    assert forall g: nat :: OfNode(t, g) == OfNode(s, g);
    assert forall i: nat :: Counted(t, i) == Counted(s, i) && Granted(t, i) == Granted(s, i);
  }

  lemma OpenFidKeeps(w: State, ino: nat, f: nat, flags: nat, lopenOk: bool, clunkOk: bool)
    requires Held(w, {f}) && f in w.open && w.open[f] == Fix(w.root, ino)
    ensures var t := OpenFid(w, ino, f, flags, lopenOk, clunkOk);
      if !lopenOk && !clunkOk then t.status.Refused? else Inv(t)
    ensures f !in w.handles && f != 0
  {
    PendingIsNoHandle(w, f);
    hide Held;
    HeldIsRunning(w, {f});
    AskKeeps(w, f, OpenIt(flags), {f});
    var g := Ask(w, f, OpenIt(flags));
    HandleKeeps(g, ino, f);
    ClunkKeeps(g, f);
  }

  lemma PendingIsNoHandle(s: State, f: nat)
    requires Held(s, {f})
    ensures f !in s.handles && f !in s.lost && f != 0
  {
    FixIsInvolution(s.root, ROOT_INO, ROOT_INO);
    assert OfNode(s, 0);
  }

  lemma OpenKeeps(s: State, ino: nat, flags: nat, walkOk: bool, lopenOk: bool, clunkOk: bool)
    requires Inv(s) && Known(s, ino) && FidRoom(s)
    ensures var t := DoOpen(s, ino, flags, walkOk, lopenOk, clunkOk); t.status.Refused? || Inv(t)
  {
    hide Held, OpenFid;
    KnownNode(s, ino);
    AllocKeeps(s);
    var (a, f) := AllocFid(s);
    var fid := s.nodes[ino].fid;
    HeldIsRunning(a, {f});
    WalkKeeps(a, fid, f, [], s.open[fid]);
    if walkOk {
      OpenFidKeeps(Walk(a, fid, f, [], s.open[fid]), ino, f, flags, lopenOk, clunkOk);
    } else {
      FreeKeeps(WalkRefused(a, fid, f, []), f);
    }
  }

  lemma DropHandleKeeps(s: State, fh: nat)
    requires Inv(s) && fh in s.handles
    ensures Held(s.(handles := s.handles - {fh}), {fh}) && fh in s.open && fh != 0
  {
    var t := s.(handles := s.handles - {fh});
    assert OfNode(s, 0) by { FixIsInvolution(s.root, ROOT_INO, ROOT_INO); }
    assert forall g: nat :: OfNode(t, g) == OfNode(s, g);
    assert forall i: nat :: Counted(t, i) == Counted(s, i) && Granted(t, i) == Granted(s, i);
  }

  lemma LoseKeeps(s: State, f: nat, keeps: bool)
    requires Held(s, {f}) && f in s.open
    ensures Inv(s.(lost := s.lost + {f}, open := if keeps then s.open else s.open - {f}))
  {
    var t := s.(lost := s.lost + {f}, open := if keeps then s.open else s.open - {f});
    forall i | i in s.nodes ensures s.nodes[i].fid != f {
      FixIsInvolution(s.root, i, i);
    }
    assert forall g: nat :: OfNode(t, g) == OfNode(s, g);
    assert forall i: nat :: Counted(t, i) == Counted(s, i) && Granted(t, i) == Granted(s, i);
  }

  lemma ReleaseKeeps(s: State, fh: nat, clunkOk: bool, keeps: bool)
    requires Inv(s) && fh in s.handles
    ensures Inv(DoRelease(s, fh, clunkOk, keeps))
  {
    hide Held;
    DropHandleKeeps(s, fh);
    var t := s.(handles := s.handles - {fh});
    if clunkOk {
      ClunkKeeps(t, fh);
    } else {
      var log := t.log + [Clunked(t.open[fh])];
      LogKeeps(t, log, {fh});
      LoseKeeps(t.(log := log), fh, keeps);
    }
  }

  // One FUSE operation: no request is out of line, and the invariant is kept unless the source's own
  // assertion on a clunk ends the program.
  lemma ApplyKeeps(s: State, op: Op)
    requires Inv(s) && Legal(s, op) && (Allocates(op) ==> FidRoom(s))
    ensures Apply(s, op).status.Refused? || Inv(Apply(s, op))
  {
    hide Held;
    HeldIsRunning(s, {});
    match op
    case Lookup(parent, name, walk, clunkOk, getattrOk) => LookupKeeps(s, parent, name, walk, clunkOk, getattrOk);
    case Forget(ino, n, clunkOk) => ForgetKeeps(s, ino, n, clunkOk);
    case ForgetMulti(items) => ForgetMultiKeeps(s, items);
    case Open(ino, flags, walkOk, lopenOk, clunkOk) => OpenKeeps(s, ino, flags, walkOk, lopenOk, clunkOk);
    case Release(fh, clunkOk, keeps) => ReleaseKeeps(s, fh, clunkOk, keeps);
    case UseHandle(fh, what) =>
      DropHandleKeeps(s, fh);
      AskKeeps(s, fh, what, {});
    case UseNode(ino, what) =>
      KnownNode(s, ino);
      AskKeeps(s, s.nodes[ino].fid, what, {});
  }

  // ---- Runs ----

  function After(s: State, ops: seq<Op>): State
    decreases |ops|
  {
    if ops == [] then s else After(Apply(s, ops[0]), ops[1..])
  }

  // Each operation is legal, and finds a fid, in the state it meets.
  predicate LegalRun(s: State, ops: seq<Op>)
    decreases |ops|
  {
    ops == [] || !s.status.Running? ||
    (Legal(s, ops[0]) && (Allocates(ops[0]) ==> FidRoom(s)) && LegalRun(Apply(s, ops[0]), ops[1..]))
  }

  lemma {:induction false} StoppedStays(s: State, ops: seq<Op>)
    requires !s.status.Running?
    ensures After(s, ops) == s
    decreases |ops|
  {
    if ops != [] {
      StoppedStays(s, ops[1..]);
    }
  }

  // Over every run: no request names a fid that the server does not have open, none walks to a fid that
  // it has, and no assertion about nodes, counts or handles fails.
  lemma {:induction false} RunKeeps(s: State, ops: seq<Op>)
    requires Inv(s) && LegalRun(s, ops)
    ensures !After(s, ops).status.Violated?
    ensures After(s, ops).status.Running? ==> Inv(After(s, ops))
    decreases |ops|
  {
    hide Held;
    HeldIsRunning(s, {});
    if ops != [] {
      ApplyKeeps(s, ops[0]);
      var t := Apply(s, ops[0]);
      if t.status.Refused? {
        StoppedStays(t, ops[1..]);
      } else {
        HeldIsRunning(t, {});
        RunKeeps(t, ops[1..]);
      }
    }
  }

  // ---- What the invariant says ----

  // Every fid ever issued is in exactly one place.
  lemma FidHasOneHolder(s: State, f: nat)
    requires Inv(s) && f < s.next
    ensures (if f in s.stack then 1 else 0) + (if OfNode(s, f) then 1 else 0)
      + (if f in s.handles then 1 else 0) + (if f in s.lost then 1 else 0) == 1
    ensures f in s.stack ==> f !in s.open
    ensures f in s.handles ==> f in s.open
  {
  }

  lemma OfNodeMeans(s: State, f: nat)
    requires Inv(s)
    ensures OfNode(s, f) <==> exists ino :: ino in s.nodes && s.nodes[ino].fid == f
  {
    forall ino | ino in s.nodes && s.nodes[ino].fid == f ensures OfNode(s, f) {
      FixIsInvolution(s.root, ino, ino);
    }
  }

  // A node is in the table exactly while more lookups were granted than forgotten (the root's counts as
  // one more), and its count is the difference.
  lemma NodeWhileLookedUp(s: State, ino: nat)
    requires Inv(s)
    ensures ino in s.nodes <==> Granted(s, ino) > 0
    ensures ino in s.nodes ==> s.nodes[ino].nlookup == Granted(s, ino)
  {
    assert Counted(s, ino) == Granted(s, ino);
  }

  // No two nodes stand for one server file, and no node shares its fid with an open handle.
  lemma OneNodePerFile(s: State, i: nat, j: nat)
    requires Inv(s) && i in s.nodes && j in s.nodes
    requires s.open[s.nodes[i].fid] == s.open[s.nodes[j].fid]
    ensures i == j && s.nodes[i].fid !in s.handles
  {
    FixIsInvolution(s.root, i, j);
    OfNodeMeans(s, s.nodes[i].fid);
  }

  // The assertions fi->fh != 0 hold because fid 0 stays with the root node.
  lemma HandlesAreNotZero(s: State, fh: nat)
    requires Inv(s) && fh in s.handles
    ensures fh != 0
  {
    DropHandleKeeps(s, fh);
  }

  lemma LookupLosesNothing(s: State, parent: nat, name: string, walk: Reply, clunkOk: bool, getattrOk: bool)
    ensures DoLookup(s, parent, name, walk, clunkOk, getattrOk).lost == s.lost
  {
    hide FoundNode, FreshNode;
    if parent in s.nodes && walk.Granted? {
      var (a, f) := AllocFid(s);
      var w := Walk(a, s.nodes[parent].fid, f, [name], walk.qid);
      var ino := Fix(s.root, walk.qid);
      if ino in w.nodes {
        FoundLosesNothing(w, ino, f, clunkOk, getattrOk);
      }
      FreshLosesNothing(w, ino, f, clunkOk, getattrOk);
    }
  }

  lemma FoundLosesNothing(w: State, ino: nat, f: nat, clunkOk: bool, getattrOk: bool)
    requires ino in w.nodes
    ensures FoundNode(w, ino, f, clunkOk, getattrOk).lost == w.lost
  {
  }

  lemma FreshLosesNothing(w: State, ino: nat, f: nat, clunkOk: bool, getattrOk: bool)
    ensures FreshNode(w, ino, f, clunkOk, getattrOk).lost == w.lost
  {
  }

  lemma OpenLosesNothing(s: State, ino: nat, flags: nat, walkOk: bool, lopenOk: bool, clunkOk: bool)
    ensures DoOpen(s, ino, flags, walkOk, lopenOk, clunkOk).lost == s.lost
  {
  }

  lemma LostStays(s: State, op: Op)
    ensures s.lost <= Apply(s, op).lost
  {
    if s.status.Running? {
      match op
      case Lookup(parent, name, walk, clunkOk, getattrOk) => LookupLosesNothing(s, parent, name, walk, clunkOk, getattrOk);
      case Open(ino, flags, walkOk, lopenOk, clunkOk) => OpenLosesNothing(s, ino, flags, walkOk, lopenOk, clunkOk);
      case ForgetMulti(items) => ForgetsLoseNothing(s, items);
      case _ =>
    }
  }

  lemma {:induction false} ForgetsLoseNothing(s: State, items: seq<Item>)
    ensures DoForgetMulti(s, items).lost == s.lost
    decreases |items|
  {
    if items != [] && s.status.Running? {
      ForgetsLoseNothing(DoForget(s, items[0].ino, items[0].n, items[0].clunkOk), items[1..]);
    }
  }

  // A fid whose clunk failed on release is never issued again.
  lemma {:induction false} LostIsNeverReused(s: State, ops: seq<Op>, f: nat)
    requires Inv(s) && LegalRun(s, ops) && f in s.lost
    ensures f in After(s, ops).lost
    ensures After(s, ops).status.Running? && FidRoom(After(s, ops)) ==> AllocFid(After(s, ops)).1 != f
    decreases |ops|
  {
    HeldIsRunning(s, {});
    if ops == [] {
      if FidRoom(s) {
        AllocKeeps(s);
      }
    } else {
      ApplyKeeps(s, ops[0]);
      LostStays(s, ops[0]);
      var t := Apply(s, ops[0]);
      if t.status.Running? {
        LostIsNeverReused(t, ops[1..], f);
      } else {
        StoppedStays(t, ops[1..]);
      }
    }
  }

  // The batched forget is the fold of single ones.
  lemma {:induction false} ForgetMultiIsAFold(s: State, items: seq<Item>)
    ensures DoForgetMulti(s, items) ==
      After(s, seq(|items|, k requires 0 <= k < |items| => Forget(items[k].ino, items[k].n, items[k].clunkOk)))
    decreases |items|
  {
    var ops := seq(|items|, k requires 0 <= k < |items| => Forget(items[k].ino, items[k].n, items[k].clunkOk));
    if items != [] {
      var t := Apply(s, ops[0]);
      if s.status.Running? {
        var rest := items[1..];
        ForgetMultiIsAFold(t, rest);
        assert ops[1..] == seq(|rest|, k requires 0 <= k < |rest| => Forget(rest[k].ino, rest[k].n, rest[k].clunkOk));
      } else {
        StoppedStays(s, ops);
      }
    }
  }

  // ---- Exhaustion ----

  ghost function NodeFids(nodes: map<nat, Node>): set<nat> {
    set i | i in nodes :: nodes[i].fid
  }

  lemma {:induction false} ImageSize(nodes: map<nat, Node>, keys: set<nat>)
    requires keys <= nodes.Keys
    requires forall i, j :: i in nodes && j in nodes && nodes[i].fid == nodes[j].fid ==> i == j
    ensures |set i | i in keys :: nodes[i].fid| == |keys|
  {
    if keys != {} {
      var k :| k in keys;
      var rest := keys - {k};
      ImageSize(nodes, rest);
      assert (set i | i in keys :: nodes[i].fid) == (set i | i in rest :: nodes[i].fid) + {nodes[k].fid};
    }
  }

  lemma NodesAreCounted(s: State)
    requires Inv(s)
    ensures |NodeFids(s.nodes)| == |s.nodes|
    ensures forall f: nat :: f in NodeFids(s.nodes) <==> OfNode(s, f)
  {
    forall i, j | i in s.nodes && j in s.nodes && s.nodes[i].fid == s.nodes[j].fid ensures i == j {
      FixIsInvolution(s.root, i, j);
    }
    ImageSize(s.nodes, s.nodes.Keys);
    assert NodeFids(s.nodes) == set i | i in s.nodes.Keys :: s.nodes[i].fid;
    forall f: nat ensures f in NodeFids(s.nodes) <==> OfNode(s, f) {
      OfNodeMeans(s, f);
    }
  }

  lemma FourParts(all: set<nat>, a: set<nat>, b: set<nat>, c: set<nat>, d: set<nat>)
    requires forall f: nat :: f in all <==> f in a || f in b || f in c || f in d
    requires forall f <- all ::
      (if f in a then 1 else 0) + (if f in b then 1 else 0) + (if f in c then 1 else 0) + (if f in d then 1 else 0) == 1
    ensures |a| + |b| + |c| + |d| == |all|
  {
    assert a !! b && (a + b) !! c && (a + b + c) !! d;
    assert all == a + b + c + d;
  }

  // Conservation: the fids ever issued are those on the stack, with nodes, with handles and lost.
  lemma FidsAreCounted(s: State)
    requires Inv(s)
    ensures |s.stack| + |s.nodes| + |s.handles| + |s.lost| == s.next
  {
    hide Held;
    var free := set f | f in s.stack;
    DistinctFits(s.stack, free) by { StackIsDistinct(s); }
    ElemsSize(s.stack);
    NodesAreCounted(s);
    forall f: nat
      ensures f < s.next <==> f in free || f in NodeFids(s.nodes) || f in s.handles || f in s.lost
      ensures f < s.next ==>
        (if f in free then 1 else 0) + (if f in NodeFids(s.nodes) then 1 else 0)
        + (if f in s.handles then 1 else 0) + (if f in s.lost then 1 else 0) == 1
    {
      HoldersAreIssued(s, f);
      if f < s.next {
        FidHasOneHolder(s, f);
      }
    }
    FourParts(Below(s.next), free, NodeFids(s.nodes), s.handles.Keys, s.lost);
  }

  lemma StackIsDistinct(s: State)
    requires Inv(s)
    ensures Distinct(s.stack)
  {
  }

  lemma HoldersAreIssued(s: State, f: nat)
    requires Inv(s)
    ensures f in s.stack || OfNode(s, f) || f in s.handles || f in s.lost ==> f < s.next
  {
  }

  // A fid that a walk may introduce: not reserved, and neither open nor held.
  ghost predicate Usable(s: State, f: nat) {
    f != NOFID && f !in s.open && f !in s.handles && f !in s.lost
  }

  // The allocator has no check for running out; it is right exactly while there is room.
  lemma AllocIsUsableIffRoom(s: State)
    requires Inv(s)
    ensures Usable(AllocFid(s).0, AllocFid(s).1) <==> FidRoom(s)
    ensures FidRoom(s) <==> |s.nodes| + |s.handles| + |s.lost| < NOFID
  {
    FidsAreCounted(s);
    if FidRoom(s) {
      AllocKeeps(s);
    }
  }

  // Once 2^32 - 1 fids are held, the next two allocations issue the reserved fid and the root's.
  lemma ExhaustionReissuesTheRoot(s: State)
    requires Inv(s) && !FidRoom(s)
    ensures var (a, f) := AllocFid(s); var (_, g) := AllocFid(a); f == NOFID && g == 0 && OfNode(s, g)
  {
    FixIsInvolution(s.root, ROOT_INO, ROOT_INO);
  }

  // n opens of the root, all granted.
  function Opens(n: nat): seq<Op> {
    if n == 0 then [] else [Open(ROOT_INO, 0, true, true, true)] + Opens(n - 1)
  }

  lemma OpenTakesNext(s: State)
    requires Inv(s) && s.stack == [] && s.next < NOFID
    ensures var t := Apply(s, Open(ROOT_INO, 0, true, true, true)); Inv(t) && t.stack == [] && t.next == s.next + 1
  {
    hide Held;
    HeldIsRunning(s, {});
    KnownNode(s, ROOT_INO);
    AllocKeeps(s);
    var (a, f) := AllocFid(s);
    var fid := s.nodes[ROOT_INO].fid;
    HeldIsRunning(a, {f});
    WalkKeeps(a, fid, f, [], s.open[fid]);
    OpenFidKeeps(Walk(a, fid, f, [], s.open[fid]), ROOT_INO, f, 0, true, true);
  }

  lemma {:induction false} OpensReach(s: State, n: nat)
    requires Inv(s) && s.stack == [] && s.next + n <= NOFID
    ensures LegalRun(s, Opens(n))
    ensures var t := After(s, Opens(n)); Inv(t) && t.stack == [] && t.next == s.next + n
    decreases n
  {
    hide Held;
    HeldIsRunning(s, {});
    if n > 0 {
      var op := Open(ROOT_INO, 0, true, true, true);
      assert Opens(n)[0] == op && Opens(n)[1..] == Opens(n - 1);
      OpenTakesNext(s);
      OpensReach(Apply(s, op), n - 1);
    }
  }

  // A run of 2^32 - 2 granted opens gets there, with no assertion failing on the way.
  lemma ExhaustionIsReachable(root: nat, n: nat)
    requires n == NOFID - 1
    ensures LegalRun(Initial(root), Opens(n))
    ensures var s := After(Initial(root), Opens(n));
      Inv(s) && !FidRoom(s) && var (a, f) := AllocFid(s); f == NOFID && AllocFid(a).1 == 0
  {
    InitialHolds(root);
    OpensReach(Initial(root), n);
    ExhaustionReissuesTheRoot(After(Initial(root), Opens(n)));
  }
}
