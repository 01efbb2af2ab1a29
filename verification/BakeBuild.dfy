// code/bake as it runs: class Log, process_rule and build, get_providers and sort_targets.

module BakeLogs {
  import opened BakeModel
  import opened BakeSound
  import opened BakeLog
  import opened BakeFresh

  type Stats = seq<(Path, Option<int>)>

  // stat_files
  function StatFiles(fs: Fs, names: seq<Path>): (r: Stats)
    ensures |r| == |names| && forall i :: 0 <= i < |r| ==> r[i] == (names[i], Stat(fs, names[i]))
  {
    seq(|names|, i requires 0 <= i < |names| => (names[i], Stat(fs, names[i])))
  }

  // One more entry of a list.
  lemma OneMoreEntry(m: map<Path, Entry>, entries: seq<Entry>, i: nat)
    requires i < |entries|
    ensures m + ToMap(entries[..i + 1]) == (m + ToMap(entries[..i]))[entries[i].name := entries[i]]
    ensures Names(entries[..i + 1]) == Names(entries[..i]) + {entries[i].name}
    ensures entries[..i + 1] == entries[..i] + [entries[i]]
  {
    assert entries[..i + 1][..i] == entries[..i];
    assert entries[..i + 1] == entries[..i] + [entries[i]];
    NamesOfOneMore(entries[..i], entries[i]);
  }

  lemma NoEntries(m: map<Path, Entry>, names: set<Path>)
    ensures m + ToMap([]) == m && names + Names([]) == names
  {
  }

  lemma NamesOfOneMore(entries: seq<Entry>, e: Entry)
    ensures Names(entries + [e]) == Names(entries) + {e.name}
  {
    assert e in entries + [e];
    assert forall x :: x in entries ==> x in entries + [e];
  }

  class MemoryLog {
    var files: map<Path, Entry>
    var log: seq<Entry>
    var updated: set<Path>

    ghost function View(): Log
      reads this
    {
      Log(files, log, updated)
    }

    // Log.__init__; the assertion is the source's.
    constructor (entries: seq<Entry>)
      requires DistinctNames(entries)
      ensures View() == Log(ToMap(entries), [], {})
    {
      files, log, updated := map[], [], {};
      new;
      for i := 0 to |entries|
        invariant files == ToMap(entries[..i]) && log == [] && updated == {}
      {
        ToMapHolds(entries[..i]);
        assert entries[..i + 1][..i] == entries[..i];
        assert entries[i].name !in files;
        files := files[entries[i].name := entries[i]];
      }
      assert entries[..|entries|] == entries;
    }

    // Log.find
    method Find(digest: string, provided: Stats, ghost fs: Fs, ghost outputs: seq<Path>) returns (start: Option<nat>)
      requires provided == StatFiles(fs, outputs)
      ensures start == BakeModel.Find(files, digest, fs, outputs)
    {
      start := None;
      FindMeans(files, digest, fs, outputs, |outputs|);
      for i := 0 to |provided|
        invariant start == FindUpTo(files, digest, fs, outputs, i)
        invariant forall k :: 0 <= k < i ==> Matches(files, digest, fs, outputs[k])
      {
        FindMeans(files, digest, fs, outputs, i);
        var (name, mtime) := provided[i];
        if mtime.None? {
          return None;
        }
        if name !in files {
          return None;
        }
        var entry := files[name];
        if entry.digest != digest || entry.mtime != mtime {
          return None;
        }
        assert Matches(files, digest, fs, outputs[i]);
        if start.Some? {
          if start.value <= entry.start {
            continue;
          }
        }
        start := Some(entry.start);
      }
    }

    // Log.append
    method Append(start: nat, digest: string, provided: Stats, ghost fs: Fs, ghost outputs: seq<Path>)
      requires provided == StatFiles(fs, outputs)
      modifies this
      ensures View() == BakeModel.Append(old(View()), NewEntries(start, digest, fs, outputs))
    {
      hide ToMap, Names;
      ghost var added := NewEntries(start, digest, fs, outputs);
      NoEntries(files, updated);
      assert added[..0] == [] && log + added[..0] == log;
      for i := 0 to |provided|
        invariant files == old(files) + ToMap(added[..i])
        invariant log == old(log) + added[..i]
        invariant updated == old(updated) + Names(added[..i])
      {
        var (name, mtime) := provided[i];
        var entry := Entry(start, digest, mtime, name);
        assert entry == added[i];
        OneMoreEntry(old(files), added, i);
        files := files[name := entry];
        log := log + [entry];
        updated := updated + {name};
      }
      assert added[..|provided|] == added;
    }
  }
}

module BakeRuns {
  import opened BakeModel
  import opened BakeLogs
  import opened BakeDecisions
  import opened BakeStops

  lemma MarkedOneMore(marks: map<Path, Mark>, outputs: seq<Path>, fs: Fs, ok: bool, i: nat)
    requires i < |outputs|
    ensures Marked(marks, outputs[..i + 1], fs, ok) ==
            Marked(marks, outputs[..i], fs, ok)[outputs[i] := MarkOf(fs, ok, outputs[i])]
  {
    hide MarkOf;
    var a, b := outputs[..i], outputs[..i + 1];
    assert b == a + [outputs[i]];
    MarkedUnion(marks, a, b, outputs[i], fs, ok);
  }

  lemma MarkedUnion(marks: map<Path, Mark>, a: seq<Path>, b: seq<Path>, p: Path, fs: Fs, ok: bool)
    requires forall x :: x in b <==> x in a || x == p
    ensures Marked(marks, b, fs, ok) == Marked(marks, a, fs, ok)[p := MarkOf(fs, ok, p)]
  {
  }

  class Baker {
    const w: World
    const log: MemoryLog
    // The directory and the clock.
    var fs: Fs
    var now: nat
    // `updated` of process_rule.
    var marks: map<Path, Mark>

    ghost function View(): State
      reads this, log
    {
      State(fs, now, log.View(), marks)
    }

    constructor (w: World, d: Disk)
      requires BakeModel.DistinctNames(d.entries)
      ensures View() == Start(d) && this.w == w && fresh(log)
    {
      this.w, fs, now, marks := w, d.fs, d.now, map[];
      log := new MemoryLog(d.entries);
    }

    // check_updated
    method CheckUpdated(start: nat, depends: seq<Path>) returns (state: Mark)
      ensures state == BakeModel.CheckUpdated(fs, marks, start, depends)
    {
      for i := 0 to |depends|
        invariant BakeModel.CheckUpdated(fs, marks, start, depends) == BakeModel.CheckUpdated(fs, marks, start, depends[i..])
      {
        var name := depends[i];
        if name in marks {
          if marks[name] != Some(false) {
            return marks[name];
          }
        } else {
          var mtime := Stat(fs, name);
          if mtime.None? || mtime.value >= start {
            return Some(true);
          }
        }
      }
      return Some(false);
    }

    // process_rule
    method ProcessRule(rule: Rule, always: bool) returns (ok: bool)
      modifies this`fs, this`now, this`marks, log
      ensures (View(), ok) == BakeModel.ProcessRule(w, old(View()), rule, always)
      ensures Processed(w, old(View()), rule, always, View(), ok)
    {
      hide Processed;
      ProcessRuleMeans(w, View(), rule, always);
      var start := now;
      var oldMtime := StatFiles(fs, rule.outputs);
      var digest := w.digest(rule.commands);
      var oldStart := log.Find(digest, oldMtime, fs, rule.outputs);
      if !always && oldStart.Some? {
        var state := CheckUpdated(oldStart.value, rule.depends);
        if state != Some(true) {
          now := now + 1;
          return state == Some(false);
        }
      }
      var o := w.run(fs, start, rule);
      fs, now := o.fs, o.now;
      if o.ok {
        var stat := StatFiles(fs, rule.outputs);
        log.Append(start, digest, stat, fs, rule.outputs);
        MarkAll(rule.outputs, true);
        return true;
      } else {
        MarkAll(rule.outputs, false);
        return false;
      }
    }

    // The loops at the end of process_rule: an output that exists after a success is marked updated, any
    // other is marked as a failure.
    method MarkAll(outputs: seq<Path>, ok: bool)
      modifies this`marks
      ensures marks == Marked(old(marks), outputs, fs, ok)
    {
      for i := 0 to |outputs|
        invariant marks == Marked(old(marks), outputs[..i], fs, ok)
      {
        MarkedOneMore(old(marks), outputs, fs, ok, i);
        marks := marks[outputs[i] := MarkOf(fs, ok, outputs[i])];
      }
      assert outputs[..|outputs|] == outputs;
    }

    // build: false if any rule failed. After `keepGoing` failures it exits with status 1; 0 means never.
    // The run is the first k rules, one after the other.
    method Build(rules: seq<Rule>, always: bool, keepGoing: int) returns (ok: bool, exited: bool, ghost k: nat)
      modifies this`fs, this`now, this`marks, log
      ensures StopsAfter(w, old(View()), rules, always, keepGoing, k)
      ensures View() == Ran(w, old(View()), rules, always, k)
      ensures ok <==> Failures(w, old(View()), rules, always, k) == 0
      ensures exited <==> Limits(keepGoing, Failures(w, old(View()), rules, always, k))
      ensures (View(), ok) == RunRules(w, old(View()), rules, always, LimitOf(keepGoing))
    {
      hide BakeModel.ProcessRule, Processed, RunRules, Ran, Failures, Fails, StopsAfter, Going;
      ghost var s := View();
      ghost var stop := RunStops(w, s, rules, always, keepGoing);
      NoneRan(w, s, rules, always, keepGoing);
      var limit: Option<int> := if keepGoing == 0 then None else Some(keepGoing);
      ok, exited := true, false;
      for i := 0 to |rules|
        invariant Going(w, s, rules, always, keepGoing, i) && View() == Ran(w, s, rules, always, i) && !exited
        invariant ok <==> Failures(w, s, rules, always, i) == 0
        invariant limit == if keepGoing == 0 then None else Some(keepGoing - Failures(w, s, rules, always, i))
      {
        OneMoreRan(w, s, rules, always, keepGoing, i);
        k := i + 1;
        var done := ProcessRule(rules[i], always);
        if done {
          continue;
        }
        ok := false;
        if limit.None? {
          continue;
        }
        limit := Some(limit.value - 1);
        if limit == Some(0) {
          exited := true;
          StopIsUnique(w, s, rules, always, keepGoing, k, stop);
          return;
        }
      }
      AllRan(w, s, rules, always, keepGoing);
      k := |rules|;
      StopIsUnique(w, s, rules, always, keepGoing, k, stop);
    }
  }
}

// Which rules a run takes, and in what order.
module BakeOrder {
  import opened BakeModel

  function Flat(rules: seq<Rule>): seq<Path> {
    if rules == [] then [] else Flat(rules[..|rules| - 1]) + rules[|rules| - 1].outputs
  }

  lemma {:induction false} FlatHolds(rules: seq<Rule>)
    ensures forall p :: p in Flat(rules) <==> exists r :: r in rules && p in r.outputs
  {
    if rules != [] {
      var rest, last := rules[..|rules| - 1], rules[|rules| - 1];
      FlatHolds(rest);
      assert rules == rest + [last];
    }
  }

  lemma DistinctJoin(a: seq<Path>, b: seq<Path>)
    ensures DistinctPaths(a + b) <==> DistinctPaths(a) && DistinctPaths(b) && Disjoint(a, b)
  {
    var c := a + b;
    if DistinctPaths(c) {
      forall i, j | 0 <= i < j < |a|
        ensures a[i] != a[j]
      {
        assert c[i] != c[j];
      }
      forall i, j | 0 <= i < j < |b|
        ensures b[i] != b[j]
      {
        assert c[|a| + i] != c[|a| + j];
      }
      forall p | p in a
        ensures p !in b
      {
        var i :| 0 <= i < |a| && a[i] == p;
        forall j | 0 <= j < |b|
          ensures b[j] != p
        {
          assert c[i] != c[|a| + j];
        }
      }
    }
    if DistinctPaths(a) && DistinctPaths(b) && Disjoint(a, b) {
      forall i, j | 0 <= i < j < |c|
        ensures c[i] != c[j]
      {
        if i < |a| <= j { assert a[i] in a && b[j - |a|] in b; }
      }
    }
  }

  ghost predicate Apart(rules: seq<Rule>, last: Rule) {
    forall r :: r in rules ==> Disjoint(r.outputs, last.outputs)
  }

  lemma OneProviderSplits(rest: seq<Rule>, last: Rule)
    ensures OneProvider(rest + [last]) <==>
            OneProvider(rest) && DistinctPaths(last.outputs) && Apart(rest, last)
  {
    var all := rest + [last];
    assert last in all && forall r :: r in rest ==> r in all;
    if OneProvider(all) {
      forall i, j | 0 <= i < j < |rest|
        ensures Disjoint(rest[i].outputs, rest[j].outputs)
      {
        assert Disjoint(all[i].outputs, all[j].outputs);
      }
      forall r | r in rest
        ensures Disjoint(r.outputs, last.outputs)
      {
        var i :| 0 <= i < |rest| && rest[i] == r;
        assert Disjoint(all[i].outputs, all[|rest|].outputs);
      }
    }
    if OneProvider(rest) && DistinctPaths(last.outputs) && Apart(rest, last) {
      forall i, j | 0 <= i < j < |all|
        ensures Disjoint(all[i].outputs, all[j].outputs)
      {
        if j == |rest| { assert rest[i] in rest; }
      }
    }
  }

  // "No path is provided twice" in one piece and rule by rule.
  lemma {:induction false} FlatDistinct(rules: seq<Rule>)
    ensures DistinctPaths(Flat(rules)) <==> OneProvider(rules)
  {
    if rules != [] {
      var rest, last := rules[..|rules| - 1], rules[|rules| - 1];
      FlatDistinct(rest);
      FlatHolds(rest);
      DistinctJoin(Flat(rest), last.outputs);
      OneProviderSplits(rest, last);
      assert rules == rest + [last];
      ApartFlat(rest, last);
    }
  }

  lemma ApartFlat(rest: seq<Rule>, last: Rule)
    ensures Apart(rest, last) <==> Disjoint(Flat(rest), last.outputs)
  {
    FlatHolds(rest);
    if Disjoint(Flat(rest), last.outputs) {
      forall r | r in rest
        ensures Disjoint(r.outputs, last.outputs)
      {
        assert forall p :: p in r.outputs ==> p in Flat(rest);
      }
    }
  }

  // get_providers: None stands for the exit after the errors have been printed.
  method GetProviders(rules: seq<Rule>) returns (providers: Option<map<Path, Rule>>)
    ensures providers.Some? <==> OneProvider(rules)
    ensures providers.Some? ==>
              && (forall p :: p in providers.value <==> exists r :: r in rules && p in r.outputs)
              && (forall p :: p in providers.value ==> providers.value[p] in rules && p in providers.value[p].outputs)
  {
    var found: map<Path, Rule> := map[];
    var errors := 0;
    for i := 0 to |rules|
      invariant 0 <= errors && (errors == 0 <==> DistinctPaths(Flat(rules[..i])))
      invariant forall p :: p in found <==> p in Flat(rules[..i])
      invariant forall p :: p in found ==> found[p] in rules && p in found[p].outputs
    {
      var outputs := rules[i].outputs;
      ghost var before := Flat(rules[..i]);
      assert before + outputs[..0] == before;
      for j := 0 to |outputs|
        invariant 0 <= errors && (errors == 0 <==> DistinctPaths(before + outputs[..j]))
        invariant forall p :: p in found <==> p in before + outputs[..j]
        invariant forall p :: p in found ==> found[p] in rules && p in found[p].outputs
      {
        var path := outputs[j];
        ghost var seen := before + outputs[..j];
        assert before + outputs[..j + 1] == seen + [path];
        DistinctJoin(seen, [path]);
        if path !in found {
          found := found[path := rules[i]];
          continue;
        }
        errors := errors + 1;
      }
      assert rules[..i + 1][..i] == rules[..i] && outputs[..|outputs|] == outputs;
    }
    assert rules[..|rules|] == rules;
    FlatDistinct(rules);
    FlatHolds(rules);
    if errors > 0 {
      return None;
    }
    return Some(found);
  }

  // ---- sort_targets ----

  // The nodes of the sorter: paths and rules.
  datatype Node = Target(path: Path) | Step(rule: Rule)

  type Graph = map<Node, set<Node>>

  // What must come before a node.
  function Preds(providers: map<Path, Rule>, n: Node): set<Node> {
    match n
    case Target(p) => if p in providers then {Step(providers[p])} else {}
    case Step(r) => set d | d in r.depends :: Target(d)
  }

  // A way from a target to a node, each step to something that must come first.
  ghost predicate IsWay(targets: seq<Path>, providers: map<Path, Rule>, way: seq<Node>) {
    && way != [] && way[0].Target? && way[0].path in targets
    && forall i :: 0 < i < |way| ==> way[i] in Preds(providers, way[i - 1])
  }

  // The target needs the node.
  ghost predicate Reached(targets: seq<Path>, providers: map<Path, Rule>, n: Node) {
    exists way :: IsWay(targets, providers, way) && way[|way| - 1] == n
  }

  ghost predicate AllReached(targets: seq<Path>, providers: map<Path, Rule>, nodes: set<Node>) {
    forall n :: n in nodes ==> Reached(targets, providers, n)
  }

  lemma ReachedAtFirst(targets: seq<Path>, providers: map<Path, Rule>)
    ensures AllReached(targets, providers, {} + Elems(Queued(targets)))
  {
    forall n | n in Elems(Queued(targets))
      ensures Reached(targets, providers, n)
    {
      assert IsWay(targets, providers, [n]);
    }
  }

  lemma ReachedNext(targets: seq<Path>, providers: map<Path, Rule>, n: Node, m: Node)
    requires Reached(targets, providers, n) && m in Preds(providers, n)
    ensures Reached(targets, providers, m)
  {
    var way :| IsWay(targets, providers, way) && way[|way| - 1] == n;
    assert IsWay(targets, providers, way + [m]);
  }

  lemma ReachedPop(targets: seq<Path>, providers: map<Path, Rule>, visited: set<Node>, queue: seq<Node>, n: Node)
    requires AllReached(targets, providers, visited + Elems([n] + queue))
    ensures AllReached(targets, providers, visited + {n} + Elems(queue)) && Reached(targets, providers, n)
  {
    hide Reached;
    ElemsJoin([n], queue);
    ElemsOne(n);
  }

  lemma ReachedPush(targets: seq<Path>, providers: map<Path, Rule>, visited: set<Node>, queue: seq<Node>, n: Node, m: Node)
    requires AllReached(targets, providers, visited + Elems(queue)) && Reached(targets, providers, n)
    requires match n case Target(p) => p in providers && m == Step(providers[p]) case Step(r) => m.Target? && m.path in r.depends
    ensures AllReached(targets, providers, visited + Elems(queue + [m]))
  {
    ReachedNext(targets, providers, n, m);
    hide Reached;
    ElemsJoin(queue, [m]);
    ElemsOne(m);
  }

  // The other way round: the graph has whatever its targets need.
  lemma {:induction false} WayIsInGraph(targets: seq<Path>, providers: map<Path, Rule>, g: Graph, way: seq<Node>)
    requires IsWay(targets, providers, way) && IsClosed(g, providers)
    requires forall t :: t in targets ==> Target(t) in g
    ensures way[|way| - 1] in g
    decreases |way|
  {
    var last := |way| - 1;
    if last > 0 {
      assert IsWay(targets, providers, way[..last]);
      WayIsInGraph(targets, providers, g, way[..last]);
    }
  }

  lemma GraphIsReached(targets: seq<Path>, providers: map<Path, Rule>, g: Graph)
    requires IsClosed(g, providers) && AllReached(targets, providers, g.Keys)
    requires forall t :: t in targets ==> Target(t) in g
    ensures forall n :: n in g <==> Reached(targets, providers, n)
  {
    hide IsClosed, Preds;
    forall n | Reached(targets, providers, n)
      ensures n in g
    {
      var way :| IsWay(targets, providers, way) && way[|way| - 1] == n;
      WayIsInGraph(targets, providers, g, way);
    }
    hide Reached;
  }

  // TopologicalSorter.add: predecessors become nodes too.
  function Add(g: Graph, n: Node, preds: set<Node>): Graph {
    var had := if n in g then g[n] else {};
    (map m | m in preds :: {}) + g + map[n := had + preds]
  }

  // Every node has exactly the predecessors that it must have, and they are nodes.
  ghost predicate IsClosed(g: Graph, providers: map<Path, Rule>) {
    forall n :: n in g ==> g[n] == Preds(providers, n) && g[n] <= g.Keys
  }

  // What the queue can ever hold.
  function Universe(targets: seq<Path>, providers: map<Path, Rule>): set<Node> {
    (set t | t in targets :: Target(t)) + (set r | r in providers.Values :: Step(r))
    + (set r, d | r in providers.Values && d in r.depends :: Target(d))
  }

  function Elems(queue: seq<Node>): set<Node> {
    set n | n in queue
  }

  lemma ElemsJoin(a: seq<Node>, b: seq<Node>)
    ensures Elems(a + b) == Elems(a) + Elems(b)
  {
    forall n
      ensures n in Elems(a + b) <==> n in Elems(a) || n in Elems(b)
    {
      assert n in a + b <==> n in a || n in b;
    }
  }

  // Everything visited, queued or added to the graph is in the universe, and no target gets lost.
  ghost predicate Bounded(targets: seq<Path>, providers: map<Path, Rule>, g: Graph, visited: set<Node>, queue: seq<Node>) {
    var all := Universe(targets, providers);
    visited + Elems(queue) <= all && Targets(targets) <= visited + Elems(queue) && g.Keys <= all
  }

  lemma BoundedPop(targets: seq<Path>, providers: map<Path, Rule>, g: Graph, visited: set<Node>, queue: seq<Node>, n: Node)
    requires Bounded(targets, providers, g, visited, [n] + queue)
    ensures n in Universe(targets, providers) && Bounded(targets, providers, g, visited + {n}, queue)
    ensures n in visited ==> visited + {n} == visited
    ensures n !in visited ==>
              |Universe(targets, providers) - (visited + {n})| < |Universe(targets, providers) - visited|
  {
    var all := Universe(targets, providers);
    ElemsJoin([n], queue);
    assert n in Elems([n]);
    if n !in visited {
      assert all - visited == (all - (visited + {n})) + {n};
    }
  }

  lemma BoundedPush(targets: seq<Path>, providers: map<Path, Rule>, g: Graph, visited: set<Node>, queue: seq<Node>, n: Node, m: Node)
    requires Bounded(targets, providers, g, visited, queue) && n in Universe(targets, providers)
    requires match n case Target(p) => p in providers && m == Step(providers[p]) case Step(r) => m.Target? && m.path in r.depends
    ensures Bounded(targets, providers, Add(g, n, {m}), visited, queue + [m])
  {
    PredIn(targets, providers, n, m);
    ElemsJoin(queue, [m]);
    ElemsOne(m);
  }

  lemma BoundedAdd(targets: seq<Path>, providers: map<Path, Rule>, g: Graph, visited: set<Node>, queue: seq<Node>, n: Node)
    requires Bounded(targets, providers, g, visited, queue) && n in Universe(targets, providers)
    ensures Bounded(targets, providers, Add(g, n, {}), visited, queue)
  {
  }

  // sort_targets up to the call of static_order.
  method SortTargets(targets: seq<Path>, providers: map<Path, Rule>) returns (graph: Graph)
    ensures IsClosed(graph, providers)
    ensures forall t :: t in targets && t in providers ==> Target(t) in graph
    ensures forall n :: n in graph && n.Step? ==> n.rule in providers.Values
    ensures AllReached(targets, providers, graph.Keys)
  {
    hide AllReached, Reached, Pending, Opened, Universe, Elems, Add, Targets, Preds, Bounded, IsClosed, Queued;
    graph := map[];
    var visited: set<Node> := {};
    var queue := Queued(targets);
    StartQueue(targets, providers);
    ReachedAtFirst(targets, providers);
    while queue != []
      invariant AllReached(targets, providers, visited + Elems(queue))
      invariant Bounded(targets, providers, graph, visited, queue)
      invariant Pending(graph, visited, queue, providers)
      decreases |Universe(targets, providers) - visited|, |queue|
    {
      var target := queue[0];
      HeadAndTail(queue);
      queue := queue[1..];
      BoundedPop(targets, providers, graph, visited, queue, target);
      ReachedPop(targets, providers, visited, queue, target);
      if target in visited {
        SkipVisited(graph, visited, queue, providers, target);
        continue;
      }
      OpenTarget(graph, visited, queue, providers, target);
      visited := visited + {target};
      match target
      case Target(p) =>
        if p !in providers {
          CloseTarget(graph, visited, queue, providers, target);
          continue;
        }
        var dep := Step(providers[p]);
        AddOne(graph, visited, queue, providers, target, {}, dep);
        BoundedPush(targets, providers, graph, visited, queue, target, dep);
        ReachedPush(targets, providers, visited, queue, target, dep);
        graph := Add(graph, target, {dep});
        queue := queue + [dep];
        CloseTarget(graph, visited, queue, providers, target);
      case Step(r) =>
        AddNone(graph, visited, queue, providers, target);
        BoundedAdd(targets, providers, graph, visited, queue, target);
        graph := Add(graph, target, {});
        NoTargets();
        for i := 0 to |r.depends|
          invariant target in graph && Opened(graph, visited, queue, providers, target, Targets(r.depends[..i]))
          invariant Bounded(targets, providers, graph, visited, queue)
          invariant AllReached(targets, providers, visited + Elems(queue))
        {
          var dep := Target(r.depends[i]);
          TargetsOneMore(r.depends, i);
          AddOne(graph, visited, queue, providers, target, Targets(r.depends[..i]), dep);
          BoundedPush(targets, providers, graph, visited, queue, target, dep);
          ReachedPush(targets, providers, visited, queue, target, dep);
          graph := Add(graph, target, {dep});
          queue := queue + [dep];
        }
        AllTargets(r.depends);
        CloseTarget(graph, visited, queue, providers, target);
    }
    AllClosed(graph, visited, providers, targets);
    GraphIsVisited(graph, visited, providers, targets);
  }

  lemma GraphIsVisited(g: Graph, visited: set<Node>, providers: map<Path, Rule>, targets: seq<Path>)
    requires Pending(g, visited, [], providers) && AllReached(targets, providers, visited + Elems([]))
    ensures AllReached(targets, providers, g.Keys)
  {
    hide Reached;
  }

  function Queued(targets: seq<Path>): seq<Node> {
    seq(|targets|, i requires 0 <= i < |targets| => Target(targets[i]))
  }

  lemma StartQueue(targets: seq<Path>, providers: map<Path, Rule>)
    ensures Bounded(targets, providers, map[], {}, Queued(targets)) && Pending(map[], {}, Queued(targets), providers)
  {
    var queue := Queued(targets);
    forall t | t in targets
      ensures Target(t) in Elems(queue)
    {
      var i :| 0 <= i < |targets| && targets[i] == t;
      assert queue[i] in queue;
    }
  }

  lemma HeadAndTail(queue: seq<Node>)
    requires queue != []
    ensures queue == [queue[0]] + queue[1..]
  {
  }

  lemma ElemsOne(n: Node)
    ensures Elems([n]) == {n} && Elems([]) == {}
  {
  }

  lemma NoTargets()
    ensures Targets([]) == {}
  {
  }

  // Predecessors of a node that may be queued may be queued.
  lemma PredIn(targets: seq<Path>, providers: map<Path, Rule>, n: Node, m: Node)
    requires n in Universe(targets, providers)
    requires match n case Target(p) => p in providers && m == Step(providers[p]) case Step(r) => m.Target? && m.path in r.depends
    ensures m in Universe(targets, providers)
  {
    match n
    case Target(p) => assert providers[p] in providers.Values;
    case Step(r) =>
  }

  lemma SkipVisited(g: Graph, visited: set<Node>, queue: seq<Node>, providers: map<Path, Rule>, target: Node)
    requires Pending(g, visited, [target] + queue, providers) && target in visited
    ensures Pending(g, visited, queue, providers)
  {
  }

  lemma OpenTarget(g: Graph, visited: set<Node>, queue: seq<Node>, providers: map<Path, Rule>, target: Node)
    requires Pending(g, visited, [target] + queue, providers) && target !in visited
    ensures Opened(g, visited + {target}, queue, providers, target, {})
  {
  }

  lemma CloseTarget(g: Graph, visited: set<Node>, queue: seq<Node>, providers: map<Path, Rule>, target: Node)
    requires match target
             case Target(p) => Opened(g, visited, queue, providers, target, if p in providers then {Step(providers[p])} else {})
             case Step(r) => target in g && Opened(g, visited, queue, providers, target, Targets(r.depends))
    ensures Pending(g, visited, queue, providers)
  {
  }

  lemma AllClosed(g: Graph, visited: set<Node>, providers: map<Path, Rule>, targets: seq<Path>)
    requires Pending(g, visited, [], providers) && Bounded(targets, providers, g, visited, [])
    ensures IsClosed(g, providers)
    ensures forall t :: t in targets && t in providers ==> Target(t) in g
    ensures forall n :: n in g && n.Step? ==> n.rule in providers.Values
  {
    forall t | t in targets && t in providers
      ensures Target(t) in g
    {
      assert Target(t) in Targets(targets);
    }
  }

  function Targets(paths: seq<Path>): set<Node> {
    set p | p in paths :: Target(p)
  }

  lemma AllTargets(paths: seq<Path>)
    ensures Targets(paths[..|paths|]) == Targets(paths)
  {
    assert paths[..|paths|] == paths;
  }

  lemma TargetsOneMore(paths: seq<Path>, i: nat)
    requires i < |paths|
    ensures Targets(paths[..i + 1]) == Targets(paths[..i]) + {Target(paths[i])}
  {
    assert paths[..i + 1] == paths[..i] + [paths[i]];
  }

  // While the queue runs: nodes that have been visited have all their predecessors, and the others
  // have none yet and are still to come.
  ghost predicate Pending(g: Graph, visited: set<Node>, queue: seq<Node>, providers: map<Path, Rule>) {
    && (forall n :: n in visited && n in g ==> g[n] == Preds(providers, n))
    && (forall n :: n in visited && n !in g ==> n.Target? && n.path !in providers)
    && (forall n :: n in g && n !in visited ==> g[n] == {} && n in queue)
    && (forall n :: n in g ==> g[n] <= g.Keys)
  }

  // The same while node `target`, just visited, has been given only the predecessors in `given`.
  ghost predicate Opened(g: Graph, visited: set<Node>, queue: seq<Node>, providers: map<Path, Rule>, target: Node, given: set<Node>) {
    && target in visited && (if target in g then g[target] == given else given == {})
    && (forall n :: n in visited && n in g && n != target ==> g[n] == Preds(providers, n))
    && (forall n :: n in visited && n !in g && n != target ==> n.Target? && n.path !in providers)
    && (forall n :: n in g && n !in visited ==> g[n] == {} && n in queue)
    && (forall n :: n in g ==> g[n] <= g.Keys)
  }

  lemma AddNone(g: Graph, visited: set<Node>, queue: seq<Node>, providers: map<Path, Rule>, target: Node)
    requires Opened(g, visited, queue, providers, target, {})
    ensures Opened(Add(g, target, {}), visited, queue, providers, target, {}) && target in Add(g, target, {})
    ensures Add(g, target, {}).Keys == g.Keys + {target}
  {
  }

  lemma AddOne(g: Graph, visited: set<Node>, queue: seq<Node>, providers: map<Path, Rule>, target: Node, given: set<Node>, m: Node)
    requires Opened(g, visited, queue, providers, target, given)
    ensures Opened(Add(g, target, {m}), visited, queue + [m], providers, target, given + {m}) && target in Add(g, target, {m})
    ensures Add(g, target, {m}).Keys == g.Keys + {target, m}
  {
    var h := Add(g, target, {m});
    assert forall n :: n in h <==> n in g || n == target || n == m;
    assert forall n :: n in h && n != target ==> h[n] == if n in g then g[n] else {};
    assert forall n :: n in queue + [m] <==> n in queue || n == m;
  }

  // ---- The order of the rules ----

  // The contract of TopologicalSorter.static_order, when there is no cycle: every node once, after its
  // predecessors.
  ghost predicate StaticOrder(g: Graph, order: seq<Node>) {
    && (forall i, j :: 0 <= i < j < |order| ==> order[i] != order[j])
    && (forall n :: n in order <==> n in g)
    && (forall i, m :: 0 <= i < |order| && order[i] in g && m in g[order[i]] ==> m in order[..i])
  }

  // rules = tuple(rule for rule in targets if isinstance(rule, Rule))
  function RulesOf(order: seq<Node>): seq<Rule> {
    if order == [] then []
    else RulesOf(order[..|order| - 1]) + match order[|order| - 1] case Target(_) => [] case Step(r) => [r]
  }

  lemma {:induction false} RulesOfHolds(order: seq<Node>)
    ensures forall r :: r in RulesOf(order) <==> Step(r) in order
  {
    if order != [] {
      RulesOfHolds(order[..|order| - 1]);
      assert order == order[..|order| - 1] + [order[|order| - 1]];
    }
  }

  // Where a rule of the list stands in the order.
  lemma {:induction false} PositionOf(order: seq<Node>, i: nat) returns (a: nat)
    requires i < |RulesOf(order)|
    ensures a < |order| && order[a] == Step(RulesOf(order)[i]) && |RulesOf(order[..a])| == i
  {
    var n := |order| - 1;
    if i < |RulesOf(order[..n])| {
      a := PositionOf(order[..n], i);
      assert order[..n][..a] == order[..a];
    } else {
      a := n;
    }
  }

  lemma {:induction false} PrefixShorter(order: seq<Node>, a: nat, b: nat)
    requires a <= b <= |order|
    ensures |RulesOf(order[..a])| <= |RulesOf(order[..b])|
    decreases b - a
  {
    if a < b {
      PrefixShorter(order, a, b - 1);
      assert order[..b][..b - 1] == order[..b - 1];
    }
  }

  // What get_providers guarantees about its result.
  ghost predicate ProvidersOk(rules: seq<Rule>, providers: map<Path, Rule>) {
    && OneProvider(rules)
    && (forall p :: p in providers <==> exists r :: r in rules && p in r.outputs)
    && (forall p :: p in providers ==> providers[p] in rules && p in providers[p].outputs)
  }

  lemma UniqueProvider(rules: seq<Rule>, providers: map<Path, Rule>, r: Rule, p: Path)
    requires ProvidersOk(rules, providers) && r in rules && p in r.outputs
    ensures p in providers && providers[p] == r
  {
    var i :| 0 <= i < |rules| && rules[i] == r;
    var j :| 0 <= j < |rules| && rules[j] == providers[p];
    assert i < j ==> Disjoint(rules[i].outputs, rules[j].outputs);
    assert j < i ==> Disjoint(rules[j].outputs, rules[i].outputs);
  }

  // Elements before position i of an order without repetitions stand before it.
  lemma EarlierPosition(order: seq<Node>, i: nat, n: Node, b: nat)
    requires forall i, j :: 0 <= i < j < |order| ==> order[i] != order[j]
    requires i <= |order| && n in order[..i] && b < |order| && order[b] == n
    ensures b < i
  {
    var k :| 0 <= k < i && order[..i][k] == n;
    assert order[k] == n;
  }

  // If some rule provides a dependency of a rule in the order, it stands before it.
  lemma ProviderComesFirst(g: Graph, providers: map<Path, Rule>, order: seq<Node>, a: nat, r: Rule, d: Path)
    requires IsClosed(g, providers) && StaticOrder(g, order) && a < |order| && order[a] == Step(r)
    requires d in r.depends && d in providers
    ensures Step(providers[d]) in order[..a]
  {
    assert order[a] in order;
    assert Target(d) in Preds(providers, order[a]);
    assert Target(d) in order[..a];
    var c :| 0 <= c < a && order[..a][c] == Target(d);
    assert order[c] == Target(d) && order[c] in order;
    assert Step(providers[d]) in g[order[c]];
    assert Step(providers[d]) in order[..c];
    var b :| 0 <= b < c && order[..c][b] == Step(providers[d]);
    assert order[..a][b] == Step(providers[d]);
  }

  // The rules of a run: every needed rule is there, before the rules that need it, and none overwrites
  // what an earlier one has read or made.
  lemma SortedRulesAreGood(rules: seq<Rule>, providers: map<Path, Rule>, targets: seq<Path>, g: Graph, order: seq<Node>)
    requires ProvidersOk(rules, providers) && IsClosed(g, providers) && StaticOrder(g, order)
    requires forall n :: n in g && n.Step? ==> n.rule in providers.Values
    requires forall t :: t in targets && t in providers ==> Target(t) in g
    ensures OneProvider(RulesOf(order)) && Ordered(RulesOf(order))
    ensures forall t :: t in targets && t in providers ==> providers[t] in RulesOf(order)
    ensures forall r, d :: r in RulesOf(order) && d in r.depends && d in providers ==> providers[d] in RulesOf(order)
  {
    var run := RulesOf(order);
    RulesOfHolds(order);
    forall r | r in run
      ensures r in rules && DistinctPaths(r.outputs)
    {
      assert Step(r) in g;
    }
    forall i, j | 0 <= i < j < |run|
      ensures Disjoint(run[i].outputs, run[j].outputs)
    {
      NotTwice(rules, providers, g, order, i, j);
    }
    forall i, j | 0 <= i <= j < |run|
      ensures Disjoint(run[j].outputs, run[i].depends)
    {
      NotLater(rules, providers, g, order, i, j);
    }
    forall t | t in targets && t in providers
      ensures providers[t] in run
    {
      assert Step(providers[t]) in g[Target(t)];
    }
    forall r, d | r in run && d in r.depends && d in providers
      ensures providers[d] in run
    {
      assert Target(d) in g[Step(r)];
      assert Step(providers[d]) in g[Target(d)];
    }
  }

  lemma InRules(rules: seq<Rule>, providers: map<Path, Rule>, g: Graph, order: seq<Node>, i: nat)
    requires ProvidersOk(rules, providers) && StaticOrder(g, order) && i < |RulesOf(order)|
    requires forall n :: n in g && n.Step? ==> n.rule in providers.Values
    ensures RulesOf(order)[i] in rules
  {
    RulesOfHolds(order);
    assert Step(RulesOf(order)[i]) in g;
  }

  // A rule stands in the list once.
  lemma RulesDiffer(g: Graph, order: seq<Node>, i: nat, j: nat)
    requires StaticOrder(g, order) && i < j < |RulesOf(order)|
    ensures RulesOf(order)[i] != RulesOf(order)[j]
  {
    var a := PositionOf(order, i);
    var b := PositionOf(order, j);
    assert a < b ==> order[a] != order[b];
    assert b < a ==> order[b] != order[a];
  }

  lemma NotTwice(rules: seq<Rule>, providers: map<Path, Rule>, g: Graph, order: seq<Node>, i: nat, j: nat)
    requires ProvidersOk(rules, providers) && StaticOrder(g, order) && i < j < |RulesOf(order)|
    requires forall n :: n in g && n.Step? ==> n.rule in providers.Values
    ensures Disjoint(RulesOf(order)[i].outputs, RulesOf(order)[j].outputs)
  {
    var run := RulesOf(order);
    InRules(rules, providers, g, order, i);
    InRules(rules, providers, g, order, j);
    RulesDiffer(g, order, i, j);
    forall p | p in run[i].outputs
      ensures p !in run[j].outputs
    {
      UniqueProvider(rules, providers, run[i], p);
      if p in run[j].outputs { UniqueProvider(rules, providers, run[j], p); }
    }
  }

  // Rules stand in the list as they do in the order.
  lemma SameDirection(order: seq<Node>, a: nat, b: nat)
    requires b < a <= |order| && order[b].Step?
    ensures |RulesOf(order[..b])| < |RulesOf(order[..a])|
  {
    assert order[..b + 1][..b] == order[..b];
    PrefixShorter(order, b + 1, a);
  }

  lemma NeedsEarlier(rules: seq<Rule>, providers: map<Path, Rule>, g: Graph, order: seq<Node>, i: nat, j: nat, p: Path)
    requires ProvidersOk(rules, providers) && IsClosed(g, providers) && StaticOrder(g, order)
    requires i < |RulesOf(order)| && j < |RulesOf(order)| && p in RulesOf(order)[i].depends
    requires p in providers && providers[p] == RulesOf(order)[j]
    ensures j < i
  {
    var a := PositionOf(order, i);
    var b := PositionOf(order, j);
    ProviderComesFirst(g, providers, order, a, RulesOf(order)[i], p);
    EarlierPosition(order, a, order[b], b);
    SameDirection(order, a, b);
  }

  lemma NotLater(rules: seq<Rule>, providers: map<Path, Rule>, g: Graph, order: seq<Node>, i: nat, j: nat)
    requires ProvidersOk(rules, providers) && IsClosed(g, providers) && StaticOrder(g, order) && i <= j < |RulesOf(order)|
    requires forall n :: n in g && n.Step? ==> n.rule in providers.Values
    ensures Disjoint(RulesOf(order)[j].outputs, RulesOf(order)[i].depends)
  {
    var run := RulesOf(order);
    InRules(rules, providers, g, order, j);
    forall p | p in run[j].outputs
      ensures p !in run[i].depends
    {
      UniqueProvider(rules, providers, run[j], p);
      if p in run[i].depends { NeedsEarlier(rules, providers, g, order, i, j, p); }
    }
  }
}
