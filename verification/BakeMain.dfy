// main of code/bake under -t build: from all rules and the targets asked for to the directory.

module BakeMain {
  import opened BakeModel
  import opened BakeSound
  import opened BakeLog
  import opened BakeHistory
  import opened BakeFresh
  import opened BakeStops
  import opened BakeRuns
  import opened BakeOrder

  // resolve_targets: None stands for the exit after the errors have been printed.
  method ResolveTargets(targets: seq<Path>, providers: map<Path, Rule>) returns (resolved: Option<seq<Path>>)
    ensures resolved.None? <==> exists t :: t in targets && t !in providers
    ensures resolved.Some? ==> forall p :: p in resolved.value <==> if targets == [] then p in providers else p in targets
  {
    if targets == [] {
      var keys, left := [], providers.Keys;
      while left != {}
        invariant forall p :: p in providers <==> p in keys || p in left
        decreases left
      {
        var p :| p in left;
        keys, left := keys + [p], left - {p};
      }
      return Some(keys);
    }
    for i := 0 to |targets|
      invariant forall k :: 0 <= k < i ==> targets[k] in providers
    {
      if targets[i] !in providers {
        return None;
      }
    }
    return Some(targets);
  }

  // The contract of TopologicalSorter: an order, or None for the exit when there is a cycle, so that there
  // is no order.
  type Sorter = Graph -> Option<seq<Node>>

  ghost predicate Sorts(sorter: Sorter) {
    forall g: Graph ::
      match sorter(g)
      case Some(order) => StaticOrder(g, order)
      case None => forall order :: !StaticOrder(g, order)
  }

  ghost predicate Wanted(targets: seq<Path>, p: Path) {
    targets == [] || p in targets
  }

  ghost predicate Needs(q: Rule, r: Rule) {
    exists p :: p in r.outputs && p in q.depends
  }

  // A list of rules that begins with one that provides a target, each followed by one that it depends on.
  ghost predicate Leads(rules: seq<Rule>, targets: seq<Path>, way: seq<Rule>) {
    && way != [] && (forall r <- way :: r in rules)
    && (exists p :: p in way[0].outputs && Wanted(targets, p))
    && forall i :: 0 < i < |way| ==> Needs(way[i - 1], way[i])
  }

  // The rules of a run serve the targets (no targets means all): they are among the rules given, provide
  // every target, and with each rule contain those that provide what it depends on. Each of them is needed.
  ghost predicate Serves(chosen: seq<Rule>, rules: seq<Rule>, targets: seq<Path>) {
    && (forall r :: r in chosen ==> r in rules)
    && (forall r :: r in chosen ==> exists way :: Leads(rules, targets, way) && way[|way| - 1] == r)
    && (forall r, p :: r in rules && p in r.outputs && Wanted(targets, p) ==> r in chosen)
    && (forall r, q, p :: r in chosen && q in rules && p in q.outputs && p in r.depends ==> q in chosen)
  }

  // A way from a target to a rule, in the graph, goes through rules that need each other.
  lemma {:induction false} WayLeads(rules: seq<Rule>, providers: map<Path, Rule>, targets: seq<Path>, resolved: seq<Path>,
                                    nodes: seq<Node>, r: Rule) returns (way: seq<Rule>)
    requires ProvidersOk(rules, providers) && IsWay(resolved, providers, nodes) && nodes[|nodes| - 1] == Step(r)
    requires forall p :: p in resolved ==> Wanted(targets, p)
    ensures Leads(rules, targets, way) && way[|way| - 1] == r
    decreases |nodes|
  {
    var last := |nodes| - 1;
    var p := nodes[last - 1].path;
    assert nodes[last] in Preds(providers, nodes[last - 1]);
    assert p in r.outputs && r in rules;
    if last == 1 {
      way := [r];
    } else {
      assert nodes[last - 1] in Preds(providers, nodes[last - 2]);
      var q := nodes[last - 2].rule;
      var before := WayLeads(rules, providers, targets, resolved, nodes[..last - 1], q);
      assert Needs(q, r);
      hide Needs, ProvidersOk, IsWay, Wanted, Preds;
      way := before + [r];
    }
  }

  lemma ChosenServe(rules: seq<Rule>, providers: map<Path, Rule>, targets: seq<Path>, resolved: seq<Path>,
                    g: Graph, order: seq<Node>)
    requires ProvidersOk(rules, providers) && IsClosed(g, providers) && StaticOrder(g, order)
    requires forall n :: n in g && n.Step? ==> n.rule in providers.Values
    requires forall t :: t in resolved && t in providers ==> Target(t) in g
    requires AllReached(resolved, providers, g.Keys)
    requires forall p :: p in resolved <==> if targets == [] then p in providers else p in targets
    ensures OneProvider(RulesOf(order)) && Ordered(RulesOf(order)) && Serves(RulesOf(order), rules, targets)
  {
    SortedRulesAreGood(rules, providers, resolved, g, order);
    var chosen := RulesOf(order);
    forall r | r in chosen
      ensures r in rules
    {
      var i :| 0 <= i < |chosen| && chosen[i] == r;
      InRules(rules, providers, g, order, i);
    }
    forall r | r in chosen
      ensures exists way :: Leads(rules, targets, way) && way[|way| - 1] == r
    {
      RulesOfHolds(order);
      assert Step(r) in g.Keys;
      var nodes :| IsWay(resolved, providers, nodes) && nodes[|nodes| - 1] == Step(r);
      var way := WayLeads(rules, providers, targets, resolved, nodes, r);
    }
    forall r, p | r in rules && p in r.outputs && Wanted(targets, p)
      ensures r in chosen
    {
      UniqueProvider(rules, providers, r, p);
      assert p in resolved && providers[p] in chosen;
    }
    forall r, q, p | r in chosen && q in rules && p in q.outputs && p in r.depends
      ensures q in chosen
    {
      UniqueProvider(rules, providers, q, p);
      assert providers[p] in chosen;
    }
  }

  // The rules cannot be sorted: the graph of all that the targets need, every node with what must come
  // before it, has no order.
  ghost predicate Unsortable(rules: seq<Rule>, targets: seq<Path>) {
    exists g, providers, resolved :: HasNoOrder(rules, targets, g, providers, resolved)
  }

  ghost predicate HasNoOrder(rules: seq<Rule>, targets: seq<Path>, g: Graph, providers: map<Path, Rule>, resolved: seq<Path>) {
    && ProvidersOk(rules, providers) && (forall p :: p in resolved <==> if targets == [] then p in providers else p in targets)
    && IsClosed(g, providers) && (forall n :: n in g <==> Reached(resolved, providers, n))
    && forall order :: !StaticOrder(g, order)
  }

  lemma NoOrder(rules: seq<Rule>, targets: seq<Path>, g: Graph, providers: map<Path, Rule>, resolved: seq<Path>)
    requires ProvidersOk(rules, providers) && forall p :: p in resolved <==> if targets == [] then p in providers else p in targets
    requires IsClosed(g, providers) && AllReached(resolved, providers, g.Keys)
    requires (forall t :: t in resolved ==> Target(t) in g) && forall order :: !StaticOrder(g, order)
    ensures Unsortable(rules, targets)
  {
    hide StaticOrder, Reached, IsClosed, ProvidersOk, AllReached;
    GraphIsReached(resolved, providers, g);
    assert HasNoOrder(rules, targets, g, providers, resolved);
  }

  // What the user sees: the directory, whether every rule of the run has succeeded, and whether the run
  // was given up, with exit status 1.
  datatype Result = Result(disk: Disk, ok: bool, exited: bool)

  // None stands for an exit before anything is built. Otherwise the run takes rules that serve the targets,
  // and processes the first k of them: up to the failure that reaches the limit, or all. If all of them
  // succeed, the directory is what a build from scratch makes of the current sources.
  method BuildTargets(w: World, sorter: Sorter, d: Disk, rules: seq<Rule>, targets: seq<Path>, always: bool,
                      keepGoing: int) returns (result: Option<Result>, ghost chosen: seq<Rule>, ghost k: nat)
    requires Sorts(sorter) && DistinctNames(d.entries)
    ensures result.Some? ==> OneProvider(rules) && Serves(chosen, rules, targets)
    ensures result.Some? ==> OneProvider(chosen) && Ordered(chosen)
    ensures result.Some? ==> StopsAfter(w, Start(d), chosen, always, keepGoing, k)
    ensures result.Some? ==> result.value == Ended(w, d, chosen, always, keepGoing, k)
    ensures result.Some? && keepGoing <= 0 ==> k == |chosen| && !result.value.exited
    ensures result.Some? && keepGoing == 1 ==> forall i :: 0 <= i < k - 1 ==> !Fails(w, Start(d), chosen, always, i)
    ensures result.Some? && k < |chosen| ==> result.value.exited && 0 < k && Fails(w, Start(d), chosen, always, k - 1)
    ensures result.Some? && always ==> (result.value.disk.fs, result.value.disk.now) == AllRun(w, d.fs, d.now, chosen[..k])
    ensures result.Some? ==> (result.value.disk, result.value.ok) == Bake(w, d, chosen, always, LimitOf(keepGoing))
    ensures !OneProvider(rules) || (exists t :: t in targets && !Provided(rules, t)) ==> result.None?
    ensures result.None? ==>
      !OneProvider(rules) || (exists t :: t in targets && !Provided(rules, t)) || Unsortable(rules, targets)
    ensures result.Some? && result.value.ok && Lawful(w) && DiskOk(w, d) && Confined(w, chosen) && AllDeclared(w, chosen) ==>
      Contents(result.value.disk.fs) == Scratch(w, Contents(d.fs) - Outputs(chosen), chosen)
  {
    hide Bake, RunRules, Lawful, DiskOk, Confined, Declared, Scratch, StaticOrder, IsClosed, Ordered, OneProvider, Serves;
    hide AllReached, Unsortable, StopsAfter, Ran, Failures, Fails, AllRun, LimitOf, ProcessRule;
    chosen, k := [], 0;
    var providers := GetProviders(rules);
    if providers.None? {
      return None, chosen, k;
    }
    var resolved := ResolveTargets(targets, providers.value);
    if resolved.None? {
      return None, chosen, k;
    }
    var graph := SortTargets(resolved.value, providers.value);
    var order := sorter(graph);
    ProvidersAreOk(rules, providers.value);
    if order.None? {
      NoOrder(rules, targets, graph, providers.value, resolved.value);
      return None, chosen, k;
    }
    assert StaticOrder(graph, order.value);
    ChosenServe(rules, providers.value, targets, resolved.value, graph, order.value);
    var taken := RulesOf(order.value);
    chosen := taken;
    var baker := new Baker(w, d);
    var ok, exited, processed := baker.Build(taken, always, keepGoing);
    k := processed;
    var log := Log(baker.log.files, baker.log.log, baker.log.updated);
    result := Some(Result(Disk(baker.fs, baker.now, Written(d.entries, log)), ok, exited));
    BakeIs(w, d, taken, always, LimitOf(keepGoing));
    RunEnded(w, d, taken, always, keepGoing, k);
    if ok && Lawful(w) && DiskOk(w, d) && Confined(w, taken) && AllDeclared(w, taken) {
      RunIsSound(w, d, taken, always, LimitOf(keepGoing));
    }
  }

  // The first k rules have been processed, and the log has been written.
  ghost function Ended(w: World, d: Disk, rules: seq<Rule>, always: bool, keepGoing: int, k: nat): Result
    requires k <= |rules|
  {
    var (s, failures) := (Ran(w, Start(d), rules, always, k), Failures(w, Start(d), rules, always, k));
    Result(Disk(s.fs, s.now, Written(d.entries, s.log)), failures == 0, Limits(keepGoing, failures))
  }

  lemma RunEnded(w: World, d: Disk, rules: seq<Rule>, always: bool, keepGoing: int, k: nat)
    requires StopsAfter(w, Start(d), rules, always, keepGoing, k)
    ensures k <= |rules| && (keepGoing <= 0 ==> k == |rules| && !Ended(w, d, rules, always, keepGoing, k).exited)
    ensures keepGoing == 1 ==> forall i :: 0 <= i < k - 1 ==> !Fails(w, Start(d), rules, always, i)
    ensures k < |rules| ==>
      0 < k && Fails(w, Start(d), rules, always, k - 1) && Ended(w, d, rules, always, keepGoing, k).exited
    ensures always ==>
      var disk := Ended(w, d, rules, always, keepGoing, k).disk; (disk.fs, disk.now) == AllRun(w, d.fs, d.now, rules[..k])
  {
    hide Ran, Failures, Fails, AllRun;
    StopMeans(w, Start(d), rules, always, keepGoing, k);
    if always {
      AlwaysRunsAll(w, Start(d), rules, k);
    }
  }

  ghost predicate AllDeclared(w: World, rules: seq<Rule>) {
    forall r :: r in rules ==> Declared(w, r)
  }

  ghost predicate Provided(rules: seq<Rule>, p: Path) {
    exists r :: r in rules && p in r.outputs
  }

  lemma ProvidersAreOk(rules: seq<Rule>, providers: map<Path, Rule>)
    requires OneProvider(rules)
    requires forall p :: p in providers <==> exists r :: r in rules && p in r.outputs
    requires forall p :: p in providers ==> providers[p] in rules && p in providers[p].outputs
    ensures ProvidersOk(rules, providers)
  {
  }

  lemma BakeIs(w: World, d: Disk, rules: seq<Rule>, always: bool, limit: Option<int>)
    ensures var (s, ok) := RunRules(w, Start(d), rules, always, limit);
      Bake(w, d, rules, always, limit) == (Disk(s.fs, s.now, Written(d.entries, s.log)), ok)
  {
  }
}
