// What process_rule and build of code/bake do, said without their parts: when the commands of a rule run,
// what a rule leaves behind, and where a run stops.

module BakeDecisions {
  import opened BakeModel
  import opened BakeSound
  import opened BakeFresh

  // ---- One rule ----

  // The log has every output of the rule as it is, made by commands with the same digest.
  ghost predicate Logged(w: World, s: State, rule: Rule) {
    && rule.outputs != []
    && forall p <- rule.outputs ::
         && p in s.fs && p in s.log.files
         && s.log.files[p].digest == w.digest(rule.commands) && s.log.files[p].mtime == Some(s.fs[p].mtime)
  }

  // When the rule was last built, as its outputs tell: the earliest of their start times.
  ghost predicate Since(s: State, rule: Rule, start: nat) {
    && (forall p <- rule.outputs :: p in s.log.files && start <= s.log.files[p].start)
    && (exists p <- rule.outputs :: p in s.log.files && start == s.log.files[p].start)
  }

  // A dependency that is no reason to build: this run says that it is unchanged, or this run has not
  // touched it, and it exists and is older than the start.
  ghost predicate Unchanged(s: State, start: nat, d: Path) {
    if d in s.marks then s.marks[d] == Some(false) else d in s.fs && s.fs[d].mtime < start
  }

  // Dependency i is the first that may be one.
  ghost predicate Decides(s: State, start: nat, depends: seq<Path>, i: nat) {
    i < |depends| && !Unchanged(s, start, depends[i]) && forall j :: 0 <= j < i ==> Unchanged(s, start, depends[j])
  }

  // The first dependency that may be a reason to build is one whose rule failed, or did not make it.
  ghost predicate DependencyFailed(s: State, start: nat, depends: seq<Path>) {
    exists i: nat :: Decides(s, start, depends, i) && depends[i] in s.marks && s.marks[depends[i]].None?
  }

  // It is any other.
  ghost predicate DependencyNewer(s: State, start: nat, depends: seq<Path>) {
    exists i: nat :: Decides(s, start, depends, i) && !(depends[i] in s.marks && s.marks[depends[i]].None?)
  }

  ghost predicate MustRun(w: World, s: State, rule: Rule, always: bool) {
    || always || !Logged(w, s, rule)
    || exists start: nat :: Since(s, rule, start) && DependencyNewer(s, start, rule.depends)
  }

  ghost predicate MayReuse(s: State, rule: Rule) {
    exists start: nat :: Since(s, rule, start) && forall d <- rule.depends :: Unchanged(s, start, d)
  }

  // The commands have run, on the directory as it was and at the time it was: directory, clock and success
  // are theirs; an output that exists after a success is marked as updated, any other output as failed; and
  // only a success is logged, with the time at which the rule was started.
  ghost predicate HasRun(w: World, s: State, rule: Rule, t: State, ok: bool) {
    var o := w.run(s.fs, s.now, rule);
    && t.fs == o.fs && t.now == o.now && ok == o.ok
    && (forall p :: p in t.marks <==> p in s.marks || p in rule.outputs)
    && (forall p :: p in t.marks ==>
         t.marks[p] == if p !in rule.outputs then s.marks[p] else if ok && p in t.fs then Some(true) else None)
    && if ok then HasLogged(w, s, rule, t) else t.log == s.log
  }

  ghost predicate HasLogged(w: World, s: State, rule: Rule, t: State) {
    && (forall p :: p in t.log.files <==> p in s.log.files || p in rule.outputs)
    && (forall p :: p in t.log.files ==>
         t.log.files[p] == if p in rule.outputs then EntryFor(w, s, rule, t, p) else s.log.files[p])
    && t.log.log == s.log.log + seq(|rule.outputs|, i requires 0 <= i < |rule.outputs| => EntryFor(w, s, rule, t, rule.outputs[i]))
    && (forall p :: p in t.log.updated <==> p in s.log.updated || p in rule.outputs)
  }

  ghost function EntryFor(w: World, s: State, rule: Rule, t: State, p: Path): Entry {
    Entry(s.now, w.digest(rule.commands), if p in t.fs then Some(t.fs[p].mtime) else None, p)
  }

  // A rule has been dealt with: its commands have run exactly if they had to, and otherwise nothing but the
  // time has passed, and it succeeds exactly if its outputs may be used as they are.
  ghost predicate Processed(w: World, s: State, rule: Rule, always: bool, t: State, ok: bool) {
    if MustRun(w, s, rule, always) then HasRun(w, s, rule, t, ok)
    else t == s.(now := s.now + 1) && (ok <==> MayReuse(s, rule))
  }

  lemma {:induction false} CheckDecides(s: State, start: nat, depends: seq<Path>)
    ensures CheckUpdated(s.fs, s.marks, start, depends) == Some(false) <==> forall d <- depends :: Unchanged(s, start, d)
    ensures CheckUpdated(s.fs, s.marks, start, depends) == None <==> DependencyFailed(s, start, depends)
    ensures CheckUpdated(s.fs, s.marks, start, depends) == Some(true) <==> DependencyNewer(s, start, depends)
    decreases |depends|
  {
    if depends == [] {
      assert forall i: nat :: !Decides(s, start, depends, i);
    } else if Unchanged(s, start, depends[0]) {
      hide DependencyFailed, DependencyNewer;
      FirstShifts(s, start, depends);
      CheckDecides(s, start, depends[1..]);
      assert depends == [depends[0]] + depends[1..];
    } else {
      assert depends[0] in depends;
      FirstIsFirst(s, start, depends);
      assert depends[0] in s.marks && s.marks[depends[0]].Some? ==> s.marks[depends[0]].value;
    }
  }

  lemma FirstIsFirst(s: State, start: nat, depends: seq<Path>)
    requires depends != [] && !Unchanged(s, start, depends[0])
    ensures DependencyFailed(s, start, depends) <==> depends[0] in s.marks && s.marks[depends[0]].None?
    ensures DependencyNewer(s, start, depends) <==> !(depends[0] in s.marks && s.marks[depends[0]].None?)
  {
    assert Decides(s, start, depends, 0);
    assert forall i: nat :: Decides(s, start, depends, i) ==> i == 0;
  }

  // Behind a dependency that is unchanged, the rest decides.
  lemma FirstShifts(s: State, start: nat, depends: seq<Path>)
    requires depends != [] && Unchanged(s, start, depends[0])
    ensures DependencyFailed(s, start, depends) <==> DependencyFailed(s, start, depends[1..])
    ensures DependencyNewer(s, start, depends) <==> DependencyNewer(s, start, depends[1..])
  {
    var rest := depends[1..];
    forall i: nat | Decides(s, start, depends, i)
      ensures i > 0 && Decides(s, start, rest, i - 1) && rest[i - 1] == depends[i]
    {
    }
    forall i: nat | Decides(s, start, rest, i)
      ensures Decides(s, start, depends, i + 1) && depends[i + 1] == rest[i]
    {
    }
  }

  // What Log.find returns for the rule.
  lemma FindSince(w: World, s: State, rule: Rule)
    ensures var start := Find(s.log.files, w.digest(rule.commands), s.fs, rule.outputs);
      && (start.Some? <==> Logged(w, s, rule))
      && (start.Some? ==> forall t: nat :: Since(s, rule, t) <==> t == start.value)
  {
    var digest, files := w.digest(rule.commands), s.log.files;
    FindMeans(files, digest, s.fs, rule.outputs, |rule.outputs|);
    assert forall i :: 0 <= i < |rule.outputs| ==> rule.outputs[i] in rule.outputs;
  }

  // What NewEntries puts into the log.
  lemma NewEntriesAre(w: World, s: State, rule: Rule, t: State)
    ensures var added := NewEntries(s.now, w.digest(rule.commands), t.fs, rule.outputs);
      && added == seq(|rule.outputs|, i requires 0 <= i < |rule.outputs| => EntryFor(w, s, rule, t, rule.outputs[i]))
      && (forall p :: p in Names(added) <==> p in rule.outputs) && ToMap(added).Keys == Names(added)
      && forall p :: p in ToMap(added) ==> ToMap(added)[p] == EntryFor(w, s, rule, t, p)
  {
    var added := NewEntries(s.now, w.digest(rule.commands), t.fs, rule.outputs);
    ToMapHolds(added);
    forall p
      ensures p in Names(added) <==> p in rule.outputs
    {
      if p in rule.outputs {
        var i :| 0 <= i < |rule.outputs| && rule.outputs[i] == p;
        assert added[i] in added && added[i].name == p;
      }
    }
    forall p | p in ToMap(added)
      ensures ToMap(added)[p] == EntryFor(w, s, rule, t, p)
    {
      var i :| 0 <= i < |added| && added[i] == ToMap(added)[p];
    }
  }

  lemma AppendLogs(w: World, s: State, rule: Rule, t: State)
    requires t.log == Append(s.log, NewEntries(s.now, w.digest(rule.commands), t.fs, rule.outputs))
    ensures HasLogged(w, s, rule, t)
  {
    NewEntriesAre(w, s, rule, t);
    hide ToMap, Names, NewEntries, EntryFor;
  }

  lemma BuildRuns(w: World, s: State, rule: Rule)
    ensures var (t, ok) := Build(w, s, rule); HasRun(w, s, rule, t, ok)
  {
    hide HasLogged, ToMap, Names, NewEntries;
    var (t, ok) := Build(w, s, rule);
    if ok {
      AppendLogs(w, s, rule, t);
    }
    hide Append;
  }

  lemma ProcessRuleMeans(w: World, s: State, rule: Rule, always: bool)
    ensures var (t, ok) := ProcessRule(w, s, rule, always); Processed(w, s, rule, always, t, ok)
  {
    hide HasRun, Logged, Since, DependencyNewer, DependencyFailed, Unchanged, CheckUpdated, Find, Build;
    FindSince(w, s, rule);
    BuildRuns(w, s, rule);
    var start := Find(s.log.files, w.digest(rule.commands), s.fs, rule.outputs);
    if start.Some? {
      CheckDecides(s, start.value, rule.depends);
    }
  }

  // With -B the commands run, whatever the log says.
  lemma AlwaysRuns(w: World, s: State, rule: Rule)
    ensures var ((t, ok), o) := (ProcessRule(w, s, rule, true), w.run(s.fs, s.now, rule));
      t.fs == o.fs && t.now == o.now && ok == o.ok
  {
    ProcessRuleMeans(w, s, rule, true);
  }
}

module BakeStops {
  import opened BakeModel
  import opened BakeDecisions

  // The first k rules, one after the other: the state after them, and how many of them failed.
  ghost function Ran(w: World, s: State, rules: seq<Rule>, always: bool, k: nat): State
    requires k <= |rules|
  {
    if k == 0 then s else ProcessRule(w, Ran(w, s, rules, always, k - 1), rules[k - 1], always).0
  }

  ghost predicate Fails(w: World, s: State, rules: seq<Rule>, always: bool, i: nat)
    requires i < |rules|
  {
    !ProcessRule(w, Ran(w, s, rules, always, i), rules[i], always).1
  }

  ghost function Failures(w: World, s: State, rules: seq<Rule>, always: bool, k: nat): (n: nat)
    requires k <= |rules|
    ensures n == 0 <==> forall i :: 0 <= i < k ==> !Fails(w, s, rules, always, i)
  {
    if k == 0 then 0
    else Failures(w, s, rules, always, k - 1) + if Fails(w, s, rules, always, k - 1) then 1 else 0
  }

  // The limit that -k sets: 0 sets none, and a negative one is never reached.
  ghost predicate Limits(keepGoing: int, n: nat) {
    keepGoing == n && n > 0
  }

  // A run with -k keepGoing ends after k rules: with the failure that reaches the limit, or with the last rule.
  ghost predicate StopsAfter(w: World, s: State, rules: seq<Rule>, always: bool, keepGoing: int, k: nat) {
    && k <= |rules|
    && (forall n, j :: Limits(keepGoing, n) && 0 <= j < k ==> Failures(w, s, rules, always, j) < n)
    && (k < |rules| ==> Limits(keepGoing, Failures(w, s, rules, always, k)))
  }

  // Without a limit every rule gets its turn; with -k 1 every rule up to the first that fails.
  lemma StopMeans(w: World, s: State, rules: seq<Rule>, always: bool, keepGoing: int, k: nat)
    requires StopsAfter(w, s, rules, always, keepGoing, k)
    ensures keepGoing <= 0 ==> k == |rules|
    ensures k < |rules| ==> 0 < k && Fails(w, s, rules, always, k - 1)
    ensures keepGoing == 1 ==> forall i :: 0 <= i < k - 1 ==> !Fails(w, s, rules, always, i)
    ensures Failures(w, s, rules, always, k) < keepGoing ==> k == |rules|
    ensures keepGoing > 0 ==> Failures(w, s, rules, always, k) <= keepGoing
  {
    if keepGoing > 0 {
      assert Limits(keepGoing, keepGoing);
      if k > 0 { assert Failures(w, s, rules, always, k - 1) < keepGoing; }
    }
  }

  // There is only one such k.
  lemma StopIsUnique(w: World, s: State, rules: seq<Rule>, always: bool, keepGoing: int, k: nat, l: nat)
    requires StopsAfter(w, s, rules, always, keepGoing, k) && StopsAfter(w, s, rules, always, keepGoing, l)
    ensures k == l
  {
  }

  // The limit has not been reached after i rules.
  ghost predicate Going(w: World, s: State, rules: seq<Rule>, always: bool, keepGoing: int, i: nat) {
    i <= |rules| && forall n, j :: Limits(keepGoing, n) && 0 <= j <= i ==> Failures(w, s, rules, always, j) < n
  }

  lemma NoneRan(w: World, s: State, rules: seq<Rule>, always: bool, keepGoing: int)
    ensures Ran(w, s, rules, always, 0) == s && Failures(w, s, rules, always, 0) == 0
    ensures Going(w, s, rules, always, keepGoing, 0)
  {
  }

  // One more rule: the run goes on, or this is where it stops.
  lemma OneMoreRan(w: World, s: State, rules: seq<Rule>, always: bool, keepGoing: int, i: nat)
    requires Going(w, s, rules, always, keepGoing, i) && i < |rules|
    ensures var (t, ok) := ProcessRule(w, Ran(w, s, rules, always, i), rules[i], always);
      && Ran(w, s, rules, always, i + 1) == t
      && Failures(w, s, rules, always, i + 1) == Failures(w, s, rules, always, i) + (if ok then 0 else 1)
      && (ok ==> !Limits(keepGoing, Failures(w, s, rules, always, i + 1)))
    ensures if Limits(keepGoing, Failures(w, s, rules, always, i + 1))
      then StopsAfter(w, s, rules, always, keepGoing, i + 1) else Going(w, s, rules, always, keepGoing, i + 1)
  {
    hide ProcessRule;
    assert forall n :: Limits(keepGoing, n) ==> Failures(w, s, rules, always, i) < n;
  }

  lemma AllRan(w: World, s: State, rules: seq<Rule>, always: bool, keepGoing: int)
    requires Going(w, s, rules, always, keepGoing, |rules|)
    ensures StopsAfter(w, s, rules, always, keepGoing, |rules|)
    ensures !Limits(keepGoing, Failures(w, s, rules, always, |rules|))
  {
  }

  // From the second rule on it is a run of the others.
  lemma {:induction false} RanShifts(w: World, s: State, rules: seq<Rule>, always: bool, k: nat)
    requires k < |rules|
    ensures var (t, ok) := ProcessRule(w, s, rules[0], always);
      && Ran(w, s, rules, always, k + 1) == Ran(w, t, rules[1..], always, k)
      && Failures(w, s, rules, always, k + 1) == Failures(w, t, rules[1..], always, k) + if ok then 0 else 1
  {
    hide ProcessRule;
    if k == 0 {
      assert Ran(w, s, rules, always, 0) == s;
      assert Failures(w, s, rules, always, 0) == 0;
    } else {
      RanShifts(w, s, rules, always, k - 1);
      assert rules[1..][k - 1] == rules[k];
    }
  }

  function LimitOf(keepGoing: int): Option<int> {
    if keepGoing == 0 then None else Some(keepGoing)
  }

  // If a run of the rules after the first ends after l of them, with what the first leaves of the limit, the
  // whole run ends one rule later.
  lemma StopShifts(w: World, s: State, rules: seq<Rule>, always: bool, keepGoing: int, left: int, l: nat)
    requires rules != []
    requires var (t, ok) := ProcessRule(w, s, rules[0], always);
      && StopsAfter(w, t, rules[1..], always, left, l)
      && left == (if ok || keepGoing == 0 then keepGoing else keepGoing - 1) && (ok || keepGoing != 1)
    ensures StopsAfter(w, s, rules, always, keepGoing, l + 1)
  {
    hide ProcessRule;
    RanShifts(w, s, rules, always, l);
    forall n, j | Limits(keepGoing, n) && 0 <= j < l + 1
      ensures Failures(w, s, rules, always, j) < n
    {
      if j > 0 {
        RanShifts(w, s, rules, always, j - 1);
        assert Limits(left, left);
      }
    }
  }

  // The recursive run is the fold up to where it stops, and succeeds exactly if none of these rules fails.
  lemma {:induction false} RunStops(w: World, s: State, rules: seq<Rule>, always: bool, keepGoing: int) returns (k: nat)
    ensures StopsAfter(w, s, rules, always, keepGoing, k)
    ensures RunRules(w, s, rules, always, LimitOf(keepGoing)) ==
      (Ran(w, s, rules, always, k), Failures(w, s, rules, always, k) == 0)
    decreases |rules|
  {
    hide ProcessRule;
    k := 0;
    if rules != [] {
      var (t, ok) := ProcessRule(w, s, rules[0], always);
      RanShifts(w, s, rules, always, 0);
      if !ok && keepGoing == 1 {
        k := 1;
        return;
      }
      var left := if ok || keepGoing == 0 then keepGoing else keepGoing - 1;
      assert LimitAfter(LimitOf(keepGoing), ok) == LimitOf(left);
      var l := RunStops(w, t, rules[1..], always, left);
      StopShifts(w, s, rules, always, keepGoing, left, l);
      hide StopsAfter;
      RanShifts(w, s, rules, always, l);
      k := l + 1;
    }
  }

  // At every rule of a run, and on what the rules before it have left, exactly what has to run runs.
  lemma EachIsProcessed(w: World, s: State, rules: seq<Rule>, always: bool, i: nat)
    requires i < |rules|
    ensures Processed(w, Ran(w, s, rules, always, i), rules[i], always, Ran(w, s, rules, always, i + 1),
                      !Fails(w, s, rules, always, i))
  {
    ProcessRuleMeans(w, Ran(w, s, rules, always, i), rules[i], always);
  }

  // Nothing but commands, in order: the directory and the time after them.
  ghost function AllRun(w: World, fs: Fs, now: nat, rules: seq<Rule>): (Fs, nat) {
    if rules == [] then (fs, now)
    else
      var last := |rules| - 1;
      var (before, at) := AllRun(w, fs, now, rules[..last]);
      var o := w.run(before, at, rules[last]);
      (o.fs, o.now)
  }

  // Under -B a run is that, up to where it stops, and a rule fails exactly if its commands do.
  lemma {:induction false} AlwaysRunsAll(w: World, s: State, rules: seq<Rule>, k: nat)
    requires k <= |rules|
    ensures var t := Ran(w, s, rules, true, k); (t.fs, t.now) == AllRun(w, s.fs, s.now, rules[..k])
    ensures k < |rules| ==>
      var (fs, now) := AllRun(w, s.fs, s.now, rules[..k]);
      Fails(w, s, rules, true, k) <==> !w.run(fs, now, rules[k]).ok
  {
    hide ProcessRule;
    if k > 0 {
      AlwaysRunsAll(w, s, rules, k - 1);
      AlwaysRuns(w, Ran(w, s, rules, true, k - 1), rules[k - 1]);
      assert rules[..k][..k - 1] == rules[..k - 1];
    }
    if k < |rules| {
      AlwaysRuns(w, Ran(w, s, rules, true, k), rules[k]);
    }
  }
}
