// After a run in which every rule succeeds, the outputs are those of a build from scratch; and running
// again at once does nothing.

module BakeFresh {
  import opened BakeModel
  import opened BakeSound
  import opened BakeLog
  import opened BakeHistory

  // ---- What the two checks mean ----

  // Log.find: a start time comes back exactly when there are outputs and all of them match, and then it
  // is the earliest one.
  lemma {:induction false} FindMeans(files: map<Path, Entry>, digest: string, fs: Fs, outputs: seq<Path>, n: nat)
    requires n <= |outputs|
    ensures var r := FindUpTo(files, digest, fs, outputs, n);
            && (r.Some? <==> n > 0 && forall i :: 0 <= i < n ==> Matches(files, digest, fs, outputs[i]))
            && (r.Some? ==>
                 && (forall i :: 0 <= i < n ==> r.value <= files[outputs[i]].start)
                 && (exists i :: 0 <= i < n && r.value == files[outputs[i]].start))
  {
    if n > 0 && Matches(files, digest, fs, outputs[n - 1]) {
      FindMeans(files, digest, fs, outputs, n - 1);
      if n == 1 { assert files[outputs[0]].start == FindUpTo(files, digest, fs, outputs, n).value; }
    }
  }

  // process_rule never records a path as unchanged.
  ghost predicate MarksOk(marks: map<Path, Mark>) {
    forall p :: p in marks ==> marks[p] != Some(false)
  }

  // check_updated says "unchanged" exactly when no dependency has been touched in this run and all of
  // them exist and are older than the start.
  lemma {:induction false} CheckMeans(fs: Fs, marks: map<Path, Mark>, start: nat, depends: seq<Path>)
    requires MarksOk(marks)
    ensures CheckUpdated(fs, marks, start, depends) == Some(false) <==>
            forall d :: d in depends ==> d !in marks && d in fs && fs[d].mtime < start
  {
    if depends != [] {
      CheckMeans(fs, marks, start, depends[1..]);
      assert depends == [depends[0]] + depends[1..];
    }
  }

  // ---- Each rule ----

  // The outputs of the rule are what its commands make of their current inputs.
  ghost predicate Consistent(w: World, fs: Fs, rule: Rule) {
    forall p :: p in rule.outputs ==>
      ContentAt(fs, p) == Lookup(w.meaning(rule.commands, View(fs, w.inputs(rule.commands))), p)
  }

  // The log knows the rule: same commands, same outputs, and no dependency as young as its start.
  ghost predicate Recorded(w: World, fs: Fs, files: map<Path, Entry>, rule: Rule) {
    && (forall p :: p in rule.outputs ==>
         && p in files && files[p].digest == w.digest(rule.commands)
         && (p in fs ==> files[p].mtime == Some(fs[p].mtime))
         && (forall d :: d in rule.depends && d in fs ==> fs[d].mtime < files[p].start))
  }

  lemma SkipIsSound(w: World, s: State, rule: Rule, always: bool)
    requires Lawful(w) && StateOk(w, s) && MarksOk(s.marks) && Declared(w, rule)
    requires Skips(w, s, rule, always) == Some(true)
    ensures Consistent(w, s.fs, rule) && Recorded(w, s.fs, s.log.files, rule)
  {
    var digest, files := w.digest(rule.commands), s.log.files;
    FindMeans(files, digest, s.fs, rule.outputs, |rule.outputs|);
    var start := Find(files, digest, s.fs, rule.outputs).value;
    CheckMeans(s.fs, s.marks, start, rule.depends);
    forall p | p in rule.outputs
      ensures ContentAt(s.fs, p) == Lookup(w.meaning(rule.commands, View(s.fs, w.inputs(rule.commands))), p)
      ensures Matches(files, digest, s.fs, p) && start <= files[p].start
    {
      var i :| 0 <= i < |rule.outputs| && rule.outputs[i] == p;
      assert Matches(files, digest, s.fs, rule.outputs[i]);
      assert EntryOk(w, s.fs, s.now, p, files[p]);
      assert EntryHolds(w, s.fs, p, files[p], rule.commands);
    }
  }

  lemma {:induction false} NewEntriesFind(start: nat, digest: string, fs: Fs, outputs: seq<Path>)
    requires DistinctPaths(outputs)
    ensures var m := ToMap(NewEntries(start, digest, fs, outputs));
            forall p :: p in outputs ==> p in m && m[p] == Entry(start, digest, Stat(fs, p), p)
  {
    var added := NewEntries(start, digest, fs, outputs);
    forall p | p in outputs
      ensures p in ToMap(added) && ToMap(added)[p] == Entry(start, digest, Stat(fs, p), p)
    {
      var i :| 0 <= i < |outputs| && outputs[i] == p;
      ToMapFinds(added, i);
    }
  }

  lemma BuildIsSound(w: World, s: State, rule: Rule)
    requires Lawful(w) && StateOk(w, s) && Declared(w, rule) && ConfinedTo(w, rule)
    requires DistinctPaths(rule.outputs) && Disjoint(rule.outputs, rule.depends) && Build(w, s, rule).1
    ensures var t := Build(w, s, rule).0; Consistent(w, t.fs, rule) && Recorded(w, t.fs, t.log.files, rule)
  {
    assert RunOk(w, s.fs, s.now, rule);
    var o, digest := w.run(s.fs, s.now, rule), w.digest(rule.commands);
    assert Untouched(s.fs, o.fs, w.inputs(rule.commands));
    SameView(s.fs, o.fs, w.inputs(rule.commands));
    NewEntriesFind(s.now, digest, o.fs, rule.outputs);
    forall d | d in rule.depends && d in o.fs
      ensures o.fs[d].mtime < s.now
    {
      assert d !in rule.outputs;
    }
  }

  lemma ProcessIsSound(w: World, s: State, rule: Rule, always: bool)
    requires Lawful(w) && StateOk(w, s) && MarksOk(s.marks) && Declared(w, rule) && ConfinedTo(w, rule)
    requires DistinctPaths(rule.outputs) && Disjoint(rule.outputs, rule.depends)
    requires ProcessRule(w, s, rule, always).1
    ensures var t := ProcessRule(w, s, rule, always).0; Consistent(w, t.fs, rule) && Recorded(w, t.fs, t.log.files, rule)
  {
    match Skips(w, s, rule, always)
    case Some(_) => SkipIsSound(w, s, rule, always);
    case None => BuildIsSound(w, s, rule);
  }

  // ---- What a run leaves alone ----

  ghost predicate Outside(p: Path, rules: seq<Rule>) {
    forall r :: r in rules ==> p !in r.outputs
  }

  ghost predicate SameAt(s: State, t: State, p: Path) {
    && (p in s.fs <==> p in t.fs) && (p in s.fs ==> s.fs[p] == t.fs[p])
    && (p in s.log.files <==> p in t.log.files) && (p in s.log.files ==> s.log.files[p] == t.log.files[p])
  }

  lemma ProcessLeavesAlone(w: World, s: State, rule: Rule, always: bool, p: Path)
    requires ConfinedTo(w, rule) && p !in rule.outputs
    ensures SameAt(s, ProcessRule(w, s, rule, always).0, p)
  {
    var added := NewEntries(s.now, w.digest(rule.commands), w.run(s.fs, s.now, rule).fs, rule.outputs);
    ToMapHolds(added);
  }

  lemma {:induction false} RunLeavesAlone(w: World, s: State, rules: seq<Rule>, always: bool, limit: Option<int>, p: Path)
    requires Confined(w, rules) && Outside(p, rules)
    ensures SameAt(s, RunRules(w, s, rules, always, limit).0, p)
    decreases |rules|
  {
    if rules != [] {
      ProcessLeavesAlone(w, s, rules[0], always, p);
      var (t, ok) := ProcessRule(w, s, rules[0], always);
      assert forall r :: r in rules[1..] ==> r in rules;
      RunLeavesAlone(w, t, rules[1..], always, LimitAfter(limit, ok), p);
    }
  }

  // What is settled about a rule stays so, as long as its outputs and dependencies are left alone.
  lemma SettledStays(w: World, s: State, t: State, rule: Rule)
    requires Declared(w, rule) && Consistent(w, s.fs, rule) && Recorded(w, s.fs, s.log.files, rule)
    requires forall p :: p in rule.outputs || p in rule.depends ==> SameAt(s, t, p)
    ensures Consistent(w, t.fs, rule) && Recorded(w, t.fs, t.log.files, rule)
  {
    assert Untouched(s.fs, t.fs, w.inputs(rule.commands));
    SameView(s.fs, t.fs, w.inputs(rule.commands));
    forall p | p in rule.outputs
      ensures ContentAt(t.fs, p) == ContentAt(s.fs, p)
    {
      assert SameAt(s, t, p);
    }
    forall d | d in rule.depends && d in t.fs
      ensures d in s.fs && t.fs[d] == s.fs[d]
    {
      assert SameAt(s, t, d);
    }
  }

  ghost predicate GoodRules(w: World, rules: seq<Rule>) {
    OneProvider(rules) && Ordered(rules) && forall r :: r in rules ==> Declared(w, r)
  }

  lemma GoodTail(w: World, rules: seq<Rule>)
    requires GoodRules(w, rules) && rules != []
    ensures GoodRules(w, rules[1..])
    ensures var r := rules[0]; DistinctPaths(r.outputs) && Disjoint(r.outputs, r.depends) && Declared(w, r)
    ensures forall p :: p in rules[0].outputs || p in rules[0].depends ==> Outside(p, rules[1..])
    ensures forall r :: r in rules <==> r == rules[0] || r in rules[1..]
  {
    TailOrdered(rules);
    assert rules[0] in rules;
  }

  lemma MarksStayOk(w: World, s: State, rule: Rule, always: bool)
    requires MarksOk(s.marks)
    ensures MarksOk(ProcessRule(w, s, rule, always).0.marks)
  {
  }

  // A run in which every rule succeeds settles every rule.
  lemma {:induction false} RunSettles(w: World, s: State, rules: seq<Rule>, always: bool, limit: Option<int>)
    requires Lawful(w) && Confined(w, rules) && StateOk(w, s) && MarksOk(s.marks) && GoodRules(w, rules)
    requires RunRules(w, s, rules, always, limit).1
    ensures var u := RunRules(w, s, rules, always, limit).0;
            forall r :: r in rules ==> Consistent(w, u.fs, r) && Recorded(w, u.fs, u.log.files, r)
    decreases |rules|
  {
    if rules != [] {
      GoodTail(w, rules);
      ProcessIsSound(w, s, rules[0], always);
      ProcessRuleKeeps(w, s, rules[0], always);
      MarksStayOk(w, s, rules[0], always);
      var (t, ok) := ProcessRule(w, s, rules[0], always);
      var left := LimitAfter(limit, ok);
      RunSettles(w, t, rules[1..], always, left);
      var u := RunRules(w, t, rules[1..], always, left).0;
      forall p | p in rules[0].outputs || p in rules[0].depends
        ensures SameAt(t, u, p)
      {
        RunLeavesAlone(w, t, rules[1..], always, left, p);
      }
      SettledStays(w, t, u, rules[0]);
    }
  }

  // ---- A build from scratch ----

  function Contents(fs: Fs): map<Path, string> {
    map p | p in fs :: fs[p].content
  }

  function Outputs(rules: seq<Rule>): set<Path> {
    set r, p | r in rules && p in r.outputs :: p
  }

  function Restrict(m: map<Path, string>, paths: set<Path>): map<Path, string> {
    map p | p in paths && p in m :: m[p]
  }

  // One rule without log, times or checks: its outputs are replaced by what its commands make.
  function Make(w: World, files: map<Path, string>, rule: Rule): map<Path, string> {
    var outputs := set p | p in rule.outputs;
    var made := w.meaning(rule.commands, Restrict(files, w.inputs(rule.commands)));
    (files - outputs) + Restrict(made, outputs)
  }

  function Scratch(w: World, files: map<Path, string>, rules: seq<Rule>): map<Path, string>
    decreases |rules|
  {
    if rules == [] then files else Scratch(w, Make(w, files, rules[0]), rules[1..])
  }

  // Removing the outputs and making them again changes nothing, if what is made is what was there.
  lemma Replaced(all: map<Path, string>, made: map<Path, string>, outputs: set<Path>, later: set<Path>)
    requires forall p :: p in outputs ==> p !in later && Lookup(all, p) == Lookup(made, p)
    ensures ((all - (outputs + later)) - outputs) + Restrict(made, outputs) == all - later
  {
  }

  lemma InputsAreThere(w: World, fs: Fs, rule: Rule, gone: set<Path>)
    requires forall p :: p in w.inputs(rule.commands) ==> p !in gone
    ensures Restrict(Contents(fs) - gone, w.inputs(rule.commands)) == View(fs, w.inputs(rule.commands))
  {
  }

  lemma OutputsSplit(rules: seq<Rule>)
    requires rules != []
    ensures Outputs(rules) == (set p | p in rules[0].outputs) + Outputs(rules[1..])
  {
    assert rules == [rules[0]] + rules[1..];
  }

  lemma MakeOne(w: World, fs: Fs, rules: seq<Rule>)
    requires GoodRules(w, rules) && rules != [] && Consistent(w, fs, rules[0])
    ensures Make(w, Contents(fs) - Outputs(rules), rules[0]) == Contents(fs) - Outputs(rules[1..])
  {
    hide Consistent;
    var rule, later := rules[0], Outputs(rules[1..]);
    var outputs := set p | p in rule.outputs;
    GoodTail(w, rules);
    TailOrdered(rules);
    OutputsSplit(rules);
    InputsAreThere(w, fs, rule, Outputs(rules));
    var made := w.meaning(rule.commands, View(fs, w.inputs(rule.commands)));
    ConsistentLookup(w, fs, rule);
    Replaced(Contents(fs), made, outputs, later);
  }

  lemma ConsistentLookup(w: World, fs: Fs, rule: Rule)
    requires Consistent(w, fs, rule)
    ensures forall p :: p in rule.outputs ==>
              Lookup(Contents(fs), p) == Lookup(w.meaning(rule.commands, View(fs, w.inputs(rule.commands))), p)
  {
    forall p | p in rule.outputs
      ensures Lookup(Contents(fs), p) == ContentAt(fs, p)
    {
    }
  }

  // If every rule is consistent, making everything again, in order and from the sources alone, gives
  // exactly the files that are there.
  lemma {:induction false} ScratchGivesSame(w: World, fs: Fs, rules: seq<Rule>)
    requires GoodRules(w, rules) && forall r :: r in rules ==> Consistent(w, fs, r)
    ensures Scratch(w, Contents(fs) - Outputs(rules), rules) == Contents(fs)
    decreases |rules|
  {
    if rules == [] {
      assert Outputs(rules) == {};
      assert Contents(fs) - {} == Contents(fs);
    } else {
      GoodTail(w, rules);
      MakeOne(w, fs, rules);
      ScratchGivesSame(w, fs, rules[1..]);
    }
  }

  // The sources after the run are the sources before it.
  lemma SourcesKept(w: World, s: State, rules: seq<Rule>, always: bool, limit: Option<int>)
    requires Confined(w, rules)
    ensures var u := RunRules(w, s, rules, always, limit).0;
            Contents(s.fs) - Outputs(rules) == Contents(u.fs) - Outputs(rules)
  {
    var u := RunRules(w, s, rules, always, limit).0;
    forall p | p !in Outputs(rules)
      ensures SameAt(s, u, p)
    {
      RunLeavesAlone(w, s, rules, always, limit, p);
    }
  }

  // One run on a directory with a true log: if every rule succeeds, the directory is what a build from
  // scratch makes of the current sources.
  lemma RunIsSound(w: World, d: Disk, rules: seq<Rule>, always: bool, limit: Option<int>)
    requires Lawful(w) && DiskOk(w, d) && Confined(w, rules) && GoodRules(w, rules)
    requires Bake(w, d, rules, always, limit).1
    ensures Contents(Bake(w, d, rules, always, limit).0.fs) == Scratch(w, Contents(d.fs) - Outputs(rules), rules)
  {
    RunSettles(w, Start(d), rules, always, limit);
    SourcesKept(w, Start(d), rules, always, limit);
    ScratchGivesSame(w, Bake(w, d, rules, always, limit).0.fs, rules);
  }

  // Incremental builds are sound: whatever happened before, if every rule of this run succeeds, the
  // directory is what a build from scratch makes of the current sources.
  lemma IncrementalBuildIsSound(w: World, fs: Fs, now: nat, events: seq<Event>,
                                rules: seq<Rule>, always: bool, limit: Option<int>)
    requires Lawful(w) && FsOk(fs, now) && IsHistory(w, Disk(fs, now, []), events)
    requires Confined(w, rules) && GoodRules(w, rules)
    requires Bake(w, AfterHistory(w, Disk(fs, now, []), events), rules, always, limit).1
    ensures var d := AfterHistory(w, Disk(fs, now, []), events);
            Contents(Bake(w, d, rules, always, limit).0.fs) == Scratch(w, Contents(d.fs) - Outputs(rules), rules)
  {
    FreshDirectory(w, fs, now);
    HistoryKeeps(w, Disk(fs, now, []), events);
    RunIsSound(w, AfterHistory(w, Disk(fs, now, []), events), rules, always, limit);
  }

  // ---- Building again at once ----

  // A rule that the log knows is skipped as unchanged exactly when it provides something and all that it
  // provides and depends on exists. Its dependencies carry no mark: this run has not made them.
  lemma SkippedIffComplete(w: World, s: State, rule: Rule)
    requires Recorded(w, s.fs, s.log.files, rule) && MarksOk(s.marks)
    requires forall d :: d in rule.depends ==> d !in s.marks
    ensures Skips(w, s, rule, false) == Some(true) <==>
            rule.outputs != [] && forall p :: p in rule.outputs || p in rule.depends ==> p in s.fs
  {
    var digest, files := w.digest(rule.commands), s.log.files;
    FindMeans(files, digest, s.fs, rule.outputs, |rule.outputs|);
    assert forall i :: 0 <= i < |rule.outputs| ==> rule.outputs[i] in rule.outputs;
    assert forall p :: p in rule.outputs ==> (Matches(files, digest, s.fs, p) <==> p in s.fs);
    var start := Find(files, digest, s.fs, rule.outputs);
    if start.Some? {
      CheckMeans(s.fs, s.marks, start.value, rule.depends);
      var i :| 0 <= i < |rule.outputs| && start.value == files[rule.outputs[i]].start;
      assert rule.outputs[i] in rule.outputs;
    }
  }

  // A failure goes one step only: a rule that is given up because a dependency failed leaves no mark, so
  // a rule that needs its outputs is then reported as unchanged. Hence the theorems ask that every rule
  // of the run succeeds.
  lemma GivenUpRuleLeavesNoMark(w: World, s: State, rule: Rule, next: Rule)
    requires MarksOk(s.marks) && Skips(w, s, rule, false) == Some(false)
    requires Recorded(w, s.fs, s.log.files, next) && next.outputs != []
    requires forall p :: p in next.outputs || p in next.depends ==> p in s.fs
    requires forall d :: d in next.depends ==> d in rule.outputs && d !in s.marks
    ensures var (t, ok) := ProcessRule(w, s, rule, false); !ok && t.marks == s.marks && Skips(w, t, next, false) == Some(true)
  {
    SkippedIffComplete(w, ProcessRule(w, s, rule, false).0, next);
  }

  lemma {:induction false} AllSkipped(w: World, s: State, rules: seq<Rule>, limit: Option<int>)
    requires s.marks == map[]
    requires forall r :: r in rules ==>
               && Recorded(w, s.fs, s.log.files, r) && r.outputs != []
               && forall p :: p in r.outputs || p in r.depends ==> p in s.fs
    ensures RunRules(w, s, rules, false, limit) == (s.(now := s.now + |rules|), true)
    decreases |rules|
  {
    if rules != [] {
      SkippedIffComplete(w, s, rules[0]);
      hide Recorded, Find;
      var t := s.(now := s.now + 1);
      assert ProcessRule(w, s, rules[0], false) == (t, true) && LimitAfter(limit, true) == limit;
      assert forall r :: r in rules[1..] ==> r in rules;
      AllSkipped(w, t, rules[1..], limit);
      assert t.(now := t.now + |rules[1..]|) == s.(now := s.now + |rules|);
    }
  }

  // What was written and read back still records the rule, since all its outputs exist.
  lemma StillRecorded(w: World, fs: Fs, files: map<Path, Entry>, rule: Rule)
    requires Recorded(w, fs, files, rule) && forall p :: p in rule.outputs ==> p in fs
    ensures Recorded(w, fs, WithMtime(files), rule)
  {
  }

  // Null build: after a successful run, reading the log back and building the same rules again changes
  // nothing but the time: no command runs.
  lemma NullBuildDoesNothing(w: World, d: Disk, rules: seq<Rule>, always: bool, limit: Option<int>, limit2: Option<int>)
    requires Lawful(w) && Confined(w, rules) && DiskOk(w, d) && GoodRules(w, rules)
    requires Bake(w, d, rules, always, limit).1
    requires forall r :: r in rules ==> r.outputs != []
    requires var e := Bake(w, d, rules, always, limit).0;
             forall r :: r in rules ==> forall p :: p in r.outputs || p in r.depends ==> p in e.fs
    ensures var e := Bake(w, d, rules, always, limit).0;
            Bake(w, e, rules, false, limit2) == (e.(now := e.now + |rules|), true)
  {
    hide RunRules, Lawful, Confined, Consistent;
    var s := RunRules(w, Start(d), rules, always, limit).0;
    var e := Finish(d, s);
    RunSettles(w, Start(d), rules, always, limit);
    RunRulesShape(w, Start(d), rules, always, limit, d.entries);
    WrittenHolds(d.entries, s.log);
    forall r | r in rules
      ensures Recorded(w, e.fs, ToMap(e.entries), r)
    {
      assert Recorded(w, s.fs, s.log.files, r);
      StillRecorded(w, s.fs, s.log.files, r);
    }
    AllSkipped(w, Start(e), rules, limit2);
  }
}
