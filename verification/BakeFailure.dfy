// What a run of code/bake in which a rule fails may leave: a rule that is out of date and counted as unchanged.

module BakeFailure {
  import opened BakeModel
  import opened BakeSound
  import opened BakeLog
  import opened BakeHistory
  import opened BakeFresh

  // After a successful run every rule is in the log that the next run reads.
  lemma RunRecords(w: World, d: Disk, rules: seq<Rule>, r: Rule)
    requires Lawful(w) && DiskOk(w, d) && Confined(w, rules) && GoodRules(w, rules) && r in rules
    requires Bake(w, d, rules, false, None).1
    requires forall p :: p in r.outputs ==> p in Bake(w, d, rules, false, None).0.fs
    ensures var e := Bake(w, d, rules, false, None).0; Recorded(w, e.fs, ToMap(e.entries), r) && DiskOk(w, e)
  {
    hide RunRules, Lawful, Confined, Consistent, Recorded;
    var s := RunRules(w, Start(d), rules, false, None).0;
    RunSettles(w, Start(d), rules, false, None);
    RunRulesShape(w, Start(d), rules, false, None, d.entries);
    WrittenHolds(d.entries, s.log);
    StillRecorded(w, s.fs, s.log.files, r);
    BakeKeeps(w, d, rules, false, None);
  }

  // Three rules in a row, built once; then a source of the first changes, and its commands fail.
  ghost predicate ChainOfThree(a: Rule, b: Rule, c: Rule) {
    && a.outputs != [] && b.outputs != [] && c.outputs != [] && b.depends != []
    && (forall p :: p in b.depends ==> p in a.outputs) && (forall p :: p in c.depends ==> p in b.outputs)
  }

  ghost predicate AllThere(fs: Fs, rules: seq<Rule>) {
    forall r :: r in rules ==> forall p :: p in r.outputs || p in r.depends ==> p in fs
  }

  // The rule that needs the failed one is given up, and the one after that is reused although what it
  // was made from is out of date.
  ghost predicate ReusesStale(w: World, s: State, a: Rule, b: Rule, c: Rule) {
    var (t, made) := ProcessRule(w, s, a, false);
    var (u, done) := ProcessRule(w, t, b, false);
    && Skips(w, s, a, false) == None && !made
    && Skips(w, t, b, false) == Some(false) && !done
    && Skips(w, u, c, false) == Some(true)
  }

  lemma SourceChanged(w: World, s: State, a: Rule, source: Path)
    requires s.marks == map[] && source in a.depends && source in s.fs
    requires forall p :: p in a.outputs && p in s.log.files ==> s.log.files[p].start <= s.fs[source].mtime
    ensures Skips(w, s, a, false) == None
  {
    var digest := w.digest(a.commands);
    FindMeans(s.log.files, digest, s.fs, a.outputs, |a.outputs|);
    var start := Find(s.log.files, digest, s.fs, a.outputs);
    if start.Some? {
      var i :| 0 <= i < |a.outputs| && start.value == s.log.files[a.outputs[i]].start;
      assert Matches(s.log.files, digest, s.fs, a.outputs[i]) && a.outputs[i] in a.outputs;
      assert start.value <= s.fs[source].mtime;
      CheckMeans(s.fs, s.marks, start.value, a.depends);
      NoMarks(s.fs, s.marks, start.value, a.depends);
      var state := CheckUpdated(s.fs, s.marks, start.value, a.depends);
      assert state != Some(false);
      assert state.Some?;
      assert state.value;
    }
  }

  lemma {:induction false} NoMarks(fs: Fs, marks: map<Path, Mark>, start: nat, depends: seq<Path>)
    requires marks == map[]
    ensures CheckUpdated(fs, marks, start, depends).Some?
    decreases |depends|
  {
    if depends != [] {
      NoMarks(fs, marks, start, depends[1..]);
    }
  }

  // Recorded looks only at the files that the rule names.
  lemma RecordedElsewhere(w: World, fs: Fs, files: map<Path, Entry>, r: Rule, source: Path, file: File)
    requires Recorded(w, fs, files, r) && source !in r.outputs && source !in r.depends
    ensures Recorded(w, fs[source := file], files, r)
  {
  }

  // The rule whose dependency has failed in this run is given up.
  lemma DependencyFailed(w: World, s: State, b: Rule)
    requires b.outputs != [] && b.depends != [] && s.marks.Keys >= (set d | d in b.depends)
    requires forall d :: d in b.depends ==> s.marks[d] == None
    requires forall p :: p in b.outputs ==> Matches(s.log.files, w.digest(b.commands), s.fs, p)
    ensures Skips(w, s, b, false) == Some(false)
  {
    FindMeans(s.log.files, w.digest(b.commands), s.fs, b.outputs, |b.outputs|);
    assert forall i :: 0 <= i < |b.outputs| ==> b.outputs[i] in b.outputs;
    assert b.depends[0] in b.depends;
  }

  lemma FailedRunReusesStale(w: World, d: Disk, a: Rule, b: Rule, c: Rule, source: Path, file: File)
    requires Lawful(w) && DiskOk(w, d) && Confined(w, [a, b, c]) && GoodRules(w, [a, b, c]) && ChainOfThree(a, b, c)
    requires Bake(w, d, [a, b, c], false, None).1 && AllThere(Bake(w, d, [a, b, c], false, None).0.fs, [a, b, c])
    requires var e := Bake(w, d, [a, b, c], false, None).0;
      && source in a.depends && file.mtime >= e.now
      && !w.run(e.fs[source := file], file.mtime + 1, a).ok
    ensures var e := Bake(w, d, [a, b, c], false, None).0;
      var s := Start(Disk(e.fs[source := file], file.mtime + 1, e.entries));
      ReusesStale(w, s, a, b, c) && !RunRules(w, s, [a, b, c], false, None).1
  {
    hide Bake, Lawful, Recorded, DiskOk, GoodRules, Skips, Build, ReusesStale, RunRules;
    var rules, e := [a, b, c], Bake(w, d, [a, b, c], false, None).0;
    var s := Start(Disk(e.fs[source := file], file.mtime + 1, e.entries));
    SourceIsApart(w, a, b, c, source);
    RunRecords(w, d, rules, b);
    RunRecords(w, d, rules, c);
    RecordedElsewhere(w, e.fs, ToMap(e.entries), b, source, file);
    RecordedElsewhere(w, e.fs, ToMap(e.entries), c, source, file);
    StartsAreEarlier(w, e);
    SourceChanged(w, s, a, source);
    assert a in rules && b in rules && c in rules;
    AfterFailure(w, s, a, b, c);
    FailedFirst(w, s, rules);
  }

  lemma StartsAreEarlier(w: World, e: Disk)
    requires DiskOk(w, e)
    ensures forall p :: p in ToMap(e.entries) ==> ToMap(e.entries)[p].start <= e.now
  {
    assert forall p :: p in ToMap(e.entries) ==> EntryOk(w, e.fs, e.now, p, ToMap(e.entries)[p]);
  }

  lemma FailedFirst(w: World, s: State, rules: seq<Rule>)
    requires rules != [] && Skips(w, s, rules[0], false) == None && !w.run(s.fs, s.now, rules[0]).ok
    ensures !RunRules(w, s, rules, false, None).1
  {
  }

  lemma SourceIsApart(w: World, a: Rule, b: Rule, c: Rule, source: Path)
    requires GoodRules(w, [a, b, c]) && ChainOfThree(a, b, c) && source in a.depends
    ensures source !in a.outputs && source !in b.outputs && source !in c.outputs
    ensures source !in b.depends && source !in c.depends
    ensures Disjoint(b.outputs, a.outputs) && Disjoint(c.outputs, a.outputs) && Disjoint(c.outputs, b.outputs)
  {
    var rules := [a, b, c];
    assert rules[0] == a && rules[1] == b && rules[2] == c;
    assert Disjoint(rules[0].outputs, rules[0].depends) && Disjoint(rules[1].outputs, rules[0].depends)
        && Disjoint(rules[2].outputs, rules[0].depends);
    assert Disjoint(rules[0].outputs, rules[1].outputs) && Disjoint(rules[0].outputs, rules[2].outputs)
        && Disjoint(rules[1].outputs, rules[2].outputs);
  }

  // From the moment that the commands of the first rule are about to fail.
  lemma AfterFailure(w: World, s: State, a: Rule, b: Rule, c: Rule)
    requires s.marks == map[] && ConfinedTo(w, a) && ChainOfThree(a, b, c)
    requires Skips(w, s, a, false) == None && !w.run(s.fs, s.now, a).ok
    requires Recorded(w, s.fs, s.log.files, b) && Recorded(w, s.fs, s.log.files, c)
    requires Disjoint(b.outputs, a.outputs) && Disjoint(c.outputs, a.outputs) && Disjoint(c.outputs, b.outputs)
    requires forall p :: p in b.outputs || p in c.outputs ==> p in s.fs
    ensures ReusesStale(w, s, a, b, c)
  {
    var t := Build(w, s, a).0;
    assert ProcessRule(w, s, a, false) == (t, false);
    assert forall p :: p in t.marks <==> p in a.outputs;
    assert forall d :: d in b.depends ==> t.marks[d] == None;
    assert forall p :: p in b.outputs || p in c.outputs ==> p in t.fs && t.fs[p] == s.fs[p];
    DependencyFailed(w, t, b);
    assert Recorded(w, t.fs, t.log.files, c);
    GivenUpRuleLeavesNoMark(w, t, b, c);
  }

  // ---- An instance ----

  // cp x y: the commands read x and write y, and reject one content.
  predicate IsCopy(c: Commands) {
    |c| == 1 && |c[0]| == 3 && c[0][1] != c[0][2]
  }

  function Copy(x: Path, y: Path): Rule {
    Rule([y], [x], [["cp", x, y]])
  }

  function CopyInputs(c: Commands): set<Path> {
    if IsCopy(c) then {c[0][1]} else {}
  }

  function CopyMeaning(c: Commands, view: map<Path, string>): map<Path, string> {
    if IsCopy(c) && c[0][1] in view then map[c[0][2] := view[c[0][1]]] else map[]
  }

  function CopyRun(fs: Fs, t: nat, rule: Rule): Outcome {
    var c := rule.commands;
    if IsCopy(c) && rule.outputs == [c[0][2]] && c[0][1] in fs && fs[c[0][1]].content != "bad"
    then Outcome(true, fs[c[0][2] := File(fs[c[0][1]].content, t + 1)], t + 2)
    else Outcome(false, fs, t + 1)
  }

  function CopyWorld(digest: Commands -> string): World {
    World(digest, CopyInputs, CopyMeaning, CopyRun)
  }

  lemma CopyIsLawful(digest: Commands -> string)
    requires forall a, b :: digest(a) == digest(b) ==> a == b
    ensures Lawful(CopyWorld(digest))
  {
    var w := CopyWorld(digest);
    forall fs, t: nat, rule ensures RunOk(w, fs, t, rule) {
      var o := w.run(fs, t, rule);
      assert o == CopyRun(fs, t, rule);
    }
  }

  // The first copy of a file that is there.
  lemma CopyOnce(digest: Commands -> string, s: State, x: Path, y: Path)
    requires x != y && x in s.fs && s.fs[x].content != "bad" && y !in s.fs
    ensures var (t, ok) := ProcessRule(CopyWorld(digest), s, Copy(x, y), false);
      ok && t.fs == s.fs[y := File(s.fs[x].content, s.now + 1)]
  {
    var w, r := CopyWorld(digest), Copy(x, y);
    FindMeans(s.log.files, w.digest(r.commands), s.fs, r.outputs, 1);
    assert r.outputs[0] == y;
    assert w.run(s.fs, s.now, r) == CopyRun(s.fs, s.now, r);
  }

  // s is copied to a, a to b, b to c; then s turns bad, and the next run still calls c up to date.
  lemma StaleInstance(digest: Commands -> string)
    requires forall a, b :: digest(a) == digest(b) ==> a == b
    ensures var w := CopyWorld(digest);
      var rules := [Copy("s", "a"), Copy("a", "b"), Copy("b", "c")];
      var (e, ok) := Bake(w, Disk(map["s" := File("good", 0)], 1, []), rules, false, None);
      var s := Start(Disk(e.fs["s" := File("bad", e.now)], e.now + 1, e.entries));
      ok && ReusesStale(w, s, rules[0], rules[1], rules[2]) && !RunRules(w, s, rules, false, None).1
  {
    var w := CopyWorld(digest);
    var a, b, c := Copy("s", "a"), Copy("a", "b"), Copy("b", "c");
    var d := Disk(map["s" := File("good", 0)], 1, []);
    FirstRun(digest, a, b, c, d);
    CopyIsLawful(digest);
    FreshDirectory(w, d.fs, d.now);
    CopiesAreGood(digest, a, b, c);
    var e := Bake(w, d, [a, b, c], false, None).0;
    var fs := e.fs["s" := File("bad", e.now)];
    assert w.run(fs, e.now + 1, a) == CopyRun(fs, e.now + 1, a);
    FailedRunReusesStale(w, d, a, b, c, "s", File("bad", e.now));
  }

  lemma FirstRun(digest: Commands -> string, a: Rule, b: Rule, c: Rule, d: Disk)
    requires a == Copy("s", "a") && b == Copy("a", "b") && c == Copy("b", "c")
    requires d.fs == map["s" := File("good", 0)]
    ensures var (e, ok) := Bake(CopyWorld(digest), d, [a, b, c], false, None); ok && AllThere(e.fs, [a, b, c])
  {
    hide ProcessRule, RunRules, CopyWorld, Start, Written;
    var w, s := CopyWorld(digest), Start(d);
    StartsWith(d);
    CopyOnce(digest, s, "s", "a");
    var t := ProcessRule(w, s, a, false).0;
    CopyOnce(digest, t, "a", "b");
    var u := ProcessRule(w, t, b, false).0;
    CopyOnce(digest, u, "b", "c");
    var v := ProcessRule(w, u, c, false).0;
    assert [a, b, c][1..] == [b, c] && [b, c][1..] == [c] && [c][1..] == [];
    RunFirst(w, s, [a, b, c]);
    RunFirst(w, t, [b, c]);
    RunFirst(w, u, [c]);
    RunNone(w, v);
  }

  lemma StartsWith(d: Disk)
    ensures Start(d).fs == d.fs && Start(d).marks == map[]
  {
  }

  lemma RunFirst(w: World, s: State, rules: seq<Rule>)
    requires rules != [] && ProcessRule(w, s, rules[0], false).1
    ensures RunRules(w, s, rules, false, None) == RunRules(w, ProcessRule(w, s, rules[0], false).0, rules[1..], false, None)
  {
  }

  lemma RunNone(w: World, s: State)
    ensures RunRules(w, s, [], false, None) == (s, true)
  {
  }

  lemma CopiesAreGood(digest: Commands -> string, a: Rule, b: Rule, c: Rule)
    requires a == Copy("s", "a") && b == Copy("a", "b") && c == Copy("b", "c")
    ensures var w := CopyWorld(digest);
      GoodRules(w, [a, b, c]) && Confined(w, [a, b, c]) && ChainOfThree(a, b, c)
  {
    var w, rules := CopyWorld(digest), [a, b, c];
    assert rules[0] == a && rules[1] == b && rules[2] == c;
    assert "s" != "a" && "s" != "b" && "s" != "c" && "a" != "b" && "a" != "c" && "b" != "c" by {
      assert "s"[0] == 's' && "a"[0] == 'a' && "b"[0] == 'b' && "c"[0] == 'c';
    }
    forall r | r in rules
      ensures ConfinedTo(w, r)
    {
      forall fs, t: nat, p | p !in r.outputs
        ensures (p in fs <==> p in w.run(fs, t, r).fs) && (p in fs ==> fs[p] == w.run(fs, t, r).fs[p])
      {
        assert w.run(fs, t, r) == CopyRun(fs, t, r);
        assert r.outputs[0] in r.outputs;
      }
    }
  }
}
