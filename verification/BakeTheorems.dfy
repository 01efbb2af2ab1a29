// Incremental builds are sound, and a build right after a successful one does nothing.

module BakeSound {
  import opened BakeModel

  // ---- The log never lies ----

  // Every input exists and is older than the start of the rule.
  ghost predicate Older(inputs: set<Path>, fs: Fs, start: nat) {
    forall p :: p in inputs ==> p in fs && fs[p].mtime < start
  }

  // If output p still has the mtime of the entry, and no input is as young as the entry, then p holds
  // what its commands make of the current inputs.
  ghost predicate EntryOk(w: World, fs: Fs, now: nat, p: Path, e: Entry) {
    && e.start < now && (e.mtime.Some? ==> e.mtime.value < now)
    && forall c: Commands :: w.digest(c) == e.digest ==> EntryHolds(w, fs, p, e, c)
  }

  ghost predicate EntryHolds(w: World, fs: Fs, p: Path, e: Entry, c: Commands) {
    p in fs && e.mtime == Some(fs[p].mtime) && Older(w.inputs(c), fs, e.start) ==>
      Lookup(w.meaning(c, View(fs, w.inputs(c))), p) == Some(fs[p].content)
  }

  ghost predicate LogOk(w: World, fs: Fs, now: nat, files: map<Path, Entry>) {
    forall p :: p in files ==> EntryOk(w, fs, now, p, files[p])
  }

  ghost predicate StateOk(w: World, s: State) {
    FsOk(s.fs, s.now) && LogOk(w, s.fs, s.now, s.log.files)
  }

  lemma SameView(fs: Fs, fs': Fs, inputs: set<Path>)
    requires Untouched(fs, fs', inputs)
    ensures View(fs, inputs) == View(fs', inputs)
  {
  }

  // An entry survives any change of the file system, whoever makes it, that carries newer mtimes.
  lemma EntrySurvives(w: World, fs: Fs, fs': Fs, now: nat, now': nat, p: Path, e: Entry)
    requires EntryOk(w, fs, now, p, e) && now <= now' && (fs' == fs || ChangesFrom(fs, fs', now))
    ensures EntryOk(w, fs', now', p, e)
  {
    forall c: Commands | w.digest(c) == e.digest
      ensures EntryHolds(w, fs', p, e, c)
    {
      assert EntryHolds(w, fs, p, e, c);
      if p in fs' && e.mtime == Some(fs'[p].mtime) && Older(w.inputs(c), fs', e.start) {
        SameView(fs, fs', w.inputs(c));
      }
    }
  }

  // Every file that is not as it was has an mtime of at least t.
  ghost predicate ChangesFrom(fs: Fs, fs': Fs, t: nat) {
    forall p :: p in fs' && !(p in fs && fs[p] == fs'[p]) ==> fs'[p].mtime >= t
  }

  lemma LogSurvives(w: World, fs: Fs, fs': Fs, now: nat, now': nat, files: map<Path, Entry>)
    requires LogOk(w, fs, now, files) && now <= now' && (fs' == fs || ChangesFrom(fs, fs', now))
    ensures LogOk(w, fs', now', files)
  {
    forall p | p in files
      ensures EntryOk(w, fs', now', p, files[p])
    {
      EntrySurvives(w, fs, fs', now, now', p, files[p]);
    }
  }

  // The entry that a successful rule adds is right, even if its inputs were edited while it ran: in
  // that case their mtimes give it away.
  lemma NewEntryOk(w: World, fs: Fs, start: nat, rule: Rule, p: Path)
    requires Lawful(w) && FsOk(fs, start) && p in rule.outputs && w.run(fs, start, rule).ok
    ensures var o := w.run(fs, start, rule);
            EntryOk(w, o.fs, o.now, p, Entry(start, w.digest(rule.commands), Stat(o.fs, p), p))
  {
    assert RunOk(w, fs, start, rule);
    var o := w.run(fs, start, rule);
    var e := Entry(start, w.digest(rule.commands), Stat(o.fs, p), p);
    forall c: Commands | w.digest(c) == e.digest
      ensures EntryHolds(w, o.fs, p, e, c)
    {
      assert c == rule.commands;
      if p in o.fs && Older(w.inputs(c), o.fs, start) {
        assert Untouched(fs, o.fs, w.inputs(c));
        SameView(fs, o.fs, w.inputs(c));
        assert ContentAt(o.fs, p) == Lookup(w.meaning(c, View(fs, w.inputs(c))), p);
      }
    }
  }

  lemma {:induction false} ToMapHolds(entries: seq<Entry>)
    ensures ToMap(entries).Keys == Names(entries)
    ensures forall p :: p in ToMap(entries) ==> ToMap(entries)[p] in entries && ToMap(entries)[p].name == p
  {
    if entries != [] {
      var rest, e := entries[..|entries| - 1], entries[|entries| - 1];
      ToMapHolds(rest);
      assert entries == rest + [e];
      assert Names(entries) == Names(rest) + {e.name};
    }
  }

  lemma BuildKeeps(w: World, s: State, rule: Rule)
    requires Lawful(w) && StateOk(w, s)
    ensures StateOk(w, Build(w, s, rule).0) && s.now < Build(w, s, rule).0.now
  {
    assert RunOk(w, s.fs, s.now, rule);
    var o := w.run(s.fs, s.now, rule);
    LogSurvives(w, s.fs, o.fs, s.now, o.now, s.log.files);
    if o.ok {
      var added := NewEntries(s.now, w.digest(rule.commands), o.fs, rule.outputs);
      ToMapHolds(added);
      forall p | p in ToMap(added)
        ensures EntryOk(w, o.fs, o.now, p, ToMap(added)[p])
      {
        NewEntryOk(w, s.fs, s.now, rule, p);
      }
    }
  }

  lemma ProcessRuleKeeps(w: World, s: State, rule: Rule, always: bool)
    requires Lawful(w) && StateOk(w, s)
    ensures StateOk(w, ProcessRule(w, s, rule, always).0)
    ensures s.now < ProcessRule(w, s, rule, always).0.now
  {
    match Skips(w, s, rule, always)
    case Some(_) => LogSurvives(w, s.fs, s.fs, s.now, s.now + 1, s.log.files);
    case None => BuildKeeps(w, s, rule);
  }

  lemma {:induction false} RunRulesKeeps(w: World, s: State, rules: seq<Rule>, always: bool, limit: Option<int>)
    requires Lawful(w) && StateOk(w, s)
    ensures StateOk(w, RunRules(w, s, rules, always, limit).0)
    ensures s.now <= RunRules(w, s, rules, always, limit).0.now
    decreases |rules|
  {
    if rules != [] {
      ProcessRuleKeeps(w, s, rules[0], always);
      var (t, ok) := ProcessRule(w, s, rules[0], always);
      RunRulesKeeps(w, t, rules[1..], always, LimitAfter(limit, ok));
    }
  }
}

// The log on disk keeps one entry per output, and is what the run had in memory.
module BakeLog {
  import opened BakeModel
  import opened BakeSound

  lemma {:induction false} ToMapJoins(a: seq<Entry>, b: seq<Entry>)
    ensures ToMap(a + b) == ToMap(a) + ToMap(b)
  {
    if b == [] {
      assert a + b == a;
    } else {
      var rest, e := b[..|b| - 1], b[|b| - 1];
      ToMapJoins(a, rest);
      assert (a + b)[..|a + b| - 1] == a + rest;
    }
  }

  // Looking an output up finds its entry, wherever it stands.
  lemma {:induction false} ToMapFinds(entries: seq<Entry>, i: nat)
    requires DistinctNames(entries) && i < |entries|
    ensures entries[i].name in ToMap(entries) && ToMap(entries)[entries[i].name] == entries[i]
  {
    if i < |entries| - 1 { ToMapFinds(entries[..|entries| - 1], i); }
  }

  lemma UpdateMinus(m: map<Path, Entry>, e: Entry, gone: set<Path>)
    ensures e.name in gone ==> m[e.name := e] - gone == m - gone
    ensures e.name !in gone ==> m[e.name := e] - gone == (m - gone)[e.name := e]
  {
  }

  lemma {:induction false} KeptMap(entries: seq<Entry>, updated: set<Path>)
    ensures ToMap(Kept(entries, updated)) == ToMap(entries) - updated
  {
    if entries != [] {
      var rest, e := entries[..|entries| - 1], entries[|entries| - 1];
      KeptMap(rest, updated);
      UpdateMinus(ToMap(rest), e, updated);
      if e.name !in updated {
        assert Kept(entries, updated)[..|Kept(rest, updated)|] == Kept(rest, updated);
      } else {
        assert Kept(entries, updated) == Kept(rest, updated);
      }
    }
  }

  lemma {:induction false} KeptHolds(entries: seq<Entry>, updated: set<Path>)
    requires DistinctNames(entries)
    ensures forall e :: e in Kept(entries, updated) <==> e in entries && e.name !in updated
    ensures DistinctNames(Kept(entries, updated))
  {
    if entries != [] {
      var rest, e := entries[..|entries| - 1], entries[|entries| - 1];
      KeptHolds(rest, updated);
      assert entries == rest + [e];
      NewLast(rest, e, Kept(rest, updated));
    }
  }

  lemma NewLast(rest: seq<Entry>, e: Entry, part: seq<Entry>)
    requires DistinctNames(rest + [e]) && DistinctNames(part) && forall x :: x in part ==> x in rest
    ensures DistinctNames(part + [e])
  {
    forall i | 0 <= i < |part|
      ensures part[i].name != e.name
    {
      assert part[i] in rest;
      var j :| 0 <= j < |rest| && rest[j] == part[i];
      assert (rest + [e])[j].name != (rest + [e])[|rest|].name;
    }
  }

  function WithMtime(files: map<Path, Entry>): map<Path, Entry> {
    map p | p in files && files[p].mtime.Some? :: files[p]
  }

  lemma UpdateWithMtime(m: map<Path, Entry>, e: Entry)
    requires e.name !in m
    ensures e.mtime.None? ==> WithMtime(m[e.name := e]) == WithMtime(m)
    ensures e.mtime.Some? ==> WithMtime(m[e.name := e]) == WithMtime(m)[e.name := e]
  {
  }

  lemma {:induction false} ExistingMap(entries: seq<Entry>)
    requires DistinctNames(entries)
    ensures ToMap(Existing(entries)) == WithMtime(ToMap(entries))
  {
    if entries != [] {
      var rest, e := entries[..|entries| - 1], entries[|entries| - 1];
      ExistingMap(rest);
      assert entries == rest + [e];
      assert e.name !in ToMap(rest) by {
        ToMapHolds(rest);
        LastIsNew(rest, e);
      }
      UpdateWithMtime(ToMap(rest), e);
      hide WithMtime, DistinctNames;
      OneMore(Existing(rest), e);
      assert Existing(entries) == if e.mtime.Some? then Existing(rest) + [e] else Existing(rest) + [];
      assert Existing(rest) + [] == Existing(rest);
    }
  }

  lemma OneMore(entries: seq<Entry>, e: Entry)
    ensures ToMap(entries + [e]) == ToMap(entries)[e.name := e]
  {
    assert (entries + [e])[..|entries|] == entries;
  }

  lemma {:induction false} ExistingHolds(entries: seq<Entry>)
    requires DistinctNames(entries)
    ensures forall e :: e in Existing(entries) <==> e in entries && e.mtime.Some?
    ensures DistinctNames(Existing(entries))
  {
    if entries != [] {
      var rest, e := entries[..|entries| - 1], entries[|entries| - 1];
      ExistingHolds(rest);
      assert entries == rest + [e];
      NewLast(rest, e, Existing(rest));
    }
  }

  lemma LastIsNew(rest: seq<Entry>, e: Entry)
    requires DistinctNames(rest + [e])
    ensures e.name !in Names(rest)
  {
    forall i | 0 <= i < |rest|
      ensures rest[i].name != e.name
    {
      assert (rest + [e])[i].name != (rest + [e])[|rest|].name;
    }
  }

  lemma AllHaveMtime(entries: seq<Entry>)
    requires forall e :: e in entries ==> e.mtime.Some?
    ensures WithMtime(ToMap(entries)) == ToMap(entries)
  {
    ToMapHolds(entries);
  }

  lemma JoinNames(a: seq<Entry>, b: seq<Entry>)
    requires DistinctNames(a) && DistinctNames(b) && Names(a) !! Names(b)
    ensures DistinctNames(a + b)
  {
    forall i, j | 0 <= i < j < |a + b|
      ensures (a + b)[i].name != (a + b)[j].name
    {
      if i < |a| <= j {
        assert a[i] in a && b[j - |a|] in b;
      }
    }
  }

  // How the log in memory relates to the entries read from disk.
  ghost predicate Shape(entries: seq<Entry>, log: Log) {
    && DistinctNames(log.log)
    && log.updated == Names(log.log)
    && log.files == ToMap(entries) + ToMap(log.log)
  }

  lemma AppendShape(entries: seq<Entry>, log: Log, added: seq<Entry>)
    requires Shape(entries, log) && DistinctNames(added) && Names(added) !! log.updated
    ensures Shape(entries, Append(log, added))
  {
    hide ToMap, Names, DistinctNames;
    JoinNames(log.log, added);
    ToMapJoins(log.log, added);
    NamesJoin(log.log, added);
    PlusTwice(ToMap(entries), ToMap(log.log), ToMap(added));
  }

  lemma NamesJoin(a: seq<Entry>, b: seq<Entry>)
    ensures Names(a + b) == Names(a) + Names(b)
  {
  }

  lemma PlusTwice(a: map<Path, Entry>, b: map<Path, Entry>, c: map<Path, Entry>)
    ensures (a + b) + c == a + (b + c)
  {
  }

  ghost predicate Unlogged(log: Log, rules: seq<Rule>) {
    forall r :: r in rules ==> forall p :: p in r.outputs ==> p !in log.updated
  }

  lemma ProcessRuleShape(w: World, s: State, rule: Rule, always: bool, entries: seq<Entry>)
    requires Shape(entries, s.log) && DistinctPaths(rule.outputs) && Unlogged(s.log, [rule])
    ensures var t := ProcessRule(w, s, rule, always).0;
            && Shape(entries, t.log)
            && forall p :: p !in rule.outputs ==> (p in t.log.updated <==> p in s.log.updated)
  {
    var o := w.run(s.fs, s.now, rule);
    var added := NewEntries(s.now, w.digest(rule.commands), o.fs, rule.outputs);
    assert rule in [rule];
    forall p | p in Names(added)
      ensures p in rule.outputs
    {
      var e :| e in added && e.name == p;
      var i :| 0 <= i < |added| && added[i] == e;
      assert rule.outputs[i] == p;
    }
    AppendShape(entries, s.log, added);
  }

  lemma TailOrdered(rules: seq<Rule>)
    requires rules != []
    ensures OneProvider(rules) ==> OneProvider(rules[1..])
    ensures Ordered(rules) ==> Ordered(rules[1..])
    ensures OneProvider(rules) ==> forall r :: r in rules[1..] ==> Disjoint(r.outputs, rules[0].outputs)
    ensures Ordered(rules) ==> forall r :: r in rules ==> Disjoint(r.outputs, rules[0].depends)
    ensures forall r :: r in rules <==> r == rules[0] || r in rules[1..]
  {
    var tail := rules[1..];
    assert rules == [rules[0]] + tail;
    if OneProvider(rules) {
      forall i, j | 0 <= i < j < |tail|
        ensures Disjoint(tail[i].outputs, tail[j].outputs)
      {
        assert Disjoint(rules[i + 1].outputs, rules[j + 1].outputs);
      }
      forall r | r in tail
        ensures Disjoint(r.outputs, rules[0].outputs)
      {
        var j :| 0 <= j < |tail| && tail[j] == r;
        assert Disjoint(rules[0].outputs, rules[j + 1].outputs);
      }
    }
    if Ordered(rules) {
      forall i, j | 0 <= i <= j < |tail|
        ensures Disjoint(tail[j].outputs, tail[i].depends)
      {
        assert Disjoint(rules[j + 1].outputs, rules[i + 1].depends);
      }
      forall r | r in rules
        ensures Disjoint(r.outputs, rules[0].depends)
      {
        var j :| 0 <= j < |rules| && rules[j] == r;
      }
    }
  }

  lemma {:induction false} RunRulesShape(w: World, s: State, rules: seq<Rule>, always: bool, limit: Option<int>, entries: seq<Entry>)
    requires Shape(entries, s.log) && OneProvider(rules) && Unlogged(s.log, rules)
    ensures Shape(entries, RunRules(w, s, rules, always, limit).0.log)
    decreases |rules|
  {
    if rules != [] {
      TailOrdered(rules);
      ProcessRuleShape(w, s, rules[0], always, entries);
      var (t, ok) := ProcessRule(w, s, rules[0], always);
      assert Unlogged(t.log, rules[1..]);
      RunRulesShape(w, t, rules[1..], always, LimitAfter(limit, ok), entries);
    }
  }

  ghost predicate EntriesOk(entries: seq<Entry>) {
    DistinctNames(entries) && forall e :: e in entries ==> e.mtime.Some?
  }

  // Reading back what was written gives what was in memory, without the outputs that do not exist;
  // and the constructor's assertion, one entry per path, holds again.
  lemma WrittenHolds(entries: seq<Entry>, log: Log)
    requires EntriesOk(entries) && Shape(entries, log)
    ensures EntriesOk(Written(entries, log))
    ensures ToMap(Written(entries, log)) == WithMtime(log.files)
  {
    if log.updated == {} {
      assert log.log == [] by {
        assert forall e :: e in log.log ==> e.name in log.updated;
      }
      AllHaveMtime(entries);
    } else {
      var kept := Kept(entries, log.updated);
      KeptHolds(entries, log.updated);
      KeptMap(entries, log.updated);
      JoinNames(kept, log.log);
      ToMapJoins(kept, log.log);
      ToMapHolds(log.log);
      ExistingHolds(kept + log.log);
      ExistingMap(kept + log.log);
      MinusPlus(ToMap(entries), ToMap(log.log));
    }
  }

  lemma MinusPlus(m: map<Path, Entry>, n: map<Path, Entry>)
    ensures (m - n.Keys) + n == m + n
  {
  }
}

// Whole histories.
module BakeHistory {
  import opened BakeModel
  import opened BakeSound
  import opened BakeLog

  ghost predicate DiskOk(w: World, d: Disk) {
    FsOk(d.fs, d.now) && EntriesOk(d.entries) && LogOk(w, d.fs, d.now, ToMap(d.entries))
  }

  // What may happen between and to the runs of bake.
  datatype Event =
    // Anybody edits, adds or removes any files, up to time now.
    | Edit(fs: Fs, now: nat)
    // A run of bake, with successes and failures as the world has it.
    | Run(rules: seq<Rule>, always: bool, limit: Option<int>)
    // A run that dies before it writes its log.
    | Killed(rules: seq<Rule>, always: bool, limit: Option<int>)
    // bake -t clean
    | Clean(paths: set<Path>)
    // bake -t cleandead, with these providers
    | CleanDead(providers: set<Path>)

  ghost predicate Legal(d: Disk, e: Event) {
    match e
    case Edit(fs, now) => d.now <= now && FsOk(fs, now) && ChangesFrom(d.fs, fs, d.now)
    case Run(rules, _, _) => OneProvider(rules)
    case _ => true
  }

  function Dead(entries: seq<Entry>, providers: set<Path>): set<Path> {
    Names(entries) - providers
  }

  function Happen(w: World, d: Disk, e: Event): Disk {
    match e
    case Edit(fs, now) => d.(fs := fs, now := now)
    case Run(rules, always, limit) => Bake(w, d, rules, always, limit).0
    case Killed(rules, always, limit) =>
      var s := RunRules(w, Start(d), rules, always, limit).0;
      d.(fs := s.fs, now := s.now)
    case Clean(paths) => d.(fs := d.fs - paths)
    case CleanDead(providers) =>
      if providers == {} then d
      else
        var dead := Dead(d.entries, providers);
        Disk(d.fs - dead, d.now, Written(d.entries, Log(ToMap(d.entries), [], dead)))
  }

  lemma BakeKeeps(w: World, d: Disk, rules: seq<Rule>, always: bool, limit: Option<int>)
    requires Lawful(w) && DiskOk(w, d) && OneProvider(rules)
    ensures DiskOk(w, Bake(w, d, rules, always, limit).0)
  {
    var s := RunRules(w, Start(d), rules, always, limit).0;
    RunRulesKeeps(w, Start(d), rules, always, limit);
    RunRulesShape(w, Start(d), rules, always, limit, d.entries);
    WrittenHolds(d.entries, s.log);
  }

  lemma KilledKeeps(w: World, d: Disk, rules: seq<Rule>, always: bool, limit: Option<int>)
    requires Lawful(w) && DiskOk(w, d)
    ensures DiskOk(w, Happen(w, d, Killed(rules, always, limit)))
  {
    RunRulesKeeps(w, Start(d), rules, always, limit);
    RunRulesChanges(w, Start(d), rules, always, limit);
    var s := RunRules(w, Start(d), rules, always, limit).0;
    LogSurvives(w, d.fs, s.fs, d.now, s.now, ToMap(d.entries));
  }

  // All that a run changes is newer than its start.
  lemma {:induction false} RunRulesChanges(w: World, s: State, rules: seq<Rule>, always: bool, limit: Option<int>)
    requires Lawful(w)
    ensures s.now <= RunRules(w, s, rules, always, limit).0.now
    ensures ChangesFrom(s.fs, RunRules(w, s, rules, always, limit).0.fs, s.now)
    decreases |rules|
  {
    if rules != [] {
      assert RunOk(w, s.fs, s.now, rules[0]);
      var (t, ok) := ProcessRule(w, s, rules[0], always);
      assert ChangesFrom(s.fs, t.fs, s.now) && s.now <= t.now;
      RunRulesChanges(w, t, rules[1..], always, LimitAfter(limit, ok));
    }
  }

  // Removing files and entries never makes the log lie.
  lemma RemovalKeeps(w: World, fs: Fs, now: nat, files: map<Path, Entry>, gone: set<Path>, rest: map<Path, Entry>)
    requires FsOk(fs, now) && LogOk(w, fs, now, files)
    requires forall p :: p in rest ==> p in files && rest[p] == files[p]
    ensures FsOk(fs - gone, now) && LogOk(w, fs - gone, now, rest)
  {
    LogSurvives(w, fs, fs - gone, now, now, files);
  }

  // What cleandead writes: some of the entries, each path at most once.
  lemma DeadWritten(entries: seq<Entry>, dead: set<Path>)
    requires EntriesOk(entries)
    ensures var rest := Written(entries, Log(ToMap(entries), [], dead));
      EntriesOk(rest) && forall e :: e in rest ==> e in entries
  {
    hide ToMap, Names;
    if dead != {} {
      hide Kept, Existing;
      var kept := Kept(entries, dead);
      KeptHolds(entries, dead);
      assert kept + [] == kept;
      ExistingHolds(kept);
    }
  }

  lemma SomeEntries(entries: seq<Entry>, rest: seq<Entry>)
    requires DistinctNames(entries) && forall e :: e in rest ==> e in entries
    ensures forall p :: p in ToMap(rest) ==> p in ToMap(entries) && ToMap(rest)[p] == ToMap(entries)[p]
  {
    hide ToMap;
    ToMapHolds(rest);
    forall p | p in ToMap(rest)
      ensures p in ToMap(entries) && ToMap(rest)[p] == ToMap(entries)[p]
    {
      var e := ToMap(rest)[p];
      var i :| 0 <= i < |entries| && entries[i] == e;
      ToMapFinds(entries, i);
    }
  }

  lemma CleanDeadKeeps(w: World, d: Disk, providers: set<Path>)
    requires DiskOk(w, d)
    ensures DiskOk(w, Happen(w, d, CleanDead(providers)))
  {
    hide ToMap, Written, EntryOk, DistinctNames, LogOk, FsOk;
    if providers != {} {
      var dead := Dead(d.entries, providers);
      var rest := Written(d.entries, Log(ToMap(d.entries), [], dead));
      DeadWritten(d.entries, dead);
      SomeEntries(d.entries, rest);
      RemovalKeeps(w, d.fs, d.now, ToMap(d.entries), dead, ToMap(rest));
    }
  }

  lemma DeadAre(entries: seq<Entry>, providers: set<Path>)
    ensures forall p :: p in Dead(entries, providers) <==> p !in providers && exists x :: x in entries && x.name == p
  {
  }

  // With rules, what goes is the files and the entries of logged paths that no rule provides any more, and
  // nothing else. Without rules nothing goes.
  lemma CleanDeadRemoves(w: World, d: Disk, providers: set<Path>)
    requires EntriesOk(d.entries)
    ensures var e := Happen(w, d, CleanDead(providers));
      if providers == {} then e == d
      else
        && (forall x :: x in e.entries <==> x in d.entries && x.name in providers)
        && (forall p :: p in e.fs <==> p in d.fs && (p in providers || forall x <- d.entries :: x.name != p))
        && (forall p :: p in e.fs ==> e.fs[p] == d.fs[p])
  {
    var dead := Dead(d.entries, providers);
    DeadAre(d.entries, providers);
    hide ToMap, Names, Kept, Existing, Dead, DistinctNames;
    var kept := Kept(d.entries, dead);
    KeptHolds(d.entries, dead);
    assert kept + [] == kept;
    ExistingHolds(kept);
    assert forall x :: x in d.entries ==> (x.name in dead <==> x.name !in providers);
  }

  lemma EventKeeps(w: World, d: Disk, e: Event)
    requires Lawful(w) && DiskOk(w, d) && Legal(d, e)
    ensures DiskOk(w, Happen(w, d, e))
  {
    match e
    case Edit(fs, now) => LogSurvives(w, d.fs, fs, d.now, now, ToMap(d.entries));
    case Run(rules, always, limit) => BakeKeeps(w, d, rules, always, limit);
    case Killed(rules, always, limit) => KilledKeeps(w, d, rules, always, limit);
    case Clean(paths) => RemovalKeeps(w, d.fs, d.now, ToMap(d.entries), paths, ToMap(d.entries));
    case CleanDead(providers) => CleanDeadKeeps(w, d, providers);
  }

  ghost predicate IsHistory(w: World, d: Disk, events: seq<Event>)
    decreases |events|
  {
    events == [] || (Legal(d, events[0]) && IsHistory(w, Happen(w, d, events[0]), events[1..]))
  }

  ghost function AfterHistory(w: World, d: Disk, events: seq<Event>): Disk
    decreases |events|
  {
    if events == [] then d else AfterHistory(w, Happen(w, d, events[0]), events[1..])
  }

  // Over every history, from a directory without a log: the log on disk never lies, and has one entry
  // per output.
  lemma {:induction false} HistoryKeeps(w: World, d: Disk, events: seq<Event>)
    requires Lawful(w) && DiskOk(w, d) && IsHistory(w, d, events)
    ensures DiskOk(w, AfterHistory(w, d, events))
    decreases |events|
  {
    if events != [] {
      EventKeeps(w, d, events[0]);
      HistoryKeeps(w, Happen(w, d, events[0]), events[1..]);
    }
  }

  lemma FreshDirectory(w: World, fs: Fs, now: nat)
    requires FsOk(fs, now)
    ensures DiskOk(w, Disk(fs, now, []))
  {
  }
}
