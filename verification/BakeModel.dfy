// The incremental build of code/bake as values: files, the log, what one rule does, what one run does.
// Names are identified with the absolute paths that abspath gives them.

module BakeModel {
  datatype Option<+T> = None | Some(value: T)

  type Path = string
  type Commands = seq<seq<string>>

  datatype File = File(content: string, mtime: int)
  type Fs = map<Path, File>

  datatype Rule = Rule(outputs: seq<Path>, depends: seq<Path>, commands: Commands)

  // One line of the log: the rule's start time, the digest of its commands, the mtime that the output
  // had when they had finished (None if it did not exist), and the output.
  datatype Entry = Entry(start: nat, digest: string, mtime: Option<int>, name: Path)

  datatype Outcome = Outcome(ok: bool, fs: Fs, now: nat)

  // The world outside bake. inputs(c) contains every file that commands c may read; meaning(c, view) is what
  // they leave in their outputs when they succeed, as a function of the contents of those files;
  // run is what happens to the file system and the clock when they are started at a given time.
  datatype World = World(
    digest: Commands -> string,
    inputs: Commands -> set<Path>,
    meaning: (Commands, map<Path, string>) -> map<Path, string>,
    run: (Fs, nat, Rule) -> Outcome)

  function View(fs: Fs, inputs: set<Path>): map<Path, string> {
    map p | p in inputs && p in fs :: fs[p].content
  }

  function ContentAt(fs: Fs, p: Path): Option<string> {
    if p in fs then Some(fs[p].content) else None
  }

  function Lookup(m: map<Path, string>, p: Path): Option<string> {
    if p in m then Some(m[p]) else None
  }

  // Every file that is not as it was has an mtime after t.
  ghost predicate ChangesAfter(fs: Fs, fs': Fs, t: nat) {
    forall p :: p in fs' && !(p in fs && fs[p] == fs'[p]) ==> fs'[p].mtime > t
  }

  ghost predicate Untouched(fs: Fs, fs': Fs, paths: set<Path>) {
    forall p :: p in paths ==> (p in fs <==> p in fs') && (p in fs ==> fs[p] == fs'[p])
  }

  // Every mtime is in the past.
  ghost predicate FsOk(fs: Fs, now: nat) {
    forall p :: p in fs ==> fs[p].mtime < now
  }

  ghost predicate RunOk(w: World, fs: Fs, t: nat, rule: Rule) {
    var o := w.run(fs, t, rule);
    && t < o.now && ChangesAfter(fs, o.fs, t) && (FsOk(fs, t) ==> FsOk(o.fs, o.now))
    && (o.ok && Untouched(fs, o.fs, w.inputs(rule.commands)) ==>
         forall p :: p in rule.outputs ==>
           ContentAt(o.fs, p) == Lookup(w.meaning(rule.commands, View(fs, w.inputs(rule.commands))), p))
  }

  // The assumptions: digests do not collide; the clock strictly advances; commands that succeed, while
  // nobody disturbs what they read, leave their meaning in the files the rule provides. Nothing is
  // assumed about commands that fail, nor about other files that change meanwhile.
  ghost predicate Lawful(w: World) {
    && (forall a, b :: w.digest(a) == w.digest(b) ==> a == b)
    && (forall fs, t, rule :: RunOk(w, fs, t, rule))
  }

  // ---- The log in memory (class Log) ----

  datatype Log = Log(files: map<Path, Entry>, log: seq<Entry>, updated: set<Path>)

  function ToMap(entries: seq<Entry>): map<Path, Entry> {
    if entries == [] then map[]
    else ToMap(entries[..|entries| - 1])[entries[|entries| - 1].name := entries[|entries| - 1]]
  }

  function Names(entries: seq<Entry>): (names: set<Path>)
    ensures forall e :: e in entries ==> e.name in names
  {
    set e | e in entries :: e.name
  }

  ghost predicate DistinctNames(entries: seq<Entry>) {
    forall i, j :: 0 <= i < j < |entries| ==> entries[i].name != entries[j].name
  }

  function Stat(fs: Fs, p: Path): Option<int> {
    if p in fs then Some(fs[p].mtime) else None
  }

  // Log.find, one output: the entry matches in digest and mtime.
  predicate Matches(files: map<Path, Entry>, digest: string, fs: Fs, p: Path) {
    p in fs && p in files && files[p].digest == digest && files[p].mtime == Some(fs[p].mtime)
  }

  // Log.find for the outputs in outputs[..n]: the earliest start time, if every one of them matches.
  function FindUpTo(files: map<Path, Entry>, digest: string, fs: Fs, outputs: seq<Path>, n: nat): Option<nat>
    requires n <= |outputs|
  {
    if n == 0 || !Matches(files, digest, fs, outputs[n - 1]) then None
    else
      var start := files[outputs[n - 1]].start;
      if n == 1 then Some(start)
      else match FindUpTo(files, digest, fs, outputs, n - 1)
           case None => None
           case Some(t) => if t <= start then Some(t) else Some(start)
  }

  function Find(files: map<Path, Entry>, digest: string, fs: Fs, outputs: seq<Path>): Option<nat> {
    FindUpTo(files, digest, fs, outputs, |outputs|)
  }

  // The entries that a finished rule adds.
  function NewEntries(start: nat, digest: string, fs: Fs, outputs: seq<Path>): (r: seq<Entry>)
    ensures |r| == |outputs|
    ensures forall i :: 0 <= i < |r| ==> r[i] == Entry(start, digest, Stat(fs, outputs[i]), outputs[i])
  {
    seq(|outputs|, i requires 0 <= i < |outputs| => Entry(start, digest, Stat(fs, outputs[i]), outputs[i]))
  }

  function Append(log: Log, added: seq<Entry>): Log {
    Log(log.files + ToMap(added), log.log + added, log.updated + Names(added))
  }

  // ---- One rule (process_rule) ----

  // Python's three states of a path in `updated`: Some(false), Some(true), and None for a failure.
  type Mark = Option<bool>

  datatype State = State(fs: Fs, now: nat, log: Log, marks: map<Path, Mark>)

  // check_updated: the first dependency that is not known to be unchanged decides.
  function CheckUpdated(fs: Fs, marks: map<Path, Mark>, start: nat, depends: seq<Path>): Mark {
    if depends == [] then Some(false)
    else
      var d := depends[0];
      if d in marks then
        if marks[d] != Some(false) then marks[d] else CheckUpdated(fs, marks, start, depends[1..])
      else if d !in fs || fs[d].mtime >= start then Some(true)
      else CheckUpdated(fs, marks, start, depends[1..])
  }

  // What process_rule decides before it runs anything: None to build, or else the result it returns.
  function Skips(w: World, s: State, rule: Rule, always: bool): Option<bool> {
    match Find(s.log.files, w.digest(rule.commands), s.fs, rule.outputs)
    case None => None
    case Some(start) =>
      if always then None
      else
        var state := CheckUpdated(s.fs, s.marks, start, rule.depends);
        if state == Some(true) then None else Some(state == Some(false))
  }

  function MarkOf(fs: Fs, ok: bool, p: Path): Mark {
    if ok && p in fs then Some(true) else None
  }

  function Marked(marks: map<Path, Mark>, outputs: seq<Path>, fs: Fs, ok: bool): map<Path, Mark> {
    marks + map p | p in outputs :: MarkOf(fs, ok, p)
  }

  function Build(w: World, s: State, rule: Rule): (State, bool) {
    var o := w.run(s.fs, s.now, rule);
    var marks := Marked(s.marks, rule.outputs, o.fs, o.ok);
    var log := if o.ok then Append(s.log, NewEntries(s.now, w.digest(rule.commands), o.fs, rule.outputs)) else s.log;
    (State(o.fs, o.now, log, marks), o.ok)
  }

  function ProcessRule(w: World, s: State, rule: Rule, always: bool): (State, bool) {
    match Skips(w, s, rule, always)
    case Some(result) => (s.(now := s.now + 1), result)
    case None => Build(w, s, rule)
  }

  // ---- One run (build) ----

  // keep_going: stop after that many failures; None never stops.
  function LimitAfter(limit: Option<int>, ok: bool): Option<int> {
    if ok || limit.None? then limit else Some(limit.value - 1)
  }

  function RunRules(w: World, s: State, rules: seq<Rule>, always: bool, limit: Option<int>): (State, bool)
    decreases |rules|
  {
    if rules == [] then (s, true)
    else
      var (t, ok) := ProcessRule(w, s, rules[0], always);
      var left := LimitAfter(limit, ok);
      if !ok && left == Some(0) then (t, false)
      else
        var (u, rest) := RunRules(w, t, rules[1..], always, left);
        (u, ok && rest)
  }

  // ---- The log on disk ----

  datatype Disk = Disk(fs: Fs, now: nat, entries: seq<Entry>)

  function Start(d: Disk): State {
    State(d.fs, d.now, Log(ToMap(d.entries), [], {}), map[])
  }

  // update_log: entries of paths that this run has updated give way to the new ones.
  function Kept(entries: seq<Entry>, updated: set<Path>): seq<Entry> {
    if entries == [] then []
    else
      var e := entries[|entries| - 1];
      Kept(entries[..|entries| - 1], updated) + if e.name in updated then [] else [e]
  }

  // write_log drops entries of outputs that do not exist.
  function Existing(entries: seq<Entry>): seq<Entry> {
    if entries == [] then []
    else
      var e := entries[|entries| - 1];
      Existing(entries[..|entries| - 1]) + if e.mtime.None? then [] else [e]
  }

  function Written(entries: seq<Entry>, log: Log): seq<Entry> {
    if log.updated == {} then entries else Existing(Kept(entries, log.updated) + log.log)
  }

  function Finish(d: Disk, s: State): Disk {
    Disk(s.fs, s.now, Written(d.entries, s.log))
  }

  function Bake(w: World, d: Disk, rules: seq<Rule>, always: bool, limit: Option<int>): (Disk, bool) {
    var (s, ok) := RunRules(w, Start(d), rules, always, limit);
    (Finish(d, s), ok)
  }

  // ---- What get_providers and sort_targets guarantee about the rules of a run ----

  ghost predicate Disjoint(a: seq<Path>, b: seq<Path>) {
    forall p :: p in a ==> p !in b
  }

  ghost predicate DistinctPaths(s: seq<Path>) {
    forall i, j :: 0 <= i < j < |s| ==> s[i] != s[j]
  }

  // get_providers: no path is provided twice.
  ghost predicate OneProvider(rules: seq<Rule>) {
    && (forall r :: r in rules ==> DistinctPaths(r.outputs))
    && (forall i, j :: 0 <= i < j < |rules| ==> Disjoint(rules[i].outputs, rules[j].outputs))
  }

  // sort_targets: no rule comes before one that provides something it depends on, or depends on itself.
  ghost predicate Ordered(rules: seq<Rule>) {
    forall i, j :: 0 <= i <= j < |rules| ==> Disjoint(rules[j].outputs, rules[i].depends)
  }

  // Commands read only what their rule declares.
  ghost predicate Declared(w: World, rule: Rule) {
    forall p :: p in w.inputs(rule.commands) ==> p in rule.depends
  }

  // The commands of a rule write only what the rule provides, and nobody else writes meanwhile.
  ghost predicate ConfinedTo(w: World, rule: Rule) {
    forall fs, t, p :: p !in rule.outputs ==>
      (p in fs <==> p in w.run(fs, t, rule).fs) && (p in fs ==> fs[p] == w.run(fs, t, rule).fs[p])
  }

  ghost predicate Confined(w: World, rules: seq<Rule>) {
    forall r <- rules :: ConfinedTo(w, r)
  }
}
