// The byte relay of code/console-raw.c: two 4096-byte buffers between a terminal and a pty, driven by epoll
// events whose masks are switched with exclusive or.

module RelayModel {
  const BUFFER := 4096

  // An event mask, bit by bit.
  datatype Mask = Mask(r: bool, w: bool)

  const EPOLLIN := Mask(true, false)
  const EPOLLOUT := Mask(false, true)
  const NONE := Mask(false, false)

  function Or(a: Mask, b: Mask): Mask {
    Mask(a.r || b.r, a.w || b.w)
  }

  function And(a: Mask, b: Mask): Mask {
    Mask(a.r && b.r, a.w && b.w)
  }

  function Xor(a: Mask, b: Mask): Mask {
    Mask(a.r != b.r, a.w != b.w)
  }

  predicate Within(a: Mask, b: Mask) {
    And(a, b) == a
  }

  // Retry stands for EAGAIN, EWOULDBLOCK and EINTR; any other error fails an assertion, except that a
  // broken pipe is expected on the pty.
  datatype ReadResult = Data(bytes: seq<int>) | Eof | ReadRetry | ReadFailed
  datatype WriteResult = Sent(n: nat) | Pipe | WriteRetry | WriteFailed

  // What epoll_wait reports, with the answers of the calls that the report leads to. hangup is EPOLLHUP
  // or EPOLLERR, which are never asked for and always reported.
  datatype Event =
    | Stdout(events: Mask, write: WriteResult)
    | Stdin(events: Mask, read: ReadResult)
    | Master(events: Mask, hangup: bool, read: ReadResult, write: WriteResult)

  // One direction: all bytes read, all bytes written, and the bytes in the buffer between start and end.
  datatype Lane = Lane(taken: seq<int>, sent: seq<int>, unsent: seq<int>)

  // A read goes to the start of the buffer, whatever the buffer held.
  function Fill(l: Lane, bytes: seq<int>): Lane {
    Lane(l.taken + bytes, l.sent, bytes)
  }

  function Drain(l: Lane, n: nat): Lane
    requires n <= |l.unsent|
  {
    Lane(l.taken, l.sent + l.unsent[..n], l.unsent[n..])
  }

  // The registered masks; the one of the pty is also the variable master_mask.
  datatype State = State(out: Lane, inp: Lane, stdout: Mask, stdin: Mask, master: Mask, running: Mask, aborted: bool)

  const EMPTY := Lane([], [], [])
  const INITIAL := State(EMPTY, EMPTY, NONE, EPOLLIN, EPOLLIN, Mask(true, true), false)

  predicate Going(s: State) {
    s.running != NONE && !s.aborted
  }

  // ---- The handlers ----

  // Lines 81-97.
  function OnStdout(s: State, events: Mask, write: WriteResult): State
    requires write.Sent? ==> write.n <= |s.out.unsent|
  {
    if !events.w then s
    else
      match write
      case Sent(n) =>
        var out := Drain(s.out, n);
        if out.unsent != [] then s.(out := out)
        else s.(out := out, stdout := NONE, master := And(Or(s.master, EPOLLIN), s.running))
      case WriteRetry => s
      case _ => s.(aborted := true)
  }

  // Lines 98-115. The mask is cleared whatever the read returns.
  function OnStdin(s: State, events: Mask, read: ReadResult): State {
    if !events.r then s
    else
      var t := s.(stdin := NONE);
      match read
      case Eof => t
      case Data(bytes) => t.(inp := Fill(s.inp, bytes), master := And(Or(s.master, EPOLLOUT), s.running))
      case ReadRetry => t
      case ReadFailed => t.(aborted := true)
  }

  // Lines 117-130.
  function Readable(s: State, read: ReadResult): State {
    var t := s.(master := Xor(s.master, EPOLLIN));
    match read
    case Data(bytes) => t.(out := Fill(s.out, bytes), stdout := EPOLLOUT)
    case Eof => t.(running := Xor(s.running, EPOLLIN))
    case ReadRetry => t
    case ReadFailed => t.(aborted := true)
  }

  // Lines 132-146.
  function Writable(s: State, write: WriteResult): State
    requires write.Sent? ==> write.n <= |s.inp.unsent|
  {
    match write
    case Sent(n) =>
      var inp := Drain(s.inp, n);
      if inp.unsent != [] then s.(inp := inp)
      else s.(inp := inp, master := Xor(s.master, EPOLLOUT), stdin := EPOLLIN)
    case Pipe => s.(running := Xor(s.running, EPOLLOUT))
    case WriteRetry => s
    case WriteFailed => s.(aborted := true)
  }

  // Lines 148-154.
  function Settled(s: State, hangup: bool): State {
    if hangup then s.(master := NONE, running := NONE) else s.(master := And(s.master, s.running))
  }

  // Lines 116-155.
  function OnMaster(s: State, events: Mask, hangup: bool, read: ReadResult, write: WriteResult): State
    requires write.Sent? ==> write.n <= |s.inp.unsent|
  {
    var t := if events.r then Readable(s, read) else s;
    if t.aborted then t
    else
      var u := if events.w then Writable(t, write) else t;
      if u.aborted then u else Settled(u, hangup)
  }

  // What epoll and the calls can produce: events that were asked for, at most a buffer read, and at most
  // the unsent bytes written.
  predicate Possible(s: State, e: Event) {
    match e
    case Stdout(events, write) => Within(events, s.stdout) && (write.Sent? ==> write.n <= |s.out.unsent|)
    case Stdin(events, read) => Within(events, s.stdin) && (read.Data? ==> 1 <= |read.bytes| <= BUFFER)
    case Master(events, _, read, write) =>
      && Within(events, s.master) && (read.Data? ==> 1 <= |read.bytes| <= BUFFER)
      && (write.Sent? ==> write.n <= |s.inp.unsent|)
  }

  function Step(s: State, e: Event): State
    requires Possible(s, e)
  {
    match e
    case Stdout(events, write) => OnStdout(s, events, write)
    case Stdin(events, read) => OnStdin(s, events, read)
    case Master(events, hangup, read, write) => OnMaster(s, events, hangup, read, write)
  }

  // ---- The invariant ----

  predicate LaneOk(l: Lane) {
    l.taken == l.sent + l.unsent && |l.unsent| <= BUFFER
  }

  // A direction either reads or writes; it reads only with an empty buffer.
  predicate Masks(s: State) {
    && (s.stdout == if s.out.unsent == [] then NONE else EPOLLOUT)
    && (s.stdin == NONE || s.stdin == EPOLLIN)
    && (s.master.r ==> s.out.unsent == []) && (s.master.w ==> s.inp.unsent != [])
    && (s.stdin.r ==> s.inp.unsent == []) && Within(s.master, s.running)
    && (s.running != NONE ==> (s.stdout.w ==> s.running.r) && (s.stdin.r ==> s.running.w))
  }

  predicate Inv(s: State) {
    LaneOk(s.out) && LaneOk(s.inp) && Masks(s)
  }

  lemma FillKeeps(l: Lane, bytes: seq<int>)
    requires LaneOk(l) && l.unsent == [] && |bytes| <= BUFFER
    ensures LaneOk(Fill(l, bytes))
  {
  }

  lemma DrainKeeps(l: Lane, n: nat)
    requires LaneOk(l) && n <= |l.unsent|
    ensures LaneOk(Drain(l, n))
  {
    assert l.unsent == l.unsent[..n] + l.unsent[n..];
  }

  // When the pty is reported readable its bit is set, so the exclusive or clears it and the buffer that
  // the read overwrites is empty.
  lemma ReadableKeeps(s: State, read: ReadResult)
    requires Inv(s) && s.master.r && (read.Data? ==> 1 <= |read.bytes| <= BUFFER)
    ensures s.out.unsent == [] && Inv(Readable(s, read)) && !Readable(s, read).master.r
  {
    if read.Data? {
      FillKeeps(s.out, read.bytes);
    }
  }

  // The mask of the pty may exceed running between these two steps.
  lemma WritableKeeps(s: State, write: WriteResult, hangup: bool)
    requires Inv(s) && s.master.w && !s.aborted && (write.Sent? ==> write.n <= |s.inp.unsent|)
    ensures Inv(Settled(Writable(s, write), hangup))
    ensures Writable(s, write).aborted ==> Inv(Writable(s, write))
  {
    if write.Sent? {
      DrainKeeps(s.inp, write.n);
    }
  }

  lemma StepKeeps(s: State, e: Event)
    requires Inv(s) && Going(s) && Possible(s, e)
    ensures Inv(Step(s, e))
  {
    match e
    case Stdout(events, write) =>
      if write.Sent? {
        DrainKeeps(s.out, write.n);
      }
    case Stdin(events, read) =>
      if events.r && read.Data? {
        FillKeeps(s.inp, read.bytes);
      }
    case Master(events, hangup, read, write) =>
      var t := s;
      if events.r {
        ReadableKeeps(s, read);
        t := Readable(s, read);
      }
      if events.w && !t.aborted {
        WritableKeeps(t, write, hangup);
      }
  }

  // ---- Runs ----

  // Every event is possible when it comes, and the loop has not ended.
  predicate IsRun(s: State, es: seq<Event>)
    decreases |es|
  {
    es == [] || (Going(s) && Possible(s, es[0]) && IsRun(Step(s, es[0]), es[1..]))
  }

  function After(s: State, es: seq<Event>): State
    requires IsRun(s, es)
    decreases |es|
  {
    if es == [] then s else After(Step(s, es[0]), es[1..])
  }

  lemma {:induction false} RunKeeps(s: State, es: seq<Event>)
    requires Inv(s) && IsRun(s, es)
    ensures Inv(After(s, es))
    decreases |es|
  {
    if es != [] {
      StepKeeps(s, es[0]);
      RunKeeps(Step(s, es[0]), es[1..]);
    }
  }

  // ---- What goes in and what comes out, from the events alone ----

  // The bytes that one event brings from the pty and from the terminal.
  function FromPtyOnce(e: Event): seq<int> {
    if e.Master? && e.events.r && e.read.Data? then e.read.bytes else []
  }

  function FromTerminalOnce(e: Event): seq<int> {
    if e.Stdin? && e.events.r && e.read.Data? then e.read.bytes else []
  }

  // How many bytes the terminal and the pty accept. If the read of the pty fails, there is no write.
  function ToTerminalOnce(e: Event): nat {
    if e.Stdout? && e.events.w && e.write.Sent? then e.write.n else 0
  }

  function ToPtyOnce(e: Event): nat {
    if e.Master? && e.events.w && e.write.Sent? && !(e.events.r && e.read.ReadFailed?) then e.write.n else 0
  }

  // All bytes that were read, in the order of the events, and the number of those accepted.
  function FromPty(es: seq<Event>): seq<int> {
    if es == [] then [] else FromPtyOnce(es[0]) + FromPty(es[1..])
  }

  function FromTerminal(es: seq<Event>): seq<int> {
    if es == [] then [] else FromTerminalOnce(es[0]) + FromTerminal(es[1..])
  }

  function ToTerminal(es: seq<Event>): nat {
    if es == [] then 0 else ToTerminalOnce(es[0]) + ToTerminal(es[1..])
  }

  function ToPty(es: seq<Event>): nat {
    if es == [] then 0 else ToPtyOnce(es[0]) + ToPty(es[1..])
  }

  // What one lane has taken and sent, when bytes come in and n go out.
  predicate Moves(l: Lane, bytes: seq<int>, n: nat, m: Lane) {
    m.taken == l.taken + bytes && |m.sent| == |l.sent| + n
  }

  lemma StaysPut(l: Lane)
    ensures Moves(l, [], 0, l)
  {
  }

  lemma DrainMoves(l: Lane, n: nat)
    requires n <= |l.unsent|
    ensures Moves(l, [], n, Drain(l, n))
  {
  }

  lemma FillMoves(l: Lane, bytes: seq<int>)
    ensures Moves(l, bytes, 0, Fill(l, bytes))
  {
  }

  lemma StepMoves(s: State, e: Event)
    requires Possible(s, e) && !s.aborted
    ensures Moves(s.out, FromPtyOnce(e), ToTerminalOnce(e), Step(s, e).out)
    ensures Moves(s.inp, FromTerminalOnce(e), ToPtyOnce(e), Step(s, e).inp)
  {
    hide Moves, Drain, Fill;
    StaysPut(s.out);
    StaysPut(s.inp);
    match e
    case Stdout(events, write) =>
      if write.Sent? { DrainMoves(s.out, write.n); }
    case Stdin(events, read) =>
      if read.Data? { FillMoves(s.inp, read.bytes); }
    case Master(events, hangup, read, write) =>
      if read.Data? { FillMoves(s.out, read.bytes); }
      if write.Sent? { DrainMoves(s.inp, write.n); }
  }

  lemma MovesTwice(l: Lane, a: seq<int>, i: nat, m: Lane, b: seq<int>, j: nat, n: Lane)
    requires Moves(l, a, i, m) && Moves(m, b, j, n)
    ensures Moves(l, a + b, i + j, n)
  {
  }

  lemma {:induction false} RunMoves(s: State, es: seq<Event>)
    requires IsRun(s, es)
    ensures Moves(s.out, FromPty(es), ToTerminal(es), After(s, es).out)
    ensures Moves(s.inp, FromTerminal(es), ToPty(es), After(s, es).inp)
    decreases |es|
  {
    hide Moves, Step, FromPtyOnce, FromTerminalOnce, ToTerminalOnce, ToPtyOnce, Possible;
    if es == [] {
      StaysPut(s.out);
      StaysPut(s.inp);
    } else {
      var (t, rest) := (Step(s, es[0]), es[1..]);
      StepMoves(s, es[0]);
      RunMoves(t, rest);
      MovesTwice(s.out, FromPtyOnce(es[0]), ToTerminalOnce(es[0]), t.out, FromPty(rest), ToTerminal(rest), After(t, rest).out);
      MovesTwice(s.inp, FromTerminalOnce(es[0]), ToPtyOnce(es[0]), t.inp, FromTerminal(rest), ToPty(rest), After(t, rest).inp);
    }
  }

  lemma FromEmpty(bytes: seq<int>, n: nat, l: Lane)
    requires Moves(EMPTY, bytes, n, l) && LaneOk(l)
    ensures n <= |bytes| <= n + BUFFER && l.sent == bytes[..n] && (l.unsent == [] ==> l.sent == bytes)
  {
    assert EMPTY.taken + bytes == bytes;
  }

  // Safety of the relay: over every run, with every partial read and write, the terminal has received
  // exactly the beginning of what the reads of the pty returned, as long as the bytes it accepted, and lags
  // by at most one buffer. The same holds the other way.
  lemma RelayIsSafe(es: seq<Event>)
    requires IsRun(INITIAL, es)
    ensures var s := After(INITIAL, es);
      && ToTerminal(es) <= |FromPty(es)| <= ToTerminal(es) + BUFFER && s.out.sent == FromPty(es)[..ToTerminal(es)]
      && ToPty(es) <= |FromTerminal(es)| <= ToPty(es) + BUFFER && s.inp.sent == FromTerminal(es)[..ToPty(es)]
      && (s.stdout == NONE ==> s.out.sent == FromPty(es))
  {
    RunKeeps(INITIAL, es);
    RunMoves(INITIAL, es);
    var s := After(INITIAL, es);
    FromEmpty(FromPty(es), ToTerminal(es), s.out);
    FromEmpty(FromTerminal(es), ToPty(es), s.inp);
  }

  // No buffer is refilled while it holds unsent bytes.
  lemma NoRefill(s: State, e: Event)
    requires Inv(s) && Going(s) && Possible(s, e)
    ensures Step(s, e).out.taken != s.out.taken ==> s.out.unsent == []
    ensures Step(s, e).inp.taken != s.inp.taken ==> s.inp.unsent == []
  {
  }

  // ---- When it ends ----

  // A call failed in a way that an assertion excludes.
  predicate Fails(e: Event) {
    match e
    case Stdout(events, write) => events.w && (write.Pipe? || write.WriteFailed?)
    case Stdin(events, read) => events.r && read.ReadFailed?
    case Master(events, _, read, write) => (events.r && read.ReadFailed?) || (events.w && write.WriteFailed?)
  }

  // The shell has closed its output, or its input.
  predicate ClosesOutput(e: Event) {
    e.Master? && (e.hangup || (e.events.r && e.read.Eof?))
  }

  predicate ClosesInput(e: Event) {
    e.Master? && (e.hangup || (e.events.w && e.write.Pipe?))
  }

  lemma EndStep(s: State, e: Event)
    requires Inv(s) && Going(s) && Possible(s, e)
    ensures var t := Step(s, e);
      && (t.aborted <==> Fails(e))
      && (!t.aborted ==> (t.running.r <==> s.running.r && !ClosesOutput(e)) && (t.running.w <==> s.running.w && !ClosesInput(e)))
  {
    hide LaneOk;
    match e
    case Stdout(events, write) =>
    case Stdin(events, read) =>
    case Master(events, hangup, read, write) =>
  }

  // The loop ends exactly with a failed call, or when the shell has closed both its output and its input.
  lemma {:induction false} LoopEnds(s: State, es: seq<Event>)
    requires Inv(s) && IsRun(s, es) && (Going(s) || es == [])
    ensures var t := After(s, es);
      && (t.aborted <==> s.aborted || exists e :: e in es && Fails(e))
      && (!t.aborted ==>
           && (t.running.r <==> s.running.r && forall e <- es :: !ClosesOutput(e))
           && (t.running.w <==> s.running.w && forall e <- es :: !ClosesInput(e)))
    decreases |es|
  {
    if es != [] {
      hide Inv, Step, Fails, ClosesOutput, ClosesInput, Possible;
      StepKeeps(s, es[0]);
      EndStep(s, es[0]);
      LoopEnds(Step(s, es[0]), es[1..]);
      assert es == [es[0]] + es[1..];
    }
  }

  // ---- How far the relay goes ----

  // Something is still asked for that can move bytes of this direction.
  predicate OutFlows(s: State) {
    s.master.r || s.stdout.w
  }

  predicate InFlows(s: State) {
    s.stdin.r || s.master.w
  }

  predicate EndsOut(e: Event) {
    e.Master? && ((e.events.r && !e.read.Data?) || e.hangup)
  }

  predicate EndsIn(e: Event) {
    || (e.Stdin? && e.events.r && !e.read.Data?)
    || (e.Master? && ((e.events.w && e.write.Pipe?) || e.hangup))
  }

  lemma FlowStep(s: State, e: Event)
    requires Inv(s) && Going(s) && Possible(s, e) && Going(Step(s, e))
    ensures OutFlows(Step(s, e)) <==> OutFlows(s) && !EndsOut(e)
    ensures InFlows(Step(s, e)) <==> InFlows(s) && !EndsIn(e)
  {
    hide LaneOk;
    match e
    case Stdout(events, write) =>
    case Stdin(events, read) =>
    case Master(events, hangup, read, write) =>
  }

  // A direction moves on exactly until its first read that brings no bytes, be it the end of the file or
  // an interrupted call: nothing turns its mask on again. (A broken pipe ends the direction to the pty.)
  lemma {:induction false} FlowsUntilAReadIsEmpty(s: State, es: seq<Event>)
    requires Inv(s) && IsRun(s, es) && Going(After(s, es))
    ensures OutFlows(After(s, es)) <==> OutFlows(s) && forall e <- es :: !EndsOut(e)
    ensures InFlows(After(s, es)) <==> InFlows(s) && forall e <- es :: !EndsIn(e)
    decreases |es|
  {
    if es != [] {
      StepKeeps(s, es[0]);
      GoingBefore(Step(s, es[0]), es[1..]);
      FlowStep(s, es[0]);
      FlowsUntilAReadIsEmpty(Step(s, es[0]), es[1..]);
      assert es == [es[0]] + es[1..];
    }
  }

  lemma GoingBefore(s: State, es: seq<Event>)
    requires IsRun(s, es) && Going(After(s, es))
    ensures Going(s)
  {
  }

  // One interrupted read of the pty, with the shell still running, silences the terminal for good.
  lemma InterruptedReadStops(es: seq<Event>)
    requires var e := Master(EPOLLIN, false, ReadRetry, WriteRetry); IsRun(INITIAL, [e] + es)
    ensures var e := Master(EPOLLIN, false, ReadRetry, WriteRetry); After(INITIAL, [e] + es).out == EMPTY
  {
    var e := Master(EPOLLIN, false, ReadRetry, WriteRetry);
    assert ([e] + es)[1..] == es;
    StepKeeps(INITIAL, e);
    StaysSilent(Step(INITIAL, e), es);
  }

  lemma {:induction false} StaysSilent(s: State, es: seq<Event>)
    requires Inv(s) && IsRun(s, es) && !OutFlows(s)
    ensures After(s, es).out == s.out
    decreases |es|
  {
    if es != [] {
      StepKeeps(s, es[0]);
      SilentStep(s, es[0]);
      StaysSilent(Step(s, es[0]), es[1..]);
    }
  }

  lemma SilentStep(s: State, e: Event)
    requires Inv(s) && Going(s) && Possible(s, e) && !OutFlows(s)
    ensures Step(s, e).out == s.out && !OutFlows(Step(s, e))
  {
  }
}

// The variables and buffers of main, updated in place.
module Relays {
  import opened RelayModel

  class Relay {
    var stdoutMask: Mask
    var stdinMask: Mask
    var masterMask: Mask
    var running: Mask
    var aborted: bool
    const stdinBuf: array<int>
    var stdinStart: nat
    var stdinEnd: nat
    const stdoutBuf: array<int>
    var stdoutStart: nat
    var stdoutEnd: nat

    // What write(2) has been given and has accepted, on the terminal and on the pty.
    var terminal: seq<int>
    var pty: seq<int>

    ghost var out: Lane
    ghost var inp: Lane

    ghost function View(): State
      reads this
    {
      State(out, inp, stdoutMask, stdinMask, masterMask, running, aborted)
    }

    // The buffers hold the unsent bytes whenever a write may happen, and what was written before is what
    // the lanes have sent.
    ghost predicate Buffers()
      reads this, stdinBuf, stdoutBuf
    {
      && stdinBuf != stdoutBuf && stdinBuf.Length == BUFFER && stdoutBuf.Length == BUFFER
      && (out.unsent != [] ==> stdoutStart < stdoutEnd <= BUFFER && out.unsent == stdoutBuf[stdoutStart..stdoutEnd])
      && (inp.unsent != [] ==> stdinStart < stdinEnd <= BUFFER && inp.unsent == stdinBuf[stdinStart..stdinEnd])
      && terminal == out.sent && pty == inp.sent
    }

    ghost predicate Valid()
      reads this, stdinBuf, stdoutBuf
    {
      Buffers() && Inv(View())
    }

    // start and end are not initialised; nothing reads them before the first bytes arrive.
    constructor (a: nat, b: nat, c: nat, d: nat)
      ensures Valid() && View() == INITIAL && fresh(stdinBuf) && fresh(stdoutBuf)
    {
      stdinBuf := new int[BUFFER];
      stdoutBuf := new int[BUFFER];
      stdinStart, stdinEnd, stdoutStart, stdoutEnd := a, b, c, d;
      stdoutMask, stdinMask, masterMask, running := NONE, EPOLLIN, EPOLLIN, Mask(true, true);
      aborted := false;
      terminal, pty := [], [];
      out, inp := EMPTY, EMPTY;
    }

    method HandleStdout(events: Mask, write: WriteResult)
      requires Valid() && Going(View()) && Possible(View(), Stdout(events, write))
      modifies this
      ensures Valid() && View() == Step(old(View()), Stdout(events, write))
    {
      StepKeeps(View(), Stdout(events, write));
      WritesNeedBytes(View(), events);
      hide Inv, Buffers;
      if events.w {
        WriteStdout(write);
      }
    }

    method WriteStdout(write: WriteResult)
      requires Buffers() && out.unsent != [] && (write.Sent? ==> write.n <= |out.unsent|)
      modifies this
      ensures Buffers() && View() == OnStdout(old(View()), EPOLLOUT, write)
    {
      match write {
        case Sent(n) =>
          terminal := terminal + stdoutBuf[stdoutStart..stdoutEnd][..n];
          out := Drain(out, n);
          stdoutStart := stdoutStart + n;
          if stdoutStart < stdoutEnd {
            return;
          }
          stdoutMask := NONE;
          masterMask := Or(masterMask, EPOLLIN);
          masterMask := And(masterMask, running);
        case WriteRetry =>
        case _ =>
          aborted := true;
      }
    }

    method HandleStdin(events: Mask, read: ReadResult)
      requires Valid() && Going(View()) && Possible(View(), Stdin(events, read))
      modifies this, stdinBuf
      ensures Valid() && View() == Step(old(View()), Stdin(events, read))
    {
      StepKeeps(View(), Stdin(events, read));
      hide Inv, Buffers;
      if events.r {
        ReadStdin(read);
      }
    }

    method ReadStdin(read: ReadResult)
      requires Buffers() && (read.Data? ==> 1 <= |read.bytes| <= BUFFER)
      modifies this, stdinBuf
      ensures Buffers() && View() == OnStdin(old(View()), EPOLLIN, read)
    {
      stdinMask := NONE;
      match read {
        case Eof =>
        case Data(bytes) =>
          Store(stdinBuf, bytes);
          stdinStart, stdinEnd := 0, |bytes|;
          inp := Fill(inp, bytes);
          masterMask := Or(masterMask, EPOLLOUT);
          masterMask := And(masterMask, running);
        case ReadRetry =>
        case ReadFailed =>
          aborted := true;
      }
    }

    method ReadMaster(read: ReadResult)
      requires Buffers() && (read.Data? ==> 1 <= |read.bytes| <= BUFFER)
      modifies this, stdoutBuf
      ensures Buffers() && View() == Readable(old(View()), read)
    {
      masterMask := Xor(masterMask, EPOLLIN);
      match read {
        case Data(bytes) =>
          Store(stdoutBuf, bytes);
          stdoutStart, stdoutEnd := 0, |bytes|;
          out := Fill(out, bytes);
          stdoutMask := EPOLLOUT;
        case Eof =>
          running := Xor(running, EPOLLIN);
        case ReadRetry =>
        case ReadFailed =>
          aborted := true;
      }
    }

    method WriteMaster(write: WriteResult)
      requires Buffers() && inp.unsent != [] && (write.Sent? ==> write.n <= |inp.unsent|)
      modifies this
      ensures Buffers() && View() == Writable(old(View()), write)
    {
      match write {
        case Sent(n) =>
          pty := pty + stdinBuf[stdinStart..stdinEnd][..n];
          inp := Drain(inp, n);
          stdinStart := stdinStart + n;
          if stdinStart == stdinEnd {
            masterMask := Xor(masterMask, EPOLLOUT);
            stdinMask := EPOLLIN;
          }
        case Pipe =>
          running := Xor(running, EPOLLOUT);
        case WriteRetry =>
        case WriteFailed =>
          aborted := true;
      }
    }

    method HandleMaster(events: Mask, hangup: bool, read: ReadResult, write: WriteResult)
      requires Valid() && Going(View()) && Possible(View(), Master(events, hangup, read, write))
      modifies this, stdoutBuf
      ensures Valid() && View() == Step(old(View()), Master(events, hangup, read, write))
    {
      StepKeeps(View(), Master(events, hangup, read, write));
      WritesNeedBytes(View(), events);
      hide Inv, Readable, Writable, Settled, Buffers;
      ghost var s := View();
      if events.r {
        ReadMaster(read);
        ReadingLeavesInput(s, read);
        if aborted {
          return;
        }
      }
      if events.w {
        WriteMaster(write);
        if aborted {
          return;
        }
      }
      Settle(hangup);
    }

    method Settle(hangup: bool)
      requires Buffers()
      modifies `masterMask, `running
      ensures Buffers() && View() == Settled(old(View()), hangup)
    {
      if hangup {
        masterMask := NONE;
        running := NONE;
      }
      masterMask := And(masterMask, running);
    }

    // The event loop over the events that epoll_wait returns, one at a time. From the start on, what the
    // terminal and the pty have accepted is the beginning of what was read on the other side.
    method Run(es: seq<Event>)
      requires Valid() && IsRun(View(), es)
      modifies this, stdinBuf, stdoutBuf
      ensures Valid() && View() == After(old(View()), es)
      ensures old(View()) == INITIAL ==> ToTerminal(es) <= |FromPty(es)| && terminal == FromPty(es)[..ToTerminal(es)]
      ensures old(View()) == INITIAL ==> ToPty(es) <= |FromTerminal(es)| && pty == FromTerminal(es)[..ToPty(es)]
    {
      if View() == INITIAL {
        RelayIsSafe(es);
      }
      hide Inv, Step, Buffers, Possible;
      ghost var s := View();
      for i := 0 to |es|
        invariant Valid() && IsRun(View(), es[i..]) && After(View(), es[i..]) == After(s, es)
      {
        assert es[i..][0] == es[i] && es[i..][1..] == es[i + 1..];
        match es[i] {
          case Stdout(events, write) => HandleStdout(events, write);
          case Stdin(events, read) => HandleStdin(events, read);
          case Master(events, hangup, read, write) => HandleMaster(events, hangup, read, write);
        }
      }
      WrittenIsSent();
    }

    lemma WrittenIsSent()
      requires Valid()
      ensures terminal == out.sent && pty == inp.sent
    {
    }
  }

  method Store(buf: array<int>, bytes: seq<int>)
    requires |bytes| <= buf.Length
    modifies buf
    ensures buf[0..|bytes|] == bytes
  {
    forall i | 0 <= i < |bytes| {
      buf[i] := bytes[i];
    }
  }

  lemma WritesNeedBytes(s: State, events: Mask)
    requires Inv(s)
    ensures Within(events, s.stdout) && events.w ==> s.out.unsent != []
    ensures Within(events, s.master) && events.w ==> s.inp.unsent != []
  {
  }

  lemma ReadingLeavesInput(s: State, read: ReadResult)
    ensures Readable(s, read).inp == s.inp
  {
  }
}
