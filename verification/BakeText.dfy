// The log file of code/bake as text: what write_log writes and what read_log makes of it.

module BakeText {
  import opened BakeModel
  import opened BakeLog

  // ---- Numbers ----

  function Digit(d: nat): char
    requires d < 16
  {
    "0123456789abcdef"[d]
  }

  function DigitValue(c: char): Option<nat> {
    if '0' <= c <= '9' then Some((c - '0') as nat)
    else if 'a' <= c <= 'f' then Some((c - 'a') as nat + 10)
    else None
  }

  function Print(n: nat, base: nat): string
    requires 2 <= base <= 16
    decreases n
  {
    (if n < base then [] else Print(n / base, base)) + [Digit(n % base)]
  }

  // The spellings that Print produces; int() of Python accepts more.
  function Parse(s: string, base: nat): Option<nat> {
    if s == [] then None
    else
      match (DigitValue(s[|s| - 1]), if |s| == 1 then Some(0) else Parse(s[..|s| - 1], base))
      case (Some(d), Some(n)) => if d < base then Some(n * base + d) else None
      case _ => None
  }

  function PrintInt(n: int): string {
    if n < 0 then "-" + Print(-n, 10) else Print(n, 10)
  }

  function ParseInt(s: string): Option<int> {
    var negative := s != [] && s[0] == '-';
    var n := Parse(if negative then s[1..] else s, 10);
    if n.None? then None
    else
      var v: int := n.value;
      Some(if negative then -v else v)
  }

  lemma DigitRoundTrip(d: nat)
    requires d < 16
    ensures DigitValue(Digit(d)) == Some(d) && !IsBreak(Digit(d)) && Digit(d) != '\t' && Digit(d) != '-'
  {
  }

  // One more digit at the end.
  lemma ParseStep(s: string, n: nat, d: nat, base: nat)
    requires d < base <= 16 && (if s == [] then n == 0 else Parse(s, base) == Some(n))
    ensures Parse(s + [Digit(d)], base) == Some(n * base + d)
  {
    var t := s + [Digit(d)];
    DigitRoundTrip(d);
    assert t[..|t| - 1] == s && t[|t| - 1] == Digit(d);
  }

  lemma {:induction false} PrintRoundTrip(n: nat, base: nat)
    requires 2 <= base <= 16
    ensures Print(n, base) != [] && Parse(Print(n, base), base) == Some(n)
    decreases n
  {
    hide Parse, Digit;
    if n < base {
      DivSmall(n, base);
      ParseStep([], 0, n, base);
      assert [] + [Digit(n)] == [Digit(n)];
    } else {
      DivLarge(n, base);
      PrintRoundTrip(n / base, base);
      ParseStep(Print(n / base, base), n / base, n % base, base);
    }
  }

  lemma DivLarge(n: nat, base: nat)
    requires 2 <= base <= n
    ensures 0 <= n / base < n && 0 <= n % base < base && (n / base) * base + n % base == n
  {
  }

  lemma DivSmall(n: nat, base: nat)
    requires n < base
    ensures n / base == 0 && n % base == n
  {
  }

  lemma {:induction false} PrintIsClean(n: nat, base: nat)
    requires 2 <= base <= 16
    ensures Clean(Print(n, base)) && '-' !in Print(n, base)
    decreases n
  {
    DigitRoundTrip(n % base);
    if n >= base { PrintIsClean(n / base, base); }
  }

  lemma PrintIntRoundTrip(n: int)
    ensures ParseInt(PrintInt(n)) == Some(n) && Clean(PrintInt(n))
  {
    hide Print, Parse;
    var digits := Print(if n < 0 then -n else n, 10);
    PrintRoundTrip(if n < 0 then -n else n, 10);
    PrintIsClean(if n < 0 then -n else n, 10);
    if n < 0 {
      assert PrintInt(n) == "-" + digits;
      assert PrintInt(n)[1..] == digits;
    } else {
      assert PrintInt(n) == digits && digits[0] in digits;
    }
  }

  // ---- Lines and fields ----

  // The line boundaries of str.splitlines.
  predicate IsBreak(c: char) {
    || c == '\n' || c == '\r' || c == '\U{0B}' || c == '\U{0C}' || c == '\U{1C}' || c == '\U{1D}' || c == '\U{1E}'
    || c == '\U{85}' || c == '\U{2028}' || c == '\U{2029}'
  }

  ghost predicate NoBreak(s: string) {
    forall c :: c in s ==> !IsBreak(c)
  }

  // Neither a line boundary nor a tab.
  ghost predicate Clean(s: string) {
    NoBreak(s) && '\t' !in s
  }

  function IndexWhere(s: string, stop: char -> bool): (i: nat)
    ensures i <= |s| && (forall k :: 0 <= k < i ==> !stop(s[k])) && (i < |s| ==> stop(s[i]))
  {
    if s == [] || stop(s[0]) then 0 else 1 + IndexWhere(s[1..], stop)
  }

  // str.splitlines
  function SplitLines(text: string): seq<string>
    decreases |text|
  {
    if text == [] then []
    else
      var i := IndexWhere(text, IsBreak);
      if i == |text| then [text]
      else
        var width := if text[i] == '\r' && i + 1 < |text| && text[i + 1] == '\n' then 2 else 1;
        [text[..i]] + SplitLines(text[i + width..])
  }

  // str.split('\t', n)
  function SplitTabs(line: string, n: nat): seq<string> {
    var i := IndexWhere(line, c => c == '\t');
    if n == 0 || i == |line| then [line] else [line[..i]] + SplitTabs(line[i + 1..], n - 1)
  }

  lemma FindAt(s: string, stop: char -> bool, i: nat)
    requires i < |s| && stop(s[i]) && forall k :: 0 <= k < i ==> !stop(s[k])
    ensures IndexWhere(s, stop) == i
  {
  }

  lemma FirstLine(line: string, rest: string)
    requires NoBreak(line)
    ensures SplitLines(line + "\n" + rest) == [line] + SplitLines(rest)
  {
    var text := line + "\n" + rest;
    forall k | 0 <= k < |line|
      ensures !IsBreak(text[k])
    {
      assert text[k] == line[k] && line[k] in line;
    }
    FindAt(text, IsBreak, |line|);
    assert text[..|line|] == line && text[|line| + 1..] == rest;
  }

  lemma FirstField(field: string, rest: string, n: nat)
    requires '\t' !in field && n > 0
    ensures SplitTabs(field + "\t" + rest, n) == [field] + SplitTabs(rest, n - 1)
  {
    var line := field + "\t" + rest;
    forall k | 0 <= k < |field|
      ensures line[k] != '\t'
    {
      assert line[k] == field[k] && field[k] in field;
    }
    FindAt(line, c => c == '\t', |field|);
    assert line[..|field|] == field && line[|field| + 1..] == rest;
  }

  lemma {:induction false} LinesHaveNoBreaks(text: string)
    ensures forall l :: l in SplitLines(text) ==> NoBreak(l)
    decreases |text|
  {
    if text != [] {
      var i := IndexWhere(text, IsBreak);
      if i < |text| {
        var width := if text[i] == '\r' && i + 1 < |text| && text[i + 1] == '\n' then 2 else 1;
        LinesHaveNoBreaks(text[i + width..]);
      }
    }
  }

  lemma {:induction false} FieldsComeFromLine(line: string, n: nat)
    ensures forall f :: f in SplitTabs(line, n) ==> forall c :: c in f ==> c in line
  {
    var i := IndexWhere(line, c => c == '\t');
    if n > 0 && i < |line| { FieldsComeFromLine(line[i + 1..], n - 1); }
  }

  // ---- The file ----

  const LOG_MAGIC := "# bake log v1"

  datatype ReadResult = Entries(entries: seq<Entry>) | Corrupted | Malformed

  function Line(e: Entry): string
    requires e.mtime.Some?
  {
    Print(e.start, 16) + "\t" + (e.digest + "\t" + (PrintInt(e.mtime.value - e.start) + "\t" + e.name))
  }

  function Body(entries: seq<Entry>): string
    requires forall e :: e in entries ==> e.mtime.Some?
  {
    if entries == [] then [] else Line(entries[0]) + "\n" + Body(entries[1..])
  }

  // write_log
  function WriteLog(entries: seq<Entry>): string {
    ExistingHaveMtimes(entries);
    LOG_MAGIC + "\n" + Body(Existing(entries))
  }

  function ParseLine(line: string): Option<Entry> {
    var fields := SplitTabs(line, 3);
    if |fields| != 4 then None
    else
      match (Parse(fields[0], 16), ParseInt(fields[2]))
      case (Some(start), Some(age)) => Some(Entry(start, fields[1], Some(start + age), fields[3]))
      case _ => None
  }

  function ParseLines(lines: seq<string>): ReadResult {
    if lines == [] then Entries([])
    else
      match (ParseLine(lines[0]), ParseLines(lines[1..]))
      case (Some(e), Entries(es)) => Entries([e] + es)
      case _ => Malformed
  }

  // read_log: Corrupted is the exit on a wrong first line, Malformed the exception on a line that does
  // not have four fields with numbers in the first and third.
  function ReadLog(text: string): ReadResult {
    if text == [] then Entries([])
    else
      var lines := SplitLines(text);
      if lines == [] || lines[0] != LOG_MAGIC then Corrupted else ParseLines(lines[1..])
  }

  lemma {:induction false} ExistingHaveMtimes(entries: seq<Entry>)
    ensures forall e :: e in Existing(entries) ==> e.mtime.Some? && e in entries
  {
    if entries != [] {
      ExistingHaveMtimes(entries[..|entries| - 1]);
      assert entries == entries[..|entries| - 1] + [entries[|entries| - 1]];
    }
  }

  lemma LastField(field: string)
    ensures SplitTabs(field, 0) == [field]
  {
  }

  lemma FourFields(a: string, b: string, c: string, d: string)
    requires '\t' !in a && '\t' !in b && '\t' !in c
    ensures SplitTabs(a + "\t" + (b + "\t" + (c + "\t" + d)), 3) == [a, b, c, d]
  {
    hide SplitTabs;
    var two := c + "\t" + d;
    var three := b + "\t" + two;
    FirstField(a, three, 3);
    FirstField(b, two, 2);
    FirstField(c, d, 1);
    LastField(d);
  }

  lemma JoinNoBreak(a: string, b: string)
    requires NoBreak(a) && NoBreak(b)
    ensures NoBreak(a + "\t" + b)
  {
  }

  lemma LineRoundTrip(e: Entry)
    requires e.mtime.Some? && Clean(e.digest)
    ensures ParseLine(Line(e)) == Some(e)
    ensures NoBreak(e.name) ==> NoBreak(Line(e))
  {
    hide SplitTabs, Print, PrintInt, Parse, ParseInt;
    var start, age := Print(e.start, 16), PrintInt(e.mtime.value - e.start);
    PrintRoundTrip(e.start, 16);
    PrintIsClean(e.start, 16);
    PrintIntRoundTrip(e.mtime.value - e.start);
    FourFields(start, e.digest, age, e.name);
    assert Line(e) == start + "\t" + (e.digest + "\t" + (age + "\t" + e.name));
    if NoBreak(e.name) {
      JoinNoBreak(age, e.name);
      JoinNoBreak(e.digest, age + "\t" + e.name);
      JoinNoBreak(start, e.digest + "\t" + (age + "\t" + e.name));
    }
  }

  lemma ParseFirst(line: string, rest: seq<string>)
    ensures ParseLines([line] + rest) ==
            match (ParseLine(line), ParseLines(rest)) case (Some(e), Entries(es)) => Entries([e] + es) case _ => Malformed
  {
    assert ([line] + rest)[1..] == rest;
  }

  lemma {:induction false} BodyRoundTrip(entries: seq<Entry>)
    requires forall e :: e in entries ==> e.mtime.Some? && Clean(e.digest) && NoBreak(e.name)
    ensures ParseLines(SplitLines(Body(entries))) == Entries(entries)
  {
    if entries != [] {
      hide ParseLine, Line, SplitLines;
      BodyRoundTrip(entries[1..]);
      LineRoundTrip(entries[0]);
      FirstLine(Line(entries[0]), Body(entries[1..]));
      ParseFirst(Line(entries[0]), SplitLines(Body(entries[1..])));
      assert entries == [entries[0]] + entries[1..];
    } else {
      assert SplitLines([]) == [];
    }
  }

  lemma ParsedName(line: string)
    requires NoBreak(line) && ParseLine(line).Some?
    ensures NoBreak(ParseLine(line).value.name)
  {
    FieldsComeFromLine(line, 3);
    assert SplitTabs(line, 3)[3] in SplitTabs(line, 3);
  }

  lemma {:induction false} NamesReadHaveNoBreaks(lines: seq<string>)
    requires forall l :: l in lines ==> NoBreak(l)
    ensures ParseLines(lines).Entries? ==> forall e :: e in ParseLines(lines).entries ==> NoBreak(e.name)
  {
    if lines != [] {
      NamesReadHaveNoBreaks(lines[1..]);
      if ParseLine(lines[0]).Some? { ParsedName(lines[0]); }
    }
  }

  lemma HeaderIsRead(body: string)
    ensures ReadLog(LOG_MAGIC + "\n" + body) == ParseLines(SplitLines(body))
  {
    assert NoBreak(LOG_MAGIC);
    FirstLine(LOG_MAGIC, body);
    var lines := SplitLines(LOG_MAGIC + "\n" + body);
    assert lines[1..] == SplitLines(body);
  }

  // The log read back is the log written, minus the entries without mtime, exactly when no name
  // contains a line boundary. Tabs in names do no harm.
  lemma LogRoundTrip(entries: seq<Entry>)
    requires forall e :: e in entries ==> Clean(e.digest)
    ensures ReadLog(WriteLog(entries)) == Entries(Existing(entries)) <==>
            forall e :: e in Existing(entries) ==> NoBreak(e.name)
  {
    var kept := Existing(entries);
    ExistingHaveMtimes(entries);
    HeaderIsRead(Body(kept));
    if forall e :: e in kept ==> NoBreak(e.name) {
      BodyRoundTrip(kept);
    }
    LinesHaveNoBreaks(Body(kept));
    NamesReadHaveNoBreaks(SplitLines(Body(kept)));
  }

  lemma {:induction false} AllExist(entries: seq<Entry>)
    requires forall e :: e in entries ==> e.mtime.Some?
    ensures Existing(entries) == entries
  {
    if entries != [] {
      AllExist(entries[..|entries| - 1]);
      assert entries == entries[..|entries| - 1] + [entries[|entries| - 1]];
    }
  }

  // The entries that a run leaves behind (see BakeLog.WrittenHolds) are the ones the next run starts
  // from, so the text in between changes nothing.
  lemma NextRunStartsFromSame(entries: seq<Entry>)
    requires EntriesOk(entries) && forall e :: e in entries ==> Clean(e.digest) && NoBreak(e.name)
    ensures ReadLog(WriteLog(entries)) == Entries(entries)
  {
    AllExist(entries);
    LogRoundTrip(entries);
  }

  // A log that is not empty is refused exactly if it does not begin with the header and the end of a line.
  lemma CorruptedIff(text: string)
    ensures ReadLog(text).Corrupted? <==>
      text != [] && !(LOG_MAGIC <= text && (|text| > |LOG_MAGIC| ==> IsBreak(text[|LOG_MAGIC|])))
  {
    hide IsBreak;
    var i := IndexWhere(text, IsBreak);
    if text != [] {
      assert SplitLines(text)[0] == text[..i];
      MagicHasNoBreak();
      if LOG_MAGIC <= text {
        assert forall k :: 0 <= k < |LOG_MAGIC| ==> text[k] == LOG_MAGIC[k] && LOG_MAGIC[k] in LOG_MAGIC;
      }
    }
    NeverCorrupted(SplitLines(text));
  }

  lemma MagicHasNoBreak()
    ensures NoBreak(LOG_MAGIC)
  {
  }

  lemma NeverCorrupted(lines: seq<string>)
    ensures lines != [] ==> !ParseLines(lines[1..]).Corrupted?
  {
  }

  // A log as it stands in the file: a time in hexadecimal, the age of the output in decimal and possibly
  // negative, the name last; an output that does not exist has no line.
  lemma LogAsText()
    ensures WriteLog([Entry(0xfa9, "d", Some(0xf97), "x\ty"), Entry(7, "e", None, "z")]) ==
      "# bake log v1\nfa9\td\t-18\tx\ty\n"
  {
    LineAsText();
    hide Line, Existing, Body;
    var a, b := Entry(0xfa9, "d", Some(0xf97), "x\ty"), Entry(7, "e", None, "z");
    FirstExists(a, b);
    BodyOfOne(a);
  }

  lemma FirstExists(a: Entry, b: Entry)
    requires a.mtime.Some? && b.mtime.None?
    ensures Existing([a, b]) == [a]
  {
    assert [a, b][..1] == [a] && [a][..0] == [];
    assert Existing([a]) == Existing([]) + [a];
  }

  lemma BodyOfOne(e: Entry)
    requires e.mtime.Some?
    ensures Body([e]) == Line(e) + "\n"
  {
    hide Line;
    assert [e][1..] == [] && Body([]) == [];
  }

  lemma LineAsText()
    ensures Line(Entry(0xfa9, "d", Some(0xf97), "x\ty")) == "fa9\td\t-18\tx\ty"
  {
    assert Print(0xfa9, 16) == "fa9";
    assert Print(18, 10) == "18";
  }
}
