// virtio_9p_readdir of code/fuse-9p.c: a stream of 9P directory entries becomes a stream of FUSE ones.

module DirStreams {
  import opened Words
  import opened WireFormat
  import opened WireMessages
  import NinePFids

  const NAME_OFFSET := 24
  const DIRENT := QID + [K64, K8, KText]

  // ---- The 9P side ----

  datatype Entry = Entry(qid: Qid, off: nat, kind: nat, name: seq<byte>)

  function EntryFields(e: Entry): seq<Field> {
    QidFields(e.qid) + [Num(K64, e.off), Num(K8, e.kind), Text(e.name)]
  }

  function Stream(es: seq<Entry>): seq<byte> {
    if es == [] then [] else Encode(EntryFields(es[0])) + Stream(es[1..])
  }

  predicate GoodEntry(e: Entry) {
    AllFit(EntryFields(e))
  }

  predicate GoodEntries(es: seq<Entry>) {
    forall e <- es :: GoodEntry(e)
  }

  function ReadEntry(v: View, offset: nat): Parse<Entry> {
    match ReadQid(v, offset)
    case Stopped => Stopped
    case Parsed(qid, at) =>
      match ReadNum(v, at, 8)
      case Stopped => Stopped
      case Parsed(off, at) =>
        match ReadNum(v, at, 1)
        case Stopped => Stopped
        case Parsed(kind, at) =>
          match ReadText(v, at)
          case Stopped => Stopped
          case Parsed(name, at) => Parsed(Entry(qid, off, kind, name), at)
  }

  // The message holds a count and then exactly these entries.
  predicate Holds(v: View, es: seq<Entry>) {
    v.size >= HEADER + 4 && GoodEntries(es) && Slice(v, 4, v.size - HEADER - 4) == Stream(es)
  }

  lemma ReadEntryIsSchema(v: View, offset: nat)
    ensures var r, fields := ReadEntry(v, offset), Read(v, offset, DIRENT);
      if r.Parsed? then fields == Parsed(EntryFields(r.value), r.next) else fields.Stopped?
  {
    hide Read, ReadQid;
    QidIsRead(v, offset);
    var tail := [K64] + ([K8] + [KText]);
    assert DIRENT == QID + tail;
    ReadSplit(v, offset, QID, tail);
    if ReadQid(v, offset).Parsed? {
      var at := ReadQid(v, offset).next;
      ReadSplit(v, at, [K64], [K8] + [KText]);
      ReadSingle(v, at, K64);
      ReadSplit(v, at + 8, [K8], [KText]);
      ReadSingle(v, at + 8, K8);
      ReadSingle(v, at + 9, KText);
    }
    if ReadEntry(v, offset).Parsed? {
      var e := ReadEntry(v, offset).value;
      assert EntryFields(e) == QidFields(e.qid) + ([Num(K64, e.off)] + ([Num(K8, e.kind)] + [Text(e.name)]));
    }
  }

  // An entry byte by byte: kind, version and path of the qid, offset, kind, and the name with its length.
  lemma EntryOnTheWire(e: Entry)
    ensures Encode(EntryFields(e)) ==
      (Bytes(e.qid.kind, 1) + (Bytes(e.qid.version, 4) + Bytes(e.qid.path, 8)))
      + (Bytes(e.off, 8) + (Bytes(e.kind, 1) + (Bytes(|e.name|, 2) + e.name)))
  {
    hide Encode, Bytes;
    EncodeAppend(QidFields(e.qid), [Num(K64, e.off), Num(K8, e.kind), Text(e.name)]);
    EncodeAppend([Num(K64, e.off)], [Num(K8, e.kind)] + [Text(e.name)]);
    assert [Num(K64, e.off)] + ([Num(K8, e.kind)] + [Text(e.name)]) == [Num(K64, e.off), Num(K8, e.kind), Text(e.name)];
    EncodeAppend([Num(K8, e.kind)], [Text(e.name)]);
    EncodeOne(Num(K64, e.off));
    EncodeOne(Num(K8, e.kind));
    EncodeOne(Text(e.name));
    var q := e.qid;
    EncodeAppend([Num(K8, q.kind)], [Num(K32, q.version)] + [Num(K64, q.path)]);
    assert [Num(K8, q.kind)] + ([Num(K32, q.version)] + [Num(K64, q.path)]) == QidFields(q);
    EncodeAppend([Num(K32, q.version)], [Num(K64, q.path)]);
    EncodeOne(Num(K8, q.kind));
    EncodeOne(Num(K32, q.version));
    EncodeOne(Num(K64, q.path));
  }

  lemma EntrySize(e: Entry)
    ensures |Encode(EntryFields(e))| == NAME_OFFSET + |e.name|
  {
    EntryOnTheWire(e);
    hide Encode;
  }

  lemma FieldsOfEntry(e: Entry)
    ensures Kinds(EntryFields(e)) == DIRENT
  {
    var f := EntryFields(e);
    assert f[1..][1..] == f[2..] && f[2..][1..] == f[3..] && f[3..][1..] == f[4..] && f[4..][1..] == f[5..];
    assert Kinds(f[5..]) == [KText] by { assert f[5..][1..] == []; }
    assert Kinds(f[4..]) == [K8, KText];
    assert Kinds(f[3..]) == [K64, K8, KText];
    assert Kinds(f[2..]) == [K64, K64, K8, KText];
    assert Kinds(f[1..]) == [K32, K64, K64, K8, KText];
  }

  lemma EntryIs(v: View, offset: nat)
    requires v.size <= LIMIT && ReadEntry(v, offset).Parsed?
    ensures var e, next := ReadEntry(v, offset).value, ReadEntry(v, offset).next;
      && GoodEntry(e) && next == offset + NAME_OFFSET + |e.name| && next <= v.size
      && Slice(v, offset, NAME_OFFSET + |e.name|) == Encode(EntryFields(e))
  {
    hide Read, ReadQid;
    ReadEntryIsSchema(v, offset);
    ReadIs(v, offset, DIRENT);
    EntrySize(ReadEntry(v, offset).value);
    assert ReadEntry(v, offset).next <= v.size by { TextEnds(v, offset); }
  }

  lemma TextEnds(v: View, offset: nat)
    requires v.size <= LIMIT && ReadEntry(v, offset).Parsed?
    ensures ReadEntry(v, offset).next <= v.size
  {
    hide ReadQid, ReadNum, ReadText;
    var qid := ReadQid(v, offset);
    TextEnd(v, ReadNum(v, ReadNum(v, qid.next, 8).next, 1).next);
  }

  lemma TextEnd(v: View, offset: nat)
    requires v.size <= LIMIT && ReadText(v, offset).Parsed?
    ensures ReadText(v, offset).next <= v.size
  {
    hide Number;
  }

  lemma EntryBack(v: View, offset: nat, e: Entry)
    requires v.size <= LIMIT && GoodEntry(e) && offset + NAME_OFFSET + |e.name| <= v.size
    requires Slice(v, offset, NAME_OFFSET + |e.name|) == Encode(EntryFields(e))
    ensures ReadEntry(v, offset) == Parsed(e, offset + NAME_OFFSET + |e.name|)
  {
    hide Read, ReadQid;
    EntrySize(e);
    FieldsOfEntry(e);
    ReadBack(v, offset, EntryFields(e));
    ReadEntryIsSchema(v, offset);
    assert ReadEntry(v, offset).Parsed?;
    var f := ReadEntry(v, offset).value;
    assert EntryFields(f) == EntryFields(e);
    assert EntryFields(f)[0] == EntryFields(e)[0] && EntryFields(f)[1] == EntryFields(e)[1];
    assert EntryFields(f)[2] == EntryFields(e)[2] && EntryFields(f)[3] == EntryFields(e)[3];
    assert EntryFields(f)[4] == EntryFields(e)[4] && EntryFields(f)[5] == EntryFields(e)[5];
  }

  // ---- The FUSE side ----

  // FUSE_DIRENT_ALIGN
  function Aligned(n: nat): (r: nat)
    ensures n <= r < n + 8 && r % 8 == 0
  {
    (n + 7) / 8 * 8
  }

  function RecordSize(e: Entry): nat {
    Aligned(NAME_OFFSET + |e.name|)
  }

  function Zeros(n: nat): (r: seq<byte>)
    ensures |r| == n
  {
    seq<byte>(n, _ => 0)
  }

  function Header(root: nat, e: Entry): (r: seq<byte>)
    ensures |r| == NAME_OFFSET
  {
    Bytes(NinePFids.Fix(root, e.qid.path), 8) + Bytes(e.off, 8) + Bytes(|e.name|, 4) + Bytes(e.kind, 4)
  }

  function Record(root: nat, e: Entry): (r: seq<byte>)
    ensures |r| == RecordSize(e)
  {
    Header(root, e) + e.name + Zeros(RecordSize(e) - NAME_OFFSET - |e.name|)
  }

  lemma {:induction false} ZeroBytes(width: nat)
    ensures Bytes(0, width) == Zeros(width)
  {
    if width > 0 { ZeroBytes(width - 1); }
  }

  lemma SmallBytes(value: nat, width: nat)
    requires value < 0x100 && width > 0
    ensures Bytes(value, width) == [value] + Zeros(width - 1)
  {
    ZeroBytes(width - 1);
  }

  // A record as it stands in memory: inode, offset, length of the name, kind, name, padding.
  lemma RecordAsBytes(name: seq<byte>)
    requires |name| == 3
    ensures Record(0x1234, Entry(Qid(0, 0, 0x1234), 9, 4, name)) ==
      ([1] + Zeros(7)) + ([9] + Zeros(7)) + ([3] + Zeros(3)) + ([4] + Zeros(3)) + name + Zeros(5)
  {
    SmallBytes(1, 8);
    SmallBytes(9, 8);
    SmallBytes(3, 4);
    SmallBytes(4, 4);
    hide Bytes, Zeros;
  }

  function Records(root: nat, es: seq<Entry>): seq<byte> {
    if es == [] then [] else Record(root, es[0]) + Records(root, es[1..])
  }

  function Total(es: seq<Entry>): nat {
    if es == [] then 0 else RecordSize(es[0]) + Total(es[1..])
  }

  // The reader's side of the format: a header, a name, and the next record at the next multiple of eight.
  datatype Seen = Seen(ino: nat, off: nat, kind: nat, name: seq<byte>)

  function ParseRecords(b: seq<byte>): seq<Seen> {
    if |b| < NAME_OFFSET then []
    else
      var len := Number(b[16..20]);
      if Aligned(NAME_OFFSET + len) > |b| then []
      else
        [Seen(Number(b[..8]), Number(b[8..16]), Number(b[20..24]), b[NAME_OFFSET..NAME_OFFSET + len])]
        + ParseRecords(b[Aligned(NAME_OFFSET + len)..])
  }

  // What a reader should see of an entry.
  function Mapped(root: nat, e: Entry): Seen {
    Seen(NinePFids.Fix(root, e.qid.path), e.off, e.kind, e.name)
  }

  function AllMapped(root: nat, es: seq<Entry>): seq<Seen> {
    if es == [] then [] else [Mapped(root, es[0])] + AllMapped(root, es[1..])
  }

  lemma HeaderParts(root: nat, e: Entry)
    requires GoodEntry(e) && root < U32 * U32
    ensures var h := Header(root, e);
      && Number(h[..8]) == NinePFids.Fix(root, e.qid.path) && Number(h[8..16]) == e.off
      && Number(h[16..20]) == |e.name| && Number(h[20..24]) == e.kind
  {
    Spans();
    var f, h := EntryFields(e), Header(root, e);
    assert Fits(f[2]) && Fits(f[3]) && Fits(f[4]) && Fits(f[5]);
    assert h[..8] == Bytes(NinePFids.Fix(root, e.qid.path), 8) && h[8..16] == Bytes(e.off, 8);
    assert h[16..20] == Bytes(|e.name|, 4) && h[20..24] == Bytes(e.kind, 4);
    NumberOfBytes(NinePFids.Fix(root, e.qid.path), 8);
    NumberOfBytes(e.off, 8);
    NumberOfBytes(|e.name|, 4);
    NumberOfBytes(e.kind, 4);
  }

  lemma RecordParts(root: nat, e: Entry, more: seq<byte>)
    ensures var b, h := Record(root, e) + more, Header(root, e);
      && b[..8] == h[..8] && b[8..16] == h[8..16] && b[16..20] == h[16..20] && b[20..24] == h[20..24]
      && b[NAME_OFFSET..NAME_OFFSET + |e.name|] == e.name && b[RecordSize(e)..] == more
  {
  }

  // Parsing the written records gives exactly the entries, in order, with fixed inodes.
  lemma {:induction false} RecordsParseBack(root: nat, es: seq<Entry>)
    requires GoodEntries(es) && root < U32 * U32
    ensures ParseRecords(Records(root, es)) == AllMapped(root, es)
    decreases |es|
  {
    if es != [] {
      hide Header, Record;
      HeaderParts(root, es[0]);
      RecordParts(root, es[0], Records(root, es[1..]));
      RecordsParseBack(root, es[1..]);
    }
  }

  lemma {:induction false} RecordsAreAligned(root: nat, es: seq<Entry>)
    ensures |Records(root, es)| == Total(es) && Total(es) % 8 == 0
    decreases |es|
  {
    if es != [] {
      hide Record, Aligned;
      RecordsAreAligned(root, es[1..]);
      MultiplesAdd(RecordSize(es[0]), Total(es[1..]));
    }
  }

  lemma MultiplesAdd(a: nat, b: nat)
    requires a % 8 == 0 && b % 8 == 0
    ensures (a + b) % 8 == 0
  {
  }

  // ---- The translation ----

  datatype Outcome = Wrote(bytes: seq<byte>) | AssertionFailed

  function Finish(v: View, offset: nat, out: seq<byte>): Outcome {
    if offset + HEADER == v.size then Wrote(out) else AssertionFailed
  }

  // The loop: every record is compared with the whole size, and a record that is too large ends the
  // loop after its entry has been decoded.
  function Loop(v: View, root: nat, size: nat, offset: nat, out: seq<byte>): Outcome
    requires v.size <= LIMIT
    decreases v.size - offset
  {
    if offset + HEADER < v.size then
      match ReadEntry(v, offset)
      case Stopped => AssertionFailed
      case Parsed(e, next) =>
        EntryIs(v, offset);
        if size < RecordSize(e) then Finish(v, next, out)
        else Loop(v, root, size, next, out + Record(root, e))
    else Finish(v, offset, out)
  }

  function Translate(v: View, root: nat, size: nat): Outcome
    requires v.size <= LIMIT
  {
    match ReadNum(v, 0, 4)
    case Stopped => AssertionFailed
    case Parsed(_, next) => Loop(v, root, size, next, [])
  }

  // The bytes that the loop has written to buf when it ends, whether an assertion fails then or not.
  function LoopBytes(v: View, root: nat, size: nat, offset: nat, out: seq<byte>): seq<byte>
    requires v.size <= LIMIT
    decreases v.size - offset
  {
    if offset + HEADER < v.size then
      match ReadEntry(v, offset)
      case Stopped => out
      case Parsed(e, next) =>
        EntryIs(v, offset);
        if size < RecordSize(e) then out
        else LoopBytes(v, root, size, next, out + Record(root, e))
    else out
  }

  function BytesWritten(v: View, root: nat, size: nat): seq<byte>
    requires v.size <= LIMIT
  {
    match ReadNum(v, 0, 4)
    case Stopped => []
    case Parsed(_, next) => LoopBytes(v, root, size, next, [])
  }

  // The entries before the first whose record alone exceeds size.
  function Small(size: nat, es: seq<Entry>): (k: nat)
    ensures k <= |es|
    ensures k < |es| ==> RecordSize(es[k]) > size
    ensures forall i :: 0 <= i < k ==> RecordSize(es[i]) <= size
  {
    if es == [] || RecordSize(es[0]) > size then 0 else 1 + Small(size, es[1..])
  }

  lemma LoopStep(v: View, root: nat, size: nat, offset: nat, out: seq<byte>, es: seq<Entry>)
    requires v.size <= LIMIT && offset + HEADER <= v.size && GoodEntries(es) && es != []
    requires Slice(v, offset, v.size - HEADER - offset) == Stream(es)
    ensures var next := offset + NAME_OFFSET + |es[0].name|;
      && next + HEADER <= v.size && GoodEntries(es[1..]) && Slice(v, next, v.size - HEADER - next) == Stream(es[1..])
      && Loop(v, root, size, offset, out) ==
           if size < RecordSize(es[0]) then (if |es| == 1 then Wrote(out) else AssertionFailed)
           else Loop(v, root, size, next, out + Record(root, es[0]))
  {
    hide ReadEntry, GoodEntry, EntryFields, Record, Read;
    EntrySize(es[0]);
    SliceParts(v, offset, Encode(EntryFields(es[0])), Stream(es[1..]));
    EntryBack(v, offset, es[0]);
    StreamIsEmpty(es[1..]);
  }

  // The records up to the first that is too large; a rest of two entries or more trips the assertion.
  function Expected(root: nat, size: nat, out: seq<byte>, es: seq<Entry>): Outcome {
    var k := Small(size, es);
    if k + 1 < |es| then AssertionFailed else Wrote(out + Records(root, es[..k]))
  }

  lemma ExpectedNone(root: nat, size: nat, out: seq<byte>)
    ensures Expected(root, size, out, []) == Wrote(out)
  {
    assert out + Records(root, []) == out;
  }

  lemma ExpectedStep(root: nat, size: nat, out: seq<byte>, es: seq<Entry>)
    requires es != []
    ensures Expected(root, size, out, es) ==
      if size < RecordSize(es[0]) then (if |es| == 1 then Wrote(out) else AssertionFailed)
      else Expected(root, size, out + Record(root, es[0]), es[1..])
  {
    hide Record, RecordSize;
    var k := Small(size, es);
    if k == 0 {
      assert out + Records(root, es[..0]) == out;
    } else {
      SmallOfRest(es, size);
      var head := es[..k];
      assert head != [] && head[0] == es[0] && head[1..] == es[1..][..k - 1];
      assert Records(root, head) == Record(root, es[0]) + Records(root, es[1..][..k - 1]);
      assert out + Record(root, es[0]) + Records(root, es[1..][..k - 1]) == out + Records(root, head);
    }
  }

  lemma {:induction false} LoopIs(v: View, root: nat, size: nat, offset: nat, out: seq<byte>, es: seq<Entry>)
    requires v.size <= LIMIT && offset + HEADER <= v.size && GoodEntries(es)
    requires Slice(v, offset, v.size - HEADER - offset) == Stream(es)
    ensures Loop(v, root, size, offset, out) == Expected(root, size, out, es)
    decreases |es|
  {
    if es == [] {
      assert |Stream(es)| == 0;
      ExpectedNone(root, size, out);
    } else {
      hide Loop, Slice, GoodEntries, Record, RecordSize, Expected, Stream;
      LoopStep(v, root, size, offset, out, es);
      ExpectedStep(root, size, out, es);
      if RecordSize(es[0]) <= size {
        LoopIs(v, root, size, offset + NAME_OFFSET + |es[0].name|, out + Record(root, es[0]), es[1..]);
      }
    }
  }

  lemma StreamIsEmpty(es: seq<Entry>)
    ensures |Stream(es)| == 0 <==> es == []
  {
    if es != [] {
      EntrySize(es[0]);
    }
  }

  lemma LoopBytesStep(v: View, root: nat, size: nat, offset: nat, out: seq<byte>, es: seq<Entry>)
    requires v.size <= LIMIT && offset + HEADER <= v.size && GoodEntries(es) && es != []
    requires Slice(v, offset, v.size - HEADER - offset) == Stream(es)
    ensures LoopBytes(v, root, size, offset, out) ==
      if size < RecordSize(es[0]) then out
      else LoopBytes(v, root, size, offset + NAME_OFFSET + |es[0].name|, out + Record(root, es[0]))
  {
    hide ReadEntry, GoodEntry, EntryFields, Record, Read;
    EntrySize(es[0]);
    SliceParts(v, offset, Encode(EntryFields(es[0])), Stream(es[1..]));
    EntryBack(v, offset, es[0]);
  }

  lemma {:induction false} LoopBytesAre(v: View, root: nat, size: nat, offset: nat, out: seq<byte>, es: seq<Entry>)
    requires v.size <= LIMIT && offset + HEADER <= v.size && GoodEntries(es)
    requires Slice(v, offset, v.size - HEADER - offset) == Stream(es)
    ensures LoopBytes(v, root, size, offset, out) == out + Records(root, es[..Small(size, es)])
    decreases |es|
  {
    hide Slice, GoodEntries, Record, RecordSize, Stream, ReadEntry;
    var k := Small(size, es);
    if es == [] {
      NoStream(v, offset);
      assert out + Records(root, es[..0]) == out;
    } else {
      LoopStep(v, root, size, offset, out, es);
      LoopBytesStep(v, root, size, offset, out, es);
      hide LoopBytes;
      if size < RecordSize(es[0]) {
        assert k == 0 && out + Records(root, es[..0]) == out;
      } else {
        LoopBytesAre(v, root, size, offset + NAME_OFFSET + |es[0].name|, out + Record(root, es[0]), es[1..]);
        RecordsStep(root, size, es);
        assert out + Record(root, es[0]) + Records(root, es[1..][..k - 1])
            == out + (Record(root, es[0]) + Records(root, es[1..][..k - 1]));
      }
    }
  }

  lemma NoStream(v: View, offset: nat)
    requires offset + HEADER <= v.size && Slice(v, offset, v.size - HEADER - offset) == Stream([])
    ensures offset + HEADER == v.size
  {
  }

  lemma RecordsStep(root: nat, size: nat, es: seq<Entry>)
    requires es != [] && RecordSize(es[0]) <= size
    ensures var k := Small(size, es);
      && k > 0 && k - 1 == Small(size, es[1..])
      && Records(root, es[..k]) == Record(root, es[0]) + Records(root, es[1..][..k - 1])
  {
    hide Record, RecordSize;
    SmallOfRest(es, size);
    var head := es[..Small(size, es)];
    assert head[0] == es[0] && head[1..] == es[1..][..Small(size, es) - 1];
  }

  // What the translation of a well-formed message comes to, for every size: all records when each alone
  // fits (even when together they do not), all but the last when only the last is too large, and a failed
  // assertion when an earlier one is.
  lemma TranslateIs(v: View, root: nat, size: nat, es: seq<Entry>)
    requires v.size <= LIMIT && Holds(v, es)
    ensures var k := Small(size, es);
      Translate(v, root, size) == if k + 1 < |es| then AssertionFailed else Wrote(Records(root, es[..k]))
  {
    LoopIs(v, root, size, 4, [], es);
    assert [] + Records(root, es[..Small(size, es)]) == Records(root, es[..Small(size, es)]);
  }

  lemma {:induction false} PartsFit(es: seq<Entry>, size: nat)
    requires Total(es) <= size
    ensures Small(size, es) == |es|
    decreases |es|
  {
    if es != [] {
      PartsFit(es[1..], size);
      SmallOfRest(es, size);
    }
  }

  lemma SmallOfRest(es: seq<Entry>, size: nat)
    requires es != [] && RecordSize(es[0]) <= size
    ensures Small(size, es) == 1 + Small(size, es[1..])
  {
  }

  // Meaning is preserved within the buffer exactly when the whole translated stream fits.
  lemma DeliveredIffAllFits(v: View, root: nat, size: nat, es: seq<Entry>)
    requires v.size <= LIMIT && Holds(v, es) && root < U32 * U32
    ensures var r := Translate(v, root, size);
      r.Wrote? && |r.bytes| <= size && ParseRecords(r.bytes) == AllMapped(root, es) <==> Total(es) <= size
    ensures Total(es) <= size ==>
      var r := Translate(v, root, size); r == Wrote(Records(root, es)) && |r.bytes| == Total(es)
  {
    TranslateIs(v, root, size, es);
    var k := Small(size, es);
    assert es[..|es|] == es;
    RecordsAreAligned(root, es);
    RecordsParseBack(root, es);
    if Total(es) <= size {
      PartsFit(es, size);
    } else if k < |es| {
      forall e | e in es[..k] ensures e in es && GoodEntry(e) {
      }
      RecordsParseBack(root, es[..k]);
      MappedLength(root, es[..k]);
      MappedLength(root, es);
    }
  }

  lemma {:induction false} MappedLength(root: nat, es: seq<Entry>)
    ensures |AllMapped(root, es)| == |es|
  {
    if es != [] {
      MappedLength(root, es[1..]);
    }
  }

  // ---- Where the loop writes ----

  // The exact condition for staying inside the caller's buffer, on every path: the records before the first
  // that is too large by itself must fit together.
  lemma StaysInsideIff(v: View, root: nat, size: nat, es: seq<Entry>)
    requires v.size <= LIMIT && Holds(v, es)
    ensures |BytesWritten(v, root, size)| == Total(es[..Small(size, es)])
    ensures |BytesWritten(v, root, size)| <= size <==> Total(es[..Small(size, es)]) <= size
  {
    LoopBytesAre(v, root, size, 4, [], es);
    assert [] + Records(root, es[..Small(size, es)]) == Records(root, es[..Small(size, es)]);
    RecordsAreAligned(root, es[..Small(size, es)]);
  }

  // An entry takes as many bytes in the answer as in its record, up to the padding.
  lemma {:induction false} PaddingOnly(es: seq<Entry>)
    ensures |Stream(es)| <= Total(es)
    ensures Total(es) == |Stream(es)| <==> forall e <- es :: |e.name| % 8 == 0
    decreases |es|
  {
    if es != [] {
      hide EntryFields;
      EntrySize(es[0]);
      AlignedIsSame(|es[0].name|);
      PaddingOnly(es[1..]);
      assert es == [es[0]] + es[1..];
    }
  }

  lemma AlignedIsSame(len: nat)
    ensures Aligned(NAME_OFFSET + len) == NAME_OFFSET + len <==> len % 8 == 0
  {
  }

  lemma {:induction false} EachInTotal(es: seq<Entry>, size: nat)
    requires forall e <- es :: RecordSize(e) <= size
    ensures Small(size, es) == |es|
    decreases |es|
  {
    if es != [] {
      EachInTotal(es[1..], size);
      SmallOfRest(es, size);
    }
  }

  // An answer as long as the buffer (the request asks for 4096 bytes, and a kernel offers pages of 4096):
  // unless a single record is too large, everything stays inside exactly if no name needs padding.
  lemma FullAnswerFitsIff(v: View, root: nat, size: nat, es: seq<Entry>)
    requires v.size <= LIMIT && Holds(v, es) && |Stream(es)| == size
    requires forall e <- es :: RecordSize(e) <= size
    ensures |BytesWritten(v, root, size)| <= size <==> forall e <- es :: |e.name| % 8 == 0
  {
    StaysInsideIff(v, root, size, es);
    EachInTotal(es, size);
    assert es[..|es|] == es;
    PaddingOnly(es);
  }

  // For instance 162 names of one byte and one of 22 fill 4096 bytes, and 5232 are written.
  lemma FullPageOverruns(v: View, root: nat, one: Entry, last: Entry)
    requires v.size <= LIMIT && Holds(v, Repeated(one, 162) + [last])
    requires |one.name| == 1 && |last.name| == 22
    ensures v.size == HEADER + 4 + 4096 && |BytesWritten(v, root, 4096)| == 5232
  {
    var es := Repeated(one, 162) + [last];
    RepeatedSizes(one, 162, last);
    StaysInsideIff(v, root, 4096, es);
    EachInTotal(es, 4096);
    assert es[..|es|] == es;
  }

  function Repeated(e: Entry, n: nat): (es: seq<Entry>)
    ensures |es| == n && forall x <- es :: x == e
  {
    if n == 0 then [] else [e] + Repeated(e, n - 1)
  }

  lemma {:induction false} RepeatedSizes(one: Entry, n: nat, last: Entry)
    requires |one.name| == 1 && |last.name| == 22
    ensures |Stream(Repeated(one, n) + [last])| == 25 * n + 46
    ensures Total(Repeated(one, n) + [last]) == 32 * n + 48
    decreases n
  {
    hide EntryFields;
    var es := Repeated(one, n) + [last];
    if n == 0 {
      assert es == [last] && es[1..] == [];
      EntrySize(last);
    } else {
      EntrySize(one);
      RepeatedSizes(one, n - 1, last);
      assert es[0] == one && es[1..] == Repeated(one, n - 1) + [last];
    }
  }
}

// The loop itself, over the message and the caller's buffer.
module DirTranslator {
  import opened WireFormat
  import opened WireMessages
  import opened DirStreams
  import NinePFids

  // s with bytes written over it from at on.
  function Patch(s: seq<byte>, at: nat, bytes: seq<byte>): (r: seq<byte>)
    requires at + |bytes| <= |s|
    ensures |r| == |s|
  {
    s[..at] + bytes + s[at + |bytes|..]
  }

  lemma PatchTwice(s: seq<byte>, at: nat, a: seq<byte>, b: seq<byte>)
    requires at + |a| + |b| <= |s|
    ensures Patch(Patch(s, at, a), at + |a|, b) == Patch(s, at, a + b)
  {
  }

  lemma PatchParts(s: seq<byte>, at: nat, bytes: seq<byte>)
    requires at + |bytes| <= |s|
    ensures Patch(s, at, bytes)[..at + |bytes|] == s[..at] + bytes
    ensures Patch(s, at, bytes)[at + |bytes|..] == s[at + |bytes|..]
  {
  }

  method Put(buf: array<byte>, at: nat, bytes: seq<byte>)
    requires at + |bytes| <= buf.Length
    modifies buf
    ensures buf[..] == Patch(old(buf[..]), at, bytes)
  {
    forall i | 0 <= i < |bytes| {
      buf[at + i] := bytes[i];
    }
  }

  // The four decoder calls at the head of the loop.
  method NextEntry(msg: Message, offset: nat) returns (r: Parse<Entry>)
    requires msg.Valid() && msg.size <= LIMIT
    ensures r == ReadEntry(msg.Seen(), offset)
  {
    var qid := msg.DecodeQid(offset);
    if qid.Stopped? {
      return Stopped;
    }
    var off := msg.DecodeNumber(qid.next, 8);
    if off.Stopped? {
      return Stopped;
    }
    var kind := msg.DecodeNumber(off.next, 1);
    if kind.Stopped? {
      return Stopped;
    }
    var name := msg.DecodeString(kind.next);
    if name.Stopped? {
      return Stopped;
    }
    return Parsed(Entry(qid.value, off.value, kind.value, name.value), name.next);
  }

  // One struct fuse_dirent, its name, and zeros up to the next multiple of eight.
  method PutRecord(buf: array<byte>, at: nat, root: nat, e: Entry)
    requires at + RecordSize(e) <= buf.Length
    modifies buf
    ensures buf[..] == Patch(old(buf[..]), at, Record(root, e))
  {
    hide Patch, Aligned, Bytes, Zeros, NinePFids.Fix;
    ghost var s := buf[..];
    var ino, off := Bytes(NinePFids.Fix(root, e.qid.path), 8), Bytes(e.off, 8);
    var namelen, kind := Bytes(|e.name|, 4), Bytes(e.kind, 4);
    var pad := Zeros(RecordSize(e) - NAME_OFFSET - |e.name|);
    Put(buf, at, ino);
    Put(buf, at + 8, off);
    PatchTwice(s, at, ino, off);
    Put(buf, at + 16, namelen);
    PatchTwice(s, at, ino + off, namelen);
    Put(buf, at + 20, kind);
    PatchTwice(s, at, ino + off + namelen, kind);
    Put(buf, at + NAME_OFFSET, e.name);
    PatchTwice(s, at, Header(root, e), e.name);
    Put(buf, at + NAME_OFFSET + |e.name|, pad);
    PatchTwice(s, at, Header(root, e) + e.name, pad);
  }

  // virtio_9p_readdir, from the answer on. Memory goes on after the size bytes that the caller has
  // allocated at buf: the loop writes there, also before a failing assertion, exactly when BytesWritten is
  // longer than size. `end` is where the written bytes end.
  method Readdir(msg: Message, root: nat, size: nat, buf: array<byte>) returns (r: int, ghost end: nat)
    requires msg.Valid() && msg.size <= LIMIT && msg.data != buf
    requires buf.Length >= size && buf.Length >= 2 * LIMIT
    modifies buf
    ensures r < 0 <==> Translate(msg.Seen(), root, size).AssertionFailed?
    ensures end <= buf.Length && buf[..end] == BytesWritten(msg.Seen(), root, size) && buf[end..] == old(buf[end..])
    ensures r >= 0 ==> r == end && Translate(msg.Seen(), root, size) == Wrote(buf[..r])
  {
    hide Record, Patch, ReadEntry, Read;
    var count := msg.DecodeNumber(0, 4);
    if count.Stopped? {
      return -1, 0;
    }
    var offset, p := count.next, 0;
    ghost var v, before := msg.Seen(), buf[..];
    while offset + HEADER < msg.size
      modifies buf
      invariant 0 <= p <= 2 * offset && offset <= v.size
      invariant Translate(v, root, size) == Loop(v, root, size, offset, buf[..p])
      invariant BytesWritten(v, root, size) == LoopBytes(v, root, size, offset, buf[..p])
      invariant buf[p..] == before[p..]
      decreases v.size - offset
    {
      var entry := NextEntry(msg, offset);
      if entry.Stopped? {
        return -1, p;
      }
      EntryIs(v, offset);
      var e := entry.value;
      offset := entry.next;
      if size < RecordSize(e) {
        break;
      }
      ghost var s := buf[..];
      PutRecord(buf, p, root, e);
      PatchParts(s, p, Record(root, e));
      Shorter(s, before, p, p + RecordSize(e));
      p := p + RecordSize(e);
    }
    if offset + HEADER != msg.size {
      return -1, p;
    }
    return p, p;
  }

  lemma Shorter(a: seq<byte>, b: seq<byte>, p: nat, q: nat)
    requires p <= q <= |a| == |b| && a[p..] == b[p..]
    ensures a[q..] == b[q..]
  {
    assert a[q..] == a[p..][q - p..] && b[q..] == b[p..][q - p..];
  }
}
