// The wire format of code/fuse-9p.c: little-endian fields, encoded in place and decoded by position.

module WireFormat {
  import opened Words

  const HEADER := 7
  const MSIZE := 8196
  const LIMIT := HEADER + MSIZE

  type byte = x: int | 0 <= x < 0x100

  // ---- Numbers ----

  function Span(width: nat): (r: nat)
    ensures r > 0
  {
    if width == 0 then 1 else 0x100 * Span(width - 1)
  }

  function Bytes(value: nat, width: nat): (r: seq<byte>)
    ensures |r| == width
  {
    if width == 0 then [] else [value % 0x100] + Bytes(value / 0x100, width - 1)
  }

  function Number(bytes: seq<byte>): nat {
    if bytes == [] then 0 else bytes[0] + 0x100 * Number(bytes[1..])
  }

  lemma {:induction false} NumberOfBytes(value: nat, width: nat)
    requires value < Span(width)
    ensures Number(Bytes(value, width)) == value
  {
    if width > 0 {
      NumberOfBytes(value / 0x100, width - 1);
      assert Bytes(value, width)[1..] == Bytes(value / 0x100, width - 1);
    }
  }

  lemma {:induction false} BytesOfNumber(bytes: seq<byte>)
    ensures Number(bytes) < Span(|bytes|)
    ensures Bytes(Number(bytes), |bytes|) == bytes
  {
    if bytes != [] {
      BytesOfNumber(bytes[1..]);
      assert Number(bytes) / 0x100 == Number(bytes[1..]) && Number(bytes) % 0x100 == bytes[0];
      assert bytes == [bytes[0]] + bytes[1..];
    }
  }

  lemma Spans()
    ensures Span(1) == 0x100 && Span(2) == U16 && Span(4) == U32 && Span(8) == U32 * U32
  {
    assert Span(4) == 0x100 * 0x100 * Span(2);
    assert Span(8) == 0x100 * 0x100 * 0x100 * 0x100 * Span(4);
  }

  // Little-endian: byte i is the digit of weight 256^i.
  lemma {:induction false} LittleEndian(value: nat, width: nat, i: nat)
    requires i < width
    ensures Bytes(value, width)[i] == value / Span(i) % 0x100
  {
    if i > 0 {
      LittleEndian(value / 0x100, width - 1, i - 1);
      assert Bytes(value, width)[i] == Bytes(value / 0x100, width - 1)[i - 1];
      DivTwice(value, Span(i - 1));
    }
  }

  lemma DivTwice(value: nat, n: nat)
    requires n > 0
    ensures value / 0x100 / n == value / (0x100 * n)
  {
    var q := value / 0x100 / n;
    var r := value / 0x100 % n * 0x100 + value % 0x100;
    assert value == 0x100 * n * q + r && 0 <= r < 0x100 * n;
    QuotientIs(value, 0x100 * n, q, r);
  }

  lemma QuotientIs(value: nat, d: nat, q: nat, r: nat)
    requires d > 0 && value == d * q + r && r < d
    ensures value / d == q
  {
    assert d * (value / d - q) == r - value % d;
    Multiple(d, value / d - q);
  }

  lemma Multiple(d: nat, n: int)
    ensures (n >= 1 ==> d * n >= d) && (n <= -1 ==> d * n + d <= 0)
  {
  }

  // ---- Fields ----

  datatype Kind = K8 | K16 | K32 | K64 | KText

  datatype Field = Num(kind: Kind, value: nat) | Text(text: seq<byte>)

  function Width(k: Kind): nat {
    match k
    case K8 => 1
    case K16 => 2
    case K32 => 4
    case K64 => 8
    case KText => 2
  }

  function KindOf(f: Field): Kind {
    if f.Num? then f.kind else KText
  }

  predicate Fits(f: Field) {
    match f
    case Num(k, value) => k != KText && value < Span(Width(k))
    case Text(text) => |text| < U16
  }

  predicate AllFit(fields: seq<Field>) {
    forall f <- fields :: Fits(f)
  }

  function EncodeField(f: Field): seq<byte> {
    match f
    case Num(k, value) => Bytes(value, Width(k))
    case Text(text) => Bytes(|text|, 2) + text
  }

  function Encode(fields: seq<Field>): seq<byte> {
    if fields == [] then [] else EncodeField(fields[0]) + Encode(fields[1..])
  }

  function Kinds(fields: seq<Field>): (kinds: seq<Kind>)
    ensures |kinds| == |fields|
  {
    if fields == [] then [] else [KindOf(fields[0])] + Kinds(fields[1..])
  }

  lemma Joined(a: seq<byte>, b: seq<byte>, c: seq<byte>)
    ensures (a + b) + c == a + (b + c)
  {
  }

  lemma {:induction false} EncodeAppend(fields: seq<Field>, more: seq<Field>)
    ensures Encode(fields + more) == Encode(fields) + Encode(more)
  {
    hide EncodeField;
    if fields == [] {
      assert fields + more == more;
    } else {
      var all := fields + more;
      assert all[0] == fields[0] && all[1..] == fields[1..] + more;
      EncodeAppend(fields[1..], more);
      Joined(EncodeField(fields[0]), Encode(fields[1..]), Encode(more));
    }
  }

  lemma EncodeOne(f: Field)
    ensures Encode([f]) == EncodeField(f)
  {
    assert [f][1..] == [];
  }

  // ---- Decoding ----

  // A received message: the size in its header, and memory from its data on. Memory goes on after the
  // message, so reading too far yields bytes that are not the sender's.
  datatype View = View(size: nat, mem: nat -> byte)

  function Slice(v: View, at: nat, n: nat): (r: seq<byte>)
    ensures |r| == n
  {
    seq<byte>(n, i requires 0 <= i < n => v.mem(at + i))
  }

  function Payload(v: View): seq<byte> {
    Slice(v, 0, if v.size < HEADER then 0 else v.size - HEADER)
  }

  datatype Parse<T> = Parsed(value: T, next: nat) | Stopped

  // decode_u8 to decode_u64: the offset is relative to the data, and is compared with the whole size.
  function ReadNum(v: View, offset: nat, width: nat): Parse<nat> {
    if offset + width <= v.size then Parsed(Number(Slice(v, offset, width)), offset + width) else Stopped
  }

  // decode_string: the sum is in 32 bits and the result in 16.
  function ReadText(v: View, offset: nat): Parse<seq<byte>> {
    match ReadNum(v, offset, 2)
    case Stopped => Stopped
    case Parsed(n, at) =>
      if (at + n) % U32 <= v.size then Parsed(Slice(v, at, n), (at + n) % U16) else Stopped
  }

  function ReadField(v: View, offset: nat, kind: Kind): Parse<Field> {
    if kind.KText? then
      match ReadText(v, offset)
      case Stopped => Stopped
      case Parsed(text, next) => Parsed(Text(text), next)
    else
      match ReadNum(v, offset, Width(kind))
      case Stopped => Stopped
      case Parsed(value, next) => Parsed(Num(kind, value), next)
  }

  function Read(v: View, offset: nat, kinds: seq<Kind>): Parse<seq<Field>>
    decreases |kinds|
  {
    if kinds == [] then Parsed([], offset)
    else
      match ReadField(v, offset, kinds[0])
      case Stopped => Stopped
      case Parsed(f, next) =>
        match Read(v, next, kinds[1..])
        case Stopped => Stopped
        case Parsed(rest, end) => Parsed([f] + rest, end)
  }

  lemma {:induction false} ReadSplit(v: View, offset: nat, kinds: seq<Kind>, more: seq<Kind>)
    ensures Read(v, offset, kinds + more) ==
      match Read(v, offset, kinds)
      case Stopped => Stopped
      case Parsed(fields, next) =>
        match Read(v, next, more)
        case Stopped => Stopped
        case Parsed(rest, end) => Parsed(fields + rest, end)
    decreases |kinds|
  {
    if kinds == [] {
      assert kinds + more == more;
      if Read(v, offset, more).Parsed? {
        assert [] + Read(v, offset, more).value == Read(v, offset, more).value;
      }
    } else {
      assert (kinds + more)[1..] == kinds[1..] + more;
      var f := ReadField(v, offset, kinds[0]);
      if f.Parsed? {
        ReadSplit(v, f.next, kinds[1..], more);
        var a := Read(v, f.next, kinds[1..]);
        if a.Parsed? && Read(v, a.next, more).Parsed? {
          assert ([f.value] + a.value) + Read(v, a.next, more).value == [f.value] + (a.value + Read(v, a.next, more).value);
        }
      }
    }
  }

  lemma ReadSingle(v: View, offset: nat, kind: Kind)
    ensures Read(v, offset, [kind]) ==
      match ReadField(v, offset, kind)
      case Stopped => Stopped
      case Parsed(f, next) => Parsed([f], next)
  {
    assert [kind][1..] == [];
    if ReadField(v, offset, kind).Parsed? {
      assert [ReadField(v, offset, kind).value] + [] == [ReadField(v, offset, kind).value];
    }
  }

  // assert(offset + 7 == response->size) after the last field
  predicate Accepted(v: View, kinds: seq<Kind>) {
    Read(v, 0, kinds).Parsed? && Read(v, 0, kinds).next + HEADER == v.size
  }

  lemma SliceSplit(v: View, at: nat, n: nat, m: nat)
    ensures Slice(v, at, n + m) == Slice(v, at, n) + Slice(v, at + n, m)
  {
  }

  lemma SliceParts(v: View, at: nat, a: seq<byte>, b: seq<byte>)
    requires Slice(v, at, |a + b|) == a + b
    ensures Slice(v, at, |a|) == a && Slice(v, at + |a|, |b|) == b
  {
    SliceSplit(v, at, |a|, |b|);
    assert a == (a + b)[..|a|] && b == (a + b)[|a|..];
    assert Slice(v, at, |a|) == Slice(v, at, |a + b|)[..|a|];
    assert Slice(v, at + |a|, |b|) == Slice(v, at, |a + b|)[|a|..];
  }

  // The 16-bit result of decode_string loses nothing exactly when the string ends below 2^16.
  lemma TextOffsetIsExact(v: View, offset: nat)
    requires v.size < U32 && ReadText(v, offset).Parsed?
    requires offset + 2 + |ReadText(v, offset).value| < U32
    ensures ReadText(v, offset).next == offset + 2 + |ReadText(v, offset).value| <==>
            offset + 2 + |ReadText(v, offset).value| < U16
    ensures v.size <= LIMIT ==> offset + 2 + |ReadText(v, offset).value| < U16
  {
  }

  lemma FieldIs(v: View, offset: nat, kind: Kind)
    requires v.size <= LIMIT && ReadField(v, offset, kind).Parsed?
    ensures var f, next := ReadField(v, offset, kind).value, ReadField(v, offset, kind).next;
      && KindOf(f) == kind && Fits(f)
      && next == offset + |EncodeField(f)| && Slice(v, offset, |EncodeField(f)|) == EncodeField(f)
  {
    if kind.KText? {
      var n := Number(Slice(v, offset, 2));
      BytesOfNumber(Slice(v, offset, 2));
      Spans();
      SliceSplit(v, offset, 2, n);
    } else {
      BytesOfNumber(Slice(v, offset, Width(kind)));
    }
  }

  lemma FieldBack(v: View, offset: nat, f: Field)
    requires v.size <= LIMIT && Fits(f) && offset + |EncodeField(f)| <= v.size
    requires Slice(v, offset, |EncodeField(f)|) == EncodeField(f)
    ensures ReadField(v, offset, KindOf(f)) == Parsed(f, offset + |EncodeField(f)|)
  {
    match f
    case Num(k, value) => NumberOfBytes(value, Width(k));
    case Text(text) =>
      Spans();
      NumberOfBytes(|text|, 2);
      SliceParts(v, offset, Bytes(|text|, 2), text);
  }

  // Whatever the decoders return is what the encoders would have written there.
  lemma {:induction false} ReadIs(v: View, offset: nat, kinds: seq<Kind>)
    requires v.size <= LIMIT && Read(v, offset, kinds).Parsed?
    ensures var fields, next := Read(v, offset, kinds).value, Read(v, offset, kinds).next;
      && Kinds(fields) == kinds && AllFit(fields)
      && next == offset + |Encode(fields)| && Slice(v, offset, |Encode(fields)|) == Encode(fields)
    decreases |kinds|
  {
    hide ReadField, EncodeField, Fits;
    if kinds != [] {
      FieldIs(v, offset, kinds[0]);
      var f, at := ReadField(v, offset, kinds[0]).value, ReadField(v, offset, kinds[0]).next;
      ReadIs(v, at, kinds[1..]);
      var rest := Read(v, at, kinds[1..]).value;
      var fields := [f] + rest;
      assert fields[1..] == rest && [kinds[0]] + kinds[1..] == kinds;
      SliceSplit(v, offset, |EncodeField(f)|, |Encode(rest)|);
    }
  }

  // Decoding by schema any sequence of encoded fields returns the fields and the exact end.
  lemma {:induction false} ReadBack(v: View, offset: nat, fields: seq<Field>)
    requires v.size <= LIMIT && AllFit(fields) && offset + |Encode(fields)| <= v.size
    requires Slice(v, offset, |Encode(fields)|) == Encode(fields)
    ensures Read(v, offset, Kinds(fields)) == Parsed(fields, offset + |Encode(fields)|)
    decreases |fields|
  {
    hide ReadField, EncodeField, Fits, Slice;
    if fields != [] {
      var f, rest := fields[0], fields[1..];
      var n := |EncodeField(f)|;
      SliceParts(v, offset, EncodeField(f), Encode(rest));
      FieldBack(v, offset, f);
      ReadBack(v, offset + n, rest);
      assert Kinds(fields)[0] == KindOf(f) && Kinds(fields)[1..] == Kinds(rest) && [f] + rest == fields;
    }
  }

  // A message passes all the checks exactly when its payload is the encoding of fields of that schema,
  // and then it is those that are returned.
  lemma AcceptedMeansEncoded(v: View, kinds: seq<Kind>, fields: seq<Field>)
    requires v.size <= LIMIT
    ensures Accepted(v, kinds) && Read(v, 0, kinds).value == fields <==>
            v.size >= HEADER && Kinds(fields) == kinds && AllFit(fields) && Payload(v) == Encode(fields)
  {
    if Accepted(v, kinds) && Read(v, 0, kinds).value == fields {
      ReadIs(v, 0, kinds);
    }
    if v.size >= HEADER && Kinds(fields) == kinds && AllFit(fields) && Payload(v) == Encode(fields) {
      ReadBack(v, 0, fields);
    }
  }

  // So one check at the end keeps every read inside the payload: what lies after it has no influence.
  lemma AcceptedReadsPayloadOnly(v: View, w: View, kinds: seq<Kind>)
    requires v.size <= LIMIT && w.size == v.size && Payload(w) == Payload(v)
    ensures Accepted(v, kinds) <==> Accepted(w, kinds)
    ensures Accepted(v, kinds) ==> Read(v, 0, kinds) == Read(w, 0, kinds)
  {
    if Accepted(v, kinds) {
      AcceptedMeansEncoded(v, kinds, Read(v, 0, kinds).value);
      AcceptedMeansEncoded(w, kinds, Read(v, 0, kinds).value);
    }
    if Accepted(w, kinds) {
      AcceptedMeansEncoded(w, kinds, Read(w, 0, kinds).value);
      AcceptedMeansEncoded(v, kinds, Read(w, 0, kinds).value);
    }
  }

  // ---- One read ----

  // The read yields the same whatever lies after the payload.
  ghost predicate NumFromPayload(v: View, offset: nat, width: nat) {
    forall w: View :: w.size == v.size && Payload(w) == Payload(v) ==> ReadNum(w, offset, width) == ReadNum(v, offset, width)
  }

  ghost predicate TextFromPayload(v: View, offset: nat) {
    forall w: View :: w.size == v.size && Payload(w) == Payload(v) ==> ReadText(w, offset) == ReadText(v, offset)
  }

  // The same message with another byte in one place.
  function Altered(v: View, at: nat): View {
    View(v.size, (i: nat) => if i == at then (v.mem(at) + 1) % 0x100 else v.mem(i))
  }

  lemma AlteredOutside(v: View, at: nat)
    requires at + HEADER >= v.size
    ensures Payload(Altered(v, at)) == Payload(v)
  {
  }

  lemma AlteredInside(v: View, at: nat, offset: nat, width: nat)
    requires offset <= at < offset + width
    ensures Slice(Altered(v, at), offset, width) != Slice(v, offset, width)
    ensures Number(Slice(Altered(v, at), offset, width)) != Number(Slice(v, offset, width))
  {
    var a, b := Slice(Altered(v, at), offset, width), Slice(v, offset, width);
    assert a[at - offset] != b[at - offset];
    BytesOfNumber(a);
    BytesOfNumber(b);
  }

  lemma SliceFromPayload(v: View, w: View, offset: nat, width: nat)
    requires w.size == v.size && Payload(w) == Payload(v) && offset + width + HEADER <= v.size
    ensures Slice(w, offset, width) == Slice(v, offset, width)
  {
    assert forall i: nat :: i < v.size - HEADER ==> Payload(w)[i] == w.mem(i) && Payload(v)[i] == v.mem(i);
  }

  // A number that passes the check of its own read is the sender's exactly if it ends within the payload:
  // the check admits seven bytes more.
  lemma NumFromPayloadIff(v: View, offset: nat, width: nat)
    requires ReadNum(v, offset, width).Parsed?
    ensures NumFromPayload(v, offset, width) <==> width == 0 || offset + width + HEADER <= v.size
  {
    if width > 0 && offset + width + HEADER > v.size {
      AlteredOutside(v, offset + width - 1);
      AlteredInside(v, offset + width - 1, offset, width);
      assert ReadNum(Altered(v, offset + width - 1), offset, width) != ReadNum(v, offset, width);
    } else {
      forall w: View | w.size == v.size && Payload(w) == Payload(v)
        ensures ReadNum(w, offset, width) == ReadNum(v, offset, width)
      {
        if width > 0 {
          SliceFromPayload(v, w, offset, width);
        }
      }
    }
  }

  lemma TextFromPayloadIff(v: View, offset: nat)
    requires ReadText(v, offset).Parsed?
    ensures TextFromPayload(v, offset) <==> offset + 2 + |ReadText(v, offset).value| + HEADER <= v.size
  {
    var n := |ReadText(v, offset).value|;
    if offset + 2 + HEADER > v.size {
      AlteredOutside(v, offset + 1);
      AlteredInside(v, offset + 1, offset, 2);
      assert ReadText(Altered(v, offset + 1), offset) != ReadText(v, offset);
    } else if offset + 2 + n + HEADER > v.size {
      var w := Altered(v, offset + 1 + n);
      AlteredOutside(v, offset + 1 + n);
      AlteredInside(v, offset + 1 + n, offset + 2, n);
      SliceFromPayload(v, w, offset, 2);
      assert ReadText(w, offset) != ReadText(v, offset);
    } else {
      forall w: View | w.size == v.size && Payload(w) == Payload(v)
        ensures ReadText(w, offset) == ReadText(v, offset)
      {
        SliceFromPayload(v, w, offset, 2);
        SliceFromPayload(v, w, offset + 2, n);
      }
    }
  }

  // So the checks of the single reads would not be enough: both messages below hold one byte of payload,
  // pass the check of a 32-bit read, and yield different numbers.
  lemma SingleChecksDoNotBound()
    ensures var v, w := View(8, _ => 0), View(8, i => if i == 3 then 1 else 0);
      && Payload(v) == Payload(w)
      && Read(v, 0, [K32]).Parsed? && Read(w, 0, [K32]).Parsed? && Read(v, 0, [K32]) != Read(w, 0, [K32])
  {
    var v, w := View(8, _ => 0), View(8, i => if i == 3 then 1 else 0);
    assert Payload(v) == Payload(w);
    assert Slice(v, 0, 4) == [0, 0, 0, 0] && Slice(w, 0, 4) == [0, 0, 0, 1];
    BytesOfNumber(Slice(v, 0, 4));
    BytesOfNumber(Slice(w, 0, 4));
    var a, b := Read(v, 0, [K32]), Read(w, 0, [K32]);
    assert a.value[0].value == Number(Slice(v, 0, 4)) && b.value[0].value == Number(Slice(w, 0, 4));
  }

  // Two field lists of one schema have different encodings.
  lemma EncodeIsInjective(a: seq<Field>, b: seq<Field>)
    requires AllFit(a) && AllFit(b) && Kinds(a) == Kinds(b) && Encode(a) == Encode(b) && |Encode(a)| <= MSIZE
    ensures a == b
  {
    var bytes := Encode(a);
    var v := View(HEADER + |bytes|, (i: nat) => if i < |bytes| then bytes[i] else 0);
    assert Payload(v) == bytes;
    AcceptedMeansEncoded(v, Kinds(a), a);
    AcceptedMeansEncoded(v, Kinds(a), b);
  }
}

// struct virtio_9p_msg: encoders append to it in place, decoders read it by position.
module WireMessages {
  import opened Words
  import opened WireFormat

  datatype Qid = Qid(kind: nat, version: nat, path: nat)

  const QID := [K8, K32, K64]

  class Message {
    var size: nat
    var id: nat
    var tag: nat
    // The data of this message, followed by the part of the mapping that comes after it.
    const data: array<byte>

    constructor (memory: array<byte>)
      requires memory.Length >= LIMIT
      ensures Encoding() && data == memory && size == HEADER && Written() == []
    {
      data := memory;
      size := HEADER;
    }

    // The mapping holds at least the data of the message.
    ghost predicate Valid() {
      data.Length >= LIMIT
    }

    // A request that is being encoded.
    ghost predicate Encoding()
      reads this
    {
      Valid() && HEADER <= size <= LIMIT
    }

    // What has been encoded so far.
    ghost function Written(): seq<byte>
      requires Encoding()
      reads this, data
    {
      data[..size - HEADER]
    }

    // What a reader sees.
    ghost function Seen(): View
      reads this, data
    {
      var bytes := data[..];
      View(size, (i: nat) => if i < |bytes| then bytes[i] else 0)
    }

    // The asserted room for k more bytes.
    predicate Room(k: nat)
      reads this
    {
      size + k <= LIMIT
    }

    // A store through a cast pointer, or a memcpy.
    method Store(bytes: seq<byte>)
      requires Encoding() && Room(|bytes|)
      modifies `size, data
      ensures Encoding() && size == old(size) + |bytes|
      ensures Written() == old(Written()) + bytes
      ensures data[size - HEADER..] == old(data[size - HEADER + |bytes|..])
    {
      var at := size - HEADER;
      forall i | 0 <= i < |bytes| {
        data[at + i] := bytes[i];
      }
      size := size + |bytes|;
      assert data[..at] == old(data[..at]);
      assert data[at..at + |bytes|] == bytes;
    }

    method EncodeU16(value: nat)
      requires Encoding() && Room(2) && value < U16
      modifies `size, data
      ensures Encoding() && size == old(size) + 2
      ensures Written() == old(Written()) + Encode([Num(K16, value)])
    {
      Spans();
      EncodeOne(Num(K16, value));
      Store(Bytes(value, 2));
    }

    method EncodeU32(value: nat)
      requires Encoding() && Room(4) && value < U32
      modifies `size, data
      ensures Encoding() && size == old(size) + 4
      ensures Written() == old(Written()) + Encode([Num(K32, value)])
    {
      Spans();
      EncodeOne(Num(K32, value));
      Store(Bytes(value, 4));
    }

    method EncodeU64(value: nat)
      requires Encoding() && Room(8) && value < U32 * U32
      modifies `size, data
      ensures Encoding() && size == old(size) + 8
      ensures Written() == old(Written()) + Encode([Num(K64, value)])
    {
      Spans();
      EncodeOne(Num(K64, value));
      Store(Bytes(value, 8));
    }

    method EncodeString(s: seq<byte>)
      requires Encoding() && Room(2 + |s|) && |s| < U16
      modifies `size, data
      ensures Encoding() && size == old(size) + 2 + |s|
      ensures Written() == old(Written()) + Encode([Text(s)])
    {
      EncodeOne(Num(K16, |s|));
      EncodeOne(Text(s));
      EncodeU16(|s|);
      Store(s);
    }

    // virtio_9p_walk, the request
    method EncodeWalk(fid: nat, newfid: nat, name: Name)
      requires Valid() && size == HEADER && fid < U32 && newfid < U32
      requires name.Named? ==> |name.name| <= MSIZE - 12
      modifies `size, data
      ensures Encoding() && Written() == Encode(WalkFields(fid, newfid, name))
      ensures Written() == Bytes(fid, 4) + Bytes(newfid, 4) +
        match name case Unnamed => Bytes(0, 2) case Named(text) => Bytes(1, 2) + Bytes(|text|, 2) + text
      ensures Accepted(Seen(), Kinds(WalkFields(fid, newfid, name)))
      ensures Read(Seen(), 0, Kinds(WalkFields(fid, newfid, name))).value == WalkFields(fid, newfid, name)
    {
      hide Encode, EncodeField, Kinds, Read, AllFit, WalkFields;
      EncodeU32(fid);
      EncodeU32(newfid);
      match name {
        case Unnamed =>
          EncodeU16(0);
        case Named(text) =>
          EncodeU16(1);
          EncodeString(text);
      }
      WalkEncodes(fid, newfid, name);
      WalkOnTheWire(fid, newfid, name);
      WalkFieldsFit(fid, newfid, name);
      SeenIsWritten();
      AcceptedMeansEncoded(Seen(), Kinds(WalkFields(fid, newfid, name)), WalkFields(fid, newfid, name));
    }

    lemma SeenIsWritten()
      requires Encoding()
      ensures Payload(Seen()) == Written()
    {
    }

    // decode_u8 to decode_u64
    method DecodeNumber(offset: nat, width: nat) returns (r: Parse<nat>)
      requires Valid() && size <= LIMIT
      ensures r == ReadNum(Seen(), offset, width)
    {
      if offset + width > size {
        return Stopped;
      }
      assert data[offset..offset + width] == Slice(Seen(), offset, width);
      return Parsed(Number(data[offset..offset + width]), offset + width);
    }

    method DecodeString(offset: nat) returns (r: Parse<seq<byte>>)
      requires Valid() && size <= LIMIT
      ensures r == ReadText(Seen(), offset)
    {
      var len := DecodeNumber(offset, 2);
      if len.Stopped? {
        return Stopped;
      }
      if (len.next + len.value) % U32 > size {
        return Stopped;
      }
      BytesOfNumber(Slice(Seen(), offset, 2));
      Spans();
      assert data[len.next..len.next + len.value] == Slice(Seen(), len.next, len.value);
      return Parsed(data[len.next..len.next + len.value], (len.next + len.value) % U16);
    }

    method DecodeQid(offset: nat) returns (r: Parse<Qid>)
      requires Valid() && size <= LIMIT
      ensures r == ReadQid(Seen(), offset)
    {
      var kind := DecodeNumber(offset, 1);
      if kind.Stopped? {
        return Stopped;
      }
      var version := DecodeNumber(kind.next, 4);
      if version.Stopped? {
        return Stopped;
      }
      var path := DecodeNumber(version.next, 8);
      if path.Stopped? {
        return Stopped;
      }
      return Parsed(Qid(kind.value, version.value, path.value), path.next);
    }

    // virtio_9p_walk, the answer to a walk with a name. Stopped: an assertion fails.
    method DecodeWalkAnswer() returns (r: Parse<Qid>)
      requires Valid() && size <= LIMIT
      ensures r.Parsed? <==> Accepted(Seen(), [K16] + QID)
      ensures r.Parsed? ==> exists n :: Payload(Seen()) == Encode([Num(K16, n)] + QidFields(r.value))
    {
      var n := DecodeNumber(0, 2);
      WalkAnswerIs(Seen());
      if n.Stopped? {
        return Stopped;
      }
      r := DecodeQid(n.next);
      if r.Parsed? && r.next + HEADER != size {
        return Stopped;
      }
    }
  }

  datatype Name = Unnamed | Named(name: seq<byte>)

  function Counted(name: Name): seq<Field> {
    match name
    case Unnamed => [Num(K16, 0)]
    case Named(text) => [Num(K16, 1), Text(text)]
  }

  function WalkFields(fid: nat, newfid: nat, name: Name): seq<Field> {
    [Num(K32, fid), Num(K32, newfid)] + Counted(name)
  }

  lemma WalkFieldsFit(fid: nat, newfid: nat, name: Name)
    requires fid < U32 && newfid < U32 && (name.Named? ==> |name.name| < U16)
    ensures AllFit(WalkFields(fid, newfid, name))
  {
    Spans();
  }

  lemma WalkEncodes(fid: nat, newfid: nat, name: Name)
    ensures Encode(WalkFields(fid, newfid, name)) == Encode([Num(K32, fid)]) + Encode([Num(K32, newfid)])
      + if name.Unnamed? then Encode([Num(K16, 0)]) else Encode([Num(K16, 1)]) + Encode([Text(name.name)])
  {
    EncodeAppend([Num(K32, fid)], [Num(K32, newfid)]);
    assert [Num(K32, fid), Num(K32, newfid)] == [Num(K32, fid)] + [Num(K32, newfid)];
    EncodeAppend([Num(K32, fid), Num(K32, newfid)], Counted(name));
    if name.Named? {
      assert Counted(name) == [Num(K16, 1)] + [Text(name.name)];
      EncodeAppend([Num(K16, 1)], [Text(name.name)]);
    }
  }

  // The same byte by byte: two fids, the number of names, and the name with its length.
  lemma WalkOnTheWire(fid: nat, newfid: nat, name: Name)
    ensures Encode(WalkFields(fid, newfid, name)) == Bytes(fid, 4) + Bytes(newfid, 4) +
      match name case Unnamed => Bytes(0, 2) case Named(text) => Bytes(1, 2) + Bytes(|text|, 2) + text
  {
    WalkEncodes(fid, newfid, name);
    EncodeOne(Num(K32, fid));
    EncodeOne(Num(K32, newfid));
    EncodeOne(Num(K16, 0));
    EncodeOne(Num(K16, 1));
    if name.Named? { EncodeOne(Text(name.name)); }
    hide Encode, Bytes, WalkFields;
  }

  function QidFields(q: Qid): seq<Field> {
    [Num(K8, q.kind), Num(K32, q.version), Num(K64, q.path)]
  }

  function ReadQid(v: View, offset: nat): Parse<Qid> {
    match ReadNum(v, offset, 1)
    case Stopped => Stopped
    case Parsed(kind, at) =>
      match ReadNum(v, at, 4)
      case Stopped => Stopped
      case Parsed(version, at) =>
        match ReadNum(v, at, 8)
        case Stopped => Stopped
        case Parsed(path, at) => Parsed(Qid(kind, version, path), at)
  }

  // decode_qid is the schema of its three fields.
  lemma QidIsRead(v: View, offset: nat)
    ensures var q, r := ReadQid(v, offset), Read(v, offset, QID);
      if q.Parsed? then r == Parsed(QidFields(q.value), q.next) else r.Stopped?
  {
    var tail2, tail3 := QID[1..], QID[2..];
    assert tail2 == [K32, K64] && tail3 == [K64] && tail2[1..] == tail3 && tail3[1..] == [];
    var q := ReadQid(v, offset);
    if q.Parsed? {
      assert Read(v, offset + 13, []) == Parsed([], offset + 13);
      assert [Num(K64, q.value.path)] + [] == [Num(K64, q.value.path)];
      assert tail3[0] == K64 && ReadField(v, offset + 5, K64) == Parsed(Num(K64, q.value.path), offset + 13);
      assert Read(v, offset + 5, tail3) == Parsed([Num(K64, q.value.path)], offset + 13);
      assert Read(v, offset + 1, tail2) == Parsed([Num(K32, q.value.version)] + [Num(K64, q.value.path)], offset + 13);
      assert QidFields(q.value) ==
        [Num(K8, q.value.kind)] + ([Num(K32, q.value.version)] + [Num(K64, q.value.path)]);
    }
  }

  lemma WalkAnswerIs(v: View)
    requires v.size <= LIMIT
    ensures Accepted(v, [K16] + QID) <==>
      && ReadNum(v, 0, 2).Parsed? && ReadQid(v, 2).Parsed? && ReadQid(v, 2).next + HEADER == v.size
    ensures Accepted(v, [K16] + QID) ==>
      Payload(v) == Encode([Num(K16, ReadNum(v, 0, 2).value)] + QidFields(ReadQid(v, 2).value))
  {
    var kinds := [K16] + QID;
    assert kinds[1..] == QID && kinds[0] == K16;
    QidIsRead(v, 2);
    if Accepted(v, kinds) {
      AcceptedMeansEncoded(v, kinds, Read(v, 0, kinds).value);
    }
  }
}
