/** The generated look-up table messages. JobLUT and WorkPlaneLUT have the same shape (an int64 field 1 and a
    packed repeated int64 field 2) and generated code that differs in names only, so one class stands for both. */
module LutCodec {
  import opened Wrappers
  import opened OvfModel
  import opened WireFormat

  /** A look-up table: the position of the shell and the positions of the parts. */
  datatype Lut = Lut(shell: int64, parts: seq<int64>)

  const EMPTY := Lut(0, [])

  const SHELL_TAG := 8    // field 1, varint
  const PACKED_TAG := 18  // field 2, length-delimited
  const SINGLE_TAG := 16  // field 2, one element as a varint of its own

  // ---------------------------------------------------------------------------------------------
  // Writing
  // ---------------------------------------------------------------------------------------------

  function Varint64(v: int64): seq<byte> { EncodeVarint(ToUnsigned(v)) }

  function Packed(parts: seq<int64>): seq<byte> {
    if parts == [] then [] else Packed(parts[..|parts| - 1]) + Varint64(parts[|parts| - 1])
  }

  function ShellField(shell: int64): seq<byte> {
    if shell != 0 then [SHELL_TAG] + Varint64(shell) else []
  }

  function PartsField(parts: seq<int64>): seq<byte> {
    if parts != [] then [PACKED_TAG] + EncodeVarint(|Packed(parts)|) + Packed(parts) else []
  }

  /** The bytes _InternalSerialize produces: default values are not written. */
  function Serialized(l: Lut): seq<byte> { ShellField(l.shell) + PartsField(l.parts) }

  /** MergeImpl: repeated fields are appended, a non-default singular field is taken over. */
  function Merged(a: Lut, b: Lut): Lut {
    Lut(if b.shell != 0 then b.shell else a.shell, a.parts + b.parts)
  }

  // ---------------------------------------------------------------------------------------------
  // Reading
  // ---------------------------------------------------------------------------------------------

  function ReadInt64(bs: seq<byte>): (r: Option<Read<int64>>)
    ensures r.Some? ==> |r.value.rest| < |bs|
  {
    match DecodeVarint(bs, 10)
    case None => None
    case Some(r) => Some(Read(ToSigned(r.value), r.rest))
  }

  /** A length and that many bytes. */
  function ReadBlock(bs: seq<byte>): (r: Option<Read<seq<byte>>>)
    ensures r.Some? ==> |r.value.rest| < |bs|
  {
    match DecodeVarint(bs, 5)
    case None => None
    case Some(r) =>
      if r.value > MAX_SIZE || r.value > |r.rest| then None
      else Some(Read(r.rest[..r.value], r.rest[r.value..]))
  }

  function ReadPacked(bs: seq<byte>): Option<seq<int64>>
    decreases |bs|
  {
    if bs == [] then Some([])
    else match ReadInt64(bs)
      case None => None
      case Some(r) =>
        match ReadPacked(r.rest)
        case None => None
        case Some(vs) => Some([r.value] + vs)
  }

  /** Skipping a field the message does not know, by its wire type. Groups are not modelled. */
  function SkipField(tag: nat, bs: seq<byte>): (r: Option<seq<byte>>)
    ensures r.Some? ==> |r.value| <= |bs|
  {
    if tag / 8 == 0 then None
    else match tag % 8
      case 0 => (match DecodeVarint(bs, 10) case None => None case Some(r) => Some(r.rest))
      case 1 => if |bs| < 8 then None else Some(bs[8..])
      case 2 => (match ReadBlock(bs) case None => None case Some(r) => Some(r.rest))
      case 5 => if |bs| < 4 then None else Some(bs[4..])
      case _ => None
  }

  /** The field with the given tag, merged into what has been read so far. */
  function ReadBody(tag: nat, bs: seq<byte>, acc: Lut): (r: Option<Read<Lut>>)
    ensures r.Some? ==> |r.value.rest| <= |bs|
  {
    if tag == SHELL_TAG then
      match ReadInt64(bs)
      case None => None
      case Some(r) => Some(Read(acc.(shell := r.value), r.rest))
    else if tag == SINGLE_TAG then
      match ReadInt64(bs)
      case None => None
      case Some(r) => Some(Read(acc.(parts := acc.parts + [r.value]), r.rest))
    else if tag == PACKED_TAG then
      match ReadBlock(bs)
      case None => None
      case Some(r) =>
        match ReadPacked(r.value)
        case None => None
        case Some(vs) => Some(Read(acc.(parts := acc.parts + vs), r.rest))
    else
      match SkipField(tag, bs)
      case None => None
      case Some(rest) => Some(Read(acc, rest))
  }

  /** static_cast<uint32_t>. */
  function ToUint32(u: nat): (w: nat)
    ensures u < 0x1_0000_0000 ==> w == u
  {
    u % 0x1_0000_0000
  }

  /** Tags take at most five bytes and are cut to 32 bits. */
  function ReadField(bs: seq<byte>, acc: Lut): (r: Option<Read<Lut>>)
    ensures r.Some? ==> |r.value.rest| < |bs|
  {
    match DecodeVarint(bs, 5)
    case None => None
    case Some(t) => ReadBody(ToUint32(t.value), t.rest, acc)
  }

  /** Parsing: field after field until the bytes are used up. */
  function ParseInto(bs: seq<byte>, acc: Lut): Option<Lut>
    decreases |bs|
  {
    if bs == [] then Some(acc)
    else match ReadField(bs, acc)
      case None => None
      case Some(r) => ParseInto(r.rest, r.value)
  }

  function Parse(bs: seq<byte>): Option<Lut> { ParseInto(bs, EMPTY) }

  // ---------------------------------------------------------------------------------------------
  // Properties
  // ---------------------------------------------------------------------------------------------

  lemma SkipExtends(tag: nat, bs: seq<byte>, more: seq<byte>)
    requires SkipField(tag, bs).Some?
    ensures SkipField(tag, bs + more) == Some(SkipField(tag, bs).value + more)
  {
    match tag % 8
    case 0 => VarintExtends(bs, more, 10);
    case 1 => assert (bs + more)[8..] == bs[8..] + more;
    case 2 => BlockExtends(bs, more);
    case _ => assert (bs + more)[4..] == bs[4..] + more;
  }

  lemma BodyExtends(tag: nat, bs: seq<byte>, more: seq<byte>, acc: Lut)
    requires ReadBody(tag, bs, acc).Some?
    ensures ReadBody(tag, bs + more, acc)
            == Some(Read(ReadBody(tag, bs, acc).value.value, ReadBody(tag, bs, acc).value.rest + more))
  {
    if tag == SHELL_TAG || tag == SINGLE_TAG {
      VarintExtends(bs, more, 10);
    } else if tag == PACKED_TAG {
      BlockExtends(bs, more);
    } else {
      SkipExtends(tag, bs, more);
    }
  }

  lemma FieldExtends(bs: seq<byte>, more: seq<byte>, acc: Lut)
    requires ReadField(bs, acc).Some?
    ensures ReadField(bs + more, acc)
            == Some(Read(ReadField(bs, acc).value.value, ReadField(bs, acc).value.rest + more))
  {
    VarintExtends(bs, more, 5);
    var t := DecodeVarint(bs, 5).value;
    BodyExtends(ToUint32(t.value), t.rest, more, acc);
  }

  lemma BlockExtends(bs: seq<byte>, more: seq<byte>)
    requires ReadBlock(bs).Some?
    ensures ReadBlock(bs + more) == Some(Read(ReadBlock(bs).value.value, ReadBlock(bs).value.rest + more))
  {
    VarintExtends(bs, more, 5);
    var r := DecodeVarint(bs, 5).value;
    assert (r.rest + more)[..r.value] == r.rest[..r.value];
    assert (r.rest + more)[r.value..] == r.rest[r.value..] + more;
  }

  /** Parsing a concatenation is parsing the second part into the result of the first, for all bytes
      that parse, whatever fields they hold and in whatever order. */
  lemma {:induction false} ParseConcat(x: seq<byte>, y: seq<byte>, acc: Lut)
    requires ParseInto(x, acc).Some?
    ensures ParseInto(x + y, acc) == ParseInto(y, ParseInto(x, acc).value)
    decreases |x|
  {
    if x == [] {
      assert x + y == y;
    } else {
      FieldExtends(x, y, acc);
      var r := ReadField(x, acc).value;
      ParseConcat(r.rest, y, r.value);
    }
  }

  lemma SignedRoundTrip(v: int64)
    ensures ToSigned(ToUnsigned(v)) == v
  {
  }

  lemma Int64Read(v: int64, rest: seq<byte>)
    ensures ReadInt64(Varint64(v) + rest) == Some(Read(v, rest))
  {
    Pow128Values();
    VarintRoundTrip(ToUnsigned(v), rest, 10);
    SignedRoundTrip(v);
  }

  lemma Int64Extends(bs: seq<byte>, more: seq<byte>)
    requires ReadInt64(bs).Some?
    ensures ReadInt64(bs + more) == Some(Read(ReadInt64(bs).value.value, ReadInt64(bs).value.rest + more))
  {
    VarintExtends(bs, more, 10);
  }

  lemma ReadPackedCons(bs: seq<byte>, v: int64, rest: seq<byte>, vs: seq<int64>)
    requires bs != [] && ReadInt64(bs) == Some(Read(v, rest)) && ReadPacked(rest) == Some(vs)
    ensures ReadPacked(bs) == Some([v] + vs)
  {
  }

  lemma {:induction false} ReadPackedConcat(x: seq<byte>, y: seq<byte>, vs: seq<int64>)
    requires ReadPacked(x).Some? && ReadPacked(y) == Some(vs)
    ensures ReadPacked(x + y) == Some(ReadPacked(x).value + vs)
    decreases |x|
  {
    if x == [] {
      assert x + y == y && [] + vs == vs;
    } else {
      var r := ReadInt64(x).value;
      var tail := ReadPacked(r.rest).value;
      assert ReadPacked(x + y) == Some([r.value] + (tail + vs)) by {
        Int64Extends(x, y);
        ReadPackedConcat(r.rest, y, vs);
        ReadPackedCons(x + y, r.value, r.rest + y, tail + vs);
      }
      assert [r.value] + (tail + vs) == ([r.value] + tail) + vs;
    }
  }

  lemma ReadPackedOne(v: int64)
    ensures ReadPacked(Varint64(v)) == Some([v])
  {
    Int64Read(v, []);
    assert Varint64(v) + [] == Varint64(v);
    assert [v] + [] == [v];
  }

  lemma {:induction false} PackedRoundTrip(parts: seq<int64>)
    ensures ReadPacked(Packed(parts)) == Some(parts)
  {
    if parts != [] {
      var k := |parts| - 1;
      PackedRoundTrip(parts[..k]);
      ReadPackedOne(parts[k]);
      ReadPackedConcat(Packed(parts[..k]), Varint64(parts[k]), [parts[k]]);
      assert parts[..k] + [parts[k]] == parts;
    }
  }

  lemma ShellParses(shell: int64, acc: Lut)
    ensures ParseInto(ShellField(shell), acc) == Some(if shell != 0 then acc.(shell := shell) else acc)
  {
    if shell != 0 {
      hide DecodeVarint, EncodeVarint, ParseInto, ReadInt64;
      Int64Read(shell, []);
      assert Varint64(shell) + [] == Varint64(shell);
      OneField(ShellField(shell), SHELL_TAG, Varint64(shell), acc, acc.(shell := shell));
    }
  }

  lemma PackedBody(body: seq<byte>, p: seq<byte>, parts: seq<int64>, acc: Lut)
    requires ReadBlock(body) == Some(Read(p, [])) && ReadPacked(p) == Some(parts)
    ensures ReadBody(PACKED_TAG, body, acc) == Some(Read(acc.(parts := acc.parts + parts), []))
  {
    hide ReadBlock, ReadPacked, SkipField, ReadInt64;
  }

  lemma PartsParse(parts: seq<int64>, acc: Lut)
    requires |Packed(parts)| <= MAX_SIZE
    ensures ParseInto(PartsField(parts), acc) == Some(acc.(parts := acc.parts + parts))
  {
    if parts == [] {
      assert acc.parts + parts == acc.parts;
    } else {
      hide DecodeVarint, EncodeVarint, ReadBlock, ReadPacked, Packed, ParseInto, ReadBody;
      var body := EncodeVarint(|Packed(parts)|) + Packed(parts);
      assert PartsField(parts) == [PACKED_TAG] + body;
      PackedBlock(parts);
      PackedRoundTrip(parts);
      PackedBody(body, Packed(parts), parts, acc);
      OneField(PartsField(parts), PACKED_TAG, body, acc, acc.(parts := acc.parts + parts));
    }
  }

  lemma OneField(bs: seq<byte>, tag: byte, body: seq<byte>, acc: Lut, acc': Lut)
    requires bs == [tag] + body && tag < 128 && ReadBody(tag, body, acc) == Some(Read(acc', []))
    ensures ParseInto(bs, acc) == Some(acc')
  {
    hide ReadBody, ToUint32;
    assert bs[1..] == body;
    assert DecodeVarint(bs, 5) == Some(Read(tag, body));
  }

  lemma PackedBlock(parts: seq<int64>)
    requires |Packed(parts)| <= MAX_SIZE
    ensures var p := Packed(parts); ReadBlock(EncodeVarint(|p|) + p) == Some(Read(p, []))
  {
    var p := Packed(parts);
    Pow128Values();
    VarintRoundTrip(|p|, p, 5);
    assert p[..|p|] == p;
  }

  /** Parsing what was serialised merges it: the round trip into any table. The bound is the library's own
      limit on the length of a field. */
  lemma ParseSerialized(b: Lut, acc: Lut)
    requires |Packed(b.parts)| <= MAX_SIZE
    ensures ParseInto(Serialized(b), acc) == Some(Merged(acc, b))
  {
    ShellParses(b.shell, acc);
    ParseConcat(ShellField(b.shell), PartsField(b.parts), acc);
    PartsParse(b.parts, ParseInto(ShellField(b.shell), acc).value);
  }

  /** Round trip, negative positions included. */
  lemma RoundTrip(l: Lut)
    requires |Packed(l.parts)| <= MAX_SIZE
    ensures Parse(Serialized(l)) == Some(l)
  {
    ParseSerialized(l, EMPTY);
    assert [] + l.parts == l.parts;
  }

  /** The last one wins: two serialised tables, one behind the other, read as their merge. */
  lemma ConcatenationMerges(a: Lut, b: Lut)
    requires |Packed(a.parts)| <= MAX_SIZE && |Packed(b.parts)| <= MAX_SIZE
    ensures Parse(Serialized(a) + Serialized(b)) == Some(Merged(a, b))
  {
    RoundTrip(a);
    ParseConcat(Serialized(a), Serialized(b), EMPTY);
    ParseSerialized(b, a);
  }

  /** The bytes on the wire: tag 8 before the shell position, tag 18 before the packed positions. */
  lemma FieldTags(l: Lut)
    ensures l.shell != 0 ==> |ShellField(l.shell)| > 1 && Serialized(l)[0] == 8
    ensures l.parts != [] ==> |Serialized(l)| > |ShellField(l.shell)| && Serialized(l)[|ShellField(l.shell)|] == 18
    ensures l.shell == 0 ==> ShellField(l.shell) == []
  {
  }

  lemma FieldWithTag(tag: nat, body: seq<byte>, acc: Lut)
    requires tag < 0x8_0000_0000
    ensures ReadField(EncodeVarint(tag) + body, acc) == ReadBody(ToUint32(tag), body, acc)
  {
    hide EncodeVarint, DecodeVarint, ReadBody, ToUint32;
    Pow128Values();
    VarintRoundTrip(tag, body, 5);
  }

  lemma CutTo32Bits(u: nat, k: nat)
    requires u < 0x1_0000_0000
    ensures ToUint32(u + k * 0x1_0000_0000) == u
  {
  }

  /** What a five-byte tag says beyond 32 bits is ignored. */
  lemma LongTag(tag: nat, k: nat, body: seq<byte>, acc: Lut)
    requires tag < 0x1_0000_0000 && k < 8
    ensures ReadField(EncodeVarint(tag + k * 0x1_0000_0000) + body, acc) == ReadField(EncodeVarint(tag) + body, acc)
  {
    hide EncodeVarint, ReadField, ReadBody, ToUint32;
    FieldWithTag(tag, body, acc);
    FieldWithTag(tag + k * 0x1_0000_0000, body, acc);
    CutTo32Bits(tag, k);
  }

  /** One field, then the rest. */
  lemma FieldThenRest(tag: nat, body: seq<byte>, rest: seq<byte>, acc: Lut, acc': Lut)
    requires tag < 0x1_0000_0000 && ReadBody(tag, body + rest, acc) == Some(Read(acc', rest))
    ensures ParseInto(EncodeVarint(tag) + body + rest, acc) == ParseInto(rest, acc')
  {
    hide EncodeVarint, ReadBody, ReadField, ToUint32;
    assert EncodeVarint(tag) + body + rest == EncodeVarint(tag) + (body + rest);
    FieldWithTag(tag, body + rest, acc);
  }

  /** A position that is not packed, under tag 16, is appended all the same. */
  lemma UnpackedParses(v: int64, rest: seq<byte>, acc: Lut)
    ensures ParseInto(EncodeVarint(16) + Varint64(v) + rest, acc) == ParseInto(rest, acc.(parts := acc.parts + [v]))
  {
    Int64Read(v, rest);
    hide EncodeVarint, ReadInt64, ParseInto;
    FieldThenRest(16, Varint64(v), rest, acc, acc.(parts := acc.parts + [v]));
  }

  /** A later shell position wins, also one of zero that is written out. */
  lemma ShellOverwrites(v: int64, rest: seq<byte>, acc: Lut)
    ensures ParseInto(EncodeVarint(8) + Varint64(v) + rest, acc) == ParseInto(rest, acc.(shell := v))
  {
    Int64Read(v, rest);
    hide EncodeVarint, ReadInt64, ParseInto;
    FieldThenRest(8, Varint64(v), rest, acc, acc.(shell := v));
  }

  /** What may follow a tag, by its wire type: a varint, eight bytes, a length and that many bytes, four bytes. */
  ghost predicate FieldBody(wireType: nat, body: seq<byte>) {
    || (wireType == 0 && exists v: nat :: v < 0x1_0000_0000_0000_0000 && body == EncodeVarint(v))
    || (wireType == 1 && |body| == 8)
    || (wireType == 2 && exists p: seq<byte> :: |p| <= 0x7fff_ffef && body == Delimited(p))
    || (wireType == 5 && |body| == 4)
  }

  /** A field the message does not know, or knows under another wire type, is skipped wherever it stands. */
  lemma UnknownFieldSkipped(tag: nat, body: seq<byte>, rest: seq<byte>, acc: Lut)
    requires 8 <= tag < 0x1_0000_0000 && tag != 8 && tag != 16 && tag != 18 && FieldBody(tag % 8, body)
    ensures ParseInto(EncodeVarint(tag) + body + rest, acc) == ParseInto(rest, acc)
  {
    BodySkipped(tag, body, rest);
    hide EncodeVarint, SkipField, FieldBody, ParseInto;
    FieldThenRest(tag, body, rest, acc, acc);
  }

  lemma BodySkipped(tag: nat, body: seq<byte>, rest: seq<byte>)
    requires tag >= 8 && FieldBody(tag % 8, body)
    ensures SkipField(tag, body + rest) == Some(rest)
  {
    Pow128Values();
    if tag % 8 == 0 {
      var v: nat :| v < 0x1_0000_0000_0000_0000 && body == EncodeVarint(v);
      VarintRoundTrip(v, rest, 10);
    } else if tag % 8 == 2 {
      var p: seq<byte> :| |p| <= 0x7fff_ffef && body == Delimited(p);
      assert body + rest == EncodeVarint(|p|) + (p + rest);
      AnnouncedBlock(|p|, p + rest);
      assert (p + rest)[|p|..] == rest;
    } else {
      assert (body + rest)[|body|..] == rest;
    }
  }

  /** A length, whatever it announces and whatever follows. */
  lemma AnnouncedBlock(n: nat, rest: seq<byte>)
    requires n < 0x8_0000_0000
    ensures ReadBlock(EncodeVarint(n) + rest)
            == if n <= 0x7fff_ffef && n <= |rest| then Some(Read(rest[..n], rest[n..])) else None
  {
    Pow128Values();
    VarintRoundTrip(n, rest, 5);
  }

  /** Field number zero, the end of a group that never began, and the two unused wire types end the parse. */
  lemma BadTag(tag: nat, rest: seq<byte>, acc: Lut)
    requires tag < 8 || (tag < 0x1_0000_0000 && (tag % 8 == 4 || tag % 8 == 6 || tag % 8 == 7))
    ensures ParseInto(EncodeVarint(tag) + rest, acc) == None
  {
    hide ReadField, EncodeVarint, ToUint32;
    assert ReadBody(tag, rest, acc) == None;
    hide ReadBody;
    FieldWithTag(tag, rest, acc);
  }

  lemma {:induction false} PackedTruncated(parts: seq<int64>, v: int64, x: seq<byte>)
    requires x != [] && x < Varint64(v)
    ensures ReadPacked(Packed(parts) + x) == None
    decreases |parts|
  {
    PackedThen(parts, x);
    VarintTruncated(ToUnsigned(v), x, 10);
  }

  /** Packed positions, then something that cannot be read. */
  lemma {:induction false} PackedThen(parts: seq<int64>, x: seq<byte>)
    ensures ReadPacked(x).None? ==> ReadPacked(Packed(parts) + x).None?
  {
    if ReadPacked(x).None? {
      if parts == [] {
        assert Packed(parts) + x == x;
      } else {
        var k := |parts| - 1;
        var bs := Varint64(parts[k]) + x;
        Int64Read(parts[k], x);
        assert bs != [];
        assert ReadPacked(bs).None?;
        PackedThen(parts[..k], bs);
        assert Packed(parts) + x == Packed(parts[..k]) + bs;
      }
    }
  }

  /** A table cut off within a field cannot be parsed, whatever was read before. */
  lemma ShellTruncated(shell: int64, x: seq<byte>, acc: Lut)
    requires x != [] && x < ShellField(shell)
    ensures ParseInto(x, acc) == None
  {
    var y := x[1..];
    assert x == [8] + y && y < Varint64(shell);
    VarintTruncated(ToUnsigned(shell), y, 10);
    assert EncodeVarint(8) == [8];
    FieldWithTag(8, y, acc);
  }

  lemma PartsTruncated(parts: seq<int64>, x: seq<byte>, acc: Lut)
    requires |Packed(parts)| <= MAX_SIZE && x != [] && x < PartsField(parts)
    ensures ParseInto(x, acc) == None
  {
    var head, data := EncodeVarint(|Packed(parts)|), Packed(parts);
    var y := x[1..];
    assert PartsField(parts)[1..] == head + data;
    assert x == [18] + y && y < head + data;
    BlockTruncated(data, y);
    assert EncodeVarint(18) == [18];
    FieldWithTag(18, y, acc);
  }

  lemma NoLengthNoBlock(y: seq<byte>)
    requires DecodeVarint(y, 5) == None
    ensures ReadBlock(y) == None
  {
  }

  lemma BlockTruncated(data: seq<byte>, y: seq<byte>)
    requires |data| <= MAX_SIZE && y < EncodeVarint(|data|) + data
    ensures ReadBlock(y) == None
  {
    hide EncodeVarint, Packed, ReadBlock, DecodeVarint;
    var head := EncodeVarint(|data|);
    if |y| < |head| {
      assert y == (head + data)[..|y|] == head[..|y|];
      VarintTruncated(|data|, y, 5);
      NoLengthNoBlock(y);
    } else {
      assert y == head + y[|head|..];
      AnnouncedBlock(|data|, y[|head|..]);
    }
  }

  // ---------------------------------------------------------------------------------------------
  // The message object
  // ---------------------------------------------------------------------------------------------

  /** static_cast<int>. */
  function ToInt32(u: nat): int32 {
    var w := u % 0x1_0000_0000;
    if w >= 0x8000_0000 then w - 0x1_0000_0000 else w
  }

  /** The size of a length field: that of the length as a sign-extended 32-bit value. */
  function LengthSize(length: nat): nat { VarintSize64(ToUnsigned(ToInt32(length))) }

  /** The cast keeps the value modulo 2^32; from 2^31 to 2^32 it turns negative, and the length field takes 10 bytes. */
  lemma ToInt32Law(u: nat)
    ensures (ToInt32(u) - u) % 0x1_0000_0000 == 0
    ensures 0x8000_0000 <= u < 0x1_0000_0000 ==> ToInt32(u) < 0 && LengthSize(u) == 10
  {
    var q := u / 0x1_0000_0000;
    assert u == q * 0x1_0000_0000 + u % 0x1_0000_0000;
    assert ToInt32(u) - u == (if u % 0x1_0000_0000 >= 0x8000_0000 then -q - 1 else -q) * 0x1_0000_0000;
    if 0x8000_0000 <= u < 0x1_0000_0000 { TenBytes(ToUnsigned(ToInt32(u))); }
  }

  lemma TenBytes(u: nat)
    requires 0x8000_0000_0000_0000 <= u < TWO_64
    ensures VarintSize64(u) == 10
  {
    VarintSizeIsLength(u);
    LongVarint(u, 10);
  }

  lemma {:induction false} LongVarint(u: nat, n: nat)
    requires n > 0 && u >= Pow128(n - 1) && u < 128 * Pow128(n - 1)
    ensures |EncodeVarint(u)| == n
  {
    if n > 1 { LongVarint(u / 128, n - 1); }
  }

  lemma PackedSnoc(parts: seq<int64>, i: nat)
    requires i < |parts|
    ensures Packed(parts[..i + 1]) == Packed(parts[..i]) + Varint64(parts[i])
  {
    assert parts[..i + 1][..i] == parts[..i];
  }

  lemma LengthSizeIsLength(length: nat)
    requires length < 0x8000_0000
    ensures ToInt32(length) == length && LengthSize(length) == |EncodeVarint(length)|
  {
    hide EncodeVarint, VarintSize64;
    VarintSizeIsLength(length);
  }

  /** The summing loop over a repeated field. */
  method Int64Size(parts: seq<int64>) returns (data: nat)
    ensures data == |Packed(parts)|
  {
    hide EncodeVarint, Packed, VarintSize64;
    data := 0;
    PackedNonEmpty(parts[..0]);
    for i := 0 to |parts|
      invariant data == |Packed(parts[..i])|
    {
      PackedSnoc(parts, i);
      VarintSizeIsLength(ToUnsigned(parts[i]));
      data := data + VarintSize64(ToUnsigned(parts[i]));
    }
    assert parts[..|parts|] == parts;
  }

  class LutMessage {
    var shell: int64
    var parts: seq<int64>
    var partsCachedByteSize: int32
    var cachedSize: int32

    ghost function Value(): Lut
      reads this
    {
      Lut(shell, parts)
    }

    constructor ()
      ensures Value() == EMPTY
    {
      shell, parts, partsCachedByteSize, cachedSize := 0, [], 0, 0;
    }

    method Clear()
      modifies `shell, `parts
      ensures Value() == EMPTY
    {
      parts := [];
      shell := 0;
    }

    method MergeFrom(from: LutMessage)
      requires from != this
      modifies `shell, `parts
      ensures Value() == Merged(old(Value()), from.Value())
    {
      parts := parts + from.parts;
      if from.shell != 0 {
        shell := from.shell;
      }
    }

    /** Copying leaves an exact copy, also from a table whose shell position is the default, and also
        from the message itself. */
    method CopyFrom(from: LutMessage)
      modifies `shell, `parts
      ensures Value() == old(from.Value())
    {
      if from == this { return; }
      Clear();
      MergeFrom(from);
      assert [] + from.parts == from.parts;
    }

    /** The size comes from the closed formula, not from encoding, and the size of the packed data is kept for
        the serialisation that follows. Cached sizes are 32-bit: they wrap around, and the length field is sized
        wrongly, from 2 GiB of packed data on. */
    method ByteSizeLong() returns (total: nat)
      modifies `partsCachedByteSize, `cachedSize
      ensures |Packed(parts)| < 0x8000_0000 ==>
                total == |Serialized(Value())| && partsCachedByteSize == |Packed(parts)|
      ensures total == |ShellField(shell)|
                       + (if parts == [] then 0 else 1 + LengthSize(|Packed(parts)|) + |Packed(parts)|)
      ensures partsCachedByteSize == ToInt32(|Packed(parts)|) && cachedSize == ToInt32(total)
    {
      hide EncodeVarint, Packed, VarintSize64, ToInt32;
      var data := Int64Size(parts);
      partsCachedByteSize := ToInt32(data);
      if data < 0x8000_0000 { LengthSizeIsLength(data); }
      PackedNonEmpty(parts);
      total := 0;
      if data > 0 {
        total := 1 + LengthSize(data) + data;
      }
      if shell != 0 {
        VarintSizeIsLength(ToUnsigned(shell));
        total := total + 1 + VarintSize64(ToUnsigned(shell));
      }
      cachedSize := ToInt32(total);
    }

    /** Serialising trusts the cached size of the packed data: it must be up to date. */
    method InternalSerialize(target: seq<byte>) returns (end: seq<byte>)
      requires partsCachedByteSize == |Packed(parts)|
      ensures end == target + Serialized(Value())
    {
      hide EncodeVarint, Packed, ShellField, PartsField, Serialized;
      FieldsAppend(target, Value());
      end := target;
      if shell != 0 {
        end := WriteVarint(target + [SHELL_TAG], ToUnsigned(shell));
      }
      if partsCachedByteSize > 0 {
        end := WriteInt64Packed(end, parts, partsCachedByteSize);
      }
    }
  }

  lemma FieldsAppend(target: seq<byte>, l: Lut)
    ensures var shell := if l.shell != 0 then target + [SHELL_TAG] + EncodeVarint(ToUnsigned(l.shell)) else target;
            target + Serialized(l)
            == if |Packed(l.parts)| > 0 then shell + [PACKED_TAG] + EncodeVarint(|Packed(l.parts)|) + Packed(l.parts)
               else shell
  {
    PackedNonEmpty(l.parts);
    hide EncodeVarint, Packed;
    var s, p, data := ShellField(l.shell), PartsField(l.parts), Packed(l.parts);
    Regroup(target, s, p, []);
    Regroup(target, [SHELL_TAG], Varint64(l.shell), []);
    Regroup(target + s, [PACKED_TAG], EncodeVarint(|data|), data);
    assert s + p + [] == s + p && target + s + p + [] == target + s + p;
    assert target + [] == target && target + s + [] == target + s;
    assert [SHELL_TAG] + Varint64(l.shell) + [] == [SHELL_TAG] + Varint64(l.shell);
  }

  lemma Regroup(t: seq<byte>, a: seq<byte>, b: seq<byte>, c: seq<byte>)
    ensures t + (a + b + c) == t + a + b + c
  {
  }

  /** A packed field whose length is given rather than computed. */
  method WriteInt64Packed(target: seq<byte>, parts: seq<int64>, byteSize: nat) returns (end: seq<byte>)
    ensures end == target + [PACKED_TAG] + EncodeVarint(byteSize) + Packed(parts)
  {
    hide EncodeVarint, Packed;
    PackedNonEmpty(parts[..0]);
    end := WriteVarint(target + [PACKED_TAG], byteSize);
    assert Packed(parts[..0]) == [];
    for i := 0 to |parts|
      invariant end == target + [PACKED_TAG] + EncodeVarint(byteSize) + Packed(parts[..i])
    {
      PackedSnoc(parts, i);
      end := WriteVarint(end, ToUnsigned(parts[i]));
    }
    assert parts[..|parts|] == parts;
  }

  lemma PackedNonEmpty(parts: seq<int64>)
    ensures |Packed(parts)| > 0 <==> parts != []
  {
  }

  /** The loop that writes a varint: seven bits at a time while more than seven are left. */
  method WriteVarint(target: seq<byte>, v: nat) returns (end: seq<byte>)
    ensures end == target + EncodeVarint(v)
  {
    end := target;
    var value := v;
    while value >= 128
      invariant end + EncodeVarint(value) == target + EncodeVarint(v)
    {
      assert EncodeVarint(value) == [value % 128 + 128] + EncodeVarint(value / 128);
      end := end + [value % 128 + 128];
      value := value / 128;
    }
    end := end + [value];
  }
}
