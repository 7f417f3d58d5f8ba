/** The parts of the Protocol Buffers wire format the look-up tables use: base 128 varints, 64-bit
    signed values, little-endian pointers and size-delimited payloads. */
module WireFormat {
  import opened Wrappers

  type byte = b: int | 0 <= b < 256
  type int64 = v: int | -0x8000_0000_0000_0000 <= v < 0x8000_0000_0000_0000

  const TWO_64: int := 0x1_0000_0000_0000_0000
  const MAX_SIZE: int := 0x7fff_ffff - 16 // the largest length a length-delimited field may announce

  /** A value read off the front of some bytes, and the bytes after it. */
  datatype Read<+T> = Read(value: T, rest: seq<byte>)

  function ToUnsigned(v: int64): (u: nat)
    ensures u < TWO_64
  {
    if v < 0 then v + TWO_64 else v
  }

  function ToSigned(u: nat): int64 {
    var w := u % TWO_64;
    if w >= 0x8000_0000_0000_0000 then w - TWO_64 else w
  }

  /** The unsigned value modulo 2^64. */
  lemma ToSignedLaw(u: nat)
    ensures (ToSigned(u) - u) % 0x1_0000_0000_0000_0000 == 0
  {
    var q := u / TWO_64;
    assert u == q * TWO_64 + u % TWO_64;
    assert ToSigned(u) - u == (if u % TWO_64 >= 0x8000_0000_0000_0000 then -q - 1 else -q) * TWO_64;
  }

  function EncodeVarint(u: nat): (bs: seq<byte>)
    ensures |bs| > 0
  {
    if u < 128 then [u] else [u % 128 + 128] + EncodeVarint(u / 128)
  }

  /** At most max bytes are read; None when the value does not end within them. */
  function DecodeVarint(bs: seq<byte>, max: nat): (r: Option<Read<nat>>)
    ensures r.Some? ==> |r.value.rest| < |bs|
  {
    if bs == [] || max == 0 then None
    else if bs[0] < 128 then Some(Read(bs[0], bs[1..]))
    else match DecodeVarint(bs[1..], max - 1)
      case None => None
      case Some(r) => Some(Read(bs[0] - 128 + 128 * r.value, r.rest))
  }

  /** 128 to the n. */
  ghost function Pow128(n: nat): nat { if n == 0 then 1 else 128 * Pow128(n - 1) }

  lemma {:induction false} VarintRoundTrip(u: nat, rest: seq<byte>, max: nat)
    requires 0 < max && u < Pow128(max)
    ensures DecodeVarint(EncodeVarint(u) + rest, max) == Some(Read(u, rest))
    ensures |EncodeVarint(u)| <= max
  {
    var bs := EncodeVarint(u) + rest;
    if u < 128 {
      assert bs[1..] == rest;
    } else {
      assert bs[1..] == EncodeVarint(u / 128) + rest;
      assert Pow128(1) == 128;
      VarintRoundTrip(u / 128, rest, max - 1);
    }
  }

  /** A value read from bytes is read the same way when more bytes follow. */
  lemma {:induction false} VarintExtends(bs: seq<byte>, more: seq<byte>, max: nat)
    requires DecodeVarint(bs, max).Some?
    ensures var r := DecodeVarint(bs, max).value;
            DecodeVarint(bs + more, max) == Some(Read(r.value, r.rest + more))
  {
    assert (bs + more)[1..] == bs[1..] + more;
    if bs[0] >= 128 { VarintExtends(bs[1..], more, max - 1); }
  }

  /** The first byte below 128 is the n-th. */
  ghost predicate EndsAt(bs: seq<byte>, n: nat) {
    n < |bs| && bs[n] < 128 && forall i :: 0 <= i < n ==> bs[i] >= 128
  }

  /** The low seven bits of the first n bytes, lowest group first. */
  ghost function GroupsValue(bs: seq<byte>, n: nat): nat
    requires n <= |bs|
  {
    if n == 0 then 0 else bs[0] % 128 + 128 * GroupsValue(bs[1..], n - 1)
  }

  /** Reading a varint, for all bytes: it succeeds exactly if a byte below 128 comes within max bytes, and then yields
      the seven-bit groups up to there and what lies behind. */
  lemma {:induction false} VarintExactly(bs: seq<byte>, max: nat)
    ensures DecodeVarint(bs, max).Some? <==> exists n :: 0 <= n < max && EndsAt(bs, n)
    ensures forall n :: 0 <= n < max && EndsAt(bs, n) ==>
              DecodeVarint(bs, max) == Some(Read(GroupsValue(bs, n + 1), bs[n + 1..]))
  {
    if bs != [] && max > 0 {
      if bs[0] < 128 {
        assert EndsAt(bs, 0);
        assert GroupsValue(bs[1..], 0) == 0;
        assert GroupsValue(bs, 1) == bs[0];
      } else {
        VarintExactly(bs[1..], max - 1);
        forall n: nat ensures EndsAt(bs, n + 1) <==> EndsAt(bs[1..], n) {
          EndsAtShift(bs, n);
        }
        if DecodeVarint(bs, max).Some? {
          var n :| 0 <= n < max - 1 && EndsAt(bs[1..], n);
          assert EndsAt(bs, n + 1);
        }
        forall n | 0 <= n < max && EndsAt(bs, n)
          ensures DecodeVarint(bs, max) == Some(Read(GroupsValue(bs, n + 1), bs[n + 1..]))
        {
          assert n > 0 && EndsAt(bs[1..], n - 1);
          assert bs[1..][n..] == bs[n + 1..];
        }
      }
    }
  }

  lemma EndsAtShift(bs: seq<byte>, n: nat)
    requires bs != [] && bs[0] >= 128
    ensures EndsAt(bs, n + 1) <==> EndsAt(bs[1..], n)
  {
    if EndsAt(bs[1..], n) {
      forall i | 0 <= i < n + 1 ensures bs[i] >= 128 {
        if i > 0 { assert bs[1..][i - 1] >= 128; }
      }
    }
  }

  /** A varint cut off anywhere cannot be read. */
  lemma {:induction false} VarintTruncated(u: nat, x: seq<byte>, max: nat)
    requires x < EncodeVarint(u)
    ensures DecodeVarint(x, max) == None
  {
    if x != [] && max > 0 {
      assert u >= 128 && x[0] == u % 128 + 128;
      assert x[1..] < EncodeVarint(u / 128);
      VarintTruncated(u / 128, x[1..], max - 1);
    }
  }

  lemma Pow128Values()
    ensures Pow128(5) == 0x8_0000_0000 && Pow128(10) == 0x40_0000_0000_0000_0000
  {
    assert Pow128(1) == 128;
    assert Pow128(2) == 0x4000;
    assert Pow128(3) == 0x20_0000;
    assert Pow128(4) == 0x1000_0000;
    assert Pow128(6) == 0x400_0000_0000;
    assert Pow128(7) == 0x2_0000_0000_0000;
    assert Pow128(8) == 0x100_0000_0000_0000;
    assert Pow128(9) == 0x8000_0000_0000_0000;
  }

  // ---------------------------------------------------------------------------------------------
  // The size of a varint without encoding it
  // ---------------------------------------------------------------------------------------------

  /** The position of the highest bit set; 0 for 0, as the library ors the value with 1. */
  function Log2(u: nat): nat { if u < 2 then 0 else 1 + Log2(u / 2) }

  /** CodedOutputStream::VarintSize64. */
  function VarintSize64(u: nat): nat { (Log2(u) * 9 + 73) / 64 }

  lemma Log2Div128(u: nat)
    requires u >= 128
    ensures Log2(u) == 7 + Log2(u / 128)
  {
    var a := u / 2;
    var b := a / 2;
    var c := b / 2;
    var d := c / 2;
    var e := d / 2;
    var f := e / 2;
    assert f / 2 == u / 128;
    assert Log2(d) == 1 + Log2(e) && Log2(e) == 1 + Log2(f) && Log2(f) == 1 + Log2(f / 2);
    assert Log2(u) == 1 + Log2(a) && Log2(a) == 1 + Log2(b) && Log2(b) == 1 + Log2(c) && Log2(c) == 1 + Log2(d);
  }

  lemma {:induction false} VarintLength(u: nat, max: nat)
    requires u < Pow128(max)
    ensures |EncodeVarint(u)| == Log2(u) / 7 + 1
  {
    if u >= 128 {
      Log2Div128(u);
      VarintLength(u / 128, max - 1);
    } else {
      assert Log2(u) < 7 by { SmallLog2(u); }
    }
  }

  lemma SmallLog2(u: nat)
    requires u < 128
    ensures Log2(u) < 7
  {
    assert u / 2 < 64 && u / 2 / 2 < 32 && u / 2 / 2 / 2 < 16 && u / 2 / 2 / 2 / 2 < 8;
    var v := u / 2 / 2 / 2 / 2;
    assert Log2(v) < 3;
    assert Log2(u / 2 / 2) <= 2 + Log2(v);
  }

  lemma {:induction false} Log2Below(u: nat, n: nat, p: nat)
    requires u < p && p == Pow2(n) && n > 0
    ensures Log2(u) < n
  {
    if u >= 2 { Log2Below(u / 2, n - 1, Pow2(n - 1)); }
  }

  ghost function Pow2(n: nat): nat { if n == 0 then 1 else 2 * Pow2(n - 1) }

  lemma TwiceProduct(a: nat, b: nat)
    ensures 2 * (a * b) == 2 * a * b
  {
  }

  lemma {:induction false} Pow2Add(m: nat, n: nat)
    ensures Pow2(m + n) == Pow2(m) * Pow2(n)
  {
    if m > 0 {
      Pow2Add(m - 1, n);
      TwiceProduct(Pow2(m - 1), Pow2(n));
    }
  }

  /** The closed formula is the length of the encoding, for every 64-bit value. */
  lemma VarintSizeIsLength(u: nat)
    requires u < TWO_64
    ensures VarintSize64(u) == |EncodeVarint(u)|
  {
    Pow128Values();
    VarintLength(u, 10);
    Pow2Is64();
    Log2Below(u, 64, TWO_64);
  }

  lemma Pow2Is64()
    ensures Pow2(64) == TWO_64
  {
    assert Pow2(8) == 256;
    Pow2Add(8, 8);
    Pow2Add(16, 16);
    Pow2Add(32, 32);
  }

  // ---------------------------------------------------------------------------------------------
  // Size-delimited payloads and little-endian pointers
  // ---------------------------------------------------------------------------------------------

  function Delimited(payload: seq<byte>): seq<byte> { EncodeVarint(|payload|) + payload }

  /** The payload ParseDelimitedFromZeroCopyStream hands to the message parser: a 32-bit varint size
      (longer ones are cut to 32 bits), then that many bytes. */
  function ReadDelimited(bs: seq<byte>): Option<seq<byte>> {
    match DecodeVarint(bs, 10)
    case None => None
    case Some(r) =>
      var size := r.value % 0x1_0000_0000;
      if size > MAX_SIZE || size > |r.rest| then None else Some(r.rest[..size])
  }

  /** Whatever length is announced and whatever follows: the length counts modulo 2^32, and the payload is exactly that
      many bytes, if there are that many and they are no more than 2^31 - 17. */
  lemma AnnouncedPayload(n: nat, rest: seq<byte>)
    requires n < TWO_64
    ensures var size := n % 0x1_0000_0000;
            ReadDelimited(EncodeVarint(n) + rest)
            == if size <= 0x7fff_ffef && size <= |rest| then Some(rest[..size]) else None
  {
    Pow128Values();
    VarintRoundTrip(n, rest, 10);
  }

  lemma DelimitedRoundTrip(payload: seq<byte>, rest: seq<byte>)
    requires |payload| <= 0x7fff_ffef
    ensures ReadDelimited(Delimited(payload) + rest) == Some(payload)
  {
    AnnouncedPayload(|payload|, payload + rest);
    assert Delimited(payload) + rest == EncodeVarint(|payload|) + (payload + rest);
    assert (payload + rest)[..|payload|] == payload;
  }

  /** A delimited message cut off anywhere, within its length or within its payload, cannot be read. */
  lemma DelimitedTruncated(payload: seq<byte>, x: seq<byte>)
    requires |payload| <= 0x7fff_ffef && x < Delimited(payload)
    ensures ReadDelimited(x) == None
  {
    var head := EncodeVarint(|payload|);
    if |x| < |head| {
      assert x == Delimited(payload)[..|x|] == head[..|x|];
      VarintTruncated(|payload|, x, 10);
    } else {
      var y := x[|head|..];
      assert x == head + y;
      AnnouncedPayload(|payload|, y);
    }
  }

  /** n bytes, lowest first. */
  function LittleEndian(bs: seq<byte>): nat {
    if bs == [] then 0 else bs[0] + 256 * LittleEndian(bs[1..])
  }

  function ToLittleEndian(u: nat, n: nat): (bs: seq<byte>)
    ensures |bs| == n
  {
    if n == 0 then [] else [u % 256] + ToLittleEndian(u / 256, n - 1)
  }

  ghost function Pow256(n: nat): nat { if n == 0 then 1 else 256 * Pow256(n - 1) }

  lemma {:induction false} LittleEndianRoundTrip(u: nat, n: nat)
    requires u < Pow256(n)
    ensures LittleEndian(ToLittleEndian(u, n)) == u
  {
    if n > 0 {
      assert ToLittleEndian(u, n)[1..] == ToLittleEndian(u / 256, n - 1);
      LittleEndianRoundTrip(u / 256, n - 1);
    }
  }

  /** An int64 as it lies in memory on the controller's machine. */
  function Int64Bytes(v: int64): (bs: seq<byte>)
    ensures |bs| == 8
  {
    ToLittleEndian(ToUnsigned(v), 8)
  }

  lemma Int64RoundTrip(v: int64)
    ensures ToSigned(LittleEndian(Int64Bytes(v))) == v
  {
    assert Pow256(2) == 0x1_0000;
    assert Pow256(4) == 0x1_0000_0000;
    assert Pow256(6) == 0x1_0000_0000_0000;
    assert Pow256(8) == TWO_64;
    LittleEndianRoundTrip(ToUnsigned(v), 8);
  }

  /** What eight bytes of a pointer stand for: the first one is the lowest. */
  lemma PointerValue(bs: seq<byte>)
    requires |bs| == 8
    ensures LittleEndian(bs)
            == (bs[0] as int) + 0x100 * (bs[1] as int) + 0x1_0000 * (bs[2] as int) + 0x100_0000 * (bs[3] as int)
               + 0x1_0000_0000 * (bs[4] as int) + 0x100_0000_0000 * (bs[5] as int)
               + 0x1_0000_0000_0000 * (bs[6] as int) + 0x100_0000_0000_0000 * (bs[7] as int)
  {
    Quarter(bs[..4]);
    Quarter(bs[4..]);
    LowAndHigh(bs[..4], bs[4..]);
    assert bs == bs[..4] + bs[4..];
  }

  lemma Quarter(bs: seq<byte>)
    requires |bs| == 4
    ensures LittleEndian(bs)
            == (bs[0] as int) + 0x100 * (bs[1] as int) + 0x1_0000 * (bs[2] as int) + 0x100_0000 * (bs[3] as int)
  {
    assert LittleEndian(bs[3..]) == bs[3] as int by { assert bs[3..] == [bs[3]]; }
    assert bs[2..][1..] == bs[3..] && bs[1..][1..] == bs[2..];
    assert LittleEndian(bs[2..]) == (bs[2] as int) + 256 * LittleEndian(bs[3..]);
    assert LittleEndian(bs[1..]) == (bs[1] as int) + 256 * LittleEndian(bs[2..]);
  }

  lemma LowAndHigh(low: seq<byte>, high: seq<byte>)
    requires |low| == 4
    ensures LittleEndian(low + high) == LittleEndian(low) + 0x1_0000_0000 * LittleEndian(high)
  {
    Quarter(low);
    var bs := low + high;
    assert bs[1..][1..] == bs[2..] && bs[2..][1..] == bs[3..] && bs[3..][1..] == bs[4..] == high;
    assert LittleEndian(bs[3..]) == (bs[3] as int) + 256 * LittleEndian(high);
    assert LittleEndian(bs[2..]) == (bs[2] as int) + 256 * LittleEndian(bs[3..]);
    assert LittleEndian(bs[1..]) == (bs[1] as int) + 256 * LittleEndian(bs[2..]);
  }
}
