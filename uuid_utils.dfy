/** `UUID.toByteArray` and `UUID.adaptToVertxBuffer`, together with the
    `java.util.UUID` text form they rely on: the 16-octet network-order layout of
    section 4.1.2 of RFC 4122 and the 8-4-4-4-12 text form of its section 3. */
module UuidUtils {
  import opened Exceptions
  import opened Json
  import opened BigEndian

  /** A java.util.UUID is exactly its two signed 64-bit halves. */
  datatype Uuid = Uuid(mostSignificantBits: Int64, leastSignificantBits: Int64)

  const TwoTo63: int := 0x8000_0000_0000_0000
  const TwoTo64: int := 0x1_0000_0000_0000_0000

  lemma PowersOfTwo()
    ensures Pow256(8) == TwoTo64
    ensures Pow16(16) == TwoTo64
    ensures Pow16(4) == 0x1_0000
    ensures Pow16(8) == 0x1_0000_0000
    ensures Pow16(12) == 0x1_0000_0000_0000
  {
    assert Pow256(4) == 0x1_0000_0000;
    assert Pow16(4) == 0x1_0000;
    assert Pow16(8) == 0x1_0000_0000;
    assert Pow16(12) == 0x1_0000_0000_0000;
  }

  /** The signed long whose two's-complement bit pattern is `w` (`w` < 2^64). */
  function ToSigned64(w: nat): Int64
    requires w < TwoTo64
  {
    if w < TwoTo63 then w else w - TwoTo64
  }

  // ---------------------------------------------------------------------------
  // Bytes.

  /** What `ByteBuffer.putLong` writes: the eight big-endian bytes of `x`. */
  function EncodeLong(x: Int64): seq<Octet>
  {
    Bytes(x, 8)
  }

  /** What `ByteBuffer.getLong` reads back from eight bytes. */
  function DecodeLong(bs: seq<Octet>): Int64
    requires |bs| == 8
  {
    FromBytesBound(bs);
    PowersOfTwo();
    ToSigned64(FromBytes(bs))
  }

  lemma {:induction false} FromBytesBound(bs: seq<Octet>)
    ensures FromBytes(bs) < Pow256(|bs|)
    decreases |bs|
  {
    if bs != [] {
      FromBytesBound(bs[..|bs| - 1]);
    }
  }

  /** The sixteen bytes `toByteArray` produces: the most significant half, then
      the least significant half, each big-endian. */
  function UuidBytes(u: Uuid): seq<Octet>
  {
    EncodeLong(u.mostSignificantBits) + EncodeLong(u.leastSignificantBits)
  }

  /** The inverse reading: two big-endian longs. */
  function DecodeUuid(bs: seq<Octet>): Uuid
    requires |bs| == 16
  {
    Uuid(DecodeLong(bs[..8]), DecodeLong(bs[8..]))
  }

  /** Eight bytes read back as a long give the long that was written. */
  lemma DecodeEncodeLong(x: Int64)
    ensures DecodeLong(EncodeLong(x)) == x
  {
    FromBytesOfBytes(x, 8);
    PowersOfTwo();
    SignedOfResidue(x);
  }

  /** Reinterpreting the 64-bit pattern of a long as two's complement gives
      the long back. */
  lemma SignedOfResidue(x: Int64)
    ensures ToSigned64(x % TwoTo64) == x
  {
    if x >= 0 {
      assert x % TwoTo64 == x;
    } else {
      assert x % TwoTo64 == x + TwoTo64;
    }
  }

  /** The layout of `toByteArray`'s result: sixteen bytes; bytes 0..7 are the
      two's-complement big-endian form of the most significant bits, bytes
      8..15 that of the least significant bits. */
  lemma UuidBytesLayout(u: Uuid)
    ensures |UuidBytes(u)| == 16
    ensures UuidBytes(u)[..8] == Bytes(u.mostSignificantBits, 8)
    ensures UuidBytes(u)[8..] == Bytes(u.leastSignificantBits, 8)
    ensures FromBytes(UuidBytes(u)[..8]) == u.mostSignificantBits % TwoTo64
    ensures FromBytes(UuidBytes(u)[8..]) == u.leastSignificantBits % TwoTo64
  {
    var bs := UuidBytes(u);
    assert bs[..8] == Bytes(u.mostSignificantBits, 8);
    assert bs[8..] == Bytes(u.leastSignificantBits, 8);
    FromBytesOfBytes(u.mostSignificantBits, 8);
    FromBytesOfBytes(u.leastSignificantBits, 8);
    PowersOfTwo();
  }

  /** Reading the two halves back recovers the UUID. */
  lemma UuidBytesRoundTrip(u: Uuid)
    ensures |UuidBytes(u)| == 16
    ensures DecodeUuid(UuidBytes(u)) == u
  {
    UuidBytesLayout(u);
    DecodeEncodeLong(u.mostSignificantBits);
    DecodeEncodeLong(u.leastSignificantBits);
  }

  /** Distinct UUIDs never share a byte encoding. */
  lemma UuidBytesInjective(u: Uuid, v: Uuid)
    requires UuidBytes(u) == UuidBytes(v)
    ensures u == v
  {
    UuidBytesRoundTrip(u);
    UuidBytesRoundTrip(v);
  }

  /** `ByteBuffer.wrap(array)`: a heap buffer over `hb` whose write position
      advances with each relative put. */
  class ByteBuffer {
    const hb: array<Octet>
    var position: nat

    ghost predicate Valid()
      reads this
    {
      position <= hb.Length
    }

    constructor Wrap(a: array<Octet>)
      ensures Valid() && hb == a && position == 0
    {
      hb := a;
      position := 0;
    }

    /** Relative `putLong`: writes `x` big-endian at the position and advances
        it by eight, or fails with BufferOverflowException (`ok` false) leaving
        everything unchanged when fewer than eight bytes remain. */
    method PutLong(x: Int64) returns (ok: bool)
      requires Valid()
      modifies this, hb
      ensures Valid()
      ensures ok == (old(position) + 8 <= hb.Length)
      ensures ok ==> position == old(position) + 8
      ensures ok ==> hb[..] == old(hb[..position]) + EncodeLong(x) + old(hb[position + 8..])
      ensures !ok ==> position == old(position) && hb[..] == old(hb[..])
    {
      if position + 8 > hb.Length {
        return false;
      }
      WriteLong(hb, position, x);
      position := position + 8;
      ok := true;
    }
  }

  /** The absolute big-endian store behind `putLong`: the eight bytes of `x`
      go to `a[p..p + 8]`, least significant byte last. */
  method WriteLong(a: array<Octet>, p: nat, x: Int64)
    requires p + 8 <= a.Length
    modifies a
    ensures a[..] == old(a[..p]) + EncodeLong(x) + old(a[p + 8..])
  {
    ghost var before, encoded := a[..], EncodeLong(x);
    var v: int := x;
    var i := 8;
    while i > 0
      invariant 0 <= i <= 8
      invariant forall k :: 0 <= k < a.Length && !(p + i <= k < p + 8) ==> a[k] == old(a[k])
      invariant encoded == Bytes(v, i) + a[p + i..p + 8]
    {
      ghost var written := a[p + i..p + 8];
      a[p + i - 1] := v % 256;
      assert a[p + i..p + 8] == written;
      assert a[p + i - 1..p + 8] == [v % 256] + written;
      BytesStep(encoded, v, i, written);
      v := v / 256;
      i := i - 1;
    }
    assert a[p..p + 8] == encoded;
    Splice(before, a[..], p, encoded);
  }

  /** One step of `WriteLong`: moving the lowest remaining byte of `v` to the
      front of the bytes already written keeps the whole encoding. */
  lemma BytesStep(encoded: seq<Octet>, v: int, i: nat, written: seq<Octet>)
    requires i > 0 && encoded == Bytes(v, i) + written
    ensures encoded == Bytes(v / 256, i - 1) + ([v % 256] + written)
  {
    assert Bytes(v, i) == Bytes(v / 256, i - 1) + [v % 256];
  }

  /** A sequence that agrees with `before` outside `[p, p + |bytes|)` and
      holds `bytes` inside is `before` with that window replaced. */
  lemma Splice(before: seq<Octet>, after: seq<Octet>, p: nat, bytes: seq<Octet>)
    requires |after| == |before| && p + |bytes| <= |before|
    requires after[p..p + |bytes|] == bytes
    requires forall k :: 0 <= k < |before| && !(p <= k < p + |bytes|) ==> after[k] == before[k]
    ensures after == before[..p] + bytes + before[p + |bytes|..]
  {
    var spliced := before[..p] + bytes + before[p + |bytes|..];
    forall k | 0 <= k < |after|
      ensures after[k] == spliced[k]
    {
      if p <= k < p + |bytes| {
        assert after[k] == after[p..p + |bytes|][k - p];
      }
    }
  }

  /** `UUID.toByteArray`: a fresh 16-byte array filled by two `putLong` calls. */
  method ToByteArray(u: Uuid) returns (a: array<Octet>)
    ensures fresh(a)
    ensures a[..] == UuidBytes(u)
  {
    var zeros := new Octet[16](_ => 0);
    var buffer := new ByteBuffer.Wrap(zeros);
    var ok := buffer.PutLong(u.mostSignificantBits);
    ok := buffer.PutLong(u.leastSignificantBits);
    a := buffer.hb;
  }

  // ---------------------------------------------------------------------------
  // Text.

  /** One hex digit as a character: '0'-'9', then 'A'-'F' or 'a'-'f'. */
  function HexDigit(d: Nibble, upper: bool): char
  {
    if d < 10 then ('0' as int + d) as char
    else if upper then ('A' as int + d - 10) as char
    else ('a' as int + d - 10) as char
  }

  predicate IsLowerHexChar(c: char)
  {
    '0' <= c <= '9' || 'a' <= c <= 'f'
  }

  predicate IsHexChar(c: char)
  {
    '0' <= c <= '9' || 'a' <= c <= 'f' || 'A' <= c <= 'F'
  }

  function HexText(ds: seq<Nibble>, upper: bool): (s: string)
    ensures |s| == |ds|
  {
    seq(|ds|, i requires 0 <= i < |ds| => HexDigit(ds[i], upper))
  }

  /** `UUID.digits(v, n)`: the low `n` hex digits of `v`, lower case. */
  function LowHex(v: int, n: nat): string
  {
    HexText(Digits(v, n), false)
  }

  /** `UUID.toString()`: time-low, time-mid, time-high-and-version,
      clock-seq and node, joined by '-', each the low digits of a half after
      dropping the digits to its right. Whether the shift is signed or not
      does not matter, as only the low digits are kept. */
  function ToString(u: Uuid): string
  {
    var msb, lsb := u.mostSignificantBits, u.leastSignificantBits;
    LowHex(msb / 0x1_0000_0000, 8) + "-" + LowHex(msb / 0x1_0000, 4) + "-" + LowHex(msb, 4) + "-"
    + LowHex(lsb / 0x1_0000_0000_0000, 4) + "-" + LowHex(lsb, 12)
  }

  /** Thirty-two hex digits laid out 8-4-4-4-12 with '-' between the groups. */
  function Dashed(ds: seq<Nibble>, upper: bool): (s: string)
    requires |ds| == 32
    ensures |s| == 36
  {
    HexText(ds[..8], upper) + "-" + HexText(ds[8..12], upper) + "-" + HexText(ds[12..16], upper) + "-"
    + HexText(ds[16..20], upper) + "-" + HexText(ds[20..], upper)
  }

  /** The 32 hex digits of a UUID: those of its sixteen bytes. */
  function UuidDigits(u: Uuid): (ds: seq<Nibble>)
    ensures |ds| == 32
  {
    Digits(u.mostSignificantBits, 16) + Digits(u.leastSignificantBits, 16)
  }

  /** `toString` is the 32 hex digits of the two halves, grouped 8-4-4-4-12. */
  lemma ToStringIsDashedDigits(u: Uuid)
    ensures ToString(u) == Dashed(UuidDigits(u), false)
  {
    UuidDigitGroups(u);
  }

  /** The five groups of the text form are consecutive runs of the 32 digits. */
  lemma UuidDigitGroups(u: Uuid)
    ensures UuidDigits(u)[..8] == Digits(u.mostSignificantBits / 0x1_0000_0000, 8)
    ensures UuidDigits(u)[8..12] == Digits(u.mostSignificantBits / 0x1_0000, 4)
    ensures UuidDigits(u)[12..16] == Digits(u.mostSignificantBits, 4)
    ensures UuidDigits(u)[16..20] == Digits(u.leastSignificantBits / 0x1_0000_0000_0000, 4)
    ensures UuidDigits(u)[20..] == Digits(u.leastSignificantBits, 12)
  {
    var hi, lo := Digits(u.mostSignificantBits, 16), Digits(u.leastSignificantBits, 16);
    HighHalfGroups(u.mostSignificantBits);
    LowHalfGroups(u.leastSignificantBits);
    assert UuidDigits(u) == hi + lo;
    assert (hi + lo)[..8] == hi[..8];
    assert (hi + lo)[8..12] == hi[8..12];
    assert (hi + lo)[12..16] == hi[12..];
    assert (hi + lo)[16..20] == lo[..4];
    assert (hi + lo)[20..] == lo[4..];
  }

  lemma HighHalfGroups(msb: int)
    ensures Digits(msb, 16)[..8] == Digits(msb / 0x1_0000_0000, 8)
    ensures Digits(msb, 16)[8..12] == Digits(msb / 0x1_0000, 4)
    ensures Digits(msb, 16)[12..] == Digits(msb, 4)
  {
    var a, b, c := Digits(msb / 0x1_0000_0000, 8), Digits(msb / 0x1_0000, 4), Digits(msb, 4);
    SplitAt(msb, 8, 8, 0x1_0000_0000);
    SplitAt(msb, 4, 4, 0x1_0000);
    assert (a + (b + c))[..8] == a;
    assert (a + (b + c))[8..12] == b;
    assert (a + (b + c))[12..] == c;
  }

  lemma LowHalfGroups(lsb: int)
    ensures Digits(lsb, 16)[..4] == Digits(lsb / 0x1_0000_0000_0000, 4)
    ensures Digits(lsb, 16)[4..] == Digits(lsb, 12)
  {
    var a, b := Digits(lsb / 0x1_0000_0000_0000, 4), Digits(lsb, 12);
    SplitAt(lsb, 4, 12, 0x1_0000_0000_0000);
    assert (a + b)[..4] == a && (a + b)[4..] == b;
  }

  /** `DigitsSplit` with the power of sixteen written out. */
  lemma SplitAt(v: int, m: nat, k: nat, p: nat)
    requires k in {4, 8, 12} && p == Pow16(k)
    ensures Digits(v, m + k) == Digits(v / p, m) + Digits(v, k)
  {
    DigitsSplit(v, m, k);
  }

  /** The text form has 36 characters: '-' at offsets 8, 13, 18 and 23 and a
      lower-case hex digit everywhere else. */
  lemma ToStringShape(u: Uuid)
    ensures |ToString(u)| == 36
    ensures forall i :: 0 <= i < 36 ==>
      if i in {8, 13, 18, 23} then ToString(u)[i] == '-' else IsLowerHexChar(ToString(u)[i])
  {
    ToStringIsDashedDigits(u);
    DashedShape(UuidDigits(u));
  }

  lemma DashedShape(ds: seq<Nibble>)
    requires |ds| == 32
    ensures forall i :: 0 <= i < 36 ==>
      if i in {8, 13, 18, 23} then Dashed(ds, false)[i] == '-' else IsLowerHexChar(Dashed(ds, false)[i])
  {
    var s := Dashed(ds, false);
    DashedDigitsInOrder(ds, false);
    var hex := s[..8] + s[9..13] + s[14..18] + s[19..23] + s[24..];
    forall i | 0 <= i < 36 && i !in {8, 13, 18, 23}
      ensures IsLowerHexChar(s[i])
    {
      var j := if i < 8 then i else if i < 13 then i - 1 else if i < 18 then i - 2 else if i < 23 then i - 3 else i - 4;
      assert s[i] == hex[j];
      assert hex[j] == HexDigit(ds[j], false);
    }
  }

  function HexValue(c: char): (d: Nibble)
    requires IsHexChar(c)
  {
    if '0' <= c <= '9' then c as int - '0' as int
    else if 'a' <= c <= 'f' then c as int - 'a' as int + 10
    else c as int - 'A' as int + 10
  }

  predicate IsHexText(s: string)
  {
    forall i :: 0 <= i < |s| ==> IsHexChar(s[i])
  }

  /** `UUID.fromString` on the 36-character form: dashes at 8, 13, 18 and 23,
      hex digits of either case elsewhere. Other inputs yield None. */
  function FromString(s: string): Option<Uuid>
  {
    if |s| == 36 && s[8] == '-' && s[13] == '-' && s[18] == '-' && s[23] == '-' then
      var hex := s[..8] + s[9..13] + s[14..18] + s[19..23] + s[24..];
      if IsHexText(hex) then
        var ds := seq(32, i requires 0 <= i < 32 => HexValue(hex[i]));
        Some(Uuid(DecodeHexLong(ds[..16]), DecodeHexLong(ds[16..])))
      else None
    else None
  }

  /** Sixteen hex digits read as an unsigned number, reinterpreted as a
      two's-complement long. */
  function DecodeHexLong(ds: seq<Nibble>): Int64
    requires |ds| == 16
  {
    FromDigitsBound(ds);
    PowersOfTwo();
    ToSigned64(FromDigits(ds))
  }

  lemma {:induction false} FromDigitsBound(ds: seq<Nibble>)
    ensures FromDigits(ds) < Pow16(|ds|)
    decreases |ds|
  {
    if ds != [] {
      FromDigitsBound(ds[..|ds| - 1]);
    }
  }

  /** Dropping the four dashes of the layout leaves the digits in order. */
  lemma DashedDigitsInOrder(ds: seq<Nibble>, upper: bool)
    requires |ds| == 32
    ensures var s := Dashed(ds, upper);
      s[8] == '-' && s[13] == '-' && s[18] == '-' && s[23] == '-' &&
      s[..8] + s[9..13] + s[14..18] + s[19..23] + s[24..] == HexText(ds, upper)
  {
    var s := Dashed(ds, upper);
    var hex := s[..8] + s[9..13] + s[14..18] + s[19..23] + s[24..];
    assert s[..8] == HexText(ds[..8], upper);
    assert s[9..13] == HexText(ds[8..12], upper);
    assert s[14..18] == HexText(ds[12..16], upper);
    assert s[19..23] == HexText(ds[16..20], upper);
    assert s[24..] == HexText(ds[20..], upper);
    forall i | 0 <= i < 32
      ensures hex[i] == HexDigit(ds[i], upper)
    {
    }
  }

  lemma HexValueOfHexDigit(d: Nibble, upper: bool)
    ensures IsHexChar(HexDigit(d, upper))
    ensures HexValue(HexDigit(d, upper)) == d
  {
  }

  /** Parsing a dashed layout of 32 digits, in either case, reads the first 16
      digits as the most significant half and the last 16 as the other. */
  lemma FromStringOfDashed(ds: seq<Nibble>, upper: bool)
    requires |ds| == 32
    ensures FromString(Dashed(ds, upper)) == Some(Uuid(DecodeHexLong(ds[..16]), DecodeHexLong(ds[16..])))
  {
    var s := Dashed(ds, upper);
    var hex := s[..8] + s[9..13] + s[14..18] + s[19..23] + s[24..];
    DashedDigitsInOrder(ds, upper);
    forall i | 0 <= i < 32
      ensures IsHexChar(hex[i]) && HexValue(hex[i]) == ds[i]
    {
      HexValueOfHexDigit(ds[i], upper);
    }
    var ds' := seq(32, i requires 0 <= i < 32 => HexValue(hex[i]));
    assert ds' == ds;
  }

  /** `UUID.fromString(u.toString()) == u`. */
  lemma ToStringRoundTrip(u: Uuid)
    ensures FromString(ToString(u)) == Some(u)
  {
    ToStringIsDashedDigits(u);
    DigitsAsHalves(u);
  }

  /** Reading the first and last 16 digits as unsigned numbers gives the
      two's-complement patterns of the halves. */
  lemma DigitsAsHalves(u: Uuid)
    ensures FromString(Dashed(UuidDigits(u), false)) == Some(u)
    ensures FromString(Dashed(UuidDigits(u), true)) == Some(u)
  {
    var ds := UuidDigits(u);
    assert ds[..16] == Digits(u.mostSignificantBits, 16);
    assert ds[16..] == Digits(u.leastSignificantBits, 16);
    SignedOfDigits(u.mostSignificantBits);
    SignedOfDigits(u.leastSignificantBits);
    FromStringOfDashed(ds, false);
    FromStringOfDashed(ds, true);
  }

  /** Sixteen hex digits of a long, read back unsigned and reinterpreted as
      two's complement, give the long. */
  lemma SignedOfDigits(x: Int64)
    ensures DecodeHexLong(Digits(x, 16)) == x
  {
    FromDigitsOfDigits(x, 16);
    PowersOfTwo();
    SignedOfResidue(x);
  }

  // ---------------------------------------------------------------------------
  // adaptToVertxBuffer.

  /** UTF-8 for text made of ASCII characters: one byte per character. */
  function AsciiBytes(s: string): (bs: seq<Octet>)
    requires forall i :: 0 <= i < |s| ==> s[i] as int < 128
    ensures |bs| == |s|
  {
    seq(|s|, i requires 0 <= i < |s| => s[i] as int)
  }

  function AsciiText(bs: seq<Octet>): (s: string)
    ensures |s| == |bs|
  {
    seq(|bs|, i requires 0 <= i < |bs| => bs[i] as char)
  }

  /** `UUID.adaptToVertxBuffer`: a Vert.x buffer holding the UTF-8 bytes of the
      canonical text. */
  function AdaptToVertxBuffer(u: Uuid): seq<Octet>
  {
    ToStringShape(u);
    AsciiBytes(ToString(u))
  }

  /** The buffer holds 36 bytes: '-' at offsets 8, 13, 18 and 23 and the code
      of a lower-case hex digit everywhere else; read as text it parses back to
      the UUID. */
  lemma AdaptToVertxBufferContents(u: Uuid)
    ensures |AdaptToVertxBuffer(u)| == 36
    ensures forall i :: 0 <= i < 36 ==>
      if i in {8, 13, 18, 23} then AdaptToVertxBuffer(u)[i] == '-' as int
      else IsLowerHexChar(AdaptToVertxBuffer(u)[i] as char)
    ensures FromString(AsciiText(AdaptToVertxBuffer(u))) == Some(u)
  {
    ToStringShape(u);
    ToStringRoundTrip(u);
    var text := ToString(u);
    assert AsciiText(AsciiBytes(text)) == text;
  }
}
