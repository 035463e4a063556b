/** The UUID round trip a scenario of the test suite relies on: the sixteen
    bytes of `toByteArray`, rendered by Oracle's RAWTOHEX and cut with SUBSTR
    into groups of 8, 4, 4, 4 and the rest joined by '-', form text that
    `UUID.fromString` reads back as the original UUID. */
module RawToHexRegrouping {
  import opened Exceptions
  import opened BigEndian
  import opened UuidUtils

  /** RAWTOHEX: two upper-case hex digits per byte. */
  function RawToHex(bs: seq<Octet>): (hex: string)
    ensures |hex| == 2 * |bs|
  {
    HexText(NibblesOf(bs), true)
  }

  /** SUBSTR(s, position, length) for a position counted from 1; past the end
      Oracle yields NULL, which `||` treats as the empty string. */
  function Substr(s: string, position: nat, length: nat): string
    requires position >= 1
  {
    if position > |s| then ""
    else if position - 1 + length <= |s| then s[position - 1..position - 1 + length]
    else s[position - 1..]
  }

  /** SUBSTR(s, position): from `position` to the end. */
  function SubstrToEnd(s: string, position: nat): string
    requires position >= 1
  {
    if position > |s| then "" else s[position - 1..]
  }

  /** The SQL expression of the scenario applied to the RAWTOHEX text. */
  function Regroup(hex: string): string
  {
    Substr(hex, 1, 8) + "-" + Substr(hex, 9, 4) + "-" + Substr(hex, 13, 4) + "-"
    + Substr(hex, 17, 4) + "-" + SubstrToEnd(hex, 21)
  }

  /** ASCII lower-casing, the case folding `fromString`'s digits tolerate. */
  function LowerAscii(s: string): (t: string)
    ensures |t| == |s|
  {
    seq(|s|, i requires 0 <= i < |s| => if 'A' <= s[i] <= 'Z' then (s[i] as int + 32) as char else s[i])
  }

  /** RAWTOHEX of the UUID's bytes is the 32 hex digits of its halves. */
  lemma RawToHexOfUuidBytes(u: Uuid)
    ensures RawToHex(UuidBytes(u)) == HexText(UuidDigits(u), true)
  {
    NibblesOfAppend(EncodeLong(u.mostSignificantBits), EncodeLong(u.leastSignificantBits));
    NibblesOfBytes(u.mostSignificantBits, 8);
    NibblesOfBytes(u.leastSignificantBits, 8);
  }

  /** On 32 characters the SUBSTR groups are exactly the 8-4-4-4-12 layout. */
  lemma RegroupIsDashed(ds: seq<Nibble>)
    requires |ds| == 32
    ensures Regroup(HexText(ds, true)) == Dashed(ds, true)
  {
    var hex := HexText(ds, true);
    assert Substr(hex, 1, 8) == HexText(ds[..8], true);
    assert Substr(hex, 9, 4) == HexText(ds[8..12], true);
    assert Substr(hex, 13, 4) == HexText(ds[12..16], true);
    assert Substr(hex, 17, 4) == HexText(ds[16..20], true);
    assert SubstrToEnd(hex, 21) == HexText(ds[20..], true);
  }

  /** Lower-casing the upper-case layout gives the lower-case layout. */
  lemma LowerAsciiOfDashed(ds: seq<Nibble>)
    requires |ds| == 32
    ensures LowerAscii(Dashed(ds, true)) == Dashed(ds, false)
  {
    var up, low := Dashed(ds, true), Dashed(ds, false);
    DashedDigitsInOrder(ds, true);
    DashedDigitsInOrder(ds, false);
    forall i | 0 <= i < 36
      ensures LowerAscii(up)[i] == low[i]
    {
      if i !in {8, 13, 18, 23} {
        var j := if i < 8 then i else if i < 13 then i - 1 else if i < 18 then i - 2 else if i < 23 then i - 3 else i - 4;
        var hexUp := up[..8] + up[9..13] + up[14..18] + up[19..23] + up[24..];
        var hexLow := low[..8] + low[9..13] + low[14..18] + low[19..23] + low[24..];
        assert up[i] == hexUp[j] == HexDigit(ds[j], true);
        assert low[i] == hexLow[j] == HexDigit(ds[j], false);
      }
    }
  }

  /** The scenario's claim: RAWTOHEX of `toByteArray` has 32 characters; its
      regrouping equals `toString` ignoring case and parses back to the UUID. */
  lemma RegroupedRawHexIsUuidText(u: Uuid)
    ensures |RawToHex(UuidBytes(u))| == 32
    ensures LowerAscii(Regroup(RawToHex(UuidBytes(u)))) == ToString(u)
    ensures FromString(Regroup(RawToHex(UuidBytes(u)))) == Some(u)
  {
    RawToHexOfUuidBytes(u);
    RegroupIsDashed(UuidDigits(u));
    LowerAsciiOfDashed(UuidDigits(u));
    ToStringIsDashedDigits(u);
    DigitsAsHalves(u);
  }
}
