/** Positional notation over 8-bit bytes and 4-bit hex digits, most significant
    first: the byte order of `java.nio.ByteBuffer` (big-endian by default) and
    the digit order of hexadecimal text. */
module BigEndian {

  type Octet = x: int | 0 <= x < 256
  type Nibble = x: int | 0 <= x < 16

  function Pow256(n: nat): (p: nat)
    ensures p >= 1
  {
    if n == 0 then 1 else 256 * Pow256(n - 1)
  }

  function Pow16(n: nat): (p: nat)
    ensures p >= 1
  {
    if n == 0 then 1 else 16 * Pow16(n - 1)
  }

  /** The low `n` bytes of `v`'s two's-complement form, most significant first:
      byte `i` is `(byte)(v >> 8 * (n - 1 - i))`. */
  function Bytes(v: int, n: nat): (r: seq<Octet>)
    ensures |r| == n
    decreases n
  {
    if n == 0 then [] else Bytes(v / 256, n - 1) + [v % 256]
  }

  /** The low `n` hex digits of `v`'s two's-complement form, most significant first. */
  function Digits(v: int, n: nat): (r: seq<Nibble>)
    ensures |r| == n
    decreases n
  {
    if n == 0 then [] else Digits(v / 16, n - 1) + [v % 16]
  }

  /** The unsigned value of a big-endian byte string. */
  function FromBytes(bs: seq<Octet>): nat
  {
    if bs == [] then 0 else FromBytes(bs[..|bs| - 1]) * 256 + bs[|bs| - 1]
  }

  /** The unsigned value of a big-endian digit string. */
  function FromDigits(ds: seq<Nibble>): nat
  {
    if ds == [] then 0 else FromDigits(ds[..|ds| - 1]) * 16 + ds[|ds| - 1]
  }

  /** Each byte split into its high and low hex digit. */
  function NibblesOf(bs: seq<Octet>): (r: seq<Nibble>)
    ensures |r| == 2 * |bs|
  {
    if bs == [] then [] else NibblesOf(bs[..|bs| - 1]) + [bs[|bs| - 1] / 16, bs[|bs| - 1] % 16]
  }

  // ---------------------------------------------------------------------------
  // Arithmetic facts about Euclidean division by a positive divisor.

  lemma MulNonNegative(a: int, b: int)
    requires a >= 0 && b >= 0
    ensures a * b >= 0
  {
  }

  lemma MulSub(a: int, b: int, c: int)
    ensures a * b - a * c == a * (b - c)
  {
  }

  lemma DivModUnique(v: int, d: int, q: int, r: int)
    requires d > 0 && v == d * q + r && 0 <= r < d
    ensures v / d == q && v % d == r
  {
    var q', r' := v / d, v % d;
    assert v == d * q' + r';
    if q' > q {
      MulSub(d, q', q);
      MulNonNegative(d, q' - q - 1);
      MulSub(d, q' - q, 1);
      assert false;
    } else if q' < q {
      MulSub(d, q, q');
      MulNonNegative(d, q - q' - 1);
      MulSub(d, q - q', 1);
      assert false;
    }
  }

  lemma DivDiv(v: int, a: int, b: int)
    requires a > 0 && b > 0
    ensures a * b > 0
    ensures (v / a) / b == v / (a * b)
    ensures (v / a % b) * a + v % a == v % (a * b)
  {
    var q, r := v / a, v % a;
    var q2, r2 := q / b, q % b;
    assert v == a * q + r;
    assert q == b * q2 + r2;
    assert a * q == a * (b * q2) + a * r2;
    assert a * (b * q2) == (a * b) * q2;
    MulNonNegative(a, r2);
    MulNonNegative(a, b - 1 - r2);
    MulSub(a, b - 1, r2);
    MulSub(a, b, 1);
    MulNonNegative(a - 1, b - 1);
    DivModUnique(v, a * b, q2, a * r2 + r);
  }

  // ---------------------------------------------------------------------------
  // Round trips and regroupings.

  /** Decoding the `n` bytes of `v` gives `v` modulo 2^(8n): the two's-complement
      bytes determine the low bits of `v` exactly. */
  lemma {:induction false} FromBytesOfBytes(v: int, n: nat)
    ensures FromBytes(Bytes(v, n)) == v % Pow256(n)
    decreases n
  {
    if n > 0 {
      var bs := Bytes(v, n);
      assert bs[..n - 1] == Bytes(v / 256, n - 1);
      FromBytesOfBytes(v / 256, n - 1);
      DivDiv(v, 256, Pow256(n - 1));
    }
  }

  /** Decoding the `n` digits of `v` gives `v` modulo 16^n. */
  lemma {:induction false} FromDigitsOfDigits(v: int, n: nat)
    ensures FromDigits(Digits(v, n)) == v % Pow16(n)
    decreases n
  {
    if n > 0 {
      var ds := Digits(v, n);
      assert ds[..n - 1] == Digits(v / 16, n - 1);
      FromDigitsOfDigits(v / 16, n - 1);
      DivDiv(v, 16, Pow16(n - 1));
    }
  }

  /** The hex digits of the bytes of `v` are the hex digits of `v`. */
  lemma {:induction false} NibblesOfBytes(v: int, n: nat)
    ensures NibblesOf(Bytes(v, n)) == Digits(v, 2 * n)
    decreases n
  {
    if n > 0 {
      var bs := Bytes(v, n);
      assert bs[..n - 1] == Bytes(v / 256, n - 1);
      NibblesOfBytes(v / 256, n - 1);
      DivDiv(v, 16, 16);
      calc {
        Digits(v, 2 * n);
        Digits(v / 16, 2 * n - 1) + [v % 16];
        Digits(v / 16 / 16, 2 * (n - 1)) + [v / 16 % 16] + [v % 16];
      }
      assert v / 16 % 16 == v % 256 / 16;
    }
  }

  /** Hex digits of concatenated byte strings concatenate. */
  lemma {:induction false} NibblesOfAppend(a: seq<Octet>, b: seq<Octet>)
    ensures NibblesOf(a + b) == NibblesOf(a) + NibblesOf(b)
  {
    if b != [] {
      var ab := a + b;
      assert ab[..|ab| - 1] == a + b[..|b| - 1];
      NibblesOfAppend(a, b[..|b| - 1]);
    } else {
      assert a + b == a;
    }
  }

  /** The `m + k` low digits of `v` are the `m` digits above position `k`
      followed by the `k` lowest digits. */
  lemma {:induction false} DigitsSplit(v: int, m: nat, k: nat)
    ensures Digits(v, m + k) == Digits(v / Pow16(k), m) + Digits(v, k)
    decreases k
  {
    if k == 0 {
      assert v / 1 == v;
    } else {
      DigitsSplit(v / 16, m, k - 1);
      DivDiv(v, 16, Pow16(k - 1));
    }
  }
}
