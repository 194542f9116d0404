/** Machine words as integers: casts, big-endian fields and saturating i64 arithmetic. */
module Bits {
  import opened Records

  const U32: int := 0x1_0000_0000
  const U64: int := 0x1_0000_0000_0000_0000

  /** The two's complement value of an integer cut down to one of `modulus` values. */
  function Wrap(n: int, modulus: int): int
    requires modulus > 0
  {
    var m := n % modulus;
    if 2 * m >= modulus then m - modulus else m
  }

  /** The cast to i32. */
  function AsI32(n: int): int {
    Wrap(n, U32)
  }

  /** The cast to i64. */
  function AsI64(n: int): int {
    Wrap(n, U64)
  }

  lemma CastKeepsValue(n: int)
    ensures -0x8000_0000 <= n < 0x8000_0000 ==> AsI32(n) == n
    ensures -0x8000_0000_0000_0000 <= n < 0x8000_0000_0000_0000 ==> AsI64(n) == n
  {
  }

  // ---------------------------------------------------------------- big-endian fields

  /** The low `k` bytes of an integer, most significant first. */
  function BigEndian(n: int, k: nat): (s: Bytes)
    ensures |s| == k
    decreases k
  {
    if k == 0 then [] else BigEndian(n / 0x100, k - 1) + [n % 0x100]
  }

  /** The unsigned value of a big-endian field. */
  function Unsigned(s: Bytes): nat {
    if s == [] then 0 else Unsigned(s[..|s| - 1]) * 0x100 + s[|s| - 1]
  }

  function Power256(k: nat): nat {
    if k == 0 then 1 else Power256(k - 1) * 0x100
  }

  function FieldI16(s: Bytes): int
    requires |s| == 2
  {
    Wrap(Unsigned(s), 0x1_0000)
  }

  function FieldI32(s: Bytes): int
    requires |s| == 4
  {
    AsI32(Unsigned(s))
  }

  function FieldI64(s: Bytes): Timestamp
    requires |s| == 8
  {
    AsI64(Unsigned(s))
  }

  lemma {:induction false} UnsignedOfBigEndian(n: int, k: nat)
    ensures Power256(k) > 0
    ensures Unsigned(BigEndian(n, k)) == n % Power256(k)
    decreases k
  {
    if k > 0 {
      UnsignedOfBigEndian(n / 0x100, k - 1);
      assert BigEndian(n, k)[..k - 1] == BigEndian(n / 0x100, k - 1);
      RemainderByDigits(n, Power256(k - 1));
    }
  }

  lemma RemainderByDigits(n: int, p: nat)
    requires p > 0
    ensures n / 0x100 % p * 0x100 + n % 0x100 == n % (p * 0x100)
  {
    var q, r := n / 0x100 / p, n / 0x100 % p;
    assert n / 0x100 == q * p + r;
    assert n == q * (p * 0x100) + (r * 0x100 + n % 0x100);
    RemainderUnique(n, p * 0x100, q, r * 0x100 + n % 0x100);
  }

  lemma RemainderUnique(n: int, m: nat, q: int, r: int)
    requires m > 0 && 0 <= r < m && n == q * m + r
    ensures n % m == r
  {
    var d := q - n / m;
    assert d * m == n % m - r;
    SmallMultiple(d, m);
  }

  lemma SmallMultiple(d: int, m: int)
    requires -m < d * m < m
    ensures d == 0
  {
  }

  /** A value in i32 range survives its big-endian field. */
  lemma FieldI32RoundTrip(n: int)
    requires -0x8000_0000 <= n < 0x8000_0000
    ensures FieldI32(BigEndian(n, 4)) == n
  {
    assert Power256(4) == U32;
    UnsignedOfBigEndian(n, 4);
    CastKeepsValue(n);
  }

  /** A value in i64 range survives its big-endian field. */
  lemma FieldI64RoundTrip(n: int)
    requires -0x8000_0000_0000_0000 <= n < 0x8000_0000_0000_0000
    ensures FieldI64(BigEndian(n, 8)) == n
  {
    assert Power256(8) == U64;
    UnsignedOfBigEndian(n, 8);
    CastKeepsValue(n);
  }

  /** A value in i16 range survives its big-endian field. */
  lemma FieldI16RoundTrip(n: int)
    requires -0x8000 <= n < 0x8000
    ensures FieldI16(BigEndian(n, 2)) == n
  {
    assert Power256(2) == 0x1_0000;
    UnsignedOfBigEndian(n, 2);
  }

  // ---------------------------------------------------------------- saturating i64 arithmetic

  function SaturateI64(n: int): Timestamp {
    if n < -0x8000_0000_0000_0000 then -0x8000_0000_0000_0000
    else if n > 0x7fff_ffff_ffff_ffff then 0x7fff_ffff_ffff_ffff
    else n
  }

  /** Adding a saturated difference back gives the value again exactly when the difference fits in i64. */
  lemma DifferenceRestoresIff(t: Timestamp, first: Timestamp)
    ensures SaturateI64(first + SaturateI64(t - first)) == t <==> SaturateI64(t - first) == t - first
  {
  }
}
