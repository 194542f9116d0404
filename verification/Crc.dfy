/** The reflected CRC-32 of record batches and legacy messages, bit by bit, and what it detects. */
module Crc {
  import opened Records
  import opened Registers

  /** A 32-bit word, bit 0 first. */
  type Word32 = w: seq<bool> | |w| == 32 witness seq(32, i => false)

  /** The low `k` bits of a number, bit 0 first. */
  function BitsOf(n: nat, k: nat): (bits: seq<bool>)
    ensures |bits| == k
    decreases k
  {
    if k == 0 then [] else [n % 2 == 1] + BitsOf(n / 2, k - 1)
  }

  function Number(bits: seq<bool>): nat {
    if bits == [] then 0 else (if bits[0] then 1 else 0) + 2 * Number(bits[1..])
  }

  /** Castagnoli, section 12.1 of RFC 3720, reflected; and the IEEE polynomial of legacy message sets. */
  function Castagnoli(): Word32 {
    BitsOf(0x82f6_3b78, 32)
  }

  function Ieee(): Word32 {
    BitsOf(0xedb8_8320, 32)
  }

  function XorWords(a: Word32, b: Word32): Word32 {
    seq(32, i requires 0 <= i < 32 => a[i] != b[i])
  }

  /** `crc >> 1`, with the polynomial folded in when a one drops out. */
  function ShiftOnce(crc: Word32, poly: Word32): Word32 {
    seq(32, i requires 0 <= i < 32 => (i < 31 && crc[i + 1]) != (crc[0] && poly[i]))
  }

  /** `w << k` */
  function Raise(w: Word32, k: nat): Word32 {
    seq(32, i requires 0 <= i < 32 => i >= k && w[i - k])
  }

  function Octet(b: Byte): Word32 {
    BitsOf(b, 8) + seq(24, i => false)
  }

  function Shifter(poly: Word32): Word32 -> Word32 {
    (crc: Word32) => ShiftOnce(crc, poly)
  }

  function FoldByte(): (Word32, Byte) -> Word32 {
    FoldOctet(Xor(), Octets())
  }

  /** The effect of one byte: fold it into the low bits, then eight shifts. */
  function Stepper(poly: Word32): (Word32, Byte) -> Word32 {
    ByteStep(Shifter(poly), FoldByte(), 8)
  }

  function Ones(): Word32 {
    seq(32, i => true)
  }

  function Complement(w: Word32): Word32 {
    seq(32, i requires 0 <= i < 32 => !w[i])
  }

  /** The checksum as an unsigned 32-bit number. */
  function Checksum(bytes: Bytes, poly: Word32): nat {
    Number(Complement(Feed(Stepper(poly), Ones(), bytes)))
  }

  method ComputeChecksum(bytes: Bytes, poly: Word32) returns (crc: nat)
    ensures crc == Checksum(bytes, poly)
  {
    var register := FeedBytes(Shifter(poly), FoldByte(), 8, Ones(), bytes);
    crc := Number(Complement(register));
  }

  // ---------------------------------------------------------------- numbers and bits

  lemma {:induction false} NumberInjective(a: seq<bool>, b: seq<bool>)
    requires |a| == |b| && Number(a) == Number(b)
    ensures a == b
  {
    if a != [] {
      assert a[0] == b[0];
      NumberInjective(a[1..], b[1..]);
      assert a == [a[0]] + a[1..] && b == [b[0]] + b[1..];
    }
  }

  function Power2(k: nat): nat {
    if k == 0 then 1 else 2 * Power2(k - 1)
  }

  lemma {:induction false} NumberBound(bits: seq<bool>)
    ensures Number(bits) < Power2(|bits|)
  {
    if bits != [] {
      NumberBound(bits[1..]);
    }
  }

  lemma {:induction false} BitsInjective(a: nat, b: nat, k: nat)
    requires a < Power2(k) && b < Power2(k) && BitsOf(a, k) == BitsOf(b, k)
    ensures a == b
    decreases k
  {
    if k > 0 {
      assert BitsOf(a, k)[0] == BitsOf(b, k)[0];
      assert BitsOf(a, k)[1..] == BitsOf(a / 2, k - 1) && BitsOf(b, k)[1..] == BitsOf(b / 2, k - 1);
      BitsInjective(a / 2, b / 2, k - 1);
    }
  }

  lemma PowerStep(k: nat)
    ensures Power2(k + 8) == 0x100 * Power2(k)
    ensures Power2(k + 8) == 2 * Power2(k + 7)
  {
    assert Power2(k + 8) == 2 * Power2(k + 7) && Power2(k + 7) == 2 * Power2(k + 6)
           && Power2(k + 6) == 2 * Power2(k + 5);
    assert Power2(k + 5) == 2 * Power2(k + 4) && Power2(k + 4) == 2 * Power2(k + 3)
           && Power2(k + 3) == 2 * Power2(k + 2);
    assert Power2(k + 2) == 2 * Power2(k + 1) && Power2(k + 1) == 2 * Power2(k);
  }

  lemma WordPowers()
    ensures Power2(32) == 0x1_0000_0000 && Power2(31) == 0x8000_0000
  {
    PowerStep(0);
    PowerStep(8);
    PowerStep(16);
    PowerStep(24);
  }

  lemma {:induction false} TopBitSet(n: nat, k: nat)
    requires k > 0 && Power2(k - 1) <= n < Power2(k)
    ensures BitsOf(n, k)[k - 1]
    decreases k
  {
    if k > 1 {
      TopBitSet(n / 2, k - 1);
    }
  }

  /** A polynomial whose top reflected bit is set, which is what makes the register step reversible. */
  predicate Proper(poly: Word32) {
    poly[31]
  }

  /** Both polynomials of the wire format qualify. */
  lemma PolynomialsAreProper()
    ensures Proper(Castagnoli()) && Proper(Ieee())
  {
    WordPowers();
    TopBitSet(0x82f6_3b78, 32);
    TopBitSet(0xedb8_8320, 32);
  }

  // ---------------------------------------------------------------- one shift is reversible and linear

  lemma ShiftOnceInjective(a: Word32, b: Word32, poly: Word32)
    requires Proper(poly) && ShiftOnce(a, poly) == ShiftOnce(b, poly)
    ensures a == b
  {
    var x, y := ShiftOnce(a, poly), ShiftOnce(b, poly);
    assert x[31] == a[0] && y[31] == b[0];
    forall i | 0 <= i < 32 ensures a[i] == b[i] {
      if i > 0 {
        assert x[i - 1] == y[i - 1];
      }
    }
  }

  lemma ShifterInjective(poly: Word32)
    requires Proper(poly)
    ensures Injective(Shifter(poly))
  {
    forall a: Word32, b: Word32 | Shifter(poly)(a) == Shifter(poly)(b) ensures a == b {
      ShiftOnceInjective(a, b, poly);
    }
  }

  lemma XorInjective(a: Word32, b: Word32, x: Word32)
    requires XorWords(a, x) == XorWords(b, x)
    ensures a == b
  {
    forall i | 0 <= i < 32 ensures a[i] == b[i] {
      assert XorWords(a, x)[i] == XorWords(b, x)[i];
    }
  }

  lemma StepperReversible(poly: Word32)
    requires Proper(poly)
    ensures Reversible(Stepper(poly))
  {
    ShifterInjective(poly);
    forall a: Word32, b: Word32, x: Byte | Stepper(poly)(a, x) == Stepper(poly)(b, x) ensures a == b {
      IterateInjective(Shifter(poly), 8, XorWords(a, Octet(x)), XorWords(b, Octet(x)));
      XorInjective(a, b, Octet(x));
    }
  }

  function Xor(): (Word32, Word32) -> Word32 {
    (a: Word32, b: Word32) => XorWords(a, b)
  }

  function Octets(): Byte -> Word32 {
    (b: Byte) => Octet(b)
  }

  function Lift(): Word32 -> Word32 {
    (w: Word32) => Raise(w, 8)
  }

  function Zero(): Word32 {
    seq(32, i => false)
  }

  lemma ShifterLinear(poly: Word32)
    ensures Linear(Shifter(poly), Xor())
  {
    forall a: Word32, b: Word32 ensures Shifter(poly)(Xor()(a, b)) == Xor()(Shifter(poly)(a), Shifter(poly)(b)) {
      assert ShiftOnce(XorWords(a, b), poly) == XorWords(ShiftOnce(a, poly), ShiftOnce(b, poly));
    }
  }

  lemma XorIsAssociative()
    ensures Associative(Xor()) && (forall c: Word32 :: Xor()(c, Zero()) == c)
  {
    forall a: Word32, b: Word32, c: Word32 ensures Xor()(Xor()(a, b), c) == Xor()(a, Xor()(b, c)) {
      assert XorWords(XorWords(a, b), c) == XorWords(a, XorWords(b, c));
    }
    forall c: Word32 ensures Xor()(c, Zero()) == c {
      assert XorWords(c, Zero()) == c;
    }
  }

  // ---------------------------------------------------------------- up to four bytes act as one word

  function WordOf(bytes: Bytes): Word32 {
    Word(Octets(), Lift(), Xor(), Zero(), bytes)
  }

  predicate ClearFrom(w: Word32, n: nat) {
    forall i :: n <= i < 32 ==> !w[i]
  }

  lemma OctetClear(b: Byte)
    ensures ClearFrom(Octet(b), 8)
  {
  }

  lemma {:induction false} WordClear(bytes: Bytes)
    requires |bytes| <= 4
    ensures ClearFrom(WordOf(bytes), 8 * |bytes|)
  {
    if bytes != [] {
      OctetClear(bytes[0]);
      WordClear(bytes[1..]);
      assert WordOf(bytes) == XorWords(Octet(bytes[0]), Raise(WordOf(bytes[1..]), 8));
    }
  }

  lemma RaisedShiftsDown(w: Word32, k: nat, poly: Word32)
    requires 0 < k <= 8 && ClearFrom(w, 24)
    ensures ShiftOnce(Raise(w, k), poly) == Raise(w, k - 1)
  {
  }

  lemma {:induction false} RaisedComesDown(w: Word32, k: nat, poly: Word32)
    requires k <= 8 && ClearFrom(w, 24)
    ensures Iterate(Shifter(poly), k, Raise(w, k)) == w
    decreases k
  {
    if k == 0 {
      assert Raise(w, 0) == w;
    } else {
      RaisedShiftsDown(w, k, poly);
      RaisedComesDown(w, k - 1, poly);
    }
  }

  lemma WordsComeDown(poly: Word32)
    ensures forall s: Bytes {:trigger ComesDown(Shifter(poly), Octets(), Lift(), Xor(), Zero(), 8, s)} ::
      |s| < 4 ==> ComesDown(Shifter(poly), Octets(), Lift(), Xor(), Zero(), 8, s)
  {
    forall s: Bytes | |s| < 4 ensures ComesDown(Shifter(poly), Octets(), Lift(), Xor(), Zero(), 8, s) {
      WordClear(s);
      RaisedComesDown(WordOf(s), 8, poly);
    }
  }

  lemma OctetInjective(a: Byte, b: Byte)
    requires forall i :: 0 <= i < 8 ==> Octet(a)[i] == Octet(b)[i]
    ensures a == b
  {
    forall i | 0 <= i < 8 ensures BitsOf(a, 8)[i] == BitsOf(b, 8)[i] {
      assert Octet(a)[i] == Octet(b)[i];
    }
    assert Power2(8) == 0x100;
    BitsInjective(a, b, 8);
  }

  lemma JoinInjective(a: Byte, u: Word32, b: Byte, v: Word32)
    requires XorWords(Octet(a), Raise(u, 8)) == XorWords(Octet(b), Raise(v, 8))
    requires ClearFrom(u, 24) && ClearFrom(v, 24)
    ensures a == b && u == v
  {
    var x, y := XorWords(Octet(a), Raise(u, 8)), XorWords(Octet(b), Raise(v, 8));
    forall i | 0 <= i < 8 ensures Octet(a)[i] == Octet(b)[i] {
      assert x[i] == y[i];
    }
    OctetInjective(a, b);
    forall i | 0 <= i < 32 ensures u[i] == v[i] {
      if i < 24 {
        assert x[i + 8] == y[i + 8];
      }
    }
  }

  lemma {:induction false} WordInjective(s: Bytes, t: Bytes)
    requires |s| == |t| <= 4 && WordOf(s) == WordOf(t)
    ensures s == t
    decreases |s|
  {
    if s != [] {
      WordClear(s[1..]);
      WordClear(t[1..]);
      JoinInjective(s[0], WordOf(s[1..]), t[0], WordOf(t[1..]));
      WordInjective(s[1..], t[1..]);
      assert s == [s[0]] + s[1..] && t == [t[0]] + t[1..];
    }
  }

  /** Two different blocks of at most four bytes never lead one register to the same register. */
  lemma BlocksSeparate(crc: Word32, x: Bytes, y: Bytes, poly: Word32)
    requires Proper(poly) && |x| == |y| <= 4 && x != y
    ensures Feed(Stepper(poly), crc, x) != Feed(Stepper(poly), crc, y)
  {
    ShifterInjective(poly);
    ShifterLinear(poly);
    XorIsAssociative();
    WordsComeDown(poly);
    RegistersDiffer(crc, x, y);
    Registers.BlocksSeparate(Shifter(poly), Octets(), Lift(), Xor(), Zero(), 8, 4, crc, x, y);
  }

  lemma RegistersDiffer(crc: Word32, x: Bytes, y: Bytes)
    requires |x| == |y| <= 4 && x != y
    ensures Xor()(crc, WordOf(x)) != Xor()(crc, WordOf(y))
  {
    if Xor()(crc, WordOf(x)) == Xor()(crc, WordOf(y)) {
      assert XorWords(crc, WordOf(x)) == XorWords(WordOf(x), crc)
             && XorWords(crc, WordOf(y)) == XorWords(WordOf(y), crc);
      XorInjective(WordOf(x), WordOf(y), crc);
      WordInjective(x, y);
    }
  }

  lemma ComplementInjective(a: Word32, b: Word32)
    requires Complement(a) == Complement(b)
    ensures a == b
  {
    forall i | 0 <= i < 32 ensures a[i] == b[i] {
      assert Complement(a)[i] == Complement(b)[i];
    }
  }

  lemma ChecksumSeparates(a: Word32, b: Word32)
    requires a != b
    ensures Number(Complement(a)) != Number(Complement(b))
  {
    if Number(Complement(a)) == Number(Complement(b)) {
      NumberInjective(Complement(a), Complement(b));
      ComplementInjective(a, b);
    }
  }

  /** Burst detection, at any length: inputs that differ only within four consecutive bytes have different checksums. */
  lemma BurstDetected(prefix: Bytes, x: Bytes, y: Bytes, suffix: Bytes, poly: Word32)
    requires Proper(poly) && |x| == |y| <= 4 && x != y
    ensures Checksum(prefix + x + suffix, poly) != Checksum(prefix + y + suffix, poly)
  {
    var step := Stepper(poly);
    var crc := Feed(step, Ones(), prefix);
    FeedConcat(step, Ones(), prefix + x, suffix);
    FeedConcat(step, Ones(), prefix + y, suffix);
    FeedConcat(step, Ones(), prefix, x);
    FeedConcat(step, Ones(), prefix, y);
    BlocksSeparate(crc, x, y, poly);
    StepperReversible(poly);
    FeedKeepsDifference(step, Feed(step, crc, x), Feed(step, crc, y), suffix);
    ChecksumSeparates(Feed(step, Ones(), prefix + x + suffix), Feed(step, Ones(), prefix + y + suffix));
  }

  /** A checksum fits the four bytes it is stored in. */
  lemma ChecksumRange(bytes: Bytes, poly: Word32)
    ensures Checksum(bytes, poly) < 0x1_0000_0000
  {
    NumberBound(Complement(Feed(Stepper(poly), Ones(), bytes)));
    WordPowers();
  }
}
