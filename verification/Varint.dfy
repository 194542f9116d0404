/** Zigzag variable-length integers and the errors of the wire format. */
module Varint {
  import opened Records
  import opened Bits

  datatype WireError =
    | Incomplete
    | Invalid
    | TooLarge
    | UnsupportedApi
    | UnsupportedVersion
    | Correlation
    | Checksum

  /** A parse of a prefix of some bytes, and the bytes it left. */
  datatype Parsed<+T> = Parsed(value: T, rest: Bytes) | Failed(error: WireError)

  // ---------------------------------------------------------------- unsigned varints

  /** `v << (7 * k)`, before it is cut to a word. */
  function ShiftLeft(v: nat, k: nat): nat
    decreases k
  {
    if k == 0 then v else 0x80 * ShiftLeft(v, k - 1)
  }

  /** Seven bits a byte, low groups first, the top bit set on all but the last byte. */
  function PutUvarint(v: nat): Bytes {
    if v >= 0x80 then [v % 0x80 + 0x80] + PutUvarint(v / 0x80) else [v]
  }

  /** The reader's loop with `k` bytes behind it and at most `max` in all. The groups do not overlap, so the
      bitwise or that collects them is a sum; bits shifted past the 64-bit word are lost. */
  function ReadUvarintFrom(s: Bytes, value: nat, k: nat, max: nat): Parsed<nat>
    requires k <= max
    decreases |s|
  {
    if k == max then Failed(Invalid)
    else if s == [] then Failed(Incomplete)
    else
      var next := value + ShiftLeft(s[0] % 0x80, k) % U64;
      if s[0] < 0x80 then Parsed(next, s[1..]) else ReadUvarintFrom(s[1..], next, k + 1, max)
  }

  function ReadUvarint(s: Bytes, max: nat): Parsed<nat> {
    ReadUvarintFrom(s, 0, 0, max)
  }

  // ---------------------------------------------------------------- zigzag, operator by operator

  /** Exclusive or with a word that is all ones or all zeros. */
  function XorFill(x: int, ones: bool): int {
    if ones then -x - 1 else x
  }

  /** `((v << 1) ^ (v >> 63)) as u64`, and the same at 32 bits: shift out, fold the sign in, read unsigned. */
  function ZigZag(v: int, modulus: int): nat
    requires modulus > 0
  {
    XorFill(Wrap(2 * v, modulus), v < 0) % modulus
  }

  /** `(raw >> 1) ^ -(raw & 1)` */
  function UnZigZag(raw: nat): int {
    XorFill(raw / 2, raw % 2 == 1)
  }

  function PutVarint(v: int): Bytes {
    PutUvarint(ZigZag(v, U32))
  }

  function PutVarlong(v: int): Bytes {
    PutUvarint(ZigZag(v, U64))
  }

  function ReadVarint(s: Bytes): Parsed<int> {
    match ReadUvarint(s, 5)
    case Failed(error) => Failed(error)
    case Parsed(raw, rest) => Parsed(UnZigZag(raw % U32), rest)
  }

  function ReadVarlong(s: Bytes): Parsed<int> {
    match ReadUvarint(s, 10)
    case Failed(error) => Failed(error)
    case Parsed(raw, rest) => Parsed(UnZigZag(raw), rest)
  }

  lemma ZigZagRange(v: int)
    ensures ZigZag(v, U32) < U32 && ZigZag(v, U64) < U64
  {
  }

  /** Zigzag is invertible on all of i32. */
  lemma ZigZagRoundTrip32(v: int)
    requires -0x8000_0000 <= v < 0x8000_0000
    ensures UnZigZag(ZigZag(v, U32)) == v
  {
  }

  /** Zigzag is invertible on all of i64. */
  lemma ZigZagRoundTrip64(v: int)
    requires -0x8000_0000_0000_0000 <= v < 0x8000_0000_0000_0000
    ensures UnZigZag(ZigZag(v, U64)) == v
  {
  }

  // ---------------------------------------------------------------- length of a varint

  lemma {:induction false} PutLength(v: nat, k: nat)
    requires v < ShiftLeft(1, k) && k > 0
    ensures 1 <= |PutUvarint(v)| <= k
  {
    if v >= 0x80 {
      PutLength(v / 0x80, k - 1);
    }
  }

  lemma GroupPowers()
    ensures ShiftLeft(1, 5) == 0x8_0000_0000 && ShiftLeft(1, 10) == 0x40 * U64
  {
  }

  /** A varint takes one to five bytes, a varlong one to ten. */
  lemma VarintLengths(v: int)
    ensures 1 <= |PutVarint(v)| <= 5
    ensures 1 <= |PutVarlong(v)| <= 10
  {
    GroupPowers();
    ZigZagRange(v);
    PutLength(ZigZag(v, U32), 5);
    PutLength(ZigZag(v, U64), 10);
  }

  // ---------------------------------------------------------------- round trips

  lemma {:induction false} ShiftSplits(low: nat, high: nat, k: nat)
    ensures ShiftLeft(low + 0x80 * high, k) == ShiftLeft(low, k) + ShiftLeft(high, k + 1)
  {
    if k > 0 {
      ShiftSplits(low, high, k - 1);
    }
  }

  /** One more group behind a continuation byte. */
  lemma ReadGroup(low: nat, s: Bytes, value: nat, k: nat, max: nat)
    requires low < 0x80 && k < max && ShiftLeft(low, k) < U64
    ensures ReadUvarintFrom([low + 0x80] + s, value, k, max)
            == ReadUvarintFrom(s, value + ShiftLeft(low, k), k + 1, max)
    ensures ReadUvarintFrom([low] + s, value, k, max) == Parsed(value + ShiftLeft(low, k), s)
  {
    assert ([low + 0x80] + s)[1..] == s && ([low] + s)[1..] == s;
  }

  /** Reading a written number adds it, at its place, to the groups already read. */
  lemma {:induction false} ReadAfterPut(v: nat, rest: Bytes, value: nat, k: nat, max: nat)
    requires k + |PutUvarint(v)| <= max
    requires ShiftLeft(v, k) < U64
    ensures ReadUvarintFrom(PutUvarint(v) + rest, value, k, max) == Parsed(value + ShiftLeft(v, k), rest)
    decreases v
  {
    if v >= 0x80 {
      var low, high := v % 0x80, v / 0x80;
      assert v == low + 0x80 * high;
      ShiftSplits(low, high, k);
      ReadGroup(low, PutUvarint(high) + rest, value, k, max);
      ConcatAssociative([low + 0x80], PutUvarint(high), rest);
      ReadAfterPut(high, rest, value + ShiftLeft(low, k), k + 1, max);
    } else {
      ReadGroup(v, rest, value, k, max);
    }
  }

  lemma RawRoundTrip(z: nat, rest: Bytes, max: nat)
    requires z < U64 && z < ShiftLeft(1, max) && max > 0
    ensures ReadUvarint(PutUvarint(z) + rest, max) == Parsed(z, rest)
  {
    PutLength(z, max);
    ReadAfterPut(z, rest, 0, 0, max);
  }

  lemma ReadVarintRaw(s: Bytes, z: nat, rest: Bytes)
    requires ReadUvarint(s, 5) == Parsed(z, rest) && z < U32
    ensures ReadVarint(s) == Parsed(UnZigZag(z), rest)
  {
    assert z % U32 == z;
  }

  /** Every i32 survives the varint it is written as, whatever follows it. */
  lemma VarintRoundTrip(v: int, rest: Bytes)
    requires -0x8000_0000 <= v < 0x8000_0000
    ensures ReadVarint(PutVarint(v) + rest) == Parsed(v, rest)
  {
    var z := ZigZag(v, U32);
    assert z < U32 && UnZigZag(z) == v by { ZigZagRange(v); ZigZagRoundTrip32(v); }
    GroupPowers();
    RawRoundTrip(z, rest, 5);
    ReadVarintRaw(PutVarint(v) + rest, z, rest);
  }

  /** Every i64 survives the varlong it is written as, whatever follows it. */
  lemma VarlongRoundTrip(v: int, rest: Bytes)
    requires -0x8000_0000_0000_0000 <= v < 0x8000_0000_0000_0000
    ensures ReadVarlong(PutVarlong(v) + rest) == Parsed(v, rest)
  {
    var z := ZigZag(v, U64);
    assert z < U64 && UnZigZag(z) == v by { ZigZagRange(v); ZigZagRoundTrip64(v); }
    GroupPowers();
    RawRoundTrip(z, rest, 10);
  }

  // ---------------------------------------------------------------- the writer loops

  method WriteUvarint(output: Bytes, value: nat) returns (written: Bytes)
    ensures written == output + PutUvarint(value)
  {
    written := output;
    var v := value;
    while v >= 0x80
      invariant written + PutUvarint(v) == output + PutUvarint(value)
    {
      ConcatAssociative(written, [v % 0x80 + 0x80], PutUvarint(v / 0x80));
      written := written + [v % 0x80 + 0x80];
      v := v / 0x80;
    }
    written := written + [v];
  }

  method WriteVarint(output: Bytes, value: int) returns (written: Bytes)
    ensures written == output + PutVarint(value)
  {
    written := WriteUvarint(output, ZigZag(value, U32));
  }

  method WriteVarlong(output: Bytes, value: int) returns (written: Bytes)
    ensures written == output + PutVarlong(value)
  {
    written := WriteUvarint(output, ZigZag(value, U64));
  }
}
