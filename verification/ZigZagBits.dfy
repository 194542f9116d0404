/** Zigzag on machine words, bit by bit, at any width, and that the arithmetic of the varints is exactly that. */
module ZigZagBits {
  import opened Crc
  import opened Bits
  import opened Varint

  /** Two's complement words, bit 0 first. */
  type Word = w: seq<bool> | |w| > 0 witness [false]

  function Sign(w: Word): bool {
    w[|w| - 1]
  }

  function Signed(w: Word): int {
    Number(w) - if Sign(w) then Power2(|w|) else 0
  }

  /** `w << 1` */
  function Shl(w: Word): Word {
    [false] + w[..|w| - 1]
  }

  /** `w >> 1`, unsigned */
  function Shr(w: Word): Word {
    w[1..] + [false]
  }

  /** `w ^ x` for a word `x` all of whose bits are `bit` */
  function XorWith(w: Word, bit: bool): Word {
    seq(|w|, i requires 0 <= i < |w| => w[i] != bit)
  }

  /** `(v << 1) ^ (v >> (n - 1))`: the arithmetic shift fills the word with the sign. */
  function Fold(w: Word): Word {
    XorWith(Shl(w), Sign(w))
  }

  /** `(raw >> 1) ^ -(raw & 1)`: the negation fills the word with the low bit. */
  function Unfold(w: Word): Word {
    XorWith(Shr(w), w[0])
  }

  /** At every width and for every word, unfolding undoes folding. */
  lemma UnfoldFold(w: Word)
    ensures Unfold(Fold(w)) == w
  {
    var z := Fold(w);
    forall i | 0 <= i < |w| ensures Unfold(z)[i] == w[i] {
      if i < |w| - 1 {
        assert Shr(z)[i] == z[i + 1] && Shl(w)[i + 1] == w[i];
      }
    }
  }

  // ---------------------------------------------------------------- words as numbers

  lemma {:induction false} NumberLast(w: Word)
    ensures Number(w) == Number(w[..|w| - 1]) + if Sign(w) then Power2(|w| - 1) else 0
  {
    var n := |w| - 1;
    if n > 0 {
      NumberLast(w[1..]);
      assert w[..n][1..] == w[1..][..n - 1];
    }
  }

  lemma {:induction false} NumberInverted(w: seq<bool>)
    requires |w| > 0
    ensures Number(XorWith(w, true)) == Power2(|w|) - 1 - Number(w)
  {
    if |w| > 1 {
      NumberInverted(w[1..]);
      assert XorWith(w, true)[1..] == XorWith(w[1..], true);
    }
  }

  lemma NumberXor(w: Word, bit: bool)
    ensures Number(XorWith(w, bit)) == if bit then Power2(|w|) - 1 - Number(w) else Number(w)
  {
    if bit {
      NumberInverted(w);
    } else {
      assert XorWith(w, false) == w;
    }
  }

  lemma NumberShl(w: Word)
    ensures Number(Shl(w)) == 2 * Number(w) - if Sign(w) then Power2(|w|) else 0
    ensures Sign(w) <==> 2 * Number(w) >= Power2(|w|)
  {
    NumberLast(w);
    NumberBound(w[..|w| - 1]);
    assert Shl(w)[1..] == w[..|w| - 1];
  }

  lemma {:induction false} NumberFalseLast(w: seq<bool>)
    ensures Number(w + [false]) == Number(w)
  {
    if w != [] {
      NumberFalseLast(w[1..]);
      assert (w + [false])[1..] == w[1..] + [false];
    }
  }

  lemma NumberShr(w: Word)
    ensures Number(Shr(w)) == Number(w) / 2 && !Sign(Shr(w))
    ensures w[0] <==> Number(w) % 2 == 1
  {
    NumberFalseLast(w[1..]);
  }

  lemma ZigZagOf(v: int, modulus: int, m: int)
    requires modulus > 0 && 0 <= m < modulus && 2 * v % modulus == m
    ensures ZigZag(v, modulus) == if v < 0 then modulus - 1 - m else m
  {
    var x := XorFill(Wrap(2 * v, modulus), v < 0);
    if v < 0 {
      if 2 * m >= modulus {
        RemainderUnique(x, modulus, 0, modulus - 1 - m);
      } else {
        RemainderUnique(x, modulus, -1, modulus - 1 - m);
      }
    } else {
      if 2 * m >= modulus {
        RemainderUnique(x, modulus, -1, m);
      } else {
        RemainderUnique(x, modulus, 0, m);
      }
    }
  }

  /** Folding the word of `v` and reading it unsigned is the arithmetic zigzag of `v`. */
  lemma FoldIsZigZag(w: Word)
    ensures Power2(|w|) > 0
    ensures ZigZag(Signed(w), Power2(|w|)) == Number(Fold(w))
  {
    NumberShl(w);
    NumberXor(Shl(w), Sign(w));
    NumberBound(w);
    NumberBound(Shl(w));
    var m := Number(Shl(w));
    RemainderUnique(2 * Signed(w), Power2(|w|), if Sign(w) then -1 else 0, m);
    ZigZagOf(Signed(w), Power2(|w|), m);
  }

  /** Unfolding a word and reading it in two's complement is the arithmetic inverse. */
  lemma UnfoldIsUnZigZag(w: Word)
    ensures UnZigZag(Number(w)) == Signed(Unfold(w))
  {
    NumberShr(w);
    NumberXor(Shr(w), w[0]);
    assert Sign(Unfold(w)) == w[0];
  }
}
