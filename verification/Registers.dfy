/** Shift registers in the abstract: what follows from a reversible step, and from a linear one. */
module Registers {
  import opened Records

  function Iterate<R>(f: R -> R, n: nat, r: R): R
    decreases n
  {
    if n == 0 then r else Iterate(f, n - 1, f(r))
  }

  /** The register after the bytes have been fed to it one by one. */
  function Feed<R>(step: (R, Byte) -> R, r: R, bytes: Bytes): R
    decreases |bytes|
  {
    if bytes == [] then r else Feed(step, step(r, bytes[0]), bytes[1..])
  }

  /** The effect of one byte: fold it in, then shift `width` times. */
  function ByteStep<R>(shift: R -> R, fold: (R, Byte) -> R, width: nat): (R, Byte) -> R {
    (r: R, b: Byte) => Iterate(shift, width, fold(r, b))
  }

  /** The two nested loops of a checksum: over the bytes, and over the bits of each byte. */
  method FeedBytes<R>(shift: R -> R, fold: (R, Byte) -> R, width: nat, start: R, bytes: Bytes) returns (r: R)
    ensures r == Feed(ByteStep(shift, fold, width), start, bytes)
  {
    ghost var step := ByteStep(shift, fold, width);
    r := start;
    for i := 0 to |bytes|
      invariant Feed(step, r, bytes[i..]) == Feed(step, start, bytes)
    {
      ghost var next := step(r, bytes[i]);
      assert bytes[i..][1..] == bytes[i + 1..];
      r := fold(r, bytes[i]);
      for bit := 0 to width
        invariant Iterate(shift, width - bit, r) == next
      {
        r := shift(r);
      }
    }
  }

  ghost predicate Injective<R(!new)>(f: R -> R) {
    forall a, b :: f(a) == f(b) ==> a == b
  }

  ghost predicate Reversible<R(!new)>(step: (R, Byte) -> R) {
    forall a, b, x :: step(a, x) == step(b, x) ==> a == b
  }

  lemma {:induction false} IterateInjective<R(!new)>(f: R -> R, n: nat, a: R, b: R)
    requires Injective(f) && Iterate(f, n, a) == Iterate(f, n, b)
    ensures a == b
    decreases n
  {
    if n > 0 {
      IterateInjective(f, n - 1, f(a), f(b));
    }
  }

  lemma {:induction false} IterateAgain<R>(f: R -> R, m: nat, n: nat, r: R)
    ensures Iterate(f, n, Iterate(f, m, r)) == Iterate(f, m + n, r)
    decreases m
  {
    if m > 0 {
      IterateAgain(f, m - 1, n, f(r));
    }
  }

  /** Feeding the same bytes keeps different registers different. */
  lemma {:induction false} FeedKeepsDifference<R(!new)>(step: (R, Byte) -> R, a: R, b: R, bytes: Bytes)
    requires Reversible(step) && a != b
    ensures Feed(step, a, bytes) != Feed(step, b, bytes)
    decreases |bytes|
  {
    if bytes != [] {
      FeedKeepsDifference(step, step(a, bytes[0]), step(b, bytes[0]), bytes[1..]);
    }
  }

  lemma {:induction false} FeedConcat<R>(step: (R, Byte) -> R, r: R, left: Bytes, right: Bytes)
    ensures Feed(step, r, left + right) == Feed(step, Feed(step, r, left), right)
    decreases |left|
  {
    if left == [] {
      assert left + right == right;
    } else {
      assert (left + right)[1..] == left[1..] + right;
      FeedConcat(step, step(r, left[0]), left[1..], right);
    }
  }

  // ---------------------------------------------------------------- linear registers

  ghost predicate Linear<R(!new)>(f: R -> R, xor: (R, R) -> R) {
    forall a, b {:trigger f(xor(a, b))} :: f(xor(a, b)) == xor(f(a), f(b))
  }

  ghost predicate Associative<R(!new)>(xor: (R, R) -> R) {
    forall a, b, c {:trigger xor(xor(a, b), c)} :: xor(xor(a, b), c) == xor(a, xor(b, c))
  }

  lemma {:induction false} IterateLinear<R(!new)>(f: R -> R, xor: (R, R) -> R, n: nat, a: R, b: R)
    requires Linear(f, xor)
    ensures Iterate(f, n, xor(a, b)) == xor(Iterate(f, n, a), Iterate(f, n, b))
    decreases n
  {
    if n > 0 {
      assert f(xor(a, b)) == xor(f(a), f(b));
      IterateLinear(f, xor, n - 1, f(a), f(b));
    }
  }

  /** Folding a byte in by adding it to the register. */
  function FoldOctet<R>(xor: (R, R) -> R, octet: Byte -> R): (R, Byte) -> R {
    (r: R, b: Byte) => xor(r, octet(b))
  }

  /** Bytes as one word of the register, the first byte lowest. */
  function Word<R>(octet: Byte -> R, lift: R -> R, xor: (R, R) -> R, zero: R, bytes: Bytes): R
    decreases |bytes|
  {
    if bytes == [] then zero else xor(octet(bytes[0]), lift(Word(octet, lift, xor, zero, bytes[1..])))
  }

  /** Whether the word of some bytes, lifted by one byte, comes back down intact. */
  ghost predicate ComesDown<R>(f: R -> R, octet: Byte -> R, lift: R -> R, xor: (R, R) -> R, zero: R, width: nat,
                               bytes: Bytes)
  {
    Iterate(f, width, lift(Word(octet, lift, xor, zero, bytes))) == Word(octet, lift, xor, zero, bytes)
  }

  /** `n` times `width` */
  function Total(width: nat, n: nat): nat {
    if n == 0 then 0 else width + Total(width, n - 1)
  }

  lemma ShiftTogether<R(!new)>(f: R -> R, xor: (R, R) -> R, width: nat, r: R, x: R, raised: R)
    requires Linear(f, xor) && Associative(xor)
    ensures xor(Iterate(f, width, xor(r, x)), Iterate(f, width, raised)) == Iterate(f, width, xor(r, xor(x, raised)))
  {
    IterateLinear(f, xor, width, xor(r, x), raised);
    assert xor(xor(r, x), raised) == xor(r, xor(x, raised));
  }

  /** As long as whole words come back down intact, feeding bytes is one long shift of register and word combined. */
  lemma {:induction false} FeedIsOneShift<R(!new)>(f: R -> R, octet: Byte -> R, lift: R -> R, xor: (R, R) -> R, zero: R,
                                                   width: nat, limit: nat, r: R, bytes: Bytes)
    requires Linear(f, xor) && Associative(xor) && (forall c :: xor(c, zero) == c)
    requires forall s {:trigger ComesDown(f, octet, lift, xor, zero, width, s)} :: |s| < limit ==>
      ComesDown(f, octet, lift, xor, zero, width, s)
    requires |bytes| <= limit
    ensures Feed(ByteStep(f, FoldOctet(xor, octet), width), r, bytes)
            == Iterate(f, Total(width, |bytes|), xor(r, Word(octet, lift, xor, zero, bytes)))
    decreases |bytes|
  {
    if bytes == [] {
      assert xor(r, zero) == r;
    } else {
      var x, tail := octet(bytes[0]), bytes[1..];
      var w := Word(octet, lift, xor, zero, tail);
      var shifted := Iterate(f, width, xor(r, x));
      assert ByteStep(f, FoldOctet(xor, octet), width)(r, bytes[0]) == shifted;
      FeedIsOneShift(f, octet, lift, xor, zero, width, limit, shifted, tail);
      assert ComesDown(f, octet, lift, xor, zero, width, tail);
      ShiftTogether(f, xor, width, r, x, lift(w));
      IterateAgain(f, width, Total(width, |tail|), xor(r, xor(x, lift(w))));
    }
  }

  /** Two different blocks of bytes that still fit one word never lead one register to the same register. */
  lemma BlocksSeparate<R(!new)>(f: R -> R, octet: Byte -> R, lift: R -> R, xor: (R, R) -> R, zero: R,
                                width: nat, limit: nat, r: R, x: Bytes, y: Bytes)
    requires Injective(f) && Linear(f, xor) && Associative(xor) && (forall c :: xor(c, zero) == c)
    requires forall s {:trigger ComesDown(f, octet, lift, xor, zero, width, s)} :: |s| < limit ==>
      ComesDown(f, octet, lift, xor, zero, width, s)
    requires |x| == |y| <= limit && xor(r, Word(octet, lift, xor, zero, x)) != xor(r, Word(octet, lift, xor, zero, y))
    ensures var step := ByteStep(f, FoldOctet(xor, octet), width); Feed(step, r, x) != Feed(step, r, y)
  {
    var step := ByteStep(f, FoldOctet(xor, octet), width);
    FeedIsOneShift(f, octet, lift, xor, zero, width, limit, r, x);
    FeedIsOneShift(f, octet, lift, xor, zero, width, limit, r, y);
    if Feed(step, r, x) == Feed(step, r, y) {
      IterateInjective(f, Total(width, |x|), xor(r, Word(octet, lift, xor, zero, x)),
                       xor(r, Word(octet, lift, xor, zero, y)));
    }
  }
}
