/** Reading the same kind of item again and again, whatever the item is. */
module Repeat {
  import opened Records
  import opened Varint

  /** The first `count` items of some bytes. */
  function Many<T>(read: Bytes -> Parsed<T>, s: Bytes, count: nat): (r: Parsed<seq<T>>)
    ensures r.Parsed? ==> |r.value| == count
  {
    if count == 0 then Parsed([], s)
    else
      match Many(read, s, count - 1)
      case Failed(error) => Failed(error)
      case Parsed(items, rest) =>
        match read(rest)
        case Failed(error) => Failed(error)
        case Parsed(item, end) => Parsed(items + [item], end)
  }

  /** The first error is the outcome. */
  lemma {:induction false} ManyFails<T>(read: Bytes -> Parsed<T>, s: Bytes, n: nat, count: nat)
    requires n <= count && Many(read, s, n).Failed?
    ensures Many(read, s, count) == Many(read, s, n)
    decreases count
  {
    if n < count {
      ManyFails(read, s, n, count - 1);
    }
  }

  lemma OneMore<T>(read: Bytes -> Parsed<T>, s: Bytes, items: seq<T>, n: nat, middle: Bytes, item: T, rest: Bytes)
    requires Many(read, s, n) == Parsed(items, middle) && read(middle) == Parsed(item, rest)
    ensures Many(read, s, n + 1) == Parsed(items + [item], rest)
  {
  }

  /** Items written one behind the other. */
  function Laid<T>(put: T -> Bytes, items: seq<T>): Bytes {
    if items == [] then [] else Laid(put, items[..|items| - 1]) + put(items[|items| - 1])
  }

  lemma LaidNext<T>(put: T -> Bytes, items: seq<T>, i: nat)
    requires i < |items|
    ensures Laid(put, items[..i + 1]) == Laid(put, items[..i]) + put(items[i])
  {
    assert items[..i + 1][..i] == items[..i];
  }
}
