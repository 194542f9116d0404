/** The key orders of the coordinators' sorted maps and sets, and their in-order listings. */
module Order {
  import opened Records

  /** Lexicographic order of byte strings. */
  predicate BytesLess(a: Bytes, b: Bytes) {
    if b == [] then false
    else if a == [] then true
    else if a[0] != b[0] then a[0] < b[0]
    else BytesLess(a[1..], b[1..])
  }

  predicate PartitionLess(a: TopicPartition, b: TopicPartition) {
    BytesLess(a.0, b.0) || (a.0 == b.0 && a.1 < b.1)
  }

  ghost predicate StrictTotalOrder<T(!new)>(less: (T, T) -> bool) {
    && (forall a :: !less(a, a))
    && (forall a, b, c :: less(a, b) && less(b, c) ==> less(a, c))
    && (forall a, b :: a == b || less(a, b) || less(b, a))
  }

  lemma {:induction false} BytesIrreflexive(a: Bytes)
    ensures !BytesLess(a, a)
  {
    if a != [] {
      BytesIrreflexive(a[1..]);
    }
  }

  lemma {:induction false} BytesTransitive(a: Bytes, b: Bytes, c: Bytes)
    requires BytesLess(a, b) && BytesLess(b, c)
    ensures BytesLess(a, c)
  {
    if a != [] && a[0] == b[0] && b[0] == c[0] {
      BytesTransitive(a[1..], b[1..], c[1..]);
    }
  }

  lemma {:induction false} BytesConnected(a: Bytes, b: Bytes)
    ensures a == b || BytesLess(a, b) || BytesLess(b, a)
  {
    if a != [] && b != [] && a[0] == b[0] {
      BytesConnected(a[1..], b[1..]);
      assert a[1..] == b[1..] ==> a == [a[0]] + a[1..] && b == [b[0]] + b[1..];
    }
  }

  lemma BytesOrdered()
    ensures StrictTotalOrder(BytesLess)
  {
    forall a: Bytes ensures !BytesLess(a, a) { BytesIrreflexive(a); }
    forall a: Bytes, b: Bytes, c: Bytes | BytesLess(a, b) && BytesLess(b, c)
      ensures BytesLess(a, c)
    {
      BytesTransitive(a, b, c);
    }
    forall a: Bytes, b: Bytes ensures a == b || BytesLess(a, b) || BytesLess(b, a) { BytesConnected(a, b); }
  }

  lemma PartitionsOrdered()
    ensures StrictTotalOrder(PartitionLess)
  {
    BytesOrdered();
  }

  lemma {:induction false} HasLeast<T(!new)>(s: set<T>, less: (T, T) -> bool)
    requires StrictTotalOrder(less) && s != {}
    ensures exists x :: x in s && forall y :: y in s && y != x ==> less(x, y)
  {
    var x :| x in s;
    if s != {x} {
      HasLeast(s - {x}, less);
      var y :| y in s - {x} && forall z :: z in s - {x} && z != y ==> less(y, z);
      var least := if less(x, y) then x else y;
      forall z | z in s && z != least ensures less(least, z) {
        assert z == x || z in s - {x};
      }
    }
  }

  ghost predicate SortedBy<T(!new)>(listing: seq<T>, less: (T, T) -> bool) {
    forall i, j :: 0 <= i < j < |listing| ==> less(listing[i], listing[j])
  }

  lemma ListedOnce<T(!new)>(listing: seq<T>, less: (T, T) -> bool, i: nat, j: nat)
    requires StrictTotalOrder(less) && SortedBy(listing, less)
    requires i < |listing| && j < |listing| && listing[i] == listing[j]
    ensures i == j
  {
  }

  /** The elements of a set in ascending order. */
  function Ascending<T(!new)>(s: set<T>, less: (T, T) -> bool): (listing: seq<T>)
    requires StrictTotalOrder(less)
    ensures forall x :: x in listing <==> x in s
    ensures SortedBy(listing, less)
  {
    if s == {} then []
    else
      HasLeast(s, less);
      var x :| x in s && forall y :: y in s && y != x ==> less(x, y);
      [x] + Ascending(s - {x}, less)
  }

  /** Ascending order leaves no room for repeats or for another listing of the same length. */
  lemma AscendingHasNoRepeats<T(!new)>(s: set<T>, less: (T, T) -> bool)
    requires StrictTotalOrder(less)
    ensures forall i, j :: 0 <= i < j < |Ascending(s, less)| ==> Ascending(s, less)[i] != Ascending(s, less)[j]
  {
    var listing := Ascending(s, less);
    forall i, j | 0 <= i < j < |listing| ensures listing[i] != listing[j] {
      assert less(listing[i], listing[j]);
    }
  }
}
