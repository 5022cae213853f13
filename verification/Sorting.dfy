/**
 sort.Slice, as insertion in place: the library promises some order in which no element is less than
 one before it, and says nothing about the order among equals.
 */
module Sorting {
  ghost predicate InOrder<T(!new)>(s: seq<T>, less: (T, T) -> bool) {
    forall i, j :: 0 <= i < j < |s| ==> !less(s[j], s[i])
  }

  /** A strict order whose incomparable elements are alike: what sort.Slice asks of its comparison. */
  ghost predicate WeakOrder<T(!new)>(less: (T, T) -> bool) {
    && (forall x, y :: less(x, y) ==> !less(y, x))
    && (forall x, y, z :: !less(y, x) && !less(z, y) ==> !less(z, x))
  }

  method SortSlice<T(!new)>(a: array<T>, less: (T, T) -> bool)
    requires WeakOrder(less)
    modifies a
    ensures InOrder(a[..], less) && multiset(a[..]) == multiset(old(a[..]))
  {
    for n := 0 to a.Length
      invariant InOrder(a[..n], less)
      invariant multiset(a[..]) == multiset(old(a[..]))
    {
      Sink(a, less, n);
    }
    assert a[..a.Length] == a[..];
  }

  /** Moves a[n] down to its place among the first n. */
  method Sink<T(!new)>(a: array<T>, less: (T, T) -> bool, n: nat)
    requires WeakOrder(less) && n < a.Length && InOrder(a[..n], less)
    modifies a
    ensures InOrder(a[..n + 1], less) && multiset(a[..]) == multiset(old(a[..]))
  {
    var j := n;
    assert forall p, q :: 0 <= p < q < n ==> !less(a[..n][q], a[..n][p]);
    while j > 0 && less(a[j], a[j - 1])
      invariant 0 <= j <= n
      invariant forall p, q :: 0 <= p < q <= n && q != j ==> !less(a[q], a[p])
      invariant multiset(a[..]) == multiset(old(a[..]))
    {
      Swap(a, j);
      j := j - 1;
    }
    forall p | 0 <= p < j ensures !less(a[j], a[p]) {
      assert p < j - 1 ==> !less(a[j - 1], a[p]);
    }
  }

  method Swap<T>(a: array<T>, j: nat)
    requires 0 < j < a.Length
    modifies a
    ensures a[..] == old(a[..])[j - 1 := old(a[j])][j := old(a[j - 1])]
    ensures multiset(a[..]) == multiset(old(a[..]))
  {
    a[j - 1], a[j] := a[j], a[j - 1];
  }
}
