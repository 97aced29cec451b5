/** Stable sorting by a comparison, as the built-in sort of arrays provides it. */
module Sorting {
  function Insert<T>(x: T, sorted: seq<T>, before: (T, T) -> bool): seq<T> {
    if sorted == [] then [x]
    else if before(x, sorted[0]) then [x] + sorted
    else [sorted[0]] + Insert(x, sorted[1..], before)
  }

  function Sort<T>(xs: seq<T>, before: (T, T) -> bool): seq<T> {
    if xs == [] then [] else Insert(xs[|xs| - 1], Sort(xs[..|xs| - 1], before), before)
  }

  ghost predicate Ordered<T>(xs: seq<T>, before: (T, T) -> bool) {
    forall i, j | 0 <= i < j < |xs| :: !before(xs[j], xs[i])
  }

  /** A comparison that never puts two elements before each other and whose indifference is transitive. */
  ghost predicate WeakOrder<T(!new)>(before: (T, T) -> bool) {
    && (forall x, y :: before(x, y) ==> !before(y, x))
    && (forall x, y, z :: !before(y, x) && !before(z, y) ==> !before(z, x))
  }

  lemma {:induction false} InsertKeepsElements<T>(x: T, sorted: seq<T>, before: (T, T) -> bool)
    ensures multiset(Insert(x, sorted, before)) == multiset(sorted) + multiset{x}
    decreases |sorted|
  {
    if sorted != [] {
      assert sorted == [sorted[0]] + sorted[1..];
      InsertKeepsElements(x, sorted[1..], before);
    }
  }

  lemma {:induction false} SortKeepsElements<T>(xs: seq<T>, before: (T, T) -> bool)
    ensures multiset(Sort(xs, before)) == multiset(xs) && |Sort(xs, before)| == |xs|
    decreases |xs|
  {
    if xs != [] {
      var front, last := xs[..|xs| - 1], xs[|xs| - 1];
      assert xs == front + [last];
      SortKeepsElements(front, before);
      InsertKeepsElements(last, Sort(front, before), before);
    }
    assert |Sort(xs, before)| == |multiset(Sort(xs, before))| && |xs| == |multiset(xs)|;
  }

  lemma {:induction false} InsertKeepsOrder<T(!new)>(x: T, sorted: seq<T>, before: (T, T) -> bool)
    requires WeakOrder(before) && Ordered(sorted, before)
    ensures Ordered(Insert(x, sorted, before), before)
    decreases |sorted|
  {
    if sorted != [] && !before(x, sorted[0]) {
      var rest := sorted[1..];
      InsertKeepsOrder(x, rest, before);
      InsertKeepsElements(x, rest, before);
      var inserted := Insert(x, rest, before);
      forall j | 0 <= j < |inserted| ensures !before(inserted[j], sorted[0]) {
        assert inserted[j] in multiset(inserted);
        assert inserted[j] == x || inserted[j] in multiset(rest);
        if inserted[j] != x {
          var i :| 0 <= i < |rest| && rest[i] == inserted[j];
          assert sorted[i + 1] == inserted[j];
        }
      }
    } else if sorted != [] {
      forall j | 0 <= j < |sorted| ensures !before(sorted[j], x) {
        assert !before(sorted[0], x);
        if j > 0 { assert !before(sorted[j], sorted[0]); }
      }
    }
  }

  lemma {:induction false} SortOrders<T(!new)>(xs: seq<T>, before: (T, T) -> bool)
    requires WeakOrder(before)
    ensures Ordered(Sort(xs, before), before)
    decreases |xs|
  {
    if xs != [] {
      SortOrders(xs[..|xs| - 1], before);
      InsertKeepsOrder(xs[|xs| - 1], Sort(xs[..|xs| - 1], before), before);
    }
  }

  lemma {:induction false} InsertAtEnd<T>(x: T, sorted: seq<T>, before: (T, T) -> bool)
    requires forall i | 0 <= i < |sorted| :: !before(x, sorted[i])
    ensures Insert(x, sorted, before) == sorted + [x]
    decreases |sorted|
  {
    if sorted != [] {
      InsertAtEnd(x, sorted[1..], before);
      assert sorted == [sorted[0]] + sorted[1..];
    }
  }

  /** Sorting leaves an ordered sequence as it is. */
  lemma {:induction false} SortOfOrdered<T>(xs: seq<T>, before: (T, T) -> bool)
    requires Ordered(xs, before)
    ensures Sort(xs, before) == xs
    decreases |xs|
  {
    if xs != [] {
      var last := |xs| - 1;
      SortOfOrdered(xs[..last], before);
      InsertAtEnd(xs[last], xs[..last], before);
    }
  }
}
