/** Properties of sequences used throughout. */
module Sequences {
  predicate Distinct<T(==)>(s: seq<T>) { forall i, j | 0 <= i < j < |s| :: s[i] != s[j] }

  lemma DistinctGrows<T>(s: seq<T>, x: T)
    requires Distinct(s) && x !in s
    ensures Distinct(s + [x])
  {}

  function IdSet(ids: seq<string>): set<string> { set id <- ids }

  predicate Ascending(s: seq<nat>) { forall i, j | 0 <= i < j < |s| :: s[i] < s[j] }

  /** The last `limit` elements, or all when there are fewer. */
  function LastUpTo<T>(s: seq<T>, limit: nat): seq<T> { if |s| <= limit then s else s[|s| - limit..] }

  lemma LastOnesAreThere<T>(s: seq<T>, limit: nat, x: T)
    requires x in LastUpTo(s, limit)
    ensures x in s
  {}
}
