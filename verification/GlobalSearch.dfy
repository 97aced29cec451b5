/**
 Global retrieval as a function of its inputs: which starts are tried, in which order, and what each of
 them costs of the budget; and what holds of the result. The methods of `Candidates` compute it in place.
 */
module GlobalSearch {
  import opened Sequences
  import opened EditScript
  import opened IndexCorpus
  import opened Postings
  import opened Sorting
  import opened NgramQueries

  const MAX_ALIGNMENT_CANDIDATES := 64
  const MAX_POSTING_INSPECTIONS := 128
  const MAX_ANCHOR_DISPLACEMENT := 3

  predicate Full(items: seq<nat>) { |items| >= MAX_ALIGNMENT_CANDIDATES }

  datatype Nearest = Nearest(anchor: Anchor, posting: nat)

  /** The candidates so far, what is left of the budget, and how far each posting list has been walked. */
  datatype Search = Search(items: seq<nat>, remaining: nat, stretches: seq<Stretch>, nearest: seq<Nearest>)

  predicate Stops(s: Search) { Full(s.items) || s.remaining == 0 }

  function WithStart(items: seq<nat>, symbolCount: nat, start: int): seq<nat> {
    if |items| < MAX_ALIGNMENT_CANDIDATES && 0 <= start < symbolCount && start !in items then items + [start] else items
  }

  /** The neighbours of a base position from the given distance on, the later one first. */
  function WithDisplaced(items: seq<nat>, symbolCount: nat, base: int, distance: nat): seq<nat>
    decreases MAX_ANCHOR_DISPLACEMENT + 1 - distance, items
  {
    if distance > MAX_ANCHOR_DISPLACEMENT || Full(items) then items
    else WithDisplaced(WithStart(WithStart(items, symbolCount, base + distance), symbolCount, base - distance), symbolCount, base, distance + 1)
  }

  predicate ItemsOk(items: seq<nat>, symbolCount: nat) {
    Distinct(items) && |items| <= MAX_ALIGNMENT_CANDIDATES && forall x <- items :: x < symbolCount
  }

  /** Starts at distances from `low` up to, but not including, `high` have been added, if in range. */
  ghost predicate HasNeighbours(items: seq<nat>, symbolCount: nat, base: int, low: nat, high: nat) {
    forall x: nat | x < symbolCount && low <= Abs(x - base) < high :: x in items
  }

  lemma StartIsAdded(items: seq<nat>, symbolCount: nat, start: int)
    requires ItemsOk(items, symbolCount)
    ensures var after := WithStart(items, symbolCount, start);
            && ItemsOk(after, symbolCount) && items <= after && (forall x | x in after :: x in items || x == start)
            && (!Full(after) && 0 <= start < symbolCount ==> start in after) && (Full(items) ==> after == items)
  {}

  /** Only neighbours are added, and all of them while there is room. */
  lemma {:induction false} NeighboursAreAdded(items: seq<nat>, symbolCount: nat, base: int, distance: nat)
    requires ItemsOk(items, symbolCount) && distance <= MAX_ANCHOR_DISPLACEMENT + 1
    ensures var after := WithDisplaced(items, symbolCount, base, distance);
            && ItemsOk(after, symbolCount) && items <= after
            && (forall x | x in after :: x in items || distance <= Abs(x - base) <= MAX_ANCHOR_DISPLACEMENT)
            && (!Full(after) ==> HasNeighbours(after, symbolCount, base, distance, MAX_ANCHOR_DISPLACEMENT + 1))
    decreases MAX_ANCHOR_DISPLACEMENT + 1 - distance
  {
    hide WithStart;
    if distance <= MAX_ANCHOR_DISPLACEMENT && !Full(items) {
      var first := WithStart(items, symbolCount, base + distance);
      var second := WithStart(first, symbolCount, base - distance);
      StartIsAdded(items, symbolCount, base + distance);
      StartIsAdded(first, symbolCount, base - distance);
      NeighboursAreAdded(second, symbolCount, base, distance + 1);
      var after := WithDisplaced(second, symbolCount, base, distance + 1);
      if !Full(after) { NearerAreAdded(first, second, after, symbolCount, base, distance); }
    }
  }

  lemma NearerAreAdded(first: seq<nat>, second: seq<nat>, after: seq<nat>, symbolCount: nat, base: int, distance: nat)
    requires first <= second <= after && !Full(after)
    requires 0 <= base + distance < symbolCount ==> base + distance in first
    requires 0 <= base - distance < symbolCount ==> base - distance in second
    requires HasNeighbours(after, symbolCount, base, distance + 1, MAX_ANCHOR_DISPLACEMENT + 1)
    ensures HasNeighbours(after, symbolCount, base, distance, MAX_ANCHOR_DISPLACEMENT + 1)
  {
    forall x: nat | x < symbolCount && distance <= Abs(x - base) < MAX_ANCHOR_DISPLACEMENT + 1 ensures x in after {
      if x == base + distance { InPrefix(first, after, x); } else if x == base - distance { InPrefix(second, after, x); }
    }
  }

  lemma InPrefix(before: seq<nat>, after: seq<nat>, x: nat)
    requires before <= after && x in before
    ensures x in after
  {
    var i :| 0 <= i < |before| && before[i] == x;
    assert after[i] == x;
  }

  function WithHypothesis(items: seq<nat>, symbolCount: nat, base: int): seq<nat> {
    WithDisplaced(WithStart(items, symbolCount, base), symbolCount, base, 1)
  }

  // ----- one exact hypothesis per anchor

  function Open(s: Search, symbolCount: nat, cursorSymbol: int, anchor: Anchor): Search {
    var found := Bisect(anchor.postings, cursorSymbol + anchor.offset, 0, |anchor.postings|, s.remaining);
    if found.place.None? then s.(remaining := 0)
    else OpenAt(s, symbolCount, cursorSymbol, Stretch(anchor, found.place.value - 1, found.place.value), found.remaining)
  }

  function OpenAt(s: Search, symbolCount: nat, cursorSymbol: int, stretch: Stretch, remaining: nat): Search {
    var taken := Take(stretch, cursorSymbol, remaining);
    if taken.posting.None? then Search(s.items, taken.remaining, s.stretches + [taken.stretch], s.nearest)
    else Search(WithStart(s.items, symbolCount, taken.posting.value - stretch.anchor.offset), taken.remaining,
                s.stretches + [taken.stretch], s.nearest + [Nearest(stretch.anchor, taken.posting.value)])
  }

  function OpenUpTo(items: seq<nat>, symbolCount: nat, cursorSymbol: int, anchors: seq<Anchor>, k: nat): (s: Search)
    requires k <= |anchors|
    ensures s.remaining <= MAX_POSTING_INSPECTIONS
  {
    if k == 0 then Search(items, MAX_POSTING_INSPECTIONS, [], [])
    else
      var s := OpenUpTo(items, symbolCount, cursorSymbol, anchors, k - 1);
      if Stops(s) then s else Open(s, symbolCount, cursorSymbol, anchors[k - 1])
  }

  /** Once it stops, the remaining anchors are left out. */
  lemma {:induction false} OpenStays(items: seq<nat>, symbolCount: nat, cursorSymbol: int, anchors: seq<Anchor>, j: nat, k: nat)
    requires j <= k <= |anchors| && Stops(OpenUpTo(items, symbolCount, cursorSymbol, anchors, j))
    ensures OpenUpTo(items, symbolCount, cursorSymbol, anchors, k) == OpenUpTo(items, symbolCount, cursorSymbol, anchors, j)
    decreases k
  {
    if j < k { OpenStays(items, symbolCount, cursorSymbol, anchors, j, k - 1); }
  }

  // ----- the neighbours of these

  function NeighboursUpTo(items: seq<nat>, symbolCount: nat, nearest: seq<Nearest>, k: nat): seq<nat>
    requires k <= |nearest|
  {
    if k == 0 then items
    else WithDisplaced(NeighboursUpTo(items, symbolCount, nearest, k - 1), symbolCount,
                       nearest[k - 1].posting - nearest[k - 1].anchor.offset, 1)
  }

  lemma FullStays(items: seq<nat>, symbolCount: nat, base: int, distance: nat)
    requires Full(items)
    ensures WithDisplaced(items, symbolCount, base, distance) == items
  {}

  lemma {:induction false} NeighboursStay(items: seq<nat>, symbolCount: nat, nearest: seq<Nearest>, j: nat, k: nat)
    requires j <= k <= |nearest| && Full(NeighboursUpTo(items, symbolCount, nearest, j))
    ensures NeighboursUpTo(items, symbolCount, nearest, k) == NeighboursUpTo(items, symbolCount, nearest, j)
    decreases k
  {
    hide WithDisplaced;
    if j < k {
      NeighboursStay(items, symbolCount, nearest, j, k - 1);
      FullStays(NeighboursUpTo(items, symbolCount, nearest, j), symbolCount, nearest[k - 1].posting - nearest[k - 1].anchor.offset, 1);
    }
  }

  // ----- rounds over all lists

  function FillList(s: Search, symbolCount: nat, cursorSymbol: int, k: nat): (t: Search)
    requires k < |s.stretches|
    ensures |t.stretches| == |s.stretches| && t.remaining <= s.remaining
  {
    var taken := Take(s.stretches[k], cursorSymbol, s.remaining);
    Search(if taken.posting.None? then s.items
           else WithHypothesis(s.items, symbolCount, taken.posting.value - s.stretches[k].anchor.offset),
           taken.remaining, s.stretches[k := taken.stretch], s.nearest)
  }

  function RoundUpTo(s: Search, symbolCount: nat, cursorSymbol: int, k: nat): (t: Search)
    requires k <= |s.stretches|
    ensures |t.stretches| == |s.stretches| && t.remaining <= s.remaining
  {
    if k == 0 then s
    else
      var t := RoundUpTo(s, symbolCount, cursorSymbol, k - 1);
      if Stops(t) then t else FillList(t, symbolCount, cursorSymbol, k - 1)
  }

  lemma {:induction false} RoundStays(s: Search, symbolCount: nat, cursorSymbol: int, j: nat, k: nat)
    requires j <= k <= |s.stretches| && Stops(RoundUpTo(s, symbolCount, cursorSymbol, j))
    ensures RoundUpTo(s, symbolCount, cursorSymbol, k) == RoundUpTo(s, symbolCount, cursorSymbol, j)
    decreases k
  {
    if j < k { RoundStays(s, symbolCount, cursorSymbol, j, k - 1); }
  }

  /** Rounds until the set is full, the budget is spent or a round spends nothing. */
  function Rounds(s: Search, symbolCount: nat, cursorSymbol: int): (t: Search)
    ensures t.remaining <= s.remaining
    decreases s.remaining
  {
    if Stops(s) then s
    else
      var t := RoundUpTo(s, symbolCount, cursorSymbol, |s.stretches|);
      if t.remaining == s.remaining then t else Rounds(t, symbolCount, cursorSymbol)
  }

  /** One exact hypothesis per anchor and the neighbours of these. */
  function FirstSearched(items: seq<nat>, symbolCount: nat, cursorSymbol: int, anchors: seq<Anchor>): Search {
    var first := OpenUpTo(items, symbolCount, cursorSymbol, anchors, |anchors|);
    first.(items := NeighboursUpTo(first.items, symbolCount, first.nearest, |first.nearest|))
  }

  /** The whole search for the given anchors, starting from the given candidates. */
  function Searched(items: seq<nat>, symbolCount: nat, cursorSymbol: int, anchors: seq<Anchor>): Search {
    Rounds(FirstSearched(items, symbolCount, cursorSymbol, anchors), symbolCount, cursorSymbol)
  }

  // ----- everything added is justified

  /** Some n-gram of the observation occurs in the corpus so that its occurrence, taken back to the
      start of the observation, is at most three positions away from x. */
  ghost predicate Justified(index: IndexedCorpus, actual: seq<Phoneme>, x: nat) {
    exists q: Query, posting: nat :: JustifiedBy(index, actual, x, q, posting)
  }

  ghost predicate JustifiedBy(index: IndexedCorpus, actual: seq<Phoneme>, x: nat, q: Query, posting: nat) {
    && 0 < q.length <= MAX_NGRAM && q.offset + q.length <= |actual|
    && posting in PostingsOf(index.phonemeNgramPostings, QueryKey(actual, q))
    && Abs(x - (posting - q.offset)) <= MAX_ANCHOR_DISPLACEMENT
  }

  /** `after` continues `before`, and everything added is justified. */
  ghost predicate Extends(index: IndexedCorpus, actual: seq<Phoneme>, before: seq<nat>, after: seq<nat>) {
    before <= after && forall x <- after :: x in before || Justified(index, actual, x)
  }

  lemma ExtendsStep(index: IndexedCorpus, actual: seq<Phoneme>, a: Anchor, posting: nat,
                    first: seq<nat>, before: seq<nat>, after: seq<nat>)
    requires Extends(index, actual, first, before) && IsAnchor(index, actual, a) && posting in a.postings
    requires before <= after
    requires forall x | x in after && x !in before :: Abs(x - (posting - a.offset)) <= MAX_ANCHOR_DISPLACEMENT
    ensures Extends(index, actual, first, after)
  {
    forall x | x in after ensures x in first || Justified(index, actual, x) {
      if x !in before { assert JustifiedBy(index, actual, x, Query(a.length, a.offset), posting); }
    }
  }

  // ----- nothing is missed while there is room and budget

  /** Every start in range at most three positions from the base has been added. */
  ghost predicate Reached(items: seq<nat>, symbolCount: nat, base: int) {
    HasNeighbours(items, symbolCount, base, 0, MAX_ANCHOR_DISPLACEMENT + 1)
  }

  predicate StartTried(items: seq<nat>, symbolCount: nat, start: int) { Full(items) || (0 <= start < symbolCount ==> start in items) }

  lemma StaysReached(before: seq<nat>, after: seq<nat>, symbolCount: nat, base: int)
    requires before <= after && Reached(before, symbolCount, base)
    ensures Reached(after, symbolCount, base)
  {
    forall x: nat | x < symbolCount && Abs(x - base) < MAX_ANCHOR_DISPLACEMENT + 1 ensures x in after { InPrefix(before, after, x); }
  }

  lemma StartStaysTried(before: seq<nat>, after: seq<nat>, symbolCount: nat, start: int)
    requires before <= after && StartTried(before, symbolCount, start)
    ensures StartTried(after, symbolCount, start)
  {
    if !Full(after) && 0 <= start < symbolCount { InPrefix(before, after, start); }
  }

  /** An exact start and its neighbours. */
  lemma BothReached(before: seq<nat>, after: seq<nat>, symbolCount: nat, base: int)
    requires before <= after && StartTried(before, symbolCount, base)
    requires !Full(after) ==> HasNeighbours(after, symbolCount, base, 1, MAX_ANCHOR_DISPLACEMENT + 1)
    ensures Full(after) || Reached(after, symbolCount, base)
  {
    if !Full(after) {
      forall x: nat | x < symbolCount && Abs(x - base) < MAX_ANCHOR_DISPLACEMENT + 1 ensures x in after {
        if x == base { InPrefix(before, after, x); }
      }
    }
  }

  lemma HypothesisGrows(items: seq<nat>, symbolCount: nat, base: int)
    requires ItemsOk(items, symbolCount)
    ensures var after := WithHypothesis(items, symbolCount, base);
            && ItemsOk(after, symbolCount) && items <= after
            && (forall x | x in after && x !in items :: Abs(x - base) <= MAX_ANCHOR_DISPLACEMENT)
  {
    HypothesisIsAdded(items, symbolCount, base);
  }

  lemma HypothesisIsAdded(items: seq<nat>, symbolCount: nat, base: int)
    requires ItemsOk(items, symbolCount)
    ensures var after := WithHypothesis(items, symbolCount, base);
            && ItemsOk(after, symbolCount) && items <= after
            && (forall x | x in after && x !in items :: Abs(x - base) <= MAX_ANCHOR_DISPLACEMENT)
            && (Full(after) || Reached(after, symbolCount, base))
  {
    var start := WithStart(items, symbolCount, base);
    StartIsAdded(items, symbolCount, base);
    NeighboursAreAdded(start, symbolCount, base, 1);
    BothReached(start, WithHypothesis(items, symbolCount, base), symbolCount, base);
  }

  // ----- how far a list has been walked

  ghost predicate StretchOk(index: IndexedCorpus, actual: seq<Phoneme>, st: Stretch) {
    IsAnchor(index, actual, st.anchor) && -1 <= st.left < st.right <= |st.anchor.postings|
  }

  predicate Exhausted(st: Stretch) { st.left < 0 && st.right >= |st.anchor.postings| }

  /** What has been walked of a list has been tried, unless the set is full. */
  ghost predicate Tried(items: seq<nat>, symbolCount: nat, st: Stretch)
    requires -1 <= st.left < st.right <= |st.anchor.postings|
  {
    Full(items) || forall i | st.left < i < st.right :: Reached(items, symbolCount, st.anchor.postings[i] - st.anchor.offset)
  }

  lemma StaysTried(before: seq<nat>, after: seq<nat>, symbolCount: nat, st: Stretch)
    requires -1 <= st.left < st.right <= |st.anchor.postings| && before <= after && Tried(before, symbolCount, st)
    ensures Tried(after, symbolCount, st)
  {
    if !Full(after) {
      forall i | st.left < i < st.right ensures Reached(after, symbolCount, st.anchor.postings[i] - st.anchor.offset) {
        StaysReached(before, after, symbolCount, st.anchor.postings[i] - st.anchor.offset);
      }
    }
  }

  /** One step of a walk takes the posting next to what has been walked, or finds the list used up or the
      budget spent. */
  lemma TakeWalksOn(index: IndexedCorpus, actual: seq<Phoneme>, st: Stretch, cursorSymbol: int, remaining: nat)
    requires StretchOk(index, actual, st)
    ensures var taken := Take(st, cursorSymbol, remaining);
            && StretchOk(index, actual, taken.stretch) && taken.stretch.anchor == st.anchor && taken.remaining <= remaining
            && (taken.posting.None? ==> taken.stretch == st && (Exhausted(st) || taken.remaining == 0))
            && (taken.posting.Some? ==>
                  && taken.remaining < remaining && taken.posting.value in st.anchor.postings
                  && ((taken.stretch == st.(left := st.left - 1) && 0 <= st.left && taken.posting.value == st.anchor.postings[st.left])
                      || (taken.stretch == st.(right := st.right + 1) && st.right < |st.anchor.postings|
                          && taken.posting.value == st.anchor.postings[st.right])))
  {}

  // ----- what holds while the first postings are taken

  /** At most the posting in `nearest` has been taken from a list. */
  ghost predicate FirstTaken(st: Stretch, anchor: Anchor, nearest: seq<Nearest>)
    requires -1 <= st.left < st.right <= |st.anchor.postings|
  {
    && st.anchor == anchor
    && (st.right == st.left + 1 || (st.right == st.left + 2 && Nearest(anchor, st.anchor.postings[st.left + 1]) in nearest))
  }

  ghost predicate NearestOk(index: IndexedCorpus, actual: seq<Phoneme>, items: seq<nat>, x: Nearest) {
    IsAnchor(index, actual, x.anchor) && x.posting in x.anchor.postings && StartTried(items, |index.symbols|, x.posting - x.anchor.offset)
  }

  ghost predicate AllNearestOk(index: IndexedCorpus, actual: seq<Phoneme>, items: seq<nat>, nearest: seq<Nearest>) {
    forall x <- nearest :: NearestOk(index, actual, items, x)
  }

  ghost predicate AllFirstTaken(index: IndexedCorpus, actual: seq<Phoneme>, stretches: seq<Stretch>, anchors: seq<Anchor>,
                                nearest: seq<Nearest>) {
    && |stretches| <= |anchors|
    && forall j | 0 <= j < |stretches| :: StretchOk(index, actual, stretches[j]) && FirstTaken(stretches[j], anchors[j], nearest)
  }

  ghost predicate OpeningOk(index: IndexedCorpus, actual: seq<Phoneme>, anchors: seq<Anchor>, k: nat, s: Search) {
    && ItemsOk(s.items, |index.symbols|)
    && AllFirstTaken(index, actual, s.stretches, anchors, s.nearest)
    && AllNearestOk(index, actual, s.items, s.nearest)
    && (Stops(s) || |s.stretches| == k)
  }

  lemma AllNearestStayOk(index: IndexedCorpus, actual: seq<Phoneme>, before: seq<nat>, after: seq<nat>, nearest: seq<Nearest>)
    requires before <= after && AllNearestOk(index, actual, before, nearest)
    ensures AllNearestOk(index, actual, after, nearest)
  {
    forall x | x in nearest ensures NearestOk(index, actual, after, x) {
      StartStaysTried(before, after, |index.symbols|, x.posting - x.anchor.offset);
    }
  }

  lemma OneMoreFirst(index: IndexedCorpus, actual: seq<Phoneme>, stretches: seq<Stretch>, anchors: seq<Anchor>,
                     nearest: seq<Nearest>, st: Stretch, more: seq<Nearest>)
    requires AllFirstTaken(index, actual, stretches, anchors, nearest) && |stretches| < |anchors|
    requires forall x <- nearest :: x in more
    requires StretchOk(index, actual, st) && FirstTaken(st, anchors[|stretches|], more)
    ensures AllFirstTaken(index, actual, stretches + [st], anchors, more)
  {
    var all := stretches + [st];
    forall j | 0 <= j < |all| ensures StretchOk(index, actual, all[j]) && FirstTaken(all[j], anchors[j], more) {
      if j < |stretches| { assert FirstTaken(stretches[j], anchors[j], nearest); }
    }
  }

  lemma OpenAtKeeps(index: IndexedCorpus, actual: seq<Phoneme>, cursorSymbol: int, anchors: seq<Anchor>, s: Search,
                    place: nat, remaining: nat)
    requires |s.stretches| < |anchors| && OpeningOk(index, actual, anchors, |s.stretches|, s)
    requires IsAnchor(index, actual, anchors[|s.stretches|]) && place <= |anchors[|s.stretches|].postings|
    ensures var st := Stretch(anchors[|s.stretches|], place - 1, place);
            OpeningOk(index, actual, anchors, |s.stretches| + 1, OpenAt(s, |index.symbols|, cursorSymbol, st, remaining))
  {
    var a, n := anchors[|s.stretches|], |index.symbols|;
    var st := Stretch(a, place - 1, place);
    var taken := Take(st, cursorSymbol, remaining);
    TakeWalksOn(index, actual, st, cursorSymbol, remaining);
    if taken.posting.None? {
      OneMoreFirst(index, actual, s.stretches, anchors, s.nearest, taken.stretch, s.nearest);
    } else {
      var x := Nearest(a, taken.posting.value);
      var items, nearest := WithStart(s.items, n, x.posting - a.offset), s.nearest + [x];
      StartIsAdded(s.items, n, x.posting - a.offset);
      AllNearestStayOk(index, actual, s.items, items, s.nearest);
      assert nearest[|s.nearest|] == x && x in nearest;
      OneMoreFirst(index, actual, s.stretches, anchors, s.nearest, taken.stretch, nearest);
    }
  }

  lemma {:induction false} OpenUpToIsOk(index: IndexedCorpus, actual: seq<Phoneme>, cursorSymbol: int, first: seq<nat>,
                                        anchors: seq<Anchor>, k: nat)
    requires ItemsOk(first, |index.symbols|) && AreAnchors(index, actual, anchors) && k <= |anchors|
    ensures OpeningOk(index, actual, anchors, k, OpenUpTo(first, |index.symbols|, cursorSymbol, anchors, k))
    decreases k
  {
    if k > 0 {
      OpenUpToIsOk(index, actual, cursorSymbol, first, anchors, k - 1);
      var s := OpenUpTo(first, |index.symbols|, cursorSymbol, anchors, k - 1);
      if !Stops(s) { OpenKeeps(index, actual, cursorSymbol, anchors, s); }
    }
  }

  lemma OpenKeeps(index: IndexedCorpus, actual: seq<Phoneme>, cursorSymbol: int, anchors: seq<Anchor>, s: Search)
    requires |s.stretches| < |anchors| && OpeningOk(index, actual, anchors, |s.stretches|, s)
    requires AreAnchors(index, actual, anchors)
    ensures var t := Open(s, |index.symbols|, cursorSymbol, anchors[|s.stretches|]);
            OpeningOk(index, actual, anchors, |s.stretches| + 1, t)
  {
    hide OpenAt, Bisect;
    var a := anchors[|s.stretches|];
    var found := Bisect(a.postings, cursorSymbol + a.offset, 0, |a.postings|, s.remaining);
    if found.place.Some? { OpenAtKeeps(index, actual, cursorSymbol, anchors, s, found.place.value, found.remaining); }
  }

  // ----- what holds once the neighbours have been added

  /** All lists have been tried as far as they have been walked. */
  ghost predicate SearchOk(index: IndexedCorpus, actual: seq<Phoneme>, anchors: seq<Anchor>, s: Search) {
    && ItemsOk(s.items, |index.symbols|)
    && (Stops(s) || |s.stretches| == |anchors|) && ListsOk(index, actual, s.items, anchors, s.stretches)
  }

  ghost predicate ListsOk(index: IndexedCorpus, actual: seq<Phoneme>, items: seq<nat>, anchors: seq<Anchor>, stretches: seq<Stretch>) {
    |stretches| <= |anchors| && forall j | 0 <= j < |stretches| :: ListOk(index, actual, items, anchors[j], stretches[j])
  }

  ghost predicate ListOk(index: IndexedCorpus, actual: seq<Phoneme>, items: seq<nat>, anchor: Anchor, st: Stretch) {
    StretchOk(index, actual, st) && st.anchor == anchor && Tried(items, |index.symbols|, st)
  }

  ghost predicate NearestReached(items: seq<nat>, symbolCount: nat, nearest: seq<Nearest>, k: nat)
    requires k <= |nearest|
  {
    Full(items) || forall i | 0 <= i < k :: Reached(items, symbolCount, nearest[i].posting - nearest[i].anchor.offset)
  }

  lemma {:induction false} NeighboursReached(symbolCount: nat, items: seq<nat>, nearest: seq<Nearest>, k: nat)
    requires ItemsOk(items, symbolCount) && k <= |nearest|
    requires forall x <- nearest :: StartTried(items, symbolCount, x.posting - x.anchor.offset)
    ensures var after := NeighboursUpTo(items, symbolCount, nearest, k);
            ItemsOk(after, symbolCount) && items <= after && NearestReached(after, symbolCount, nearest, k)
    decreases k
  {
    hide WithDisplaced;
    if k > 0 {
      var before := NeighboursUpTo(items, symbolCount, nearest, k - 1);
      NeighboursReached(symbolCount, items, nearest, k - 1);
      NeighboursGrow(before, symbolCount, nearest[k - 1].posting - nearest[k - 1].anchor.offset);
      NeighboursReachNext(symbolCount, items, before, nearest, k);
    }
  }

  lemma NeighboursGrow(items: seq<nat>, symbolCount: nat, base: int)
    requires ItemsOk(items, symbolCount)
    ensures var after := WithDisplaced(items, symbolCount, base, 1);
            && ItemsOk(after, symbolCount) && items <= after
            && (forall x | x in after && x !in items :: Abs(x - base) <= MAX_ANCHOR_DISPLACEMENT)
  {
    NeighboursAreAdded(items, symbolCount, base, 1);
  }

  lemma NeighboursReachNext(symbolCount: nat, items: seq<nat>, before: seq<nat>, nearest: seq<Nearest>, k: nat)
    requires 0 < k <= |nearest| && items <= before && ItemsOk(before, symbolCount)
    requires StartTried(items, symbolCount, nearest[k - 1].posting - nearest[k - 1].anchor.offset)
    requires NearestReached(before, symbolCount, nearest, k - 1)
    ensures NearestReached(WithDisplaced(before, symbolCount, nearest[k - 1].posting - nearest[k - 1].anchor.offset, 1), symbolCount, nearest, k)
  {
    var base := nearest[k - 1].posting - nearest[k - 1].anchor.offset;
    var after := WithDisplaced(before, symbolCount, base, 1);
    NeighboursAreAdded(before, symbolCount, base, 1);
    StartStaysTried(items, before, symbolCount, base);
    BothReached(before, after, symbolCount, base);
    OneMoreReached(before, after, symbolCount, nearest, k);
  }

  lemma OneMoreReached(before: seq<nat>, after: seq<nat>, symbolCount: nat, nearest: seq<Nearest>, k: nat)
    requires before <= after && 0 < k <= |nearest| && NearestReached(before, symbolCount, nearest, k - 1)
    requires Full(after) || Reached(after, symbolCount, nearest[k - 1].posting - nearest[k - 1].anchor.offset)
    ensures NearestReached(after, symbolCount, nearest, k)
  {
    if !Full(after) {
      forall i | 0 <= i < k ensures Reached(after, symbolCount, nearest[i].posting - nearest[i].anchor.offset) {
        if i < k - 1 { StaysReached(before, after, symbolCount, nearest[i].posting - nearest[i].anchor.offset); }
      }
    }
  }

  lemma FirstIsTried(items: seq<nat>, symbolCount: nat, st: Stretch, anchor: Anchor, nearest: seq<Nearest>)
    requires -1 <= st.left < st.right <= |st.anchor.postings| && FirstTaken(st, anchor, nearest)
    requires NearestReached(items, symbolCount, nearest, |nearest|)
    ensures Tried(items, symbolCount, st)
  {
    if st.right == st.left + 2 {
      var k :| 0 <= k < |nearest| && nearest[k] == Nearest(anchor, st.anchor.postings[st.left + 1]);
    }
  }

  lemma FirstSearchedIsOk(index: IndexedCorpus, actual: seq<Phoneme>, cursorSymbol: int, first: seq<nat>, anchors: seq<Anchor>)
    requires ItemsOk(first, |index.symbols|) && AreAnchors(index, actual, anchors)
    ensures SearchOk(index, actual, anchors, FirstSearched(first, |index.symbols|, cursorSymbol, anchors))
  {
    var n := |index.symbols|;
    OpenUpToIsOk(index, actual, cursorSymbol, first, anchors, |anchors|);
    var s := OpenUpTo(first, n, cursorSymbol, anchors, |anchors|);
    assert forall x <- s.nearest :: NearestOk(index, actual, s.items, x);
    NeighboursReached(n, s.items, s.nearest, |s.nearest|);
    var items := NeighboursUpTo(s.items, n, s.nearest, |s.nearest|);
    forall j | 0 <= j < |s.stretches| ensures ListOk(index, actual, items, anchors[j], s.stretches[j]) {
      assert FirstTaken(s.stretches[j], anchors[j], s.nearest);
      FirstIsTried(items, n, s.stretches[j], anchors[j], s.nearest);
    }
  }

  // ----- what rounds keep

  lemma HypothesisTries(symbolCount: nat, items: seq<nat>, st: Stretch, next: Stretch, posting: nat)
    requires ItemsOk(items, symbolCount)
    requires -1 <= st.left < st.right <= |st.anchor.postings| && -1 <= next.left < next.right <= |next.anchor.postings|
    requires Tried(items, symbolCount, st)
    requires (next == st.(left := st.left - 1) && posting == st.anchor.postings[st.left])
             || (next == st.(right := st.right + 1) && posting == st.anchor.postings[st.right])
    ensures Tried(WithHypothesis(items, symbolCount, posting - st.anchor.offset), symbolCount, next)
  {
    HypothesisIsAdded(items, symbolCount, posting - st.anchor.offset);
    OneMoreTried(items, WithHypothesis(items, symbolCount, posting - st.anchor.offset), symbolCount, st, next, posting - st.anchor.offset);
  }

  /** What one step does to the candidates and to its list. */
  lemma FillStep(index: IndexedCorpus, actual: seq<Phoneme>, cursorSymbol: int, s: Search, k: nat)
    requires ItemsOk(s.items, |index.symbols|)
    requires k < |s.stretches| && ListOk(index, actual, s.items, s.stretches[k].anchor, s.stretches[k])
    ensures var t := FillList(s, |index.symbols|, cursorSymbol, k);
            && ItemsOk(t.items, |index.symbols|) && s.items <= t.items
            && ListOk(index, actual, t.items, s.stretches[k].anchor, t.stretches[k])
  {
    hide WithHypothesis, Take;
    var st := s.stretches[k];
    var taken := Take(st, cursorSymbol, s.remaining);
    TakeWalksOn(index, actual, st, cursorSymbol, s.remaining);
    if taken.posting.Some? {
      HypothesisGrows(s.items, |index.symbols|, taken.posting.value - st.anchor.offset);
      HypothesisTries(|index.symbols|, s.items, st, taken.stretch, taken.posting.value);
    }
  }

  lemma ListsStayOk(index: IndexedCorpus, actual: seq<Phoneme>, before: seq<nat>, after: seq<nat>, anchors: seq<Anchor>,
                    stretches: seq<Stretch>, k: nat, next: Stretch)
    requires ListsOk(index, actual, before, anchors, stretches) && before <= after
    requires k < |stretches| && ListOk(index, actual, after, anchors[k], next)
    ensures ListsOk(index, actual, after, anchors, stretches[k := next])
  {
    forall j | 0 <= j < |stretches| && j != k ensures ListOk(index, actual, after, anchors[j], stretches[j]) {
      StaysTried(before, after, |index.symbols|, stretches[j]);
    }
  }

  /** One more posting of one list; the other lists are left alone. */
  lemma FillKeeps(index: IndexedCorpus, actual: seq<Phoneme>, cursorSymbol: int, anchors: seq<Anchor>, s: Search, k: nat)
    requires SearchOk(index, actual, anchors, s) && k < |s.stretches| && !Stops(s)
    ensures SearchOk(index, actual, anchors, FillList(s, |index.symbols|, cursorSymbol, k))
  {
    var t := FillList(s, |index.symbols|, cursorSymbol, k);
    assert ListOk(index, actual, s.items, anchors[k], s.stretches[k]);
    FillStep(index, actual, cursorSymbol, s, k);
    ListsStayOk(index, actual, s.items, t.items, anchors, s.stretches, k, t.stretches[k]);
  }

  /** A step that spends nothing of a budget that is not used up has found its list used up. */
  lemma FillSpends(index: IndexedCorpus, actual: seq<Phoneme>, cursorSymbol: int, s: Search, k: nat)
    requires k < |s.stretches| && StretchOk(index, actual, s.stretches[k])
    requires FillList(s, |index.symbols|, cursorSymbol, k).remaining == s.remaining > 0
    ensures FillList(s, |index.symbols|, cursorSymbol, k).stretches == s.stretches && Exhausted(s.stretches[k])
  {
    TakeWalksOn(index, actual, s.stretches[k], cursorSymbol, s.remaining);
  }

  lemma OneMoreTried(before: seq<nat>, after: seq<nat>, symbolCount: nat, st: Stretch, next: Stretch, base: int)
    requires -1 <= st.left < st.right <= |st.anchor.postings| && -1 <= next.left < next.right <= |next.anchor.postings|
    requires before <= after && Tried(before, symbolCount, st) && (Full(after) || Reached(after, symbolCount, base))
    requires (next == st.(left := st.left - 1) && base == st.anchor.postings[st.left] - st.anchor.offset)
             || (next == st.(right := st.right + 1) && base == st.anchor.postings[st.right] - st.anchor.offset)
    ensures Tried(after, symbolCount, next)
  {
    StaysTried(before, after, symbolCount, st);
  }

  lemma {:induction false} RoundKeeps(index: IndexedCorpus, actual: seq<Phoneme>, cursorSymbol: int,
                                      anchors: seq<Anchor>, s: Search, k: nat)
    requires SearchOk(index, actual, anchors, s) && k <= |s.stretches|
    ensures SearchOk(index, actual, anchors, RoundUpTo(s, |index.symbols|, cursorSymbol, k))
    decreases k
  {
    hide SearchOk, FillList;
    if k > 0 {
      RoundKeeps(index, actual, cursorSymbol, anchors, s, k - 1);
      var t := RoundUpTo(s, |index.symbols|, cursorSymbol, k - 1);
      if !Stops(t) { FillKeeps(index, actual, cursorSymbol, anchors, t, k - 1); }
    }
  }

  /** A round that spends nothing has found every list used up. */
  lemma {:induction false} RoundSpends(index: IndexedCorpus, actual: seq<Phoneme>, cursorSymbol: int, s: Search, k: nat)
    requires k <= |s.stretches| && forall j | 0 <= j < |s.stretches| :: StretchOk(index, actual, s.stretches[j])
    requires !Stops(RoundUpTo(s, |index.symbols|, cursorSymbol, k))
    requires RoundUpTo(s, |index.symbols|, cursorSymbol, k).remaining == s.remaining
    ensures RoundUpTo(s, |index.symbols|, cursorSymbol, k).stretches == s.stretches
    ensures forall j | 0 <= j < k :: Exhausted(s.stretches[j])
    decreases k
  {
    if k > 0 {
      var t := RoundUpTo(s, |index.symbols|, cursorSymbol, k - 1);
      RoundSpends(index, actual, cursorSymbol, s, k - 1);
      FillSpends(index, actual, cursorSymbol, t, k - 1);
    }
  }

  lemma {:induction false} RoundsKeep(index: IndexedCorpus, actual: seq<Phoneme>, cursorSymbol: int,
                                      anchors: seq<Anchor>, s: Search)
    requires SearchOk(index, actual, anchors, s)
    ensures var t := Rounds(s, |index.symbols|, cursorSymbol);
            && SearchOk(index, actual, anchors, t)
            && (Stops(t) || forall j | 0 <= j < |t.stretches| :: Exhausted(t.stretches[j]))
    decreases s.remaining
  {
    if !Stops(s) {
      var t := RoundUpTo(s, |index.symbols|, cursorSymbol, |s.stretches|);
      RoundKeeps(index, actual, cursorSymbol, anchors, s, |s.stretches|);
      if t.remaining < s.remaining {
        RoundsKeep(index, actual, cursorSymbol, anchors, t);
      } else if !Stops(t) {
        forall j | 0 <= j < |s.stretches| ensures StretchOk(index, actual, s.stretches[j]) {
          assert ListOk(index, actual, s.items, anchors[j], s.stretches[j]);
        }
        RoundSpends(index, actual, cursorSymbol, s, |s.stretches|);
      }
    }
  }

  // ----- everything that the search adds is justified

  ghost predicate NearestAnchored(index: IndexedCorpus, actual: seq<Phoneme>, nearest: seq<Nearest>) {
    forall x <- nearest :: IsAnchor(index, actual, x.anchor) && x.posting in x.anchor.postings
  }

  lemma OpenExtends(index: IndexedCorpus, actual: seq<Phoneme>, cursorSymbol: int, first: seq<nat>, s: Search, a: Anchor)
    requires IsAnchor(index, actual, a) && Extends(index, actual, first, s.items)
    ensures Extends(index, actual, first, Open(s, |index.symbols|, cursorSymbol, a).items)
  {
    var found := Bisect(a.postings, cursorSymbol + a.offset, 0, |a.postings|, s.remaining);
    if found.place.Some? {
      var st := Stretch(a, found.place.value - 1, found.place.value);
      TakeWalksOn(index, actual, st, cursorSymbol, found.remaining);
      var taken := Take(st, cursorSymbol, found.remaining);
      if taken.posting.Some? {
        ExtendsStep(index, actual, a, taken.posting.value, first, s.items, Open(s, |index.symbols|, cursorSymbol, a).items);
      }
    }
  }

  lemma {:induction false} OpenUpToExtends(index: IndexedCorpus, actual: seq<Phoneme>, cursorSymbol: int, first: seq<nat>,
                                           anchors: seq<Anchor>, k: nat)
    requires AreAnchors(index, actual, anchors) && k <= |anchors|
    ensures Extends(index, actual, first, OpenUpTo(first, |index.symbols|, cursorSymbol, anchors, k).items)
    decreases k
  {
    if k > 0 {
      OpenUpToExtends(index, actual, cursorSymbol, first, anchors, k - 1);
      OpenExtends(index, actual, cursorSymbol, first, OpenUpTo(first, |index.symbols|, cursorSymbol, anchors, k - 1), anchors[k - 1]);
    }
  }

  lemma {:induction false} NeighboursExtend(index: IndexedCorpus, actual: seq<Phoneme>, first: seq<nat>, items: seq<nat>,
                                            nearest: seq<Nearest>, k: nat)
    requires ItemsOk(items, |index.symbols|) && Extends(index, actual, first, items)
    requires NearestAnchored(index, actual, nearest) && k <= |nearest|
    ensures ItemsOk(NeighboursUpTo(items, |index.symbols|, nearest, k), |index.symbols|)
    ensures Extends(index, actual, first, NeighboursUpTo(items, |index.symbols|, nearest, k))
    decreases k
  {
    hide WithDisplaced, Extends, ItemsOk, IsAnchor;
    if k > 0 {
      NeighboursExtend(index, actual, first, items, nearest, k - 1);
      var x, before := nearest[k - 1], NeighboursUpTo(items, |index.symbols|, nearest, k - 1);
      assert x in nearest;
      NeighboursGrow(before, |index.symbols|, x.posting - x.anchor.offset);
      ExtendsStep(index, actual, x.anchor, x.posting, first, before, NeighboursUpTo(items, |index.symbols|, nearest, k));
    }
  }

  lemma FillExtends(index: IndexedCorpus, actual: seq<Phoneme>, cursorSymbol: int, first: seq<nat>, s: Search, k: nat)
    requires k < |s.stretches| && StretchOk(index, actual, s.stretches[k])
    requires ItemsOk(s.items, |index.symbols|) && Extends(index, actual, first, s.items)
    ensures Extends(index, actual, first, FillList(s, |index.symbols|, cursorSymbol, k).items)
  {
    hide WithHypothesis, Take, Extends;
    var st := s.stretches[k];
    var taken := Take(st, cursorSymbol, s.remaining);
    TakeWalksOn(index, actual, st, cursorSymbol, s.remaining);
    if taken.posting.Some? {
      HypothesisGrows(s.items, |index.symbols|, taken.posting.value - st.anchor.offset);
      ExtendsStep(index, actual, st.anchor, taken.posting.value, first, s.items, FillList(s, |index.symbols|, cursorSymbol, k).items);
    }
  }

  lemma {:induction false} RoundExtends(index: IndexedCorpus, actual: seq<Phoneme>, cursorSymbol: int, first: seq<nat>,
                                        anchors: seq<Anchor>, s: Search, k: nat)
    requires SearchOk(index, actual, anchors, s) && Extends(index, actual, first, s.items) && k <= |s.stretches|
    ensures Extends(index, actual, first, RoundUpTo(s, |index.symbols|, cursorSymbol, k).items)
    decreases k
  {
    hide FillList, Extends;
    if k > 0 {
      var t := RoundUpTo(s, |index.symbols|, cursorSymbol, k - 1);
      RoundExtends(index, actual, cursorSymbol, first, anchors, s, k - 1);
      RoundKeeps(index, actual, cursorSymbol, anchors, s, k - 1);
      assert ListOk(index, actual, t.items, anchors[k - 1], t.stretches[k - 1]);
      FillExtends(index, actual, cursorSymbol, first, t, k - 1);
    }
  }

  lemma {:induction false} RoundsExtend(index: IndexedCorpus, actual: seq<Phoneme>, cursorSymbol: int, first: seq<nat>,
                                        anchors: seq<Anchor>, s: Search)
    requires SearchOk(index, actual, anchors, s) && Extends(index, actual, first, s.items)
    ensures Extends(index, actual, first, Rounds(s, |index.symbols|, cursorSymbol).items)
    decreases s.remaining
  {
    hide SearchOk, RoundUpTo, Extends;
    if !Stops(s) {
      var t := RoundUpTo(s, |index.symbols|, cursorSymbol, |s.stretches|);
      RoundExtends(index, actual, cursorSymbol, first, anchors, s, |s.stretches|);
      RoundKeeps(index, actual, cursorSymbol, anchors, s, |s.stretches|);
      if t.remaining < s.remaining { RoundsExtend(index, actual, cursorSymbol, first, anchors, t); }
    }
  }

  lemma SearchedExtends(index: IndexedCorpus, actual: seq<Phoneme>, cursorSymbol: int, items: seq<nat>, anchors: seq<Anchor>)
    requires ItemsOk(items, |index.symbols|) && AreAnchors(index, actual, anchors)
    ensures Extends(index, actual, items, Searched(items, |index.symbols|, cursorSymbol, anchors).items)
  {
    var n := |index.symbols|;
    var s := OpenUpTo(items, n, cursorSymbol, anchors, |anchors|);
    OpenUpToIsOk(index, actual, cursorSymbol, items, anchors, |anchors|);
    OpenUpToExtends(index, actual, cursorSymbol, items, anchors, |anchors|);
    assert forall x <- s.nearest :: NearestOk(index, actual, s.items, x);
    NeighboursExtend(index, actual, items, s.items, s.nearest, |s.nearest|);
    FirstSearchedIsOk(index, actual, cursorSymbol, items, anchors);
    RoundsExtend(index, actual, cursorSymbol, items, anchors, FirstSearched(items, n, cursorSymbol, anchors));
  }

  // ----- the whole search

  /** Every occurrence in the corpus of an n-gram that was looked up has been tried, at its exact place
      and up to three positions around it. */
  ghost predicate Complete(index: IndexedCorpus, actual: seq<Phoneme>, items: seq<nat>)
    requires actual != []
  {
    forall q, posting | q in QueriesUpTo(|actual|, MaximumLength(|actual|)) && q.offset + q.length <= |actual|
                        && posting in PostingsOf(index.phonemeNgramPostings, QueryKey(actual, q)) ::
      Reached(items, |index.symbols|, posting - q.offset)
  }

  lemma AnchorOfQuery(index: IndexedCorpus, actual: seq<Phoneme>, q: Query) returns (i: nat)
    requires PostingsIndexed(index.symbols, index.phonemeNgramPostings) && actual != []
    requires q in QueriesUpTo(|actual|, MaximumLength(|actual|)) && q.offset + q.length <= |actual|
    requires QueryKey(actual, q) in index.phonemeNgramPostings
    ensures var anchors := Sort(SampledAnchors(index, actual), AnchorBefore);
            i < |anchors| && anchors[i] == Anchor(q.length, q.offset, index.phonemeNgramPostings[QueryKey(actual, q)])
  {
    var found := SampledAnchors(index, actual);
    AnchorsOfQueries(index, actual, q);
    OffsetTableFits(|actual|);
    AnchorsOfTable(index, actual, OffsetTable(|actual|), MaximumLength(|actual|));
    SortedAnchors(index, actual, found);
    var a := AnchorFor(index, actual, q)[0];
    assert a in AnchorFor(index, actual, q) && a in found;
    var anchors := Sort(found, AnchorBefore);
    i :| 0 <= i < |anchors| && anchors[i] == a;
  }

  /** When all lists are used up, every occurrence of every sampled n-gram has been tried with its
      neighbours. */
  lemma ExhaustedIsComplete(index: IndexedCorpus, actual: seq<Phoneme>, anchors: seq<Anchor>, s: Search)
    requires PostingsIndexed(index.symbols, index.phonemeNgramPostings) && actual != []
    requires anchors == Sort(SampledAnchors(index, actual), AnchorBefore)
    requires SearchOk(index, actual, anchors, s) && !Stops(s) && forall j | 0 <= j < |s.stretches| :: Exhausted(s.stretches[j])
    ensures Complete(index, actual, s.items)
  {
    var queries := QueriesUpTo(|actual|, MaximumLength(|actual|));
    forall q, posting | q in queries && q.offset + q.length <= |actual| && posting in PostingsOf(index.phonemeNgramPostings, QueryKey(actual, q))
      ensures Reached(s.items, |index.symbols|, posting - q.offset)
    {
      var j := AnchorOfQuery(index, actual, q);
      assert ListOk(index, actual, s.items, anchors[j], s.stretches[j]);
      var i :| 0 <= i < |anchors[j].postings| && anchors[j].postings[i] == posting;
      assert Exhausted(s.stretches[j]);
    }
  }

  /** The search for the anchors of an observation. */
  ghost function SearchFor(index: IndexedCorpus, actual: seq<Phoneme>, cursorSymbol: int, items: seq<nat>): Search {
    Searched(items, |index.symbols|, cursorSymbol, Sort(SampledAnchors(index, actual), AnchorBefore))
  }

  /** The search keeps the given candidates as its prefix, adds only starts near an occurrence of a looked
      up n-gram, ends with at most 64 of them after at most 128 inspections, and misses none unless room
      or inspections run out. */
  lemma SearchFinds(index: IndexedCorpus, actual: seq<Phoneme>, cursorSymbol: int, items: seq<nat>)
    requires PostingsIndexed(index.symbols, index.phonemeNgramPostings) && actual != [] && ItemsOk(items, |index.symbols|)
    ensures var s := SearchFor(index, actual, cursorSymbol, items);
            && ItemsOk(s.items, |index.symbols|) && Extends(index, actual, items, s.items)
            && s.remaining <= MAX_POSTING_INSPECTIONS
            && (Stops(s) || Complete(index, actual, s.items))
  {
    var found := SampledAnchors(index, actual);
    OffsetTableFits(|actual|);
    AnchorsOfTable(index, actual, OffsetTable(|actual|), MaximumLength(|actual|));
    SortedAnchors(index, actual, found);
    var anchors := Sort(found, AnchorBefore);
    FirstSearchedIsOk(index, actual, cursorSymbol, items, anchors);
    SearchedExtends(index, actual, cursorSymbol, items, anchors);
    RoundsKeep(index, actual, cursorSymbol, anchors, FirstSearched(items, |index.symbols|, cursorSymbol, anchors));
    var s := SearchFor(index, actual, cursorSymbol, items);
    if !Stops(s) { ExhaustedIsComplete(index, actual, anchors, s); }
  }
}
