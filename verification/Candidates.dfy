/**
 Candidate retrieval: the local positions, and when asked for also positions found through the
 posting lists of sampled n-grams of the observation, within fixed caps and a lookup budget. The methods
 here update the candidate set, the budget and the cursors in place, as `GlobalSearch` describes.
 */
module Candidates {
  import opened Sequences
  import opened EditScript
  import opened IndexCorpus
  import opened Postings
  import opened LocalCandidates
  import opened NgramQueries
  import opened GlobalSearch

  /** An insertion-ordered set that accepts positions up to a cap. */
  class CandidateSet {
    var items: seq<nat>

    constructor (items: seq<nat>)
      ensures this.items == items
    {
      this.items := items;
    }

    method AddStart(symbolCount: nat, start: int)
      modifies this
      ensures items == WithStart(old(items), symbolCount, start)
    {
      if |items| < MAX_ALIGNMENT_CANDIDATES && 0 <= start < symbolCount && start !in items {
        items := items + [start];
      }
    }

    /** Adds the neighbours of a base position in order of distance, the later one first. */
    method AddDisplacedStarts(symbolCount: nat, posting: nat, actualOffset: nat)
      modifies this
      ensures items == WithDisplaced(old(items), symbolCount, posting - actualOffset, 1)
    {
      var base := posting - actualOffset;
      ghost var all := WithDisplaced(items, symbolCount, base, 1);
      var distance := 1;
      while distance <= MAX_ANCHOR_DISPLACEMENT && |items| < MAX_ALIGNMENT_CANDIDATES
        invariant 1 <= distance <= MAX_ANCHOR_DISPLACEMENT + 1
        invariant WithDisplaced(items, symbolCount, base, distance) == all
      {
        AddStart(symbolCount, base + distance);
        AddStart(symbolCount, base - distance);
        distance := distance + 1;
      }
    }

    /** An exact start and its neighbours. */
    method AddHypothesis(symbolCount: nat, posting: nat, actualOffset: nat)
      modifies this
      ensures items == WithHypothesis(old(items), symbolCount, posting - actualOffset)
    {
      AddStart(symbolCount, posting - actualOffset);
      AddDisplacedStarts(symbolCount, posting, actualOffset);
    }
  }

  // ----- the cursors

  ghost predicate StandsAt(cursor: PostingCursor, cursorSymbol: int, st: Stretch)
    reads cursor
  {
    cursor.Valid(cursorSymbol + cursor.anchor.offset) && Stretch(cursor.anchor, cursor.left, cursor.right) == st
  }

  ghost predicate AllStandAt(cursors: seq<PostingCursor>, cursorSymbol: int, stretches: seq<Stretch>)
    reads cursors
  {
    && Distinct(cursors) && |cursors| == |stretches|
    && forall i | 0 <= i < |cursors| :: StandsAt(cursors[i], cursorSymbol, stretches[i])
  }

  lemma OneMoreStands(cursors: seq<PostingCursor>, cursorSymbol: int, stretches: seq<Stretch>, cursor: PostingCursor, st: Stretch)
    requires AllStandAt(cursors, cursorSymbol, stretches) && StandsAt(cursor, cursorSymbol, st) && cursor !in cursors
    ensures AllStandAt(cursors + [cursor], cursorSymbol, stretches + [st])
  {
    DistinctGrows(cursors, cursor);
  }

  /** All cursors stand where they should, seen from one of them. */
  lemma AroundOne(cursors: seq<PostingCursor>, cursorSymbol: int, stretches: seq<Stretch>, k: nat)
    requires k < |cursors| == |stretches| && Distinct(cursors)
    ensures cursors[k] !in cursors[..k] && cursors[k] !in cursors[k + 1..] && Distinct(cursors[..k]) && Distinct(cursors[k + 1..])
    ensures AllStandAt(cursors, cursorSymbol, stretches) <==>
            AllStandAt(cursors[..k], cursorSymbol, stretches[..k]) && StandsAt(cursors[k], cursorSymbol, stretches[k])
            && AllStandAt(cursors[k + 1..], cursorSymbol, stretches[k + 1..])
  {
    hide PostingCursor.Valid;
    var front, back, before, after := cursors[..k], cursors[k + 1..], stretches[..k], stretches[k + 1..];
    if AllStandAt(front, cursorSymbol, before) && StandsAt(cursors[k], cursorSymbol, stretches[k]) && AllStandAt(back, cursorSymbol, after) {
      forall i | 0 <= i < |cursors| ensures StandsAt(cursors[i], cursorSymbol, stretches[i]) {
        if i < k {
          assert StandsAt(front[i], cursorSymbol, before[i]);
        } else if i > k {
          assert StandsAt(back[i - k - 1], cursorSymbol, after[i - k - 1]);
        }
      }
    }
  }

  // ----- global retrieval

  /** One exact hypothesis per anchor, rarest anchor first, until room or budget run out. A cursor that
      cannot be placed has used up the budget. */
  method TakeFirstPostings(candidates: CandidateSet, symbolCount: nat, cursorSymbol: int, anchors: seq<Anchor>, budget: InspectionBudget)
    returns (cursors: seq<PostingCursor>, nearest: seq<Nearest>)
    requires budget.remaining == MAX_POSTING_INSPECTIONS && forall i | 0 <= i < |anchors| :: Ascending(anchors[i].postings)
    modifies candidates, budget
    ensures var s := OpenUpTo(old(candidates.items), symbolCount, cursorSymbol, anchors, |anchors|);
            && candidates.items == s.items && budget.remaining == s.remaining && nearest == s.nearest
            && fresh(cursors) && AllStandAt(cursors, cursorSymbol, s.stretches)
  {
    hide Open, StandsAt, PostingCursor.Valid;
    ghost var start, s := candidates.items, OpenUpTo(candidates.items, symbolCount, cursorSymbol, anchors, 0);
    cursors, nearest := [], [];
    var k := 0;
    while k < |anchors| && |candidates.items| < MAX_ALIGNMENT_CANDIDATES && budget.remaining > 0
      invariant k <= |anchors| && s == OpenUpTo(start, symbolCount, cursorSymbol, anchors, k)
      invariant candidates.items == s.items && budget.remaining == s.remaining && nearest == s.nearest
      invariant fresh(cursors) && AllStandAt(cursors, cursorSymbol, s.stretches)
    {
      cursors, nearest := OpenNext(candidates, symbolCount, cursorSymbol, anchors[k], budget, cursors, nearest, s);
      s, k := Open(s, symbolCount, cursorSymbol, anchors[k]), k + 1;
    }
    if k < |anchors| { OpenStays(start, symbolCount, cursorSymbol, anchors, k, |anchors|); }
  }

  method OpenNext(candidates: CandidateSet, symbolCount: nat, cursorSymbol: int, anchor: Anchor, budget: InspectionBudget,
                  cursors: seq<PostingCursor>, nearest: seq<Nearest>, ghost s: Search)
    returns (more: seq<PostingCursor>, moreNearest: seq<Nearest>)
    requires Ascending(anchor.postings) && AllStandAt(cursors, cursorSymbol, s.stretches)
    requires candidates.items == s.items && budget.remaining == s.remaining && nearest == s.nearest
    modifies candidates, budget
    ensures var t := Open(s, symbolCount, cursorSymbol, anchor);
            && candidates.items == t.items && budget.remaining == t.remaining && moreNearest == t.nearest
            && AllStandAt(more, cursorSymbol, t.stretches)
    ensures more == cursors || (|more| == |cursors| + 1 && more[..|cursors|] == cursors && fresh(more[|cursors|]))
  {
    hide Bisect, OpenAt, PostingCursor.Valid;
    var created := CreatePostingCursor(anchor, cursorSymbol, budget);
    if created.None? { return cursors, nearest; }
    moreNearest := TakeFirst(candidates, symbolCount, cursorSymbol, budget, created.value, nearest, s);
    OneMoreStands(cursors, cursorSymbol, s.stretches, created.value, created.value.Now());
    more := cursors + [created.value];
  }

  /** Takes the first posting of a new cursor, and adds its exact start. */
  method TakeFirst(candidates: CandidateSet, symbolCount: nat, cursorSymbol: int, budget: InspectionBudget, cursor: PostingCursor,
                   nearest: seq<Nearest>, ghost s: Search)
    returns (moreNearest: seq<Nearest>)
    requires cursor.Valid(cursorSymbol + cursor.anchor.offset) && candidates.items == s.items && nearest == s.nearest
    modifies candidates, budget, cursor
    ensures cursor.Valid(cursorSymbol + cursor.anchor.offset)
    ensures var t := OpenAt(s, symbolCount, cursorSymbol, old(cursor.Now()), old(budget.remaining));
            && candidates.items == t.items && budget.remaining == t.remaining && moreNearest == t.nearest
            && t.stretches == s.stretches + [cursor.Now()]
  {
    hide Take, WithStart;
    var posting := TakeNearestPosting(cursor, cursorSymbol, budget);
    moreNearest := nearest;
    if posting.Some? {
      moreNearest := nearest + [Nearest(cursor.anchor, posting.value)];
      candidates.AddStart(symbolCount, posting.value - cursor.anchor.offset);
    }
  }

  /** Neighbours of the exact hypotheses, for insertions and deletions in front of an anchor. */
  method AddNeighbours(candidates: CandidateSet, symbolCount: nat, nearest: seq<Nearest>)
    modifies candidates
    ensures candidates.items == NeighboursUpTo(old(candidates.items), symbolCount, nearest, |nearest|)
  {
    hide WithDisplaced;
    for k := 0 to |nearest|
      invariant candidates.items == NeighboursUpTo(old(candidates.items), symbolCount, nearest, k)
    {
      if |candidates.items| >= MAX_ALIGNMENT_CANDIDATES {
        NeighboursStay(old(candidates.items), symbolCount, nearest, k, |nearest|);
        return;
      }
      candidates.AddDisplacedStarts(symbolCount, nearest[k].posting, nearest[k].anchor.offset);
    }
  }

  /** One more posting of one list, with its exact start and its neighbours; the other cursors are left
      alone. */
  method FillFrom(candidates: CandidateSet, symbolCount: nat, cursorSymbol: int, ghost front: seq<PostingCursor>, cursor: PostingCursor,
                  ghost back: seq<PostingCursor>, budget: InspectionBudget, ghost before: seq<Stretch>, ghost after: seq<Stretch>)
    requires cursor.Valid(cursorSymbol + cursor.anchor.offset) && cursor !in front && cursor !in back
    requires AllStandAt(front, cursorSymbol, before) && AllStandAt(back, cursorSymbol, after)
    modifies candidates, budget, cursor
    ensures cursor.Valid(cursorSymbol + cursor.anchor.offset)
    ensures AllStandAt(front, cursorSymbol, before) && AllStandAt(back, cursorSymbol, after)
    ensures var taken := Take(old(cursor.Now()), cursorSymbol, old(budget.remaining));
            && cursor.Now() == taken.stretch && budget.remaining == taken.remaining
            && candidates.items == if taken.posting.None? then old(candidates.items)
                                   else WithHypothesis(old(candidates.items), symbolCount, taken.posting.value - cursor.anchor.offset)
  {
    hide WithHypothesis, Take, PostingCursor.Valid;
    var posting := TakeNearestPosting(cursor, cursorSymbol, budget);
    if posting.Some? { candidates.AddHypothesis(symbolCount, posting.value, cursor.anchor.offset); }
  }

  method FillAt(candidates: CandidateSet, symbolCount: nat, cursorSymbol: int, cursors: seq<PostingCursor>, k: nat,
                budget: InspectionBudget, ghost s: Search)
    requires AllStandAt(cursors, cursorSymbol, s.stretches) && k < |cursors|
    requires candidates.items == s.items && budget.remaining == s.remaining
    modifies candidates, budget, cursors[k]
    ensures var t := FillList(s, symbolCount, cursorSymbol, k);
            && candidates.items == t.items && budget.remaining == t.remaining && AllStandAt(cursors, cursorSymbol, t.stretches)
  {
    hide WithHypothesis, Take, PostingCursor.Valid;
    ghost var front, back := cursors[..k], cursors[k + 1..];
    AroundOne(cursors, cursorSymbol, s.stretches, k);
    FillFrom(candidates, symbolCount, cursorSymbol, front, cursors[k], back, budget, s.stretches[..k], s.stretches[k + 1..]);
    ghost var next := s.stretches[k := cursors[k].Now()];
    assert next[..k] == s.stretches[..k] && next[k + 1..] == s.stretches[k + 1..];
    AroundOne(cursors, cursorSymbol, next, k);
  }

  /** One round over all cursors. */
  method FillRound(candidates: CandidateSet, symbolCount: nat, cursorSymbol: int, cursors: seq<PostingCursor>,
                   budget: InspectionBudget, ghost s: Search)
    requires AllStandAt(cursors, cursorSymbol, s.stretches) && candidates.items == s.items && budget.remaining == s.remaining
    modifies candidates, budget, cursors
    ensures var t := RoundUpTo(s, symbolCount, cursorSymbol, |cursors|);
            && candidates.items == t.items && budget.remaining == t.remaining && AllStandAt(cursors, cursorSymbol, t.stretches)
  {
    hide FillList, StandsAt;
    ghost var t := s;
    for k := 0 to |cursors|
      invariant t == RoundUpTo(s, symbolCount, cursorSymbol, k)
      invariant candidates.items == t.items && budget.remaining == t.remaining && AllStandAt(cursors, cursorSymbol, t.stretches)
    {
      if |candidates.items| >= MAX_ALIGNMENT_CANDIDATES || budget.remaining == 0 {
        RoundStays(s, symbolCount, cursorSymbol, k, |cursors|);
        return;
      }
      FillAt(candidates, symbolCount, cursorSymbol, cursors, k, budget, t);
      t := FillList(t, symbolCount, cursorSymbol, k);
    }
  }

  /** Rounds over all cursors until the set is full, the budget is spent or a round spends nothing. */
  method FillSpareCapacity(candidates: CandidateSet, symbolCount: nat, cursorSymbol: int, cursors: seq<PostingCursor>,
                           budget: InspectionBudget, ghost s: Search)
    requires AllStandAt(cursors, cursorSymbol, s.stretches) && candidates.items == s.items && budget.remaining == s.remaining
    modifies candidates, budget, cursors
    ensures var t := Rounds(s, symbolCount, cursorSymbol); candidates.items == t.items && budget.remaining == t.remaining
  {
    hide RoundUpTo, StandsAt;
    ghost var t := s;
    while |candidates.items| < MAX_ALIGNMENT_CANDIDATES && budget.remaining > 0
      invariant candidates.items == t.items && budget.remaining == t.remaining && AllStandAt(cursors, cursorSymbol, t.stretches)
      invariant Rounds(t, symbolCount, cursorSymbol) == Rounds(s, symbolCount, cursorSymbol)
      decreases budget.remaining
    {
      var remainingBefore := budget.remaining;
      FillRound(candidates, symbolCount, cursorSymbol, cursors, budget, t);
      t := RoundUpTo(t, symbolCount, cursorSymbol, |cursors|);
      if budget.remaining == remainingBefore { return; }
    }
  }

  /** Adds the positions that the search finds, and reports how much of the budget it has spent. */
  method AddGlobalCandidates(candidates: CandidateSet, index: IndexedCorpus, actual: seq<Phoneme>, cursorSymbol: int)
    returns (ghost spent: nat)
    requires WellIndexed(index) && actual != [] && ItemsOk(candidates.items, |index.symbols|)
    modifies candidates
    ensures var s := SearchFor(index, actual, cursorSymbol, old(candidates.items));
            candidates.items == s.items && spent == MAX_POSTING_INSPECTIONS - s.remaining
    ensures ItemsOk(candidates.items, |index.symbols|) && Extends(index, actual, old(candidates.items), candidates.items)
    ensures spent <= MAX_POSTING_INSPECTIONS
    ensures Full(candidates.items) || spent == MAX_POSTING_INSPECTIONS || Complete(index, actual, candidates.items)
  {
    SearchFinds(index, actual, cursorSymbol, candidates.items);
    var anchors, _ := QueryAnchors(index, actual);
    var remaining := SearchAnchors(candidates, |index.symbols|, cursorSymbol, anchors);
    spent := MAX_POSTING_INSPECTIONS - remaining;
  }

  method SearchAnchors(candidates: CandidateSet, symbolCount: nat, cursorSymbol: int, anchors: seq<Anchor>) returns (remaining: nat)
    requires forall i | 0 <= i < |anchors| :: Ascending(anchors[i].postings)
    modifies candidates
    ensures var s := Searched(old(candidates.items), symbolCount, cursorSymbol, anchors);
            candidates.items == s.items && remaining == s.remaining
  {
    hide OpenUpTo, NeighboursUpTo, Rounds, StandsAt;
    ghost var first := FirstSearched(candidates.items, symbolCount, cursorSymbol, anchors);
    var budget := new InspectionBudget(MAX_POSTING_INSPECTIONS);
    var cursors, nearest := TakeFirstPostings(candidates, symbolCount, cursorSymbol, anchors, budget);
    AddNeighbours(candidates, symbolCount, nearest);
    FillSpareCapacity(candidates, symbolCount, cursorSymbol, cursors, budget, first);
    remaining := budget.remaining;
  }

  /** The retrieved positions as a function of the inputs. */
  ghost function RetrievedPositions(index: IndexedCorpus, actual: seq<Phoneme>, cursorSymbol: int, includeGlobal: bool): seq<nat>
    requires forall p | 0 <= p < |index.symbols| :: AyahOf(index.symbols[p]) in index.ayahSymbolRanges
  {
    var local := LocalPositionsOf(index, cursorSymbol);
    if includeGlobal && actual != [] then SearchFor(index, actual, cursorSymbol, local).items else local
  }

  /** The inspections left when the positions have been retrieved. */
  ghost function InspectionsLeft(index: IndexedCorpus, actual: seq<Phoneme>, cursorSymbol: int): nat
    requires forall p | 0 <= p < |index.symbols| :: AyahOf(index.symbols[p]) in index.ayahSymbolRanges
  {
    SearchFor(index, actual, cursorSymbol, LocalPositionsOf(index, cursorSymbol)).remaining
  }

  /** Distinct positions in range, at most 64, the local ones first and unchanged; further ones only
      on request and only with a reason. */
  method RetrieveCandidatePositions(index: IndexedCorpus, actual: seq<Phoneme>, cursorSymbol: int, includeGlobal: bool)
    returns (positions: seq<nat>, ghost spent: nat)
    requires WellIndexed(index)
    ensures forall p | 0 <= p < |index.symbols| :: AyahOf(index.symbols[p]) in index.ayahSymbolRanges
    ensures Distinct(positions) && |positions| <= MAX_ALIGNMENT_CANDIDATES
    ensures forall x <- positions :: x < |index.symbols|
    ensures Extends(index, actual, LocalPositionsOf(index, cursorSymbol), positions)
    ensures !includeGlobal ==> positions == LocalPositionsOf(index, cursorSymbol) && spent == 0
    ensures spent <= MAX_POSTING_INSPECTIONS
    ensures includeGlobal && actual != [] ==>
              && spent == MAX_POSTING_INSPECTIONS - InspectionsLeft(index, actual, cursorSymbol)
              && (Full(positions) || spent == MAX_POSTING_INSPECTIONS || Complete(index, actual, positions))
    ensures positions == RetrievedPositions(index, actual, cursorSymbol, includeGlobal)
  {
    var local := LocalPositions(index, cursorSymbol);
    if index.symbols != [] { LocalPositionsCorrect(index, cursorSymbol); }
    var candidates := new CandidateSet(local);
    spent := 0;
    if includeGlobal && actual != [] {
      spent := AddGlobalCandidates(candidates, index, actual, cursorSymbol);
    }
    positions := candidates.items;
  }
}
