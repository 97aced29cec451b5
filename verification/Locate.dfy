/**
 Locating an observation in the corpus: each candidate position is aligned with several reference
 spans, and the best two candidates are returned under a six-key ranking.
 */
module Locate {
  import opened Wrappers
  import opened Sequences
  import opened Alignments
  import opened EditScript
  import opened EditPath
  import opened Corpus
  import opened IndexCorpus
  import opened Observations
  import opened LocalCandidates
  import opened GlobalSearch
  import opened Candidates
  import opened Postings
  import opened Sorting
  import ValidateObservations = Observations

  const GLOBAL_FALLBACK_THRESHOLD := 0.72
  const MAX_REFERENCE_LENGTH_VARIATION := 3

  // ----- one candidate: the best of several spans

  /** The reference phonemes of a span. */
  function SpanAlignment(symbols: seq<Symbol>, actual: seq<Phoneme>, p: nat, length: nat): AlignmentPath
    requires p + length <= |symbols|
  {
    AlignmentOf(actual, PhonemesAt(symbols, p, length))
  }

  predicate Beats(x: AlignmentPath, y: AlignmentPath) {
    || x.score > y.score
    || (x.score == y.score && (x.editCount < y.editCount
                               || (x.editCount == y.editCount && x.matchedLookaheadCount > y.matchedLookaheadCount)))
  }

  function ShortestSpan(available: nat, actualLength: nat): nat {
    Min(available, Max(1, if actualLength >= MAX_REFERENCE_LENGTH_VARIATION then actualLength - MAX_REFERENCE_LENGTH_VARIATION else 0))
  }

  function LongestSpan(available: nat, actualLength: nat): nat {
    Min(available, actualLength + MAX_REFERENCE_LENGTH_VARIATION)
  }

  /** The alignments of the candidate's spans, shortest first. */
  function Spans(symbols: seq<Symbol>, actual: seq<Phoneme>, p: nat, from: nat, count: nat): (r: seq<AlignmentPath>)
    requires count > 0 ==> p + from + count - 1 <= |symbols|
    ensures |r| == count
  {
    if count == 0 then []
    else Spans(symbols, actual, p, from, count - 1) + [SpanAlignment(symbols, actual, p, from + count - 1)]
  }

  lemma {:induction false} SpanAt(symbols: seq<Symbol>, actual: seq<Phoneme>, p: nat, from: nat, count: nat, k: nat)
    requires k < count && p + from + count - 1 <= |symbols|
    ensures Spans(symbols, actual, p, from, count)[k] == SpanAlignment(symbols, actual, p, from + k)
    decreases count
  {
    if k < count - 1 { SpanAt(symbols, actual, p, from, count - 1, k); }
  }

  /** The chosen span beats every earlier one and is beaten by no later one; `second` is the
      highest score among the other spans, zero when there are none. */
  ghost predicate BestOf(spans: seq<AlignmentPath>, best: nat, second: real) {
    && best < |spans|
    && (forall l | 0 <= l < best :: Beats(spans[best], spans[l]))
    && (forall l | best < l < |spans| :: !Beats(spans[l], spans[best]))
    && (forall l | 0 <= l < |spans| && l != best :: spans[l].score <= second)
    && (if |spans| == 1 then second == 0.0 else exists l | 0 <= l < |spans| && l != best :: spans[l].score == second)
  }

  /** There is only one best span and one second-best score. */
  lemma BestOfIsUnique(spans: seq<AlignmentPath>, b1: nat, s1: real, b2: nat, s2: real)
    requires BestOf(spans, b1, s1) && BestOf(spans, b2, s2)
    ensures b1 == b2 && s1 == s2
  {}

  /** The running second-best score after one more span. */
  function NextSecond(current: AlignmentPath, best: AlignmentPath, second: real): real {
    if Beats(current, best) then best.score else if second >= current.score then second else current.score
  }

  /** One more span: the running choice and second-best score stay right. */
  lemma NextBest(spans: seq<AlignmentPath>, current: AlignmentPath, best: nat, second: real)
    requires BestOf(spans, best, second) && current.score >= 0.0
    ensures BestOf(spans + [current], if Beats(current, spans[best]) then |spans| else best, NextSecond(current, spans[best], second))
  {
    var all := spans + [current];
    if Beats(current, spans[best]) {
      BeatenByBest(spans, current, best, second);
      assert all[best].score == spans[best].score;
    } else if second >= current.score && |spans| > 1 {
      var l :| 0 <= l < |spans| && l != best && spans[l].score == second;
      assert all[l].score == second;
    } else {
      assert all[|spans|].score == NextSecond(current, spans[best], second);
    }
  }

  lemma BeatenByBest(spans: seq<AlignmentPath>, current: AlignmentPath, best: nat, second: real)
    requires BestOf(spans, best, second) && Beats(current, spans[best])
    ensures forall l | 0 <= l < |spans| :: Beats(current, spans[l]) && spans[l].score <= spans[best].score
  {
    forall l | 0 <= l < |spans| ensures Beats(current, spans[l]) && spans[l].score <= spans[best].score {
      if l > best { assert !Beats(spans[l], spans[best]); }
    }
  }

  function MarginOf(spanCount: nat, score: real, second: real): real {
    if spanCount < 2 || score <= second then 0.0 else score - second
  }

  ghost predicate ChosenBy(spans: seq<AlignmentPath>, alignment: AlignmentPath, margin: real, best: nat, second: real) {
    BestOf(spans, best, second) && alignment == spans[best] && margin == MarginOf(|spans|, alignment.score, second)
  }

  /** The alignment is the best of the spans and the margin its lead over the true second best. */
  ghost predicate ChosenFrom(spans: seq<AlignmentPath>, alignment: AlignmentPath, margin: real) {
    exists best: nat, second: real :: ChosenBy(spans, alignment, margin, best, second)
  }

  datatype Choice = Choice(best: nat, second: real)

  /** The choice the loop over the spans makes. */
  function Choose(spans: seq<AlignmentPath>): (r: Choice)
    requires spans != []
    ensures r.best < |spans|
  {
    var last := |spans| - 1;
    if last == 0 then Choice(0, 0.0)
    else
      var before := Choose(spans[..last]);
      Choice(if Beats(spans[last], spans[before.best]) then last else before.best,
             NextSecond(spans[last], spans[before.best], before.second))
  }

  lemma {:induction false} ChoiceIsBest(spans: seq<AlignmentPath>)
    requires spans != [] && forall x <- spans :: x.score >= 0.0
    ensures BestOf(spans, Choose(spans).best, Choose(spans).second)
    decreases |spans|
  {
    var last := |spans| - 1;
    if last > 0 {
      ChoiceIsBest(spans[..last]);
      assert spans[..last] + [spans[last]] == spans;
      NextBest(spans[..last], spans[last], Choose(spans[..last]).best, Choose(spans[..last]).second);
    }
  }

  lemma ChooseNext(spans: seq<AlignmentPath>, current: AlignmentPath)
    requires spans != []
    ensures Choose(spans + [current]) ==
            Choice(if Beats(current, spans[Choose(spans).best]) then |spans| else Choose(spans).best,
                   NextSecond(current, spans[Choose(spans).best], Choose(spans).second))
  {
    assert (spans + [current])[..|spans|] == spans;
  }

  datatype Running = Running(alignment: AlignmentPath, second: real)

  function NextChoice(r: Running, current: AlignmentPath): Running {
    if Beats(current, r.alignment) then Running(current, r.alignment.score)
    else Running(r.alignment, if r.second >= current.score then r.second else current.score)
  }

  /** The best span and the second-best score among the first `count` spans. */
  function RunningChoice(symbols: seq<Symbol>, actual: seq<Phoneme>, p: nat, from: nat, count: nat): Running
    requires 0 < count && p + from + count - 1 <= |symbols|
    decreases count
  {
    var current := SpanAlignment(symbols, actual, p, from + count - 1);
    if count == 1 then Running(current, 0.0) else NextChoice(RunningChoice(symbols, actual, p, from, count - 1), current)
  }

  lemma {:induction false} RunningChoiceIsChoice(symbols: seq<Symbol>, actual: seq<Phoneme>, p: nat, from: nat, count: nat)
    requires 0 < count && p + from + count - 1 <= |symbols|
    ensures var spans := Spans(symbols, actual, p, from, count);
            RunningChoice(symbols, actual, p, from, count) == Running(spans[Choose(spans).best], Choose(spans).second)
    decreases count
  {
    if count > 1 {
      RunningChoiceIsChoice(symbols, actual, p, from, count - 1);
      ChooseNext(Spans(symbols, actual, p, from, count - 1), SpanAlignment(symbols, actual, p, from + count - 1));
    }
  }

  function CandidateSpans(symbols: seq<Symbol>, actual: seq<Phoneme>, p: nat): seq<AlignmentPath>
    requires actual != [] && p < |symbols|
  {
    var available := |symbols| - p;
    var from, to := ShortestSpan(available, |actual|), LongestSpan(available, |actual|);
    Spans(symbols, actual, p, from, to - from + 1)
  }

  lemma SpanScores(symbols: seq<Symbol>, actual: seq<Phoneme>, p: nat, from: nat, count: nat)
    requires count > 0 ==> p + from + count - 1 <= |symbols|
    ensures forall x <- Spans(symbols, actual, p, from, count) :: x.score >= 0.0
  {
    var spans := Spans(symbols, actual, p, from, count);
    forall x | x in spans ensures x.score >= 0.0 {
      var k :| 0 <= k < |spans| && spans[k] == x;
      SpanAt(symbols, actual, p, from, count, k);
      AlignmentScore(actual, PhonemesAt(symbols, p, from + k));
    }
  }

  lemma BestIsChosen(spans: seq<AlignmentPath>)
    requires spans != [] && forall x <- spans :: x.score >= 0.0
    ensures var alignment := spans[Choose(spans).best];
            ChosenFrom(spans, alignment, MarginOf(|spans|, alignment.score, Choose(spans).second))
  {
    ChoiceIsBest(spans);
    var alignment := spans[Choose(spans).best];
    assert ChosenBy(spans, alignment, MarginOf(|spans|, alignment.score, Choose(spans).second), Choose(spans).best, Choose(spans).second);
  }

  lemma SpanChosen(symbols: seq<Symbol>, actual: seq<Phoneme>, p: nat, from: nat, to: nat, choice: Running)
    requires actual != [] && p < |symbols|
    requires from == ShortestSpan(|symbols| - p, |actual|) <= to == LongestSpan(|symbols| - p, |actual|)
    requires choice == RunningChoice(symbols, actual, p, from, to - from + 1)
    ensures ChosenFrom(CandidateSpans(symbols, actual, p), choice.alignment,
                       MarginOf(to - from + 1, choice.alignment.score, choice.second))
  {
    SpanScores(symbols, actual, p, from, to - from + 1);
    RunningChoiceIsChoice(symbols, actual, p, from, to - from + 1);
    BestIsChosen(CandidateSpans(symbols, actual, p));
  }

  /** The share of the observation matched before the first edit. */
  function Continuity(alignment: AlignmentPath, actualLength: nat): real
    requires actualLength > 0
  {
    MatchRun(alignment.operations, 0) as real / actualLength as real
  }

  /** The candidate at a position: the best span, its lead over the second best, and how the
      position lies relative to the cursor and the commit point. */
  function CandidateAt(symbols: seq<Symbol>, actual: seq<Phoneme>, cursorSymbol: int, committedSymbol: int, p: nat): AlignmentCandidate
    requires actual != [] && p < |symbols|
  {
    var from, to := ShortestSpan(|symbols| - p, |actual|), LongestSpan(|symbols| - p, |actual|);
    var choice := RunningChoice(symbols, actual, p, from, to - from + 1);
    AlignmentCandidate(p, symbols[p].location, choice.alignment, choice.alignment.score,
                       MarginOf(to - from + 1, choice.alignment.score, choice.second), Abs(p - cursorSymbol),
                       Continuity(choice.alignment, |actual|), Positive(p - cursorSymbol), p < committedSymbol)
  }

  /** Its alignment is the best of all its spans and its margin the lead over the true second best. */
  lemma CandidateIsBestSpan(symbols: seq<Symbol>, actual: seq<Phoneme>, cursorSymbol: int, committedSymbol: int, p: nat)
    requires actual != [] && p < |symbols|
    ensures var c := CandidateAt(symbols, actual, cursorSymbol, committedSymbol, p);
            ChosenFrom(CandidateSpans(symbols, actual, p), c.alignment, c.scoreMargin)
  {
    var from, to := ShortestSpan(|symbols| - p, |actual|), LongestSpan(|symbols| - p, |actual|);
    SpanChosen(symbols, actual, p, from, to, RunningChoice(symbols, actual, p, from, to - from + 1));
  }

  method FillReference(symbols: seq<Symbol>, p: nat, length: nat, reference: array<Phoneme>)
    requires p + length <= |symbols| && length <= reference.Length
    modifies reference
    ensures reference[..length] == PhonemesAt(symbols, p, length)
  {
    for offset := 0 to length
      invariant forall k | 0 <= k < offset :: reference[k] == symbols[p + k].phoneme
    {
      reference[offset] := symbols[p + offset].phoneme;
    }
  }

  /** The total length of `count` spans, the shortest of length `from`. */
  function TotalLength(from: nat, count: nat): nat {
    if count == 0 then 0 else TotalLength(from, count - 1) + (from + count - 1)
  }

  lemma SevenSpans(from: nat, count: nat)
    requires count <= 7 && from + count <= MAX_PHONEMES + MAX_REFERENCE_LENGTH_VARIATION + 1
    ensures TotalLength(from, count) <= 7 * MAX_PHONEMES
  {
    assert TotalLength(from, 1) == from;
    assert TotalLength(from, 2) == 2 * from + 1;
    assert TotalLength(from, 3) == 3 * from + 3;
    assert TotalLength(from, 4) == 4 * from + 6;
    assert TotalLength(from, 5) == 5 * from + 10;
    assert TotalLength(from, 6) == 6 * from + 15;
    assert TotalLength(from, 7) == 7 * from + 21;
  }

  /** The table cells of the alignments of n phonemes with those spans. */
  function SpanCells(n: nat, from: nat, count: nat): nat {
    if count == 0 then 0 else SpanCells(n, from, count - 1) + n * (from + count - 1)
  }

  lemma {:induction false} SpanCellsTotal(n: nat, from: nat, count: nat)
    ensures SpanCells(n, from, count) == n * TotalLength(from, count)
    decreases count
  {
    if count > 0 {
      SpanCellsTotal(n, from, count - 1);
      Distribute(n, TotalLength(from, count - 1), from + count - 1);
    }
  }

  lemma Distribute(n: nat, x: nat, y: nat)
    ensures n * (x + y) == n * x + n * y
  {}

  const MAX_CANDIDATE_CELLS := 114_688

  /** One candidate costs at most seven alignments' worth of 128 by 128 cells. */
  lemma SpanCellsBounded(available: nat, n: nat)
    requires 0 < available && 0 < n <= MAX_PHONEMES
    ensures var from, to := ShortestSpan(available, n), LongestSpan(available, n);
            1 <= from <= to && SpanCells(n, from, to - from + 1) <= MAX_CANDIDATE_CELLS
  {
    var from, to := ShortestSpan(available, n), LongestSpan(available, n);
    SevenSpans(from, to - from + 1);
    SpanCellsTotal(n, from, to - from + 1);
    MulMono(n, MAX_PHONEMES, TotalLength(from, to - from + 1));
  }

  /** Aligns with every span and keeps the best. The workspace is large enough for all of them, so
      the capacity error cannot occur; `cells` counts the table cells computed. */
  method ChooseSpan(symbols: seq<Symbol>, actual: seq<Phoneme>, p: nat, minimumLength: nat, maximumLength: nat,
                    reference: array<Phoneme>, workspace: AlignmentWorkspace)
    returns (alignment: AlignmentPath, secondSpanScore: real, spanCount: nat, ghost cells: nat)
    requires minimumLength <= maximumLength && p + maximumLength <= |symbols|
    requires workspace.Valid() && |actual| <= workspace.actualCapacity
    requires maximumLength <= workspace.referenceCapacity == reference.Length
    modifies reference, workspace.directions, workspace.firstRow, workspace.secondRow
    ensures spanCount == maximumLength - minimumLength + 1 && cells == SpanCells(|actual|, minimumLength, spanCount)
    ensures Running(alignment, secondSpanScore) == RunningChoice(symbols, actual, p, minimumLength, spanCount)
  {
    alignment, cells := AlignSpan(symbols, actual, p, minimumLength, reference, workspace);
    secondSpanScore := 0.0;
    spanCount := 1;
    while minimumLength + spanCount <= maximumLength
      invariant 1 <= spanCount <= maximumLength - minimumLength + 1
      invariant Running(alignment, secondSpanScore) == RunningChoice(symbols, actual, p, minimumLength, spanCount)
      invariant cells == SpanCells(|actual|, minimumLength, spanCount)
    {
      var current, spanCells := AlignSpan(symbols, actual, p, minimumLength + spanCount, reference, workspace);
      cells := cells + spanCells;
      alignment, secondSpanScore := KeepBetter(alignment, secondSpanScore, current);
      spanCount := spanCount + 1;
    }
  }

  /** A span that beats the best so far replaces it, and the old best becomes the second best. */
  method KeepBetter(best: AlignmentPath, second: real, current: AlignmentPath) returns (alignment: AlignmentPath, secondSpanScore: real)
    ensures Running(alignment, secondSpanScore) == NextChoice(Running(best, second), current)
  {
    if Beats(current, best) {
      alignment, secondSpanScore := current, best.score;
    } else {
      alignment, secondSpanScore := best, if second >= current.score then second else current.score;
    }
  }

  /** The spans of a candidate lie inside the corpus and inside the storage for the whole observation. */
  lemma SpansFit(symbolCount: nat, p: nat, n: nat)
    requires p < symbolCount && 0 < n <= MAX_PHONEMES
    ensures var from, to := ShortestSpan(symbolCount - p, n), LongestSpan(symbolCount - p, n);
            && 1 <= from <= to && p + to <= symbolCount && to <= LongestSpan(symbolCount, n)
            && SpanCells(n, from, to - from + 1) <= MAX_CANDIDATE_CELLS
  {
    SpanCellsBounded(symbolCount - p, n);
  }

  method EvaluateCandidate(symbols: seq<Symbol>, actual: seq<Phoneme>, symbolIndex: nat, cursorSymbol: int, committedSymbol: int,
                           reference: array<Phoneme>, workspace: AlignmentWorkspace)
    returns (candidate: AlignmentCandidate, ghost cells: nat)
    requires 0 < |actual| <= MAX_PHONEMES && symbolIndex < |symbols|
    requires workspace.Valid() && workspace.actualCapacity == |actual|
    requires workspace.referenceCapacity == reference.Length == LongestSpan(|symbols|, |actual|)
    modifies reference, workspace.directions, workspace.firstRow, workspace.secondRow
    ensures candidate == CandidateAt(symbols, actual, cursorSymbol, committedSymbol, symbolIndex)
    ensures cells <= MAX_CANDIDATE_CELLS
  {
    hide RunningChoice;
    var available := |symbols| - symbolIndex;
    var minimumLength, maximumLength := ShortestSpan(available, |actual|), LongestSpan(available, |actual|);
    SpansFit(|symbols|, symbolIndex, |actual|);
    var alignment, secondSpanScore, spanCount;
    alignment, secondSpanScore, spanCount, cells :=
      ChooseSpan(symbols, actual, symbolIndex, minimumLength, maximumLength, reference, workspace);
    var continuity := LeadingContinuity(alignment, |actual|);
    candidate := AlignmentCandidate(
      symbolIndex, symbols[symbolIndex].location, alignment, alignment.score,
      MarginOf(spanCount, alignment.score, secondSpanScore),
      Abs(symbolIndex - cursorSymbol), continuity, Positive(symbolIndex - cursorSymbol), symbolIndex < committedSymbol);
  }

  method AlignSpan(symbols: seq<Symbol>, actual: seq<Phoneme>, p: nat, length: nat,
                   reference: array<Phoneme>, workspace: AlignmentWorkspace)
    returns (alignment: AlignmentPath, ghost cells: nat)
    requires p + length <= |symbols|
    requires workspace.Valid() && |actual| <= workspace.actualCapacity && length <= workspace.referenceCapacity == reference.Length
    modifies reference, workspace.directions, workspace.firstRow, workspace.secondRow
    ensures alignment == SpanAlignment(symbols, actual, p, length) && cells == |actual| * length
  {
    FillReference(symbols, p, length, reference);
    var aligned;
    aligned, cells := Align(actual, reference[..length], workspace);
    alignment := aligned.value;
  }

  method LeadingContinuity(alignment: AlignmentPath, actualLength: nat) returns (continuity: real)
    requires actualLength > 0
    ensures continuity == Continuity(alignment, actualLength)
  {
    var matches := 0;
    while matches < |alignment.operations| && alignment.operations[matches].Match?
      invariant matches <= |alignment.operations|
      invariant matches + MatchRun(alignment.operations, matches) == MatchRun(alignment.operations, 0)
    {
      matches := matches + 1;
    }
    continuity := matches as real / actualLength as real;
  }

  // ----- ranking

  /** Higher score, higher margin, smaller distance, higher continuity, less forward movement, lower index. */
  predicate Precedes(x: AlignmentCandidate, y: AlignmentCandidate) {
    if x.score != y.score then x.score > y.score
    else if x.scoreMargin != y.scoreMargin then x.scoreMargin > y.scoreMargin
    else if x.cursorDistance != y.cursorDistance then x.cursorDistance < y.cursorDistance
    else if x.continuity != y.continuity then x.continuity > y.continuity
    else if x.forwardMovement != y.forwardMovement then x.forwardMovement < y.forwardMovement
    else x.symbolIndex < y.symbolIndex
  }

  /** The ranking is a strict total order on candidates at different positions. */
  lemma RankingIsTotal(x: AlignmentCandidate, y: AlignmentCandidate, z: AlignmentCandidate)
    ensures !(Precedes(x, y) && Precedes(y, x))
    ensures Precedes(x, y) && Precedes(y, z) ==> Precedes(x, z)
    ensures x.symbolIndex != y.symbolIndex ==> Precedes(x, y) || Precedes(y, x)
  {}

  lemma RankingIsWeakOrder()
    ensures WeakOrder(Precedes)
  {}

  predicate DistinctPositions(cs: seq<AlignmentCandidate>) {
    forall i, j | 0 <= i < j < |cs| :: cs[i].symbolIndex != cs[j].symbolIndex
  }

  /** The first two of a collection of candidates under the ranking. */
  ghost predicate TopTwo(cs: seq<AlignmentCandidate>, top: Located) {
    && (cs == [] <==> top.best.None?)
    && (|cs| < 2 <==> top.second.None?)
    && (top.best.Some? ==> top.best.value in cs && forall c <- cs :: c == top.best.value || Precedes(top.best.value, c))
    && (top.second.Some? ==>
          && top.best.Some? && top.second.value in cs && top.second.value != top.best.value
          && forall c <- cs :: c == top.best.value || c == top.second.value || Precedes(top.second.value, c))
  }

  /** The answer depends only on which candidates were evaluated, not on their order. */
  lemma TopTwoIgnoresOrder(cs: seq<AlignmentCandidate>, ds: seq<AlignmentCandidate>, x: Located, y: Located)
    requires TopTwo(cs, x) && TopTwo(ds, y)
    requires |cs| == |ds| && forall c :: c in cs <==> c in ds
    ensures x == y
  {}

  function FirstTwo(ranked: seq<AlignmentCandidate>): Located {
    Located(if |ranked| > 0 then Some(ranked[0]) else None, if |ranked| > 1 then Some(ranked[1]) else None)
  }

  lemma SortedTopTwo(cs: seq<AlignmentCandidate>)
    requires DistinctPositions(cs)
    ensures TopTwo(cs, FirstTwo(Sort(cs, Precedes)))
  {
    hide Precedes, DistinctPositions;
    var ranked := Sort(cs, Precedes);
    RankingIsWeakOrder();
    SortOrders(cs, Precedes);
    SortKeepsElements(cs, Precedes);
    forall c | c in cs ensures c in ranked { assert c in multiset(cs); }
    forall c | c in ranked ensures c in cs { assert c in multiset(ranked); }
    SortedIsStrict(cs, ranked);
  }

  lemma SortedIsStrict(cs: seq<AlignmentCandidate>, ranked: seq<AlignmentCandidate>)
    requires DistinctPositions(cs) && multiset(ranked) == multiset(cs) && Ordered(ranked, Precedes)
    ensures forall i, j | 0 <= i < j < |ranked| :: Precedes(ranked[i], ranked[j])
  {
    hide DistinctPositions;
    forall i, j | 0 <= i < j < |ranked| ensures Precedes(ranked[i], ranked[j]) {
      DistinctAfterSort(cs, ranked, i, j);
      assert !Precedes(ranked[j], ranked[i]);
    }
  }

  lemma DistinctAfterSort(cs: seq<AlignmentCandidate>, ranked: seq<AlignmentCandidate>, i: nat, j: nat)
    requires DistinctPositions(cs) && multiset(ranked) == multiset(cs) && i < j < |ranked|
    ensures ranked[i].symbolIndex != ranked[j].symbolIndex
  {
    var x, y := ranked[i], ranked[j];
    assert x in multiset(ranked) && y in multiset(ranked);
    var k :| 0 <= k < |cs| && cs[k] == x;
    var l :| 0 <= l < |cs| && cs[l] == y;
    if k == l {
      assert ranked == ranked[..j] + [y] + ranked[j + 1..];
      assert x in ranked[..j];
      assert multiset(ranked)[x] >= 2;
      OnlyOnce(cs, k);
    }
  }

  lemma OnlyOnce(cs: seq<AlignmentCandidate>, k: nat)
    requires DistinctPositions(cs) && k < |cs|
    ensures multiset(cs)[cs[k]] == 1
  {
    assert cs == cs[..k] + [cs[k]] + cs[k + 1..];
    assert cs[k] !in cs[..k] && cs[k] !in cs[k + 1..];
  }

  // ----- the location of an observation

  /** The candidates at the given positions, in that order. */
  ghost predicate AreCandidates(symbols: seq<Symbol>, actual: seq<Phoneme>, cursorSymbol: int, committedSymbol: int,
                                positions: seq<nat>, cs: seq<AlignmentCandidate>) {
    |cs| == |positions| && actual != [] && forall i | 0 <= i < |cs| ::
      positions[i] < |symbols| && cs[i] == CandidateAt(symbols, actual, cursorSymbol, committedSymbol, positions[i])
  }

  lemma OneMoreCandidate(symbols: seq<Symbol>, actual: seq<Phoneme>, cursorSymbol: int, committedSymbol: int,
                         positions: seq<nat>, cs: seq<AlignmentCandidate>, p: nat)
    requires AreCandidates(symbols, actual, cursorSymbol, committedSymbol, positions, cs) && p < |symbols|
    ensures AreCandidates(symbols, actual, cursorSymbol, committedSymbol, positions + [p],
                          cs + [CandidateAt(symbols, actual, cursorSymbol, committedSymbol, p)])
  {}

  lemma CandidatesAreDistinct(symbols: seq<Symbol>, actual: seq<Phoneme>, cursorSymbol: int, committedSymbol: int,
                              positions: seq<nat>, cs: seq<AlignmentCandidate>)
    requires AreCandidates(symbols, actual, cursorSymbol, committedSymbol, positions, cs) && Distinct(positions)
    ensures DistinctPositions(cs)
  {
    assert forall i | 0 <= i < |cs| :: cs[i].symbolIndex == positions[i];
  }

  ghost predicate ReachesThreshold(cs: seq<AlignmentCandidate>) {
    exists c <- cs :: c.score >= GLOBAL_FALLBACK_THRESHOLD
  }

  /** Which positions are evaluated: the local ones, and the global ones as well exactly when no local
      candidate reaches the threshold. Then nothing that was looked up is left out, unless there are 64
      positions or the inspections are used up. */
  ghost predicate EvaluatedPositions(index: IndexedCorpus, actual: seq<Phoneme>, cursorSymbol: int,
                                     reached: bool, positions: seq<nat>)
    requires forall p | 0 <= p < |index.symbols| :: AyahOf(index.symbols[p]) in index.ayahSymbolRanges
  {
    && Distinct(positions) && |positions| <= MAX_ALIGNMENT_CANDIDATES
    && Extends(index, actual, LocalPositionsOf(index, cursorSymbol), positions)
    && positions == RetrievedPositions(index, actual, cursorSymbol, !reached)
    && (!reached && actual != [] ==>
          Full(positions) || InspectionsLeft(index, actual, cursorSymbol) == 0 || Complete(index, actual, positions))
  }

  /** What a located observation is: the top two of the candidates at the evaluated positions. */
  ghost predicate LocatedAmong(index: IndexedCorpus, actual: seq<Phoneme>, cursorSymbol: int, committedSymbol: int,
                               positions: seq<nat>, cs: seq<AlignmentCandidate>, top: Located)
    requires forall p | 0 <= p < |index.symbols| :: AyahOf(index.symbols[p]) in index.ayahSymbolRanges
  {
    var local := LocalPositionsOf(index, cursorSymbol);
    && AreCandidates(index.symbols, actual, cursorSymbol, committedSymbol, positions, cs)
    && |local| <= |cs| && EvaluatedPositions(index, actual, cursorSymbol, ReachesThreshold(cs[..|local|]), positions)
    && TopTwo(cs, top)
  }

  lemma CandidatesOfPrefix(symbols: seq<Symbol>, actual: seq<Phoneme>, cursorSymbol: int, committedSymbol: int,
                           local: seq<nat>, positions: seq<nat>, cs: seq<AlignmentCandidate>)
    requires AreCandidates(symbols, actual, cursorSymbol, committedSymbol, positions, cs) && local <= positions
    ensures AreCandidates(symbols, actual, cursorSymbol, committedSymbol, local, cs[..|local|])
  {
    assert forall i | 0 <= i < |local| :: local[i] == positions[i];
  }

  lemma SameCandidates(symbols: seq<Symbol>, actual: seq<Phoneme>, cursorSymbol: int, committedSymbol: int,
                       positions: seq<nat>, cs: seq<AlignmentCandidate>, ds: seq<AlignmentCandidate>)
    requires AreCandidates(symbols, actual, cursorSymbol, committedSymbol, positions, cs)
    requires AreCandidates(symbols, actual, cursorSymbol, committedSymbol, positions, ds)
    ensures cs == ds
  {}

  /** Where an observation is located depends on corpus, observation, cursor and commit point only. */
  lemma LocationIsUnique(index: IndexedCorpus, actual: seq<Phoneme>, cursorSymbol: int, committedSymbol: int,
                         p: seq<nat>, cs: seq<AlignmentCandidate>, x: Located,
                         q: seq<nat>, ds: seq<AlignmentCandidate>, y: Located)
    requires forall i | 0 <= i < |index.symbols| :: AyahOf(index.symbols[i]) in index.ayahSymbolRanges
    requires LocatedAmong(index, actual, cursorSymbol, committedSymbol, p, cs, x)
    requires LocatedAmong(index, actual, cursorSymbol, committedSymbol, q, ds, y)
    ensures p == q && cs == ds && x == y
  {
    var local := LocalPositionsOf(index, cursorSymbol);
    CandidatesOfPrefix(index.symbols, actual, cursorSymbol, committedSymbol, local, p, cs);
    CandidatesOfPrefix(index.symbols, actual, cursorSymbol, committedSymbol, local, q, ds);
    SameCandidates(index.symbols, actual, cursorSymbol, committedSymbol, local, cs[..|local|], ds[..|local|]);
    SameCandidates(index.symbols, actual, cursorSymbol, committedSymbol, p, cs, ds);
    TopTwoIgnoresOrder(cs, ds, x, y);
  }

  function PositionSet(positions: seq<nat>): set<nat> { set x <- positions }

  lemma NotYetEvaluated(positions: seq<nat>, k: nat, n: nat)
    requires Distinct(positions) && k < |positions| && n <= |positions|
    ensures positions[k] in PositionSet(positions[..n]) <==> k < n
    ensures n == k ==> PositionSet(positions[..n + 1]) == PositionSet(positions[..n]) + {positions[k]}
  {
    if k < n { assert positions[..n][k] == positions[k]; }
    if n == k { assert positions[..n + 1] == positions[..n] + [positions[k]]; }
  }

  /** Evaluates the positions that have not been evaluated yet. */
  method EvaluatePositions(symbols: seq<Symbol>, actual: seq<Phoneme>, cursorSymbol: int, committedSymbol: int,
                           positions: seq<nat>, evaluated: seq<AlignmentCandidate>,
                           reference: array<Phoneme>, workspace: AlignmentWorkspace)
    returns (all: seq<AlignmentCandidate>, ghost cells: nat)
    requires 0 < |actual| <= MAX_PHONEMES
    requires |evaluated| <= |positions| && forall x <- positions :: x < |symbols|
    requires AreCandidates(symbols, actual, cursorSymbol, committedSymbol, positions[..|evaluated|], evaluated)
    requires Distinct(positions)
    requires workspace.Valid() && workspace.actualCapacity == |actual|
    requires workspace.referenceCapacity == reference.Length == LongestSpan(|symbols|, |actual|)
    modifies reference, workspace.directions, workspace.firstRow, workspace.secondRow
    ensures AreCandidates(symbols, actual, cursorSymbol, committedSymbol, positions, all)
    ensures evaluated <= all
    ensures cells <= (|positions| - |evaluated|) * MAX_CANDIDATE_CELLS
  {
    hide CandidateAt;
    all := evaluated;
    cells := 0;
    var done := PositionSet(positions[..|evaluated|]);
    for k := 0 to |positions|
      invariant |all| == Max(k, |evaluated|) && evaluated <= all
      invariant AreCandidates(symbols, actual, cursorSymbol, committedSymbol, positions[..|all|], all)
      invariant done == PositionSet(positions[..|all|])
      invariant cells <= (|all| - |evaluated|) * MAX_CANDIDATE_CELLS
    {
      NotYetEvaluated(positions, k, |all|);
      assert positions[k] in positions;
      if positions[k] !in done {
        var candidate, more := EvaluateCandidate(symbols, actual, positions[k], cursorSymbol, committedSymbol, reference, workspace);
        OneMoreCandidate(symbols, actual, cursorSymbol, committedSymbol, positions[..|all|], all, positions[k]);
        assert positions[..k + 1] == positions[..k] + [positions[k]];
        cells := cells + more;
        all := all + [candidate];
        done := done + {positions[k]};
      }
    }
    assert positions[..|positions|] == positions;
  }

  const MAX_CELLS := 7_340_032

  lemma RankedTopTwo(symbols: seq<Symbol>, actual: seq<Phoneme>, cursorSymbol: int, committedSymbol: int,
                     positions: seq<nat>, cs: seq<AlignmentCandidate>)
    requires AreCandidates(symbols, actual, cursorSymbol, committedSymbol, positions, cs) && Distinct(positions)
    ensures TopTwo(cs, FirstTwo(Sort(cs, Precedes)))
  {
    CandidatesAreDistinct(symbols, actual, cursorSymbol, committedSymbol, positions, cs);
    SortedTopTwo(cs);
  }

  /** The local phase, and whether a local candidate reaches the threshold. */
  method EvaluateLocal(index: IndexedCorpus, actual: seq<Phoneme>, cursorSymbol: int, committedSymbol: int,
                       reference: array<Phoneme>, workspace: AlignmentWorkspace)
    returns (local: seq<nat>, evaluated: seq<AlignmentCandidate>, reached: bool, ghost cells: nat)
    requires WellIndexed(index) && index.symbols != [] && 0 < |actual| <= MAX_PHONEMES
    requires workspace.Valid() && workspace.actualCapacity == |actual|
    requires workspace.referenceCapacity == reference.Length == LongestSpan(|index.symbols|, |actual|)
    modifies reference, workspace.directions, workspace.firstRow, workspace.secondRow
    ensures forall p | 0 <= p < |index.symbols| :: AyahOf(index.symbols[p]) in index.ayahSymbolRanges
    ensures local == LocalPositionsOf(index, cursorSymbol) && |evaluated| == |local| <= MAX_ALIGNMENT_CANDIDATES
    ensures AreCandidates(index.symbols, actual, cursorSymbol, committedSymbol, local, evaluated)
    ensures reached <==> ReachesThreshold(evaluated)
    ensures reached ==> EvaluatedPositions(index, actual, cursorSymbol, true, local)
    ensures cells <= |local| * MAX_CANDIDATE_CELLS
  {
    hide CandidateAt, Complete, LocalPositionsOf;
    ghost var spent;
    local, spent := RetrieveCandidatePositions(index, actual, cursorSymbol, false);
    assert local[..0] == [];
    evaluated, cells := EvaluatePositions(index.symbols, actual, cursorSymbol, committedSymbol, local, [], reference, workspace);
    var localBestScore := BestScore(evaluated);
    reached := localBestScore >= GLOBAL_FALLBACK_THRESHOLD;
  }

  /** The global phase, which evaluates what the local one has not. */
  method EvaluateGlobal(index: IndexedCorpus, actual: seq<Phoneme>, cursorSymbol: int, committedSymbol: int,
                        local: seq<nat>, before: seq<AlignmentCandidate>, reference: array<Phoneme>, workspace: AlignmentWorkspace)
    returns (positions: seq<nat>, evaluated: seq<AlignmentCandidate>, ghost cells: nat)
    requires WellIndexed(index) && index.symbols != [] && 0 < |actual| <= MAX_PHONEMES
    requires workspace.Valid() && workspace.actualCapacity == |actual|
    requires workspace.referenceCapacity == reference.Length == LongestSpan(|index.symbols|, |actual|)
    requires forall p | 0 <= p < |index.symbols| :: AyahOf(index.symbols[p]) in index.ayahSymbolRanges
    requires local == LocalPositionsOf(index, cursorSymbol) && |before| == |local|
    requires AreCandidates(index.symbols, actual, cursorSymbol, committedSymbol, local, before)
    modifies reference, workspace.directions, workspace.firstRow, workspace.secondRow
    ensures EvaluatedPositions(index, actual, cursorSymbol, false, positions) && |positions| <= MAX_ALIGNMENT_CANDIDATES
    ensures AreCandidates(index.symbols, actual, cursorSymbol, committedSymbol, positions, evaluated) && before <= evaluated
    ensures cells <= (|positions| - |local|) * MAX_CANDIDATE_CELLS
  {
    hide AreCandidates, CandidateAt, Complete, Justified, LocalPositionsOf;
    ghost var spent;
    positions, spent := RetrieveCandidatePositions(index, actual, cursorSymbol, true);
    assert positions[..|before|] == local;
    evaluated, cells := EvaluatePositions(index.symbols, actual, cursorSymbol, committedSymbol, positions, before, reference, workspace);
  }

  /** At most 64 positions are evaluated over both phases, with at most 7,340,032 table cells. */
  method EvaluateAndRank(index: IndexedCorpus, actual: seq<Phoneme>, cursorSymbol: int, committedSymbol: int)
    returns (top: Located, ghost positions: seq<nat>, ghost cs: seq<AlignmentCandidate>, ghost cells: nat)
    requires WellIndexed(index) && index.symbols != [] && 0 < |actual| <= MAX_PHONEMES
    ensures forall p | 0 <= p < |index.symbols| :: AyahOf(index.symbols[p]) in index.ayahSymbolRanges
    ensures LocatedAmong(index, actual, cursorSymbol, committedSymbol, positions, cs, top)
    ensures cells <= MAX_CELLS
  {
    hide AreCandidates, TopTwo, CandidateAt, FirstTwo, ReachesThreshold, RetrievedPositions, InspectionsLeft, Complete, Extends, WellIndexed;
    var maximumReferenceLength := LongestSpan(|index.symbols|, |actual|);
    var reference := new Phoneme[maximumReferenceLength](_ => "");
    var workspace := new AlignmentWorkspace(|actual|, maximumReferenceLength);
    var local, evaluated, reached, localCells := EvaluateLocal(index, actual, cursorSymbol, committedSymbol, reference, workspace);
    ghost var before := evaluated;
    positions, cells := local, localCells;
    if !reached {
      ghost var moreCells;
      positions, evaluated, moreCells := EvaluateGlobal(index, actual, cursorSymbol, committedSymbol, local, evaluated, reference, workspace);
      cells := cells + moreCells;
    }
    assert evaluated[..|local|] == before;
    cs := evaluated;
    RankedTopTwo(index.symbols, actual, cursorSymbol, committedSymbol, positions, cs);
    top := FirstTwo(Sort(evaluated, Precedes));
  }

  /** Validates and locates an observation. */
  method LocateObservation(index: IndexedCorpus, o: Observation, cursor: int, committedSymbol: int)
    returns (r: Result<Located, Rejection>, ghost positions: seq<nat>, ghost cs: seq<AlignmentCandidate>, ghost cells: nat)
    requires WellIndexed(index)
    ensures forall p | 0 <= p < |index.symbols| :: AyahOf(index.symbols[p]) in index.ayahSymbolRanges
    ensures r.Ok? <==> ValidObservation(o)
    ensures cells <= MAX_CELLS
    ensures r.Ok? && (PhonemesOf(o.tokens) == [] || index.symbols == []) ==> r.value == Located(None, None)
    ensures r.Ok? && PhonemesOf(o.tokens) != [] && index.symbols != [] ==>
              LocatedAmong(index, PhonemesOf(o.tokens), Clamp(cursor, |index.symbols|), committedSymbol, positions, cs, r.value)
  {
    AyahRangesExist(index);
    positions, cs, cells := [], [], 0;
    var valid := ValidateObservations.Validate(o);
    if valid.Err? { return Err(valid.error), [], [], 0; }
    var actual := PhonemesOf(o.tokens);
    if actual == [] || index.symbols == [] { return Ok(Located(None, None)), [], [], 0; }
    var cursorSymbol := Clamp(cursor, |index.symbols|);
    var top;
    top, positions, cs, cells := EvaluateAndRank(index, actual, cursorSymbol, committedSymbol);
    r := Ok(top);
  }

  method BestScore(cs: seq<AlignmentCandidate>) returns (best: real)
    ensures best >= 0.0 && forall c <- cs :: c.score <= best
    ensures best == 0.0 || exists c <- cs :: c.score == best
  {
    best := 0.0;
    for k := 0 to |cs|
      invariant best >= 0.0 && forall i | 0 <= i < k :: cs[i].score <= best
      invariant best == 0.0 || exists i | 0 <= i < k :: cs[i].score == best
    {
      if cs[k].score > best { best := cs[k].score; }
    }
  }
}
