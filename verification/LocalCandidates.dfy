/**
 Candidate positions near the reading cursor: the active ayah, the ayah before it and three
 positions after it, capped.
 */
module LocalCandidates {
  import opened Wrappers
  import opened IndexCorpus
  import opened Postings

  const MAX_LOCAL_CANDIDATES := 48
  const FORWARD_PHONEME_COUNT := 3

  function Minimum(x: int, y: int): int { if x <= y then x else y }

  function Maximum(x: int, y: int): int { if x >= y then x else y }

  /** The cursor with its ayah and the ayah that ends where that one starts. */
  datatype View = View(symbolCount: nat, cursor: nat, active: Range, previous: Option<Range>) {
    ghost predicate Valid() {
      && active.start <= cursor < active.end <= symbolCount
      && (previous.Some? ==> previous.value.start < previous.value.end == active.start)
    }

    function PreviousStart(): nat { if previous.Some? then previous.value.start else active.start }

    /** The number of positions after the active ayah that exist, at most three. */
    function ForwardCount(): int { Minimum(FORWARD_PHONEME_COUNT, symbolCount - active.end) }

    function Total(): int { active.end - PreviousStart() + ForwardCount() }
  }

  function Clamp(cursorSymbol: int, symbolCount: nat): nat
    requires symbolCount > 0
  {
    Maximum(0, Minimum(cursorSymbol, symbolCount - 1))
  }

  /** The range of the ayah at a position; every position of a well-indexed corpus has one. */
  function AyahRangeAt(index: IndexedCorpus, p: nat): Range
    requires p < |index.symbols| && AyahOf(index.symbols[p]) in index.ayahSymbolRanges
  {
    index.ayahSymbolRanges[AyahOf(index.symbols[p])]
  }

  lemma AyahRangesExist(index: IndexedCorpus)
    requires WellIndexed(index)
    ensures forall p | 0 <= p < |index.symbols| :: AyahOf(index.symbols[p]) in index.ayahSymbolRanges
  {
    forall p | 0 <= p < |index.symbols| ensures AyahOf(index.symbols[p]) in index.ayahSymbolRanges {
      AyatTile(index.symbols, index.ayahSymbolRanges, p);
    }
  }

  function ViewAt(index: IndexedCorpus, cursorSymbol: int): View
    requires index.symbols != []
    requires forall p | 0 <= p < |index.symbols| :: AyahOf(index.symbols[p]) in index.ayahSymbolRanges
  {
    var n := |index.symbols|;
    var cursor := Clamp(cursorSymbol, n);
    var active := AyahRangeAt(index, cursor);
    var previous := if 0 < active.start <= n then Some(AyahRangeAt(index, active.start - 1)) else None;
    View(n, cursor, active, previous)
  }

  lemma ViewIsValid(index: IndexedCorpus, cursorSymbol: int)
    requires WellIndexed(index) && index.symbols != []
    ensures forall p | 0 <= p < |index.symbols| :: AyahOf(index.symbols[p]) in index.ayahSymbolRanges
    ensures ViewAt(index, cursorSymbol).Valid()
    ensures ViewAt(index, cursorSymbol).previous.None? <==> ViewAt(index, cursorSymbol).active.start == 0
  {
    AyahRangesExist(index);
    var v := ViewAt(index, cursorSymbol);
    AyatTile(index.symbols, index.ayahSymbolRanges, v.cursor);
    if v.active.start > 0 { AyatTile(index.symbols, index.ayahSymbolRanges, v.active.start - 1); }
  }

  // ----- the selection, step by step

  function Add(positions: seq<nat>, symbolCount: nat, position: int): seq<nat> {
    if |positions| >= MAX_LOCAL_CANDIDATES || position < 0 || position >= symbolCount || position in positions
    then positions
    else positions + [position]
  }

  function AddForward(v: View, positions: seq<nat>, offset: nat): seq<nat>
    requires offset <= FORWARD_PHONEME_COUNT
    decreases FORWARD_PHONEME_COUNT - offset
  {
    if offset == FORWARD_PHONEME_COUNT then positions
    else AddForward(v, Add(positions, v.symbolCount, v.active.end + offset), offset + 1)
  }

  /** The cursor, the end of the previous ayah and the positions after the active one come first. */
  function FirstPositions(v: View): seq<nat> {
    var withCursor := Add([], v.symbolCount, v.cursor);
    var withPrevious := if v.previous.Some? then Add(withCursor, v.symbolCount, v.previous.value.end - 1) else withCursor;
    AddForward(v, withPrevious, 0)
  }

  /** Whether the next position of the active ayah is taken on the left. */
  predicate GoLeft(v: View, activeLeft: int, activeRight: int) {
    || activeRight >= v.active.end
    || (activeLeft >= v.active.start && CompareAroundCursor(activeLeft, activeRight, v.cursor) <= 0)
  }

  predicate ActiveLeftOver(v: View, activeLeft: int, activeRight: int) {
    activeLeft >= v.active.start || activeRight < v.active.end
  }

  predicate PreviousLeftOver(v: View, previousRight: int) {
    v.previous.Some? && previousRight >= v.previous.value.start
  }

  datatype Walk = Walk(positions: seq<nat>, activeLeft: int, activeRight: int, previousRight: int)

  /** Takes the next position of the active ayah, outwards from the cursor. */
  function StepActive(v: View, w: Walk): Walk {
    if !ActiveLeftOver(v, w.activeLeft, w.activeRight) then w
    else if GoLeft(v, w.activeLeft, w.activeRight)
    then w.(positions := Add(w.positions, v.symbolCount, w.activeLeft), activeLeft := w.activeLeft - 1)
    else w.(positions := Add(w.positions, v.symbolCount, w.activeRight), activeRight := w.activeRight + 1)
  }

  /** Takes the next position of the previous ayah, backwards from its end. */
  function StepPrevious(v: View, w: Walk): Walk {
    if !PreviousLeftOver(v, w.previousRight) then w
    else w.(positions := Add(w.positions, v.symbolCount, w.previousRight), previousRight := w.previousRight - 1)
  }

  /** Alternates between the two ayat until the cap is reached or a round adds nothing. */
  function Fill(v: View, w: Walk): seq<nat>
    decreases MAX_LOCAL_CANDIDATES - |w.positions|
  {
    if |w.positions| >= MAX_LOCAL_CANDIDATES then w.positions
    else
      var next := StepPrevious(v, StepActive(v, w));
      if |next.positions| == |w.positions| then next.positions else Fill(v, next)
  }

  function PreviousRight(v: View): int { (if v.previous.Some? then v.previous.value.end else 0) - 2 }

  function LocalPositionsIn(v: View): seq<nat> {
    Fill(v, Walk(FirstPositions(v), v.cursor - 1, v.cursor + 1, PreviousRight(v)))
  }

  function LocalPositionsOf(index: IndexedCorpus, cursorSymbol: int): seq<nat>
    requires forall p | 0 <= p < |index.symbols| :: AyahOf(index.symbols[p]) in index.ayahSymbolRanges
  {
    if index.symbols == [] then [] else LocalPositionsIn(ViewAt(index, cursorSymbol))
  }

  // ----- what is selected

  /** The selected positions are an interval of the active ayah around the cursor, balanced so that
      nothing left out is nearer than anything in it; the end of the previous ayah from `from` on;
      and the forward positions. */
  ghost predicate Spread(v: View, positions: seq<nat>, activeLeft: int, activeRight: int, from: nat) {
    && v.active.start - 1 <= activeLeft < v.cursor < activeRight <= v.active.end
    && v.PreviousStart() <= from <= v.active.start
    && (v.previous.Some? ==> from < v.active.start)
    && (activeLeft >= v.active.start ==> activeRight - 1 - v.cursor < v.cursor - activeLeft)
    && (activeRight < v.active.end ==> v.cursor - activeLeft - 1 <= activeRight - v.cursor)
    && (forall x: nat :: x in positions <==> Selected(v, activeLeft, activeRight, from, x))
    && (forall i, j | 0 <= i < j < |positions| :: positions[i] != positions[j])
    && |positions| == activeRight - activeLeft - 1 + v.active.start - from + v.ForwardCount()
    && |positions| <= MAX_LOCAL_CANDIDATES
    && positions != [] && positions[0] == v.cursor
  }

  predicate Selected(v: View, activeLeft: int, activeRight: int, from: nat, x: nat) {
    || activeLeft < x < activeRight
    || from <= x < v.active.start
    || v.active.end <= x < v.active.end + v.ForwardCount()
  }

  lemma FirstPositionsSpread(v: View)
    requires v.Valid()
    ensures Spread(v, FirstPositions(v), v.cursor - 1, v.cursor + 1,
                   if v.previous.Some? then v.active.start - 1 else v.active.start)
  {
    hide Spread;
    var start := if v.previous.Some? then [v.cursor, v.active.start - 1] else [v.cursor];
    assert Add([], v.symbolCount, v.cursor) == [v.cursor];
    var forward := seq(v.ForwardCount(), (k: nat) => v.active.end + k);
    ForwardPositions(v, start);
    assert FirstPositions(v) == start + forward;
    StartAndForwardSpread(v, start, forward);
  }

  lemma StartAndForwardSpread(v: View, start: seq<nat>, forward: seq<nat>)
    requires v.Valid() && start == (if v.previous.Some? then [v.cursor, v.active.start - 1] else [v.cursor])
    requires |forward| == v.ForwardCount() && forall k | 0 <= k < |forward| :: forward[k] == v.active.end + k
    ensures Spread(v, start + forward, v.cursor - 1, v.cursor + 1, if v.previous.Some? then v.active.start - 1 else v.active.start)
  {
    forall x: nat ensures x in forward <==> v.active.end <= x < v.active.end + v.ForwardCount() {
      if v.active.end <= x < v.active.end + v.ForwardCount() { assert forward[x - v.active.end] == x; }
    }
  }

  lemma AddBeyond(positions: seq<nat>, symbolCount: nat, position: nat)
    requires |positions| < MAX_LOCAL_CANDIDATES && forall x <- positions :: x < position
    ensures Add(positions, symbolCount, position) == if position < symbolCount then positions + [position] else positions
  {}

  lemma ForwardPositions(v: View, start: seq<nat>)
    requires v.Valid() && |start| <= 2 && forall x <- start :: x < v.active.end
    ensures AddForward(v, start, 0) == start + seq(v.ForwardCount(), (k: nat) => v.active.end + k)
  {
    var e, n := v.active.end, v.symbolCount;
    AddBeyond(start, n, e);
    var s0 := Add(start, n, e);
    AddBeyond(s0, n, e + 1);
    var s1 := Add(s0, n, e + 1);
    AddBeyond(s1, n, e + 2);
    assert AddForward(v, start, 0) == Add(s1, n, e + 2);
  }

  lemma SpreadToLeft(v: View, positions: seq<nat>, activeLeft: int, activeRight: int, from: nat)
    requires v.Valid() && Spread(v, positions, activeLeft, activeRight, from) && |positions| < MAX_LOCAL_CANDIDATES
    requires activeLeft >= v.active.start && GoLeft(v, activeLeft, activeRight)
    ensures Spread(v, positions + [activeLeft], activeLeft - 1, activeRight, from)
    ensures Add(positions, v.symbolCount, activeLeft) == positions + [activeLeft]
  {
    assert !Selected(v, activeLeft, activeRight, from, activeLeft);
    forall x: nat ensures x in positions + [activeLeft] <==> Selected(v, activeLeft - 1, activeRight, from, x) {
      assert x in positions <==> Selected(v, activeLeft, activeRight, from, x);
    }
  }

  lemma SpreadToRight(v: View, positions: seq<nat>, activeLeft: int, activeRight: int, from: nat)
    requires v.Valid() && Spread(v, positions, activeLeft, activeRight, from) && |positions| < MAX_LOCAL_CANDIDATES
    requires activeRight < v.active.end && !GoLeft(v, activeLeft, activeRight)
    ensures Spread(v, positions + [activeRight], activeLeft, activeRight + 1, from)
    ensures Add(positions, v.symbolCount, activeRight) == positions + [activeRight]
  {
    assert !Selected(v, activeLeft, activeRight, from, activeRight);
    forall x: nat ensures x in positions + [activeRight] <==> Selected(v, activeLeft, activeRight + 1, from, x) {
      assert x in positions <==> Selected(v, activeLeft, activeRight, from, x);
    }
  }

  lemma SpreadBack(v: View, positions: seq<nat>, activeLeft: int, activeRight: int, from: nat)
    requires v.Valid() && Spread(v, positions, activeLeft, activeRight, from) && |positions| < MAX_LOCAL_CANDIDATES
    requires v.previous.Some? && from > v.previous.value.start
    ensures Spread(v, positions + [from - 1], activeLeft, activeRight, from - 1)
    ensures Add(positions, v.symbolCount, from - 1) == positions + [from - 1]
  {
    var earlier := from - 1;
    assert !Selected(v, activeLeft, activeRight, from, earlier);
    forall x: nat ensures x in positions + [earlier] <==> Selected(v, activeLeft, activeRight, earlier, x) {
      assert x in positions <==> Selected(v, activeLeft, activeRight, from, x);
    }
  }

  lemma ActiveSpread(v: View, w: Walk, from: nat)
    requires v.Valid() && Spread(v, w.positions, w.activeLeft, w.activeRight, from) && |w.positions| < MAX_LOCAL_CANDIDATES
    ensures var next := StepActive(v, w);
            && Spread(v, next.positions, next.activeLeft, next.activeRight, from)
            && next.previousRight == w.previousRight
            && |next.positions| == |w.positions| + if ActiveLeftOver(v, w.activeLeft, w.activeRight) then 1 else 0
  {
    if ActiveLeftOver(v, w.activeLeft, w.activeRight) {
      if GoLeft(v, w.activeLeft, w.activeRight) {
        SpreadToLeft(v, w.positions, w.activeLeft, w.activeRight, from);
      } else {
        SpreadToRight(v, w.positions, w.activeLeft, w.activeRight, from);
      }
    }
  }

  lemma PreviousSpread(v: View, w: Walk, from: nat) returns (f: nat)
    requires v.Valid() && Spread(v, w.positions, w.activeLeft, w.activeRight, from)
    requires v.previous.Some? ==> w.previousRight == from - 1
    ensures var next := StepPrevious(v, w);
            && Spread(v, next.positions, next.activeLeft, next.activeRight, f)
            && |next.positions| >= |w.positions|
            && (v.previous.Some? && |next.positions| < MAX_LOCAL_CANDIDATES ==> next.previousRight == f - 1)
            && (|next.positions| == |w.positions| < MAX_LOCAL_CANDIDATES ==> f == v.PreviousStart())
  {
    f := from;
    if PreviousLeftOver(v, w.previousRight) && |w.positions| < MAX_LOCAL_CANDIDATES {
      SpreadBack(v, w.positions, w.activeLeft, w.activeRight, from);
      f := from - 1;
    }
  }

  /** The filling loop stops only at the cap or when both ayat are used up. */
  lemma {:induction false} FillSpread(v: View, w: Walk, from: nat) returns (l: int, r: int, f: nat)
    requires v.Valid() && Spread(v, w.positions, w.activeLeft, w.activeRight, from)
    requires v.previous.Some? && |w.positions| < MAX_LOCAL_CANDIDATES ==> w.previousRight == from - 1
    ensures Spread(v, Fill(v, w), l, r, f)
    ensures |Fill(v, w)| == MAX_LOCAL_CANDIDATES || (l == v.active.start - 1 && r == v.active.end && f == v.PreviousStart())
    decreases MAX_LOCAL_CANDIDATES - |w.positions|
  {
    l, r, f := w.activeLeft, w.activeRight, from;
    if |w.positions| < MAX_LOCAL_CANDIDATES {
      ActiveSpread(v, w, from);
      f := PreviousSpread(v, StepActive(v, w), from);
      var next := StepPrevious(v, StepActive(v, w));
      l, r := next.activeLeft, next.activeRight;
      if |next.positions| > |w.positions| {
        l, r, f := FillSpread(v, next, f);
      }
    }
  }

  /** The local candidates: distinct, starting with the cursor, as many as fit under the cap out of
      the active ayah, the previous ayah and the forward positions, and nothing else. The forward
      positions are always among them, positions of the active ayah are taken nearest first, and
      positions of the previous ayah from its end. */
  lemma LocalPositionsSpread(v: View) returns (l: int, r: int, f: nat)
    requires v.Valid()
    ensures Spread(v, LocalPositionsIn(v), l, r, f)
    ensures |LocalPositionsIn(v)| == Minimum(MAX_LOCAL_CANDIDATES, v.Total())
  {
    FirstPositionsSpread(v);
    l, r, f := FillSpread(v, Walk(FirstPositions(v), v.cursor - 1, v.cursor + 1, PreviousRight(v)),
                          if v.previous.Some? then v.active.start - 1 else v.active.start);
  }

  predicate InView(v: View, x: nat) { v.PreviousStart() <= x < v.active.end + v.ForwardCount() }

  lemma LocalPositionsCorrect(index: IndexedCorpus, cursorSymbol: int)
    requires WellIndexed(index) && index.symbols != []
    ensures forall p | 0 <= p < |index.symbols| :: AyahOf(index.symbols[p]) in index.ayahSymbolRanges
    ensures var v, positions := ViewAt(index, cursorSymbol), LocalPositionsOf(index, cursorSymbol);
            && |positions| == Minimum(MAX_LOCAL_CANDIDATES, v.Total())
            && (forall i, j | 0 <= i < j < |positions| :: positions[i] != positions[j])
            && (forall x <- positions :: InView(v, x) && x < |index.symbols|)
            && positions != [] && positions[0] == v.cursor
            && (v.Total() <= MAX_LOCAL_CANDIDATES ==> forall x: nat | InView(v, x) :: x in positions)
            && (forall x: nat | v.active.end <= x < v.active.end + v.ForwardCount() :: x in positions)
            && (forall x, y: nat | x in positions && y !in positions
                  && v.active.start <= x < v.active.end && v.active.start <= y < v.active.end ::
                  WalkRank(x, v.cursor) < WalkRank(y, v.cursor))
            && (forall x, y: nat | x in positions && y !in positions && x < v.active.start && InView(v, y) && y < v.active.start ::
                  y < x)
  {
    hide WellIndexed;
    ViewIsValid(index, cursorSymbol);
    var v := ViewAt(index, cursorSymbol);
    var l, r, f := LocalPositionsSpread(v);
    SpreadMeans(v, LocalPositionsIn(v), l, r, f);
  }

  lemma SpreadMeans(v: View, positions: seq<nat>, l: int, r: int, f: nat)
    requires v.Valid() && Spread(v, positions, l, r, f)
    ensures forall x <- positions :: InView(v, x) && x < v.symbolCount
    ensures |positions| == v.Total() ==> forall x: nat | InView(v, x) :: x in positions
    ensures forall x: nat | v.active.end <= x < v.active.end + v.ForwardCount() :: x in positions
    ensures forall x, y: nat | x in positions && y !in positions
              && v.active.start <= x < v.active.end && v.active.start <= y < v.active.end ::
              WalkRank(x, v.cursor) < WalkRank(y, v.cursor)
    ensures forall x, y: nat | x in positions && y !in positions && x < v.active.start && InView(v, y) && y < v.active.start ::
              y < x
  {
    assert forall x: nat :: x in positions <==> Selected(v, l, r, f, x);
  }

  // ----- the method

  /** Collects the local candidates. */
  method LocalPositions(index: IndexedCorpus, cursorSymbol: int) returns (positions: seq<nat>)
    requires WellIndexed(index)
    ensures forall p | 0 <= p < |index.symbols| :: AyahOf(index.symbols[p]) in index.ayahSymbolRanges
    ensures positions == LocalPositionsOf(index, cursorSymbol)
  {
    AyahRangesExist(index);
    if index.symbols == [] { return []; }
    var v := ViewAt(index, cursorSymbol);
    positions := CollectFirst(v);
    positions := FillSpare(v, positions);
  }

  method CollectFirst(v: View) returns (positions: seq<nat>)
    ensures positions == FirstPositions(v)
  {
    positions := Add([], v.symbolCount, v.cursor);
    if v.previous.Some? { positions := Add(positions, v.symbolCount, v.previous.value.end - 1); }
    for offset := 0 to FORWARD_PHONEME_COUNT
      invariant AddForward(v, positions, offset) == FirstPositions(v)
    {
      positions := Add(positions, v.symbolCount, v.active.end + offset);
    }
  }

  method FillSpare(v: View, first: seq<nat>) returns (positions: seq<nat>)
    ensures positions == Fill(v, Walk(first, v.cursor - 1, v.cursor + 1, PreviousRight(v)))
  {
    positions := first;
    var activeLeft: int, activeRight: int := v.cursor as int - 1, v.cursor + 1;
    var previousRight: int := PreviousRight(v);
    while |positions| < MAX_LOCAL_CANDIDATES
      invariant Fill(v, Walk(positions, activeLeft, activeRight, previousRight))
             == Fill(v, Walk(first, v.cursor - 1, v.cursor + 1, PreviousRight(v)))
      decreases MAX_LOCAL_CANDIDATES - |positions|
    {
      var sizeBefore := |positions|;
      positions, activeLeft, activeRight := TakeActive(positions, activeLeft, activeRight, v, previousRight);
      if v.previous.Some? && previousRight >= v.previous.value.start {
        positions := Add(positions, v.symbolCount, previousRight);
        previousRight := previousRight - 1;
      }
      if |positions| == sizeBefore { break; }
    }
  }

  /** One position of the active ayah: the only one left, or the nearer of the two next ones. */
  method TakeActive(positions: seq<nat>, activeLeft: int, activeRight: int, v: View, ghost previousRight: int)
    returns (more: seq<nat>, left: int, right: int)
    ensures Walk(more, left, right, previousRight) == StepActive(v, Walk(positions, activeLeft, activeRight, previousRight))
  {
    more, left, right := positions, activeLeft, activeRight;
    if activeLeft >= v.active.start || activeRight < v.active.end {
      if activeLeft < v.active.start {
        more := Add(positions, v.symbolCount, activeRight);
        right := activeRight + 1;
      } else if activeRight >= v.active.end {
        more := Add(positions, v.symbolCount, activeLeft);
        left := activeLeft - 1;
      } else if CompareAroundCursor(activeLeft, activeRight, v.cursor) <= 0 {
        more := Add(positions, v.symbolCount, activeLeft);
        left := activeLeft - 1;
      } else {
        more := Add(positions, v.symbolCount, activeRight);
        right := activeRight + 1;
      }
    }
  }
}
