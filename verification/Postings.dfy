/**
 Budgeted lookup in posting lists: a binary search for the cursor, then an outward walk that
 yields the postings in order of distance from it.
 */
module Postings {
  import opened Wrappers
  import opened Sequences

  datatype Anchor = Anchor(length: nat, offset: nat, postings: seq<nat>)

  function Abs(x: int): nat { if x < 0 then -x else x }

  function Positive(x: int): nat { if x < 0 then 0 else x }

  /** Negative when `left` comes before `right` in the walk outwards from the cursor. */
  function CompareAroundCursor(left: int, right: int, cursorSymbol: int): int {
    var distance := Abs(left - cursorSymbol) - Abs(right - cursorSymbol);
    if distance != 0 then distance
    else
      var leftForward, rightForward := Positive(left - cursorSymbol), Positive(right - cursorSymbol);
      if leftForward != rightForward then leftForward - rightForward else left - right
  }

  /** The place of a position in the walk outwards from the target: by distance, and the left one
      of two equally distant positions first. Different positions have different ranks. */
  function WalkRank(x: int, target: int): nat { 2 * Abs(x - target) + if x > target then 1 else 0 }

  lemma CompareIsWalkOrder(left: int, right: int, offset: nat, cursorSymbol: int)
    ensures CompareAroundCursor(left - offset, right - offset, cursorSymbol) < 0 <==>
            WalkRank(left, cursorSymbol + offset) < WalkRank(right, cursorSymbol + offset)
    ensures WalkRank(left, cursorSymbol + offset) == WalkRank(right, cursorSymbol + offset) <==> left == right
  {}

  // ----- the budget

  class InspectionBudget {
    var remaining: nat

    constructor (remaining: nat)
      ensures this.remaining == remaining
    {
      this.remaining := remaining;
    }
  }

  method InspectedValue(values: seq<nat>, index: nat, budget: InspectionBudget) returns (r: Option<nat>)
    requires index < |values|
    modifies budget
    ensures r == if old(budget.remaining) == 0 then None else Some(values[index])
    ensures budget.remaining == if old(budget.remaining) == 0 then 0 else old(budget.remaining) - 1
  {
    if budget.remaining == 0 { return None; }
    budget.remaining := budget.remaining - 1;
    return Some(values[index]);
  }

  // ----- binary search

  /** The number of bits of n. */
  function Bits(n: nat): nat { if n == 0 then 0 else 1 + Bits(n / 2) }

  function Power2(k: nat): nat { if k == 0 then 1 else 2 * Power2(k - 1) }

  /** For n > 0 the number of bits is the integer logarithm plus one. */
  lemma {:induction false} BitsIsLogarithm(n: nat)
    ensures n < Power2(Bits(n))
    ensures n > 0 ==> Power2(Bits(n) - 1) <= n
    decreases n
  {
    if n > 0 { BitsIsLogarithm(n / 2); }
  }

  lemma {:induction false} BitsMonotone(m: nat, n: nat)
    requires m <= n
    ensures Bits(m) <= Bits(n)
    decreases n
  {
    if m > 0 { BitsMonotone(m / 2, n / 2); }
  }

  ghost predicate SplitsAt(values: seq<nat>, target: int, k: nat)
  {
    && k <= |values|
    && (forall i | 0 <= i < k :: values[i] < target)
    && (forall i | k <= i < |values| :: values[i] >= target)
  }

  /** Where a search ends, and what it leaves of the budget. */
  datatype Bisection = Bisection(place: Option<nat>, remaining: nat)

  function Bisect(values: seq<nat>, target: int, low: nat, high: nat, remaining: nat): (r: Bisection)
    requires low <= high <= |values|
    ensures r.remaining <= remaining && (r.place.Some? ==> low <= r.place.value <= high)
    decreases high - low
  {
    if low == high then Bisection(Some(low), remaining)
    else if remaining == 0 then Bisection(None, 0)
    else
      var middle := low + (high - low) / 2;
      if values[middle] < target then Bisect(values, target, middle + 1, high, remaining - 1)
      else Bisect(values, target, low, middle, remaining - 1)
  }

  /** Halving an interval leaves one bit less, whichever half is kept. */
  lemma HalvingBits(low: nat, high: nat)
    requires low < high
    ensures var middle := low + (high - low) / 2;
            && low <= middle < high && Bits(high - (middle + 1)) < Bits(high - low) && Bits(middle - low) < Bits(high - low)
  {
    BitsMonotone(high - (low + (high - low) / 2 + 1), (high - low) / 2);
  }

  /** The search finds where the target goes; it spends at most one inspection per bit of the interval's
      length, and with that many never runs out. */
  lemma {:induction false} BisectFinds(values: seq<nat>, target: int, low: nat, high: nat, remaining: nat)
    requires Ascending(values) && low <= high <= |values|
    requires forall i | 0 <= i < low :: values[i] < target
    requires forall i | high <= i < |values| :: values[i] >= target
    ensures var r := Bisect(values, target, low, high, remaining);
            r.place.Some? ==> SplitsAt(values, target, r.place.value)
    decreases high - low
  {
    if low < high && remaining > 0 {
      var middle := low + (high - low) / 2;
      if values[middle] < target {
        BisectFinds(values, target, middle + 1, high, remaining - 1);
      } else {
        BisectFinds(values, target, low, middle, remaining - 1);
      }
    }
  }

  lemma {:induction false} BisectSpends(values: seq<nat>, target: int, low: nat, high: nat, remaining: nat)
    requires low <= high <= |values|
    ensures var r := Bisect(values, target, low, high, remaining);
            && remaining <= r.remaining + Bits(high - low)
            && (r.place.None? ==> r.remaining == 0 && remaining < Bits(high - low))
    decreases high - low
  {
    hide Bits;
    if low < high {
      HalvingBits(low, high);
      if remaining > 0 {
        var middle := low + (high - low) / 2;
        if values[middle] < target {
          BisectSpends(values, target, middle + 1, high, remaining - 1);
        } else {
          BisectSpends(values, target, low, middle, remaining - 1);
        }
      }
    }
  }

  /** Finds where `target` would go, or stops when the budget runs out; spends at most one
      inspection per bit of the length, and with that many never runs out. */
  method LowerBound(values: seq<nat>, target: int, budget: InspectionBudget) returns (r: Option<nat>)
    requires Ascending(values)
    modifies budget
    ensures r.Some? ==> SplitsAt(values, target, r.value)
    ensures budget.remaining <= old(budget.remaining) <= budget.remaining + Bits(|values|)
    ensures r.None? ==> budget.remaining == 0 && old(budget.remaining) < Bits(|values|)
    ensures Bisection(r, budget.remaining) == Bisect(values, target, 0, |values|, old(budget.remaining))
  {
    hide SplitsAt, Bits;
    BisectFinds(values, target, 0, |values|, budget.remaining);
    BisectSpends(values, target, 0, |values|, budget.remaining);
    ghost var found := Bisect(values, target, 0, |values|, budget.remaining);
    var low: nat, high: nat := 0, |values|;
    while low < high
      invariant low <= high <= |values|
      invariant Bisect(values, target, low, high, budget.remaining) == found
      decreases high - low
    {
      var middle := low + (high - low) / 2;
      var value := InspectedValue(values, middle, budget);
      if value.None? { return None; }
      if value.value < target { low := middle + 1; } else { high := middle; }
    }
    return Some(low);
  }

  // ----- walking outwards

  ghost predicate WalkOrder(taken: seq<nat>, target: int) {
    forall i, j | 0 <= i < j < |taken| :: WalkRank(taken[i], target) < WalkRank(taken[j], target)
  }

  /** y is farther than everything in a list sorted by walk order. */
  predicate Beyond(y: nat, taken: seq<nat>, target: int) {
    taken != [] ==> WalkRank(taken[|taken| - 1], target) < WalkRank(y, target)
  }

  /** `taken` is sorted from nearest to farthest, comes from the list, and leaves out only
      postings that are farther than everything taken. */
  ghost predicate NearestFirst(taken: seq<nat>, postings: seq<nat>, target: int) {
    && WalkOrder(taken, target)
    && (forall x <- taken :: x in postings)
    && (forall y <- postings :: y in taken || Beyond(y, taken, target))
  }

  lemma InOrder(s: seq<nat>, i: nat, j: nat, target: int)
    requires WalkOrder(s, target) && i <= j < |s|
    ensures WalkRank(s[i], target) <= WalkRank(s[j], target)
  {}

  /** After a common front of k postings, t continues with nothing farther than s does. */
  lemma NextIsNotFarther(s: seq<nat>, t: seq<nat>, k: nat, postings: seq<nat>, target: int)
    requires NearestFirst(s, postings, target) && NearestFirst(t, postings, target) && k < |s| == |t|
    requires forall i | 0 <= i < k :: s[i] == t[i]
    ensures WalkRank(t[k], target) <= WalkRank(s[k], target)
  {
    var y := s[k];
    if y in t {
      var i :| 0 <= i < |t| && t[i] == y;
      if i >= k { InOrder(t, k, i, target); }
    } else {
      assert Beyond(y, t, target);
      InOrder(t, k, |t| - 1, target);
    }
  }

  lemma {:induction false} CommonFront(s: seq<nat>, t: seq<nat>, k: nat, postings: seq<nat>, target: int)
    requires NearestFirst(s, postings, target) && NearestFirst(t, postings, target) && k <= |s| == |t|
    ensures forall i | 0 <= i < k :: s[i] == t[i]
    decreases k
  {
    if k > 0 {
      CommonFront(s, t, k - 1, postings, target);
      NextIsNotFarther(s, t, k - 1, postings, target);
      NextIsNotFarther(t, s, k - 1, postings, target);
      CompareIsWalkOrder(s[k - 1], t[k - 1], 0, target);
    }
  }

  /** There is only one way to take k postings nearest first. */
  lemma NearestFirstIsUnique(s: seq<nat>, t: seq<nat>, postings: seq<nat>, target: int)
    requires NearestFirst(s, postings, target) && NearestFirst(t, postings, target) && |s| == |t|
    ensures s == t
  {
    CommonFront(s, t, |s|, postings, target);
  }

  /** The taken postings are those strictly between `left` and `right`; everything still to the
      left lies in front of the target, everything to the right does not. */
  ghost predicate Window(postings: seq<nat>, left: int, right: nat, taken: seq<nat>, target: int) {
    && Ascending(postings)
    && -1 <= left < right <= |postings|
    && (left >= 0 ==> postings[left] < target && Beyond(postings[left], taken, target))
    && (right < |postings| ==> postings[right] >= target && Beyond(postings[right], taken, target))
    && |taken| == right - left - 1
    && (forall x <- taken :: x in postings)
    && (forall i | left < i < right :: postings[i] in taken)
    && WalkOrder(taken, target)
  }

  lemma WalkOrderGrows(taken: seq<nat>, x: nat, target: int)
    requires WalkOrder(taken, target) && Beyond(x, taken, target)
    ensures WalkOrder(taken + [x], target)
  {
    assert forall i | 0 <= i < |taken| :: i < |taken| - 1 ==> WalkRank(taken[i], target) < WalkRank(taken[|taken| - 1], target);
  }

  lemma TakeFromLeft(postings: seq<nat>, left: nat, right: nat, taken: seq<nat>, target: int)
    requires Window(postings, left, right, taken, target)
    requires right < |postings| ==> WalkRank(postings[left], target) < WalkRank(postings[right], target)
    ensures Window(postings, left - 1, right, taken + [postings[left]], target)
  {
    WalkOrderGrows(taken, postings[left], target);
  }

  lemma TakeFromRight(postings: seq<nat>, left: int, right: nat, taken: seq<nat>, target: int)
    requires Window(postings, left, right, taken, target) && right < |postings|
    requires left >= 0 ==> WalkRank(postings[right], target) < WalkRank(postings[left], target)
    ensures Window(postings, left, right + 1, taken + [postings[right]], target)
  {
    WalkOrderGrows(taken, postings[right], target);
  }

  lemma WindowIsNearestFirst(postings: seq<nat>, left: int, right: nat, taken: seq<nat>, target: int)
    requires Window(postings, left, right, taken, target)
    ensures NearestFirst(taken, postings, target)
  {
    forall y | y in postings ensures y in taken || Beyond(y, taken, target) {
      var i :| 0 <= i < |postings| && postings[i] == y;
      if i < left {
        assert postings[i] < postings[left];
      } else if i > right {
        assert postings[right] < postings[i];
      }
    }
  }

  /** How far a list has been walked outwards. */
  datatype Stretch = Stretch(anchor: Anchor, left: int, right: nat)

  datatype Taken = Taken(posting: Option<nat>, stretch: Stretch, remaining: nat)

  /** Each end that there is costs one inspection; without enough of them left nothing is taken and they
      are used up. */
  function Take(w: Stretch, cursorSymbol: int, remaining: nat): Taken {
    var left, right := EndAt(w.anchor.postings, w.left), EndAt(w.anchor.postings, w.right);
    var cost := (if left.Some? then 1 else 0) + if right.Some? then 1 else 0;
    if left.None? && right.None? then Taken(None, w, remaining)
    else if remaining < cost then Taken(None, w, 0)
    else if TakeLeft(left, right, w.anchor.offset, cursorSymbol) then Taken(left, w.(left := w.left - 1), remaining - cost)
    else Taken(right, w.(right := w.right + 1), remaining - cost)
  }

  class PostingCursor {
    const anchor: Anchor
    var left: int
    var right: nat
    /** What has been taken so far, in order. */
    ghost var taken: seq<nat>

    function Now(): Stretch
      reads this
    {
      Stretch(anchor, left, right)
    }

    ghost predicate Valid(target: int)
      reads this
    {
      Window(anchor.postings, left, right, taken, target)
    }

    constructor (anchor: Anchor, right: nat, ghost target: int)
      requires Ascending(anchor.postings) && SplitsAt(anchor.postings, target, right)
      ensures Valid(target) && this.anchor == anchor && taken == [] && Now() == Stretch(anchor, right - 1, right)
    {
      this.anchor := anchor;
      this.left := right - 1;
      this.right := right;
      this.taken := [];
    }

    /** After any number of takes the taken postings are the nearest ones, nearest first. */
    lemma TakenNearestFirst(target: int)
      requires Valid(target)
      ensures NearestFirst(taken, anchor.postings, target)
    {
      WindowIsNearestFirst(anchor.postings, left, right, taken, target);
    }

    method MoveLeft(cursorSymbol: int)
      requires Valid(cursorSymbol + anchor.offset) && left >= 0
      requires TakeLeft(EndAt(anchor.postings, left), EndAt(anchor.postings, right), anchor.offset, cursorSymbol)
      modifies this
      ensures Valid(cursorSymbol + anchor.offset)
      ensures taken == old(taken) + [anchor.postings[old(left)]] && Now() == Stretch(anchor, old(left) - 1, old(right))
    {
      hide WalkOrder, Beyond, TakeLeft;
      StepLeft(anchor.postings, left, right, taken, anchor.offset, cursorSymbol);
      taken := taken + [anchor.postings[left]];
      left := left - 1;
    }

    method MoveRight(cursorSymbol: int)
      requires Valid(cursorSymbol + anchor.offset) && right < |anchor.postings|
      requires !TakeLeft(EndAt(anchor.postings, left), EndAt(anchor.postings, right), anchor.offset, cursorSymbol)
      modifies this
      ensures Valid(cursorSymbol + anchor.offset)
      ensures taken == old(taken) + [anchor.postings[old(right)]] && Now() == Stretch(anchor, old(left), old(right) + 1)
    {
      hide WalkOrder, Beyond, TakeLeft;
      StepRight(anchor.postings, left, right, taken, anchor.offset, cursorSymbol);
      taken := taken + [anchor.postings[right]];
      right := right + 1;
    }
  }

  /** Positions the walk at the cursor; fails only when the budget runs out. */
  method CreatePostingCursor(anchor: Anchor, cursorSymbol: int, budget: InspectionBudget) returns (r: Option<PostingCursor>)
    requires Ascending(anchor.postings)
    modifies budget
    ensures budget.remaining <= old(budget.remaining) <= budget.remaining + Bits(|anchor.postings|)
    ensures r.None? ==> budget.remaining == 0
    ensures r.Some? ==> fresh(r.value) && r.value.anchor == anchor && r.value.taken == []
    ensures r.Some? ==> r.value.Valid(cursorSymbol + anchor.offset)
    ensures var found := Bisect(anchor.postings, cursorSymbol + anchor.offset, 0, |anchor.postings|, old(budget.remaining));
            && budget.remaining == found.remaining && (r.Some? <==> found.place.Some?)
            && (r.Some? ==> r.value.Now() == Stretch(anchor, found.place.value - 1, found.place.value))
  {
    var right := LowerBound(anchor.postings, cursorSymbol + anchor.offset, budget);
    if right.None? { return None; }
    var cursor := new PostingCursor(anchor, right.value, cursorSymbol + anchor.offset);
    return Some(cursor);
  }

  /** Which end to take: the left one when it is at least as near. */
  predicate TakeLeft(left: Option<nat>, right: Option<nat>, offset: nat, cursorSymbol: int) {
    || right.None?
    || (left.Some? && CompareAroundCursor(left.value - offset, right.value - offset, cursorSymbol) <= 0)
  }

  function EndAt(postings: seq<nat>, index: int): Option<nat> {
    if 0 <= index < |postings| then Some(postings[index]) else None
  }

  lemma StepLeft(postings: seq<nat>, left: int, right: nat, taken: seq<nat>, offset: nat, cursorSymbol: int)
    requires Window(postings, left, right, taken, cursorSymbol + offset) && left >= 0
    requires TakeLeft(EndAt(postings, left), EndAt(postings, right), offset, cursorSymbol)
    ensures Window(postings, left - 1, right, taken + [postings[left]], cursorSymbol + offset)
  {
    if right < |postings| { CompareIsWalkOrder(postings[left], postings[right], offset, cursorSymbol); }
    TakeFromLeft(postings, left, right, taken, cursorSymbol + offset);
  }

  lemma StepRight(postings: seq<nat>, left: int, right: nat, taken: seq<nat>, offset: nat, cursorSymbol: int)
    requires Window(postings, left, right, taken, cursorSymbol + offset) && right < |postings|
    requires !TakeLeft(EndAt(postings, left), EndAt(postings, right), offset, cursorSymbol)
    ensures Window(postings, left, right + 1, taken + [postings[right]], cursorSymbol + offset)
  {
    if left >= 0 { CompareIsWalkOrder(postings[left], postings[right], offset, cursorSymbol); }
    TakeFromRight(postings, left, right, taken, cursorSymbol + offset);
  }

  /** Inspects one end of the window when it exists; `ok` is false when the budget ran out. */
  method InspectEnd(postings: seq<nat>, index: int, budget: InspectionBudget) returns (ok: bool, posting: Option<nat>)
    modifies budget
    ensures ok <==> EndAt(postings, index).None? || old(budget.remaining) > 0
    ensures ok ==> posting == EndAt(postings, index) && budget.remaining == old(budget.remaining) - if posting.Some? then 1 else 0
    ensures !ok ==> budget.remaining == old(budget.remaining) == 0
  {
    if 0 <= index < |postings| {
      posting := InspectedValue(postings, index, budget);
      ok := posting.Some?;
    } else {
      ok, posting := true, None;
    }
  }

  /** Inspects both ends, the left one first. */
  method InspectEnds(postings: seq<nat>, left: int, right: nat, budget: InspectionBudget)
    returns (ok: bool, leftPosting: Option<nat>, rightPosting: Option<nat>)
    modifies budget
    ensures var l, r := EndAt(postings, left), EndAt(postings, right);
            var cost := (if l.Some? then 1 else 0) + if r.Some? then 1 else 0;
            && (ok <==> old(budget.remaining) >= cost)
            && (ok ==> leftPosting == l && rightPosting == r && budget.remaining == old(budget.remaining) - cost)
            && (!ok ==> budget.remaining == 0)
  {
    rightPosting := None;
    ok, leftPosting := InspectEnd(postings, left, budget);
    if ok {
      ok, rightPosting := InspectEnd(postings, right, budget);
    }
  }

  /** Takes the nearest posting not yet taken. When it takes none, the list is used up or the
      budget ran out before both ends could be inspected. */
  method TakeNearestPosting(cursor: PostingCursor, cursorSymbol: int, budget: InspectionBudget) returns (r: Option<nat>)
    requires cursor.Valid(cursorSymbol + cursor.anchor.offset)
    modifies cursor, budget
    ensures cursor.Valid(cursorSymbol + cursor.anchor.offset)
    ensures budget.remaining <= old(budget.remaining) <= budget.remaining + 2
    ensures r.Some? ==> cursor.taken == old(cursor.taken) + [r.value] && budget.remaining < old(budget.remaining)
    ensures r.Some? ==> r.value in cursor.anchor.postings
    ensures r.None? ==> cursor.taken == old(cursor.taken)
    ensures r.None? ==> |cursor.taken| == |cursor.anchor.postings| || budget.remaining == 0
    ensures Taken(r, cursor.Now(), budget.remaining) == Take(old(cursor.Now()), cursorSymbol, old(budget.remaining))
  {
    var postings, offset := cursor.anchor.postings, cursor.anchor.offset;
    if cursor.left < 0 && cursor.right >= |postings| { return None; }
    var ok, leftPosting, rightPosting := InspectEnds(postings, cursor.left, cursor.right, budget);
    if !ok { return None; }
    if TakeLeft(leftPosting, rightPosting, offset, cursorSymbol) {
      cursor.MoveLeft(cursorSymbol);
      r := leftPosting;
    } else {
      cursor.MoveRight(cursorSymbol);
      r := rightPosting;
    }
  }
}
