/**
 Deterministic edit-path alignment in caller-owned, reusable storage.

 `Align` fills a flat direction table row by row while keeping only two rows of distances,
 then walks the table backwards. Its contract equates the result with `AlignmentOf`, a
 function of the two sequences alone.
 */
module EditPath {
  import opened Wrappers
  import opened Alignments
  import opened EditScript

  datatype AlignmentError = CapacityExceeded

  /** The number of matches directly after the first edit. */
  function LookaheadAfterFirstEdit(ops: seq<Operation>): nat {
    var firstEdit := MatchRun(ops, 0);
    if firstEdit < |ops| then MatchRun(ops, firstEdit + 1) else 0
  }

  function ScoreOf(editCount: nat, actualLength: nat, referenceLength: nat): real {
    var normalizer := Max(actualLength, referenceLength);
    if normalizer == 0 then 1.0 else (normalizer - editCount) as real / normalizer as real
  }

  function AlignmentOf(a: seq<Phoneme>, b: seq<Phoneme>): AlignmentPath {
    var ops, edits := Canonical(a, b, |a|, |b|), Distance(a, b, |a|, |b|);
    AlignmentPath(ScoreOf(edits, |a|, |b|), edits, LookaheadAfterFirstEdit(ops), ops)
  }

  // ----- what an alignment is

  /** The operations are a complete edit script and no complete script is cheaper. */
  lemma AlignmentIsMinimalScript(a: seq<Phoneme>, b: seq<Phoneme>, other: seq<Operation>)
    ensures CompleteScript(AlignmentOf(a, b).operations, a, b)
    ensures AlignmentOf(a, b).editCount == Distance(a, b, |a|, |b|) == Cost(AlignmentOf(a, b).operations)
    ensures CompleteScript(other, a, b) ==> AlignmentOf(a, b).editCount <= Cost(other)
  {
    CanonicalIsOptimalTo(a, b, |a|, |b|);
    ScriptToIsComplete(AlignmentOf(a, b).operations, a, b, |a|, |b|);
    ScriptToIsComplete(other, a, b, |a|, |b|);
    if CompleteScript(other, a, b) { ScriptCostsAtLeastDistance(other, a, b, |a|, |b|); }
  }

  /** Among the cheapest complete scripts the returned one is, read from the end, the one that
      prefers match, then substitution, then deletion, then insertion; there is only one. */
  lemma AlignmentIsPreferredScript(a: seq<Phoneme>, b: seq<Phoneme>, other: seq<Operation>)
    requires CompleteScript(other, a, b) && Cost(other) == AlignmentOf(a, b).editCount
    ensures PreferredFromEnd(AlignmentOf(a, b).operations, other)
    ensures PreferredFromEnd(other, AlignmentOf(a, b).operations) ==> other == AlignmentOf(a, b).operations
  {
    CanonicalIsOptimalTo(a, b, |a|, |b|);
    ScriptToIsComplete(other, a, b, |a|, |b|);
    CanonicalIsPreferredTo(other, a, b, |a|, |b|);
    if PreferredFromEnd(other, AlignmentOf(a, b).operations) {
      PreferenceIsAntisymmetric(other, AlignmentOf(a, b).operations);
    }
  }

  lemma AlignmentScore(a: seq<Phoneme>, b: seq<Phoneme>)
    ensures 0.0 <= AlignmentOf(a, b).score <= 1.0
    ensures AlignmentOf(a, b).score == 1.0 <==> a == b
  {
    CanonicalIsOptimalTo(a, b, |a|, |b|);
    DistanceBounds(a, b, |a|, |b|);
    DistanceIsZeroOnlyWhenEqual(a, b, |a|, |b|);
    assert a[..|a|] == a && b[..|b|] == b;
    ScoreIsFraction(Distance(a, b, |a|, |b|), |a|, |b|);
  }

  lemma ScoreIsFraction(editCount: nat, n: nat, m: nat)
    requires editCount <= Max(n, m)
    ensures 0.0 <= ScoreOf(editCount, n, m) <= 1.0
    ensures ScoreOf(editCount, n, m) == 1.0 <==> editCount == 0
  {
    var normalizer := Max(n, m);
    if normalizer > 0 { FractionOfOne(normalizer - editCount, normalizer); }
  }

  lemma FractionOfOne(x: nat, y: nat)
    requires 0 < y && x <= y
    ensures 0.0 <= x as real / y as real <= 1.0
    ensures x as real / y as real == 1.0 <==> x == y
  {
    var q, r := x as real / y as real, y as real;
    assert q * r == x as real;
    assert (q - 1.0) * r == q * r - r;
    if q < 0.0 {
      PositiveProduct(-q, r);
    } else if q > 1.0 {
      PositiveProduct(q - 1.0, r);
    }
  }

  lemma PositiveProduct(p: real, q: real)
    requires p > 0.0 && q > 0.0
    ensures p * q > 0.0
  {}

  // ----- the workspace

  class AlignmentWorkspace {
    const actualCapacity: nat
    const referenceCapacity: nat
    const directions: array<nat>
    const firstRow: array<nat>
    const secondRow: array<nat>

    ghost predicate Valid() {
      && directions.Length == (actualCapacity + 1) * (referenceCapacity + 1)
      && firstRow.Length == secondRow.Length == referenceCapacity + 1
      && firstRow != secondRow && directions != firstRow && directions != secondRow
    }

    constructor (actualCapacity: nat, referenceCapacity: nat)
      ensures Valid() && fresh(this) && fresh(directions) && fresh(firstRow) && fresh(secondRow)
      ensures this.actualCapacity == actualCapacity && this.referenceCapacity == referenceCapacity
    {
      this.actualCapacity := actualCapacity;
      this.referenceCapacity := referenceCapacity;
      var cells := (actualCapacity + 1) * (referenceCapacity + 1);
      directions := new nat[cells];
      firstRow := new nat[referenceCapacity + 1];
      secondRow := new nat[referenceCapacity + 1];
    }
  }

  // ----- the flat table

  function Code(move: Move): nat {
    match move
    case MATCH => 1
    case SUBSTITUTION => 2
    case DELETION => 3
    case INSERTION => 4
  }

  /** The code expected k cells after the start of row i, in a table of rows |b| + 1 wide. */
  ghost function CodeFrom(a: seq<Phoneme>, b: seq<Phoneme>, i: nat, k: nat): nat
    decreases k
  {
    if i > |a| || i + k == 0 then 0
    else if k <= |b| then Code(Direction(a, b, i, k))
    else CodeFrom(a, b, i + 1, k - (|b| + 1))
  }

  lemma MulMono(x: nat, y: nat, z: nat)
    requires x <= y
    ensures x * z <= y * z
  {}

  lemma {:induction false} CodeFromRow(a: seq<Phoneme>, b: seq<Phoneme>, start: nat, rows: nat, j: nat)
    requires start + rows <= |a| && j <= |b| && start + rows + j > 0
    ensures CodeFrom(a, b, start, rows * (|b| + 1) + j) == Code(Direction(a, b, start + rows, j))
    decreases rows
  {
    if rows > 0 {
      OneRowDown(a, b, start, (rows - 1) * (|b| + 1) + j);
      CodeFromRow(a, b, start + 1, rows - 1, j);
      assert (rows - 1) * (|b| + 1) + j + |b| + 1 == rows * (|b| + 1) + j;
    }
  }

  lemma OneRowDown(a: seq<Phoneme>, b: seq<Phoneme>, i: nat, k: nat)
    requires i < |a|
    ensures CodeFrom(a, b, i, k + |b| + 1) == CodeFrom(a, b, i + 1, k)
  {}

  lemma CodeAtOffset(a: seq<Phoneme>, b: seq<Phoneme>, i: nat, j: nat)
    requires i <= |a| && j <= |b| && i + j > 0
    ensures 0 < i * (|b| + 1) + j < (|a| + 1) * (|b| + 1)
    ensures CodeFrom(a, b, 0, i * (|b| + 1) + j) == Code(Direction(a, b, i, j))
  {
    CodeFromRow(a, b, 0, i, j);
    RowEnds(i, |a|, |b| + 1);
    if i > 0 { MulMono(1, i, |b| + 1); }
  }

  lemma RowEnds(i: nat, n: nat, width: nat)
    requires i <= n
    ensures i * width + width == (i + 1) * width <= (n + 1) * width
  {
    MulMono(i + 1, n + 1, width);
  }

  /** Every cell in front of offset `end` holds the direction of its row and column. */
  ghost predicate Filled(directions: array<nat>, a: seq<Phoneme>, b: seq<Phoneme>, end: nat)
    requires end <= directions.Length
    reads directions
  {
    forall k :: 0 < k < end ==> directions[k] == CodeFrom(a, b, 0, k)
  }

  /** Row i of distances, as far as column `end`. */
  ghost predicate RowHolds(row: array<nat>, a: seq<Phoneme>, b: seq<Phoneme>, i: nat, end: nat)
    requires i <= |a| && end <= |b| + 1 <= row.Length
    reads row
  {
    forall j :: 0 <= j < end ==> row[j] == Distance(a, b, i, j)
  }

  method FillFirstRow(a: seq<Phoneme>, b: seq<Phoneme>, directions: array<nat>, previous: array<nat>)
    requires |b| < directions.Length && |b| < previous.Length && directions != previous
    modifies directions, previous
    ensures Filled(directions, a, b, |b| + 1) && RowHolds(previous, a, b, 0, |b| + 1)
  {
    previous[0] := 0;
    for referenceIndex := 1 to |b| + 1
      invariant Filled(directions, a, b, referenceIndex) && RowHolds(previous, a, b, 0, referenceIndex)
    {
      previous[referenceIndex] := referenceIndex;
      directions[referenceIndex] := Code(DELETION);
    }
  }

  lemma FirstColumn(a: seq<Phoneme>, b: seq<Phoneme>, i: nat)
    requires 0 < i <= |a|
    ensures Distance(a, b, i, 0) == i && Direction(a, b, i, 0) == INSERTION
  {}

  /** The cell of two equal phonemes is that of its diagonal neighbour. */
  lemma EqualPhonemes(a: seq<Phoneme>, b: seq<Phoneme>, i: nat, j: nat)
    requires 0 < i <= |a| && 0 < j <= |b| && a[i - 1] == b[j - 1]
    ensures Distance(a, b, i, j) == Distance(a, b, i - 1, j - 1) && Direction(a, b, i, j) == MATCH
  {
    EqualPhonemesTakeDiagonal(a, b, i, j);
  }

  /** What the cell of two different phonemes holds, in terms of its three neighbours. */
  lemma DifferentPhonemes(a: seq<Phoneme>, b: seq<Phoneme>, i: nat, j: nat)
    requires 0 < i <= |a| && 0 < j <= |b| && a[i - 1] != b[j - 1]
    ensures var substitution, deletion, insertion :=
              Distance(a, b, i - 1, j - 1) + 1, Distance(a, b, i, j - 1) + 1, Distance(a, b, i - 1, j) + 1;
            && Distance(a, b, i, j) == Min(substitution, Min(deletion, insertion))
            && Direction(a, b, i, j) == if substitution == Distance(a, b, i, j) then SUBSTITUTION
                                        else if deletion == Distance(a, b, i, j) then DELETION
                                        else INSERTION
  {
    hide Min;
  }

  method FillRow(a: seq<Phoneme>, b: seq<Phoneme>, actualIndex: nat,
                 directions: array<nat>, previous: array<nat>, current: array<nat>)
    returns (ghost cells: nat)
    requires 0 < actualIndex <= |a|
    requires actualIndex * (|b| + 1) + |b| < directions.Length && |b| < previous.Length == current.Length
    requires directions != previous && directions != current && previous != current
    requires Filled(directions, a, b, actualIndex * (|b| + 1)) && RowHolds(previous, a, b, actualIndex - 1, |b| + 1)
    modifies directions, current
    ensures Filled(directions, a, b, actualIndex * (|b| + 1) + |b| + 1) && RowHolds(current, a, b, actualIndex, |b| + 1)
    ensures cells == |b|
  {
    hide CodeFrom, Code, Distance, Direction;
    ghost var rowStart := actualIndex * (|b| + 1);
    var rowWidth := |b| + 1;
    cells := 0;
    current[0] := actualIndex;
    FirstColumn(a, b, actualIndex);
    CodeAtOffset(a, b, actualIndex, 0);
    directions[actualIndex * rowWidth] := Code(INSERTION);
    for referenceIndex := 1 to |b| + 1
      invariant cells == referenceIndex - 1
      invariant Filled(directions, a, b, rowStart + referenceIndex)
      invariant RowHolds(current, a, b, actualIndex, referenceIndex)
      invariant RowHolds(previous, a, b, actualIndex - 1, |b| + 1)
    {
      cells := cells + 1;
      var offset := actualIndex * rowWidth + referenceIndex;
      CodeAtOffset(a, b, actualIndex, referenceIndex);
      if a[actualIndex - 1] == b[referenceIndex - 1] {
        EqualPhonemes(a, b, actualIndex, referenceIndex);
        current[referenceIndex] := previous[referenceIndex - 1];
        directions[offset] := Code(MATCH);
      } else {
        var substitution := previous[referenceIndex - 1] + 1;
        var deletion := current[referenceIndex - 1] + 1;
        var insertion := previous[referenceIndex] + 1;
        var minimum := Min(substitution, Min(deletion, insertion));
        DifferentPhonemes(a, b, actualIndex, referenceIndex);
        current[referenceIndex] := minimum;
        directions[offset] := Code(if substitution == minimum then SUBSTITUTION
                                   else if deletion == minimum then DELETION
                                   else INSERTION);
      }
    }
  }

  function Reverse(ops: seq<Operation>): seq<Operation> {
    if ops == [] then [] else [ops[|ops| - 1]] + Reverse(ops[..|ops| - 1])
  }

  function RowBefore(move: Move, i: nat): nat requires move != DELETION ==> i > 0 { if move == DELETION then i else i - 1 }

  function ColumnBefore(move: Move, j: nat): nat requires move != INSERTION ==> j > 0 { if move == INSERTION then j else j - 1 }

  /** One step back moves the last canonical operation in front of those already collected. */
  lemma StepBack(a: seq<Phoneme>, b: seq<Phoneme>, i: nat, j: nat, reversed: seq<Operation>)
    requires i <= |a| && j <= |b| && i + j > 0
    ensures var move := Direction(a, b, i, j);
            Canonical(a, b, RowBefore(move, i), ColumnBefore(move, j)) + Reverse(reversed + [OperationFor(move, i, j)])
            == Canonical(a, b, i, j) + Reverse(reversed)
  {
    var move := Direction(a, b, i, j);
    var op := OperationFor(move, i, j);
    var front := Canonical(a, b, RowBefore(move, i), ColumnBefore(move, j));
    ReversePush(reversed, op);
    assert Canonical(a, b, i, j) == front + [op];
    Associative(front, op, Reverse(reversed));
  }

  lemma ReversePush(ops: seq<Operation>, op: Operation)
    ensures Reverse(ops + [op]) == [op] + Reverse(ops)
  {
    assert (ops + [op])[..|ops|] == ops;
  }

  lemma Associative(front: seq<Operation>, op: Operation, back: seq<Operation>)
    ensures front + ([op] + back) == front + [op] + back
  {}

  /** The place of a row and column in the flat table. */
  function Offset(i: nat, j: nat, rowWidth: nat): nat { i * rowWidth + j }

  /** The whole table holds its directions. */
  ghost predicate TableFilled(directions: array<nat>, a: seq<Phoneme>, b: seq<Phoneme>)
    reads directions
  {
    (|a| + 1) * (|b| + 1) <= directions.Length && Filled(directions, a, b, (|a| + 1) * (|b| + 1))
  }

  /** What the walk reads is the direction recorded for its row and column. */
  lemma DirectionRead(a: seq<Phoneme>, b: seq<Phoneme>, directions: array<nat>, i: nat, j: nat, offset: nat)
    requires TableFilled(directions, a, b) && i <= |a| && j <= |b| && i + j > 0 && offset == Offset(i, j, |b| + 1)
    ensures offset < directions.Length && directions[offset] == Code(Direction(a, b, i, j))
    ensures Direction(a, b, i, j) != INSERTION ==> j > 0
    ensures Direction(a, b, i, j) != DELETION ==> i > 0
  {
    CodeAtOffset(a, b, i, j);
  }

  /** Walks a filled table from the last cell back to the origin. */
  method Backtrace(a: seq<Phoneme>, b: seq<Phoneme>, directions: array<nat>) returns (operations: seq<Operation>)
    requires TableFilled(directions, a, b)
    ensures operations == Canonical(a, b, |a|, |b|)
  {
    hide Direction;
    assert Canonical(a, b, 0, 0) == [] && Canonical(a, b, |a|, |b|) + Reverse([]) == Canonical(a, b, |a|, |b|);
    hide Distance, TableFilled, Offset, Canonical, Direction, Reverse;
    var rowWidth := |b| + 1;
    var reversed: seq<Operation> := [];
    var actualIndex: nat, referenceIndex: nat := |a|, |b|;
    while actualIndex > 0 || referenceIndex > 0
      invariant actualIndex <= |a| && referenceIndex <= |b|
      invariant Canonical(a, b, actualIndex, referenceIndex) + Reverse(reversed) == Canonical(a, b, |a|, |b|)
      decreases actualIndex + referenceIndex
    {
      var offset := Offset(actualIndex, referenceIndex, rowWidth);
      DirectionRead(a, b, directions, actualIndex, referenceIndex, offset);
      StepBack(a, b, actualIndex, referenceIndex, reversed);
      var direction := directions[offset];
      if direction == Code(MATCH) {
        actualIndex, referenceIndex := actualIndex - 1, referenceIndex - 1;
        reversed := reversed + [Match(actualIndex, referenceIndex)];
      } else if direction == Code(SUBSTITUTION) {
        actualIndex, referenceIndex := actualIndex - 1, referenceIndex - 1;
        reversed := reversed + [Substitution(actualIndex, referenceIndex)];
      } else if direction == Code(DELETION) {
        referenceIndex := referenceIndex - 1;
        reversed := reversed + [Deletion(referenceIndex)];
      } else {
        actualIndex := actualIndex - 1;
        reversed := reversed + [Insertion(actualIndex)];
      }
    }
    operations := Reverse(reversed);
  }

  method CountEdits(operations: seq<Operation>) returns (editCount: nat)
    ensures editCount == Cost(operations)
  {
    editCount := 0;
    for k := 0 to |operations|
      invariant editCount == Cost(operations[..k])
    {
      assert operations[..k + 1][..k] == operations[..k];
      editCount := editCount + if operations[k].Match? then 0 else 1;
    }
    assert operations[..|operations|] == operations;
  }

  method CountLookahead(operations: seq<Operation>) returns (matchedLookaheadCount: nat)
    ensures matchedLookaheadCount == LookaheadAfterFirstEdit(operations)
  {
    var firstEdit := 0;
    while firstEdit < |operations| && operations[firstEdit].Match?
      invariant firstEdit <= |operations| && firstEdit + MatchRun(operations, firstEdit) == MatchRun(operations, 0)
    {
      firstEdit := firstEdit + 1;
    }
    matchedLookaheadCount := 0;
    if firstEdit < |operations| {
      var index := firstEdit + 1;
      while index < |operations| && operations[index].Match?
        invariant firstEdit < index <= |operations|
        invariant matchedLookaheadCount + MatchRun(operations, index) == MatchRun(operations, firstEdit + 1)
      {
        matchedLookaheadCount := matchedLookaheadCount + 1;
        index := index + 1;
      }
    }
  }

  /** Aligns in a workspace that is never cleared. Whatever the workspace held before, the
      outcome is `AlignmentOf(a, b)`; `cells` counts the table cells computed. */
  method Align(a: seq<Phoneme>, b: seq<Phoneme>, workspace: AlignmentWorkspace)
    returns (r: Result<AlignmentPath, AlignmentError>, ghost cells: nat)
    requires workspace.Valid()
    modifies workspace.directions, workspace.firstRow, workspace.secondRow
    ensures r.Err? <==> |a| > workspace.actualCapacity || |b| > workspace.referenceCapacity
    ensures r.Ok? ==> r.value == AlignmentOf(a, b) && cells == |a| * |b|
  {
    cells := 0;
    if |a| > workspace.actualCapacity || |b| > workspace.referenceCapacity {
      return Err(CapacityExceeded), 0;
    }
    TableFits(|a|, |b|, workspace.actualCapacity, workspace.referenceCapacity);
    var directions := workspace.directions;
    var previous, current := workspace.firstRow, workspace.secondRow;
    RowEnds(0, |a|, |b| + 1);
    FillFirstRow(a, b, directions, previous);
    for actualIndex := 1 to |a| + 1
      invariant {previous, current} == {workspace.firstRow, workspace.secondRow} && previous != current
      invariant actualIndex * (|b| + 1) <= directions.Length && Filled(directions, a, b, actualIndex * (|b| + 1))
      invariant RowHolds(previous, a, b, actualIndex - 1, |b| + 1)
      invariant cells == (actualIndex - 1) * |b|
    {
      RowEnds(actualIndex, |a|, |b| + 1);
      ghost var rowCells := FillRow(a, b, actualIndex, directions, previous, current);
      cells := cells + rowCells;
      previous, current := current, previous;
    }
    var operations := Backtrace(a, b, directions);
    var editCount := CountEdits(operations);
    CanonicalIsOptimalTo(a, b, |a|, |b|);
    var matchedLookaheadCount := CountLookahead(operations);
    r := Ok(AlignmentPath(ScoreOf(editCount, |a|, |b|), editCount, matchedLookaheadCount, operations));
  }

  lemma TableFits(n: nat, m: nat, actualCapacity: nat, referenceCapacity: nat)
    requires n <= actualCapacity && m <= referenceCapacity
    ensures (n + 1) * (m + 1) <= (actualCapacity + 1) * (referenceCapacity + 1)
  {
    MulMono(n + 1, actualCapacity + 1, m + 1);
    assert (actualCapacity + 1) * (m + 1) <= (actualCapacity + 1) * (referenceCapacity + 1) by {
      MulMono(m + 1, referenceCapacity + 1, actualCapacity + 1);
    }
  }
}
