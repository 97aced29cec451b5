/**
 Edit distance and edit scripts over phoneme sequences.

 The definitions here are the reference the alignment algorithm is measured against:
 the textbook recurrence for the distance, what it means for a list of operations to be
 a complete edit script, and which optimal script the algorithm is to return.
 */
module EditScript {
  type Phoneme = string

  datatype Operation =
    | Match(actualIndex: nat, referenceIndex: nat)
    | Substitution(actualIndex: nat, referenceIndex: nat)
    | Deletion(referenceIndex: nat)
    | Insertion(actualIndex: nat)
  {
    /** Matches and substitutions pair a spoken phoneme with a reference phoneme. */
    predicate IsPair() { Match? || Substitution? }

    predicate HasReference() { !Insertion? }
  }

  // ----- the distance

  function Min(x: nat, y: nat): nat { if x <= y then x else y }

  function Max(x: nat, y: nat): nat { if x >= y then x else y }

  /** The textbook edit distance between the first i and the first j phonemes: all three
      moves are always considered, also when the last phonemes agree. */
  function Distance(a: seq<Phoneme>, b: seq<Phoneme>, i: nat, j: nat): nat
    requires i <= |a| && j <= |b|
    decreases i + j
  {
    if i == 0 then j
    else if j == 0 then i
    else
      var diagonal := Distance(a, b, i - 1, j - 1) + if a[i - 1] == b[j - 1] then 0 else 1;
      Min(diagonal, Min(Distance(a, b, i, j - 1) + 1, Distance(a, b, i - 1, j) + 1))
  }

  /** Neighbouring cells differ by at most one. */
  lemma {:induction false} Neighbours(a: seq<Phoneme>, b: seq<Phoneme>, i: nat, j: nat)
    requires i <= |a| && j <= |b|
    ensures i > 0 ==> Distance(a, b, i, j) <= Distance(a, b, i - 1, j) + 1 <= Distance(a, b, i, j) + 2
    ensures j > 0 ==> Distance(a, b, i, j) <= Distance(a, b, i, j - 1) + 1 <= Distance(a, b, i, j) + 2
    decreases i + j
  {
    if i > 0 && j > 0 {
      Neighbours(a, b, i - 1, j);
      Neighbours(a, b, i, j - 1);
    }
  }

  /** A diagonal step never decreases the distance and adds at most one. */
  lemma DiagonalNeighbours(a: seq<Phoneme>, b: seq<Phoneme>, i: nat, j: nat)
    requires 0 < i <= |a| && 0 < j <= |b|
    ensures Distance(a, b, i - 1, j - 1) <= Distance(a, b, i, j) <= Distance(a, b, i - 1, j - 1) + 1
  {
    Neighbours(a, b, i - 1, j);
    Neighbours(a, b, i, j - 1);
  }

  /** Taking the diagonal unconditionally on equal phonemes loses nothing. */
  lemma EqualPhonemesTakeDiagonal(a: seq<Phoneme>, b: seq<Phoneme>, i: nat, j: nat)
    requires 0 < i <= |a| && 0 < j <= |b| && a[i - 1] == b[j - 1]
    ensures Distance(a, b, i, j) == Distance(a, b, i - 1, j - 1)
  {
    DiagonalNeighbours(a, b, i, j);
  }

  lemma CellValue(a: seq<Phoneme>, b: seq<Phoneme>, i: nat, j: nat)
    requires i <= |a| && j <= |b|
    ensures i == 0 || j == 0 ==> Distance(a, b, i, j) == i + j
    ensures i > 0 && j > 0 ==> Distance(a, b, i, j) == Min(Distance(a, b, i - 1, j - 1) + if a[i - 1] == b[j - 1] then 0 else 1,
                                                           Min(Distance(a, b, i, j - 1) + 1, Distance(a, b, i - 1, j) + 1))
  {}

  lemma {:induction false} DistanceBounds(a: seq<Phoneme>, b: seq<Phoneme>, i: nat, j: nat)
    requires i <= |a| && j <= |b|
    ensures Distance(a, b, i, j) <= Max(i, j)
    ensures i <= Distance(a, b, i, j) + j && j <= Distance(a, b, i, j) + i
    decreases i + j
  {
    hide Distance;
    CellValue(a, b, i, j);
    if i > 0 && j > 0 {
      DistanceBounds(a, b, i - 1, j - 1);
      DistanceBounds(a, b, i, j - 1);
      DistanceBounds(a, b, i - 1, j);
    }
  }

  lemma {:induction false} DistanceIsZeroOnlyWhenEqual(a: seq<Phoneme>, b: seq<Phoneme>, i: nat, j: nat)
    requires i <= |a| && j <= |b|
    ensures Distance(a, b, i, j) == 0 <==> a[..i] == b[..j]
    decreases i + j
  {
    if i > 0 && j > 0 {
      DistanceIsZeroOnlyWhenEqual(a, b, i - 1, j - 1);
      assert a[..i] == a[..i - 1] + [a[i - 1]] && b[..j] == b[..j - 1] + [b[j - 1]];
      assert a[..i] == b[..j] <==> a[i - 1] == b[j - 1] && a[..i - 1] == b[..j - 1];
    }
  }

  // ----- edit scripts

  function Cost(ops: seq<Operation>): nat {
    if ops == [] then 0 else Cost(ops[..|ops| - 1]) + if ops[|ops| - 1].Match? then 0 else 1
  }

  function ActualIndices(ops: seq<Operation>): seq<nat> {
    if ops == [] then []
    else
      var last := ops[|ops| - 1];
      ActualIndices(ops[..|ops| - 1]) + if last.Deletion? then [] else [last.actualIndex]
  }

  function ReferenceIndices(ops: seq<Operation>): seq<nat> {
    if ops == [] then []
    else
      var last := ops[|ops| - 1];
      ReferenceIndices(ops[..|ops| - 1]) + if last.Insertion? then [] else [last.referenceIndex]
  }

  function UpTo(n: nat): seq<nat> { seq(n, k => k) }

  predicate PairsAgree(ops: seq<Operation>, a: seq<Phoneme>, b: seq<Phoneme>) {
    forall k | 0 <= k < |ops| && ops[k].IsPair() ::
      && ops[k].actualIndex < |a| && ops[k].referenceIndex < |b|
      && (ops[k].Match? <==> a[ops[k].actualIndex] == b[ops[k].referenceIndex])
  }

  /** A complete edit script turns all of a into all of b: every index of either sequence
      occurs once and in order, matches pair equal phonemes and substitutions unequal ones. */
  ghost predicate CompleteScript(ops: seq<Operation>, a: seq<Phoneme>, b: seq<Phoneme>) {
    && ActualIndices(ops) == UpTo(|a|)
    && ReferenceIndices(ops) == UpTo(|b|)
    && PairsAgree(ops, a, b)
  }

  /** The same notion, read off from the end one operation at a time. */
  ghost predicate ScriptTo(ops: seq<Operation>, a: seq<Phoneme>, b: seq<Phoneme>, i: nat, j: nat)
    requires i <= |a| && j <= |b|
  {
    if ops == [] then i == 0 && j == 0
    else
      var last, rest := ops[|ops| - 1], ops[..|ops| - 1];
      match last
      case Match(x, y) =>
        i > 0 && j > 0 && x == i - 1 && y == j - 1 && a[x] == b[y] && ScriptTo(rest, a, b, i - 1, j - 1)
      case Substitution(x, y) =>
        i > 0 && j > 0 && x == i - 1 && y == j - 1 && a[x] != b[y] && ScriptTo(rest, a, b, i - 1, j - 1)
      case Deletion(y) => j > 0 && y == j - 1 && ScriptTo(rest, a, b, i, j - 1)
      case Insertion(x) => i > 0 && x == i - 1 && ScriptTo(rest, a, b, i - 1, j)
  }

  lemma UpToStep(s: seq<nat>, x: nat, n: nat)
    ensures s + [x] == UpTo(n) <==> n > 0 && x == n - 1 && s == UpTo(n - 1)
  {
    if n > 0 { assert UpTo(n) == UpTo(n - 1) + [n - 1]; }
    if s + [x] == UpTo(n) {
      assert |s + [x]| == n;
      assert s == (s + [x])[..|s|] && x == (s + [x])[|s|];
    }
  }

  lemma PairsAgreeSplits(rest: seq<Operation>, last: Operation, a: seq<Phoneme>, b: seq<Phoneme>)
    ensures PairsAgree(rest + [last], a, b) <==> PairsAgree(rest, a, b) && PairsAgree([last], a, b)
  {
    var ops := rest + [last];
    assert forall k | 0 <= k < |rest| :: rest[k] == ops[k];
    assert [last][0] == last == ops[|rest|];
  }

  /** Reading from the end and the declarative definition agree. */
  lemma {:induction false} ScriptToIsComplete(ops: seq<Operation>, a: seq<Phoneme>, b: seq<Phoneme>, i: nat, j: nat)
    requires i <= |a| && j <= |b|
    ensures ScriptTo(ops, a, b, i, j) <==>
            ActualIndices(ops) == UpTo(i) && ReferenceIndices(ops) == UpTo(j) && PairsAgree(ops, a, b)
    decreases |ops|
  {
    if ops != [] {
      var last, rest := ops[|ops| - 1], ops[..|ops| - 1];
      assert ops == rest + [last];
      PairsAgreeSplits(rest, last, a, b);
      assert [last][0] == last;
      if !last.Deletion? { UpToStep(ActualIndices(rest), last.actualIndex, i); }
      if !last.Insertion? { UpToStep(ReferenceIndices(rest), last.referenceIndex, j); }
      if (last.Deletion? || i > 0) && (last.Insertion? || j > 0) {
        var i', j' := if last.Deletion? then i else i - 1, if last.Insertion? then j else j - 1;
        ScriptToIsComplete(rest, a, b, i', j');
      }
    }
  }

  /** No script is cheaper than the distance. */
  lemma {:induction false} ScriptCostsAtLeastDistance(ops: seq<Operation>, a: seq<Phoneme>, b: seq<Phoneme>, i: nat, j: nat)
    requires i <= |a| && j <= |b| && ScriptTo(ops, a, b, i, j)
    ensures Distance(a, b, i, j) <= Cost(ops)
    decreases |ops|
  {
    if ops != [] {
      var last, rest := ops[|ops| - 1], ops[..|ops| - 1];
      ScriptCostsAtLeastDistance(rest, a, b, if last.Deletion? then i else i - 1, if last.Insertion? then j else j - 1);
      Neighbours(a, b, i, j);
    }
  }

  // ----- the script the algorithm returns

  datatype Move = MATCH | SUBSTITUTION | DELETION | INSERTION

  /** The move recorded for a cell other than (0, 0). */
  function Direction(a: seq<Phoneme>, b: seq<Phoneme>, i: nat, j: nat): Move
    requires i <= |a| && j <= |b| && i + j > 0
  {
    if i == 0 then DELETION
    else if j == 0 then INSERTION
    else if a[i - 1] == b[j - 1] then MATCH
    else if Distance(a, b, i - 1, j - 1) + 1 == Distance(a, b, i, j) then SUBSTITUTION
    else if Distance(a, b, i, j - 1) + 1 == Distance(a, b, i, j) then DELETION
    else INSERTION
  }

  function OperationFor(move: Move, i: nat, j: nat): Operation
    requires (move != DELETION ==> i > 0) && (move != INSERTION ==> j > 0)
  {
    match move
    case MATCH => Match(i - 1, j - 1)
    case SUBSTITUTION => Substitution(i - 1, j - 1)
    case DELETION => Deletion(j - 1)
    case INSERTION => Insertion(i - 1)
  }

  function Canonical(a: seq<Phoneme>, b: seq<Phoneme>, i: nat, j: nat): seq<Operation>
    requires i <= |a| && j <= |b|
    decreases i + j
  {
    if i + j == 0 then []
    else
      var move := Direction(a, b, i, j);
      var i', j' := if move == DELETION then i else i - 1, if move == INSERTION then j else j - 1;
      Canonical(a, b, i', j') + [OperationFor(move, i, j)]
  }

  lemma {:induction false} CanonicalIsOptimalTo(a: seq<Phoneme>, b: seq<Phoneme>, i: nat, j: nat)
    requires i <= |a| && j <= |b|
    ensures ScriptTo(Canonical(a, b, i, j), a, b, i, j)
    ensures Cost(Canonical(a, b, i, j)) == Distance(a, b, i, j)
    decreases i + j
  {
    if i + j > 0 {
      var path := Canonical(a, b, i, j);
      var move := Direction(a, b, i, j);
      var i', j' := if move == DELETION then i else i - 1, if move == INSERTION then j else j - 1;
      CanonicalIsOptimalTo(a, b, i', j');
      assert path[..|path| - 1] == Canonical(a, b, i', j');
      assert path[|path| - 1] == OperationFor(move, i, j);
      if move == MATCH { EqualPhonemesTakeDiagonal(a, b, i, j); }
    }
  }

  /** Order of preference between operations. */
  function Rank(op: Operation): nat {
    match op
    case Match(_, _) => 0
    case Substitution(_, _) => 1
    case Deletion(_) => 2
    case Insertion(_) => 3
  }

  /** p is preferred to q when, read from the end, the first operations in which they differ
      favour p. */
  ghost predicate PreferredFromEnd(p: seq<Operation>, q: seq<Operation>) {
    if p == [] || q == [] then p == q
    else
      var x, y := p[|p| - 1], q[|q| - 1];
      Rank(x) < Rank(y) || (x == y && PreferredFromEnd(p[..|p| - 1], q[..|q| - 1]))
  }

  /** Among all optimal scripts the canonical one is the most preferred. */
  lemma {:induction false} CanonicalIsPreferredTo(ops: seq<Operation>, a: seq<Phoneme>, b: seq<Phoneme>, i: nat, j: nat)
    requires i <= |a| && j <= |b| && ScriptTo(ops, a, b, i, j) && Cost(ops) == Distance(a, b, i, j)
    ensures PreferredFromEnd(Canonical(a, b, i, j), ops)
    decreases |ops|
  {
    if ops != [] {
      var path := Canonical(a, b, i, j);
      var last, rest := ops[|ops| - 1], ops[..|ops| - 1];
      if i > 0 && j > 0 { DiagonalNeighbours(a, b, i, j); }
      var i', j' := if last.Deletion? then i else i - 1, if last.Insertion? then j else j - 1;
      ScriptCostsAtLeastDistance(rest, a, b, i', j');
      assert Cost(rest) == Distance(a, b, i', j');
      CanonicalIsPreferredTo(rest, a, b, i', j');
      if path[|path| - 1] == last {
        assert path[..|path| - 1] == Canonical(a, b, i', j');
      }
    }
  }

  /** Two scripts each preferred to the other are the same script. */
  lemma {:induction false} PreferenceIsAntisymmetric(p: seq<Operation>, q: seq<Operation>)
    requires PreferredFromEnd(p, q) && PreferredFromEnd(q, p)
    ensures p == q
    decreases |p|
  {
    if p != [] && q != [] {
      PreferenceIsAntisymmetric(p[..|p| - 1], q[..|q| - 1]);
      assert p == p[..|p| - 1] + [p[|p| - 1]] && q == q[..|q| - 1] + [q[|q| - 1]];
    }
  }
}
