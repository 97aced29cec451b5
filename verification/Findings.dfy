/** Substitution findings, each built from one operation of the selected alignment. */
module Findings {
  import opened Wrappers
  import opened EditScript
  import opened Alignments
  import opened Corpus
  import Confidence

  type Evidence = Confidence.ConfidenceEvidence

  /** A substitution together with the confidence adjusted to its own lookahead. */
  datatype SubstitutionEvidence = SubstitutionEvidence(operation: Operation, confidence: Evidence)

  datatype Confirmation = Immediate | Final | Soft

  datatype Finding = Finding(
    confirmation: Confirmation,
    observationId: string,
    operation: Operation,
    actualPhoneme: Phoneme,
    referencePhoneme: Phoneme,
    referenceSymbolId: string,
    location: Location,
    confidence: Evidence,
    confirmations: nat)

  // ----- selecting the substitution

  /** The position of the first substitution from k on; past the end when there is none. */
  function SubstitutionFrom(ops: seq<Operation>, k: nat): nat
    requires k <= |ops|
    decreases |ops| - k
  {
    if k == |ops| || ops[k].Substitution? then k else SubstitutionFrom(ops, k + 1)
  }

  lemma {:induction false} SubstitutionFromIsFirst(ops: seq<Operation>, k: nat)
    requires k <= |ops|
    ensures k <= SubstitutionFrom(ops, k) <= |ops|
    ensures SubstitutionFrom(ops, k) < |ops| ==> ops[SubstitutionFrom(ops, k)].Substitution?
    ensures forall i | k <= i < SubstitutionFrom(ops, k) :: !ops[i].Substitution?
    decreases |ops| - k
  {
    if k < |ops| && !ops[k].Substitution? { SubstitutionFromIsFirst(ops, k + 1); }
  }

  /** The confidence with the lookahead replaced by the substitution's own. */
  function WithLookahead(e: Evidence, matchedLookaheadCount: nat): Evidence {
    var lookahead := Confidence.Lookahead(matchedLookaheadCount);
    e.(lookahead := lookahead,
       matchedLookaheadCount := matchedLookaheadCount,
       combined := e.combined + (lookahead - e.lookahead) * if e.acoustic.None? then 0.2 else 0.17)
  }

  /** Adjusting the combined score equals scoring afresh with the substitution's own lookahead. */
  lemma AdjustedIsRescored(input: Confidence.ConfidenceInput, matchedLookaheadCount: nat)
    ensures WithLookahead(Confidence.ScoreOf(input), matchedLookaheadCount)
         == Confidence.ScoreOf(input.(matchedLookaheadCount := matchedLookaheadCount))
  {
    var e := Confidence.ScoreOf(input);
    var l := Confidence.Lookahead(matchedLookaheadCount);
    assert Confidence.AcousticConfidence(input.(matchedLookaheadCount := matchedLookaheadCount)) == Confidence.AcousticConfidence(input);
  }

  function EvidenceOf(c: AlignmentCandidate, confidence: Evidence): Option<SubstitutionEvidence> {
    var ops := c.alignment.operations;
    var k := SubstitutionFrom(ops, 0);
    SubstitutionFromIsFirst(ops, 0);
    if c.isReread || k == |ops| then None
    else Some(SubstitutionEvidence(ops[k], WithLookahead(confidence, MatchRun(ops, k + 1))))
  }

  method SubstitutionOperation(ops: seq<Operation>) returns (k: nat)
    ensures k == SubstitutionFrom(ops, 0)
  {
    k := 0;
    while k < |ops| && !ops[k].Substitution?
      invariant k <= |ops| && SubstitutionFrom(ops, k) == SubstitutionFrom(ops, 0)
    {
      k := k + 1;
    }
  }

  method SubstitutionLookaheadCount(ops: seq<Operation>, k: nat) returns (matches: nat)
    requires k < |ops|
    ensures matches == MatchRun(ops, k + 1)
  {
    matches := 0;
    var index := k + 1;
    while index < |ops| && ops[index].Match?
      invariant k < index <= |ops| && matches + MatchRun(ops, index) == MatchRun(ops, k + 1)
    {
      matches, index := matches + 1, index + 1;
    }
  }

  method DeriveSubstitutionEvidence(c: AlignmentCandidate, confidence: Evidence) returns (r: Option<SubstitutionEvidence>)
    ensures r == EvidenceOf(c, confidence)
  {
    if c.isReread { return None; }
    var k := SubstitutionOperation(c.alignment.operations);
    SubstitutionFromIsFirst(c.alignment.operations, 0);
    if k == |c.alignment.operations| { return None; }
    var matchedLookaheadCount := SubstitutionLookaheadCount(c.alignment.operations, k);
    return Some(SubstitutionEvidence(c.alignment.operations[k], WithLookahead(confidence, matchedLookaheadCount)));
  }

  // ----- the number of matches around a substitution

  /** The number of consecutive matches that end right before position k. */
  function MatchRunBefore(ops: seq<Operation>, k: nat): nat
    requires k <= |ops|
  {
    if k > 0 && ops[k - 1].Match? then 1 + MatchRunBefore(ops, k - 1) else 0
  }

  /** The position of the first operation from k on that equals op; past the end when there is none. */
  function FindFrom(ops: seq<Operation>, op: Operation, k: nat): nat
    requires k <= |ops|
    decreases |ops| - k
  {
    if k == |ops| || ops[k] == op then k else FindFrom(ops, op, k + 1)
  }

  lemma {:induction false} FindFromInRange(ops: seq<Operation>, op: Operation, k: nat)
    requires k <= |ops|
    ensures k <= FindFrom(ops, op, k) <= |ops|
    decreases |ops| - k
  {
    if k < |ops| && ops[k] != op { FindFromInRange(ops, op, k + 1); }
  }

  /** The matches adjacent to the substitution; four stands for four or more. */
  function ContextOf(ops: seq<Operation>, substitution: Operation): nat {
    var k := FindFrom(ops, substitution, 0);
    FindFromInRange(ops, substitution, 0);
    if k == |ops| then 0 else Min(4, MatchRunBefore(ops, k) + MatchRun(ops, k + 1))
  }

  method CountFindingContextPhonemes(ops: seq<Operation>, substitution: Operation) returns (matches: nat)
    ensures matches == ContextOf(ops, substitution)
  {
    matches := 0;
    var k := FindFrom(ops, substitution, 0);
    FindFromInRange(ops, substitution, 0);
    if k == |ops| { return; }
    var index: nat := k;
    while index > 0 && ops[index - 1].Match?
      invariant index <= k && matches < 4 && matches + MatchRunBefore(ops, index) == MatchRunBefore(ops, k)
    {
      matches, index := matches + 1, index - 1;
      if matches == 4 { return; }
    }
    ghost var before := matches;
    index := k + 1;
    while index < |ops| && ops[index].Match?
      invariant k < index <= |ops| && matches < 4
      invariant matches + MatchRun(ops, index) == before + MatchRun(ops, k + 1)
    {
      matches, index := matches + 1, index + 1;
      if matches == 4 { return; }
    }
  }

  // ----- classification

  function ConfirmationMode(isFinal: bool, e: Evidence, confirmations: nat, contextPhonemeCount: nat): Option<Confirmation> {
    if !Confidence.PassesPositionGate(e) then None
    else if Confidence.PassesImmediateFindingGate(e) then Some(Immediate)
    else if isFinal && Confidence.PassesFinalFindingGate(e) then Some(Final)
    else if Confidence.PassesSoftFindingGate(e, confirmations, contextPhonemeCount) then Some(Soft)
    else None
  }

  function ClassifyFinding(symbols: seq<Symbol>, c: AlignmentCandidate, observationId: string, isFinal: bool,
                           actual: seq<Phoneme>, confirmations: nat, contextPhonemeCount: nat,
                           evidence: Option<SubstitutionEvidence>): Option<Finding>
  {
    var k := SubstitutionFrom(c.alignment.operations, 0);
    SubstitutionFromIsFirst(c.alignment.operations, 0);
    if c.isReread || k == |c.alignment.operations| || evidence.None? || evidence.value.operation != c.alignment.operations[k] then None
    else
      var op, e := evidence.value.operation, evidence.value.confidence;
      var mode := ConfirmationMode(isFinal, e, confirmations, contextPhonemeCount);
      var p := c.symbolIndex + op.referenceIndex;
      if mode.None? || op.actualIndex >= |actual| || p >= |symbols| then None
      else Some(Finding(mode.value, observationId, op, actual[op.actualIndex], symbols[p].phoneme, symbols[p].id,
                        symbols[p].location, e, if mode.value.Soft? then confirmations else 1))
  }
}
