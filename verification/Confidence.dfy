/** Confidence scoring over exact reals, and the four decision gates. */
module Confidence {
  import opened Wrappers

  datatype ConfidenceInput = ConfidenceInput(
    alignment: real,
    stability: real,
    matchedLookaheadCount: nat,
    margin: real,
    actualPhonemeCount: nat,
    acousticConfidences: seq<Option<real>>)

  datatype ConfidenceEvidence = ConfidenceEvidence(
    alignment: real,
    stability: real,
    lookahead: real,
    matchedLookaheadCount: nat,
    margin: real,
    acoustic: Option<real>,
    combined: real)

  function ClampUnit(x: real): real { if x < 0.0 then 0.0 else if x > 1.0 then 1.0 else x }

  function Lookahead(matchedLookaheadCount: nat): real {
    if matchedLookaheadCount >= 2 then 1.0 else matchedLookaheadCount as real / 2.0
  }

  // ----- acoustic confidence

  predicate Usable(v: Option<real>) { v.Some? && 0.0 <= v.value <= 1.0 }

  function UsableSum(values: seq<Option<real>>): real {
    if values == [] then 0.0
    else UsableSum(values[..|values| - 1]) + if Usable(values[|values| - 1]) then values[|values| - 1].value else 0.0
  }

  function UsableCount(values: seq<Option<real>>): nat {
    if values == [] then 0 else UsableCount(values[..|values| - 1]) + if Usable(values[|values| - 1]) then 1 else 0
  }

  lemma {:induction false} UsableSumBounds(values: seq<Option<real>>)
    ensures 0.0 <= UsableSum(values) <= UsableCount(values) as real
    decreases |values|
  {
    if values != [] { UsableSumBounds(values[..|values| - 1]); }
  }

  function Mean(sum: real, count: nat): Option<real> { if count == 0 then None else Some(sum / count as real) }

  lemma MeanInUnit(sum: real, count: nat)
    requires 0.0 <= sum <= count as real && count > 0
    ensures 0.0 <= sum / count as real <= 1.0
  {
    var q, c := sum / count as real, count as real;
    assert q * c == sum;
    assert (q - 1.0) * c == q * c - c;
    if q < 0.0 { NegativeProduct(q, c); } else if q > 1.0 { NegativeProduct(1.0 - q, c); }
  }

  lemma NegativeProduct(x: real, y: real)
    requires x < 0.0 && y > 0.0
    ensures x * y < 0.0
  {}

  /** The mean of the usable per-phoneme confidences, when there is exactly one per phoneme. */
  function AcousticConfidence(input: ConfidenceInput): Option<real> {
    if input.actualPhonemeCount == 0 || |input.acousticConfidences| != input.actualPhonemeCount then None
    else Mean(UsableSum(input.acousticConfidences), UsableCount(input.acousticConfidences))
  }

  lemma AcousticInUnit(input: ConfidenceInput)
    ensures AcousticConfidence(input).Some? ==> 0.0 <= AcousticConfidence(input).value <= 1.0
  {
    UsableSumBounds(input.acousticConfidences);
    var count := UsableCount(input.acousticConfidences);
    if count > 0 { MeanInUnit(UsableSum(input.acousticConfidences), count); }
  }

  method AlignedAcousticConfidence(input: ConfidenceInput) returns (acoustic: Option<real>)
    ensures acoustic == AcousticConfidence(input)
  {
    var values := input.acousticConfidences;
    if input.actualPhonemeCount == 0 || |values| != input.actualPhonemeCount { return None; }
    var total, count := 0.0, 0;
    for k := 0 to |values|
      invariant total == UsableSum(values[..k]) && count == UsableCount(values[..k])
    {
      assert values[..k + 1][..k] == values[..k];
      if Usable(values[k]) {
        total := total + values[k].value;
        count := count + 1;
      }
    }
    assert values[..|values|] == values;
    return Mean(total, count);
  }

  // ----- the score

  function Combined(alignment: real, stability: real, lookahead: real, margin: real, acoustic: Option<real>): real {
    match acoustic
    case None => alignment * 0.4 + stability * 0.25 + lookahead * 0.2 + margin * 0.15
    case Some(a) => alignment * 0.34 + stability * 0.2125 + lookahead * 0.17 + margin * 0.1275 + a * 0.15
  }

  function Evidence(input: ConfidenceInput, acoustic: Option<real>): ConfidenceEvidence {
    var alignment, stability, margin := ClampUnit(input.alignment), ClampUnit(input.stability), ClampUnit(input.margin);
    var lookahead := Lookahead(input.matchedLookaheadCount);
    ConfidenceEvidence(alignment, stability, lookahead, input.matchedLookaheadCount, margin, acoustic,
                       Combined(alignment, stability, lookahead, margin, acoustic))
  }

  function ScoreOf(input: ConfidenceInput): ConfidenceEvidence { Evidence(input, AcousticConfidence(input)) }

  /** Every component and the combined score lie in the unit interval. */
  lemma ScoreInUnit(input: ConfidenceInput)
    ensures var e := ScoreOf(input);
            && 0.0 <= e.alignment <= 1.0 && 0.0 <= e.stability <= 1.0 && 0.0 <= e.lookahead <= 1.0 && 0.0 <= e.margin <= 1.0
            && (e.acoustic.Some? ==> 0.0 <= e.acoustic.value <= 1.0)
            && 0.0 <= e.combined <= 1.0
  {
    AcousticInUnit(input);
  }

  method ScoreConfidence(input: ConfidenceInput) returns (e: ConfidenceEvidence)
    ensures e == ScoreOf(input)
  {
    var acoustic := AlignedAcousticConfidence(input);
    e := Evidence(input, acoustic);
  }

  // ----- the gates

  predicate PassesPositionGate(e: ConfidenceEvidence) { e.alignment >= 0.72 && e.margin >= 0.08 }

  predicate PassesImmediateFindingGate(e: ConfidenceEvidence) {
    e.combined >= 0.9 && e.margin >= 0.15 && e.matchedLookaheadCount >= 2
  }

  predicate PassesFinalFindingGate(e: ConfidenceEvidence) { e.combined >= 0.82 && e.margin >= 0.1 }

  predicate PassesSoftFindingGate(e: ConfidenceEvidence, confirmations: nat, contextPhonemeCount: nat) {
    e.combined >= 0.88 && confirmations >= 2 && 2 <= contextPhonemeCount <= 3
  }
}
