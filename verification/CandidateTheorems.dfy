/** What every evaluated candidate is: an alignment of the whole observation with a stretch of the corpus. */
module CandidateTheorems {
  import opened Alignments
  import opened EditScript
  import opened Corpus
  import opened IndexCorpus
  import opened Locate
  import opened TrackerModel
  import EditPath

  lemma {:induction false} ChosenSpanLength(symbols: seq<Symbol>, actual: seq<Phoneme>, p: nat, from: nat, count: nat) returns (m: nat)
    requires 0 < count && p + from + count - 1 <= |symbols|
    ensures from <= m < from + count && RunningChoice(symbols, actual, p, from, count).alignment == SpanAlignment(symbols, actual, p, m)
    decreases count
  {
    m := from + count - 1;
    if count > 1 {
      var before := ChosenSpanLength(symbols, actual, p, from, count - 1);
      if RunningChoice(symbols, actual, p, from, count).alignment != SpanAlignment(symbols, actual, p, m) { m := before; }
    }
  }

  lemma SpanIsComplete(symbols: seq<Symbol>, actual: seq<Phoneme>, p: nat, m: nat)
    requires p + m <= |symbols|
    ensures CompleteScript(SpanAlignment(symbols, actual, p, m).operations, actual, PhonemesAt(symbols, p, m))
  {
    EditPath.AlignmentIsMinimalScript(actual, PhonemesAt(symbols, p, m), []);
  }

  lemma AlignedBySpan(symbols: seq<Symbol>, actual: seq<Phoneme>, committedSymbol: nat, c: AlignmentCandidate, m: nat)
    requires 0 < m && c.symbolIndex + m <= |symbols| && (c.isReread <==> c.symbolIndex < committedSymbol)
    requires c.alignment == SpanAlignment(symbols, actual, c.symbolIndex, m)
    ensures Aligned(symbols, actual, committedSymbol, c, m)
  {
    SpanIsComplete(symbols, actual, c.symbolIndex, m);
  }

  /** Every candidate the locator evaluates is aligned. */
  lemma CandidateIsAligned(symbols: seq<Symbol>, actual: seq<Phoneme>, cursorSymbol: int, committedSymbol: nat, p: nat) returns (m: nat)
    requires actual != [] && p < |symbols|
    ensures Aligned(symbols, actual, committedSymbol, CandidateAt(symbols, actual, cursorSymbol, committedSymbol, p), m)
  {
    hide Aligned, RunningChoice, SpanAlignment, Continuity;
    var from, upTo := ShortestSpan(|symbols| - p, |actual|), LongestSpan(|symbols| - p, |actual|);
    m := ChosenSpanLength(symbols, actual, p, from, upTo - from + 1);
    AlignedBySpan(symbols, actual, committedSymbol, CandidateAt(symbols, actual, cursorSymbol, committedSymbol, p), m);
  }

  lemma CandidateScore(symbols: seq<Symbol>, actual: seq<Phoneme>, cursorSymbol: int, committedSymbol: nat, p: nat)
    requires actual != [] && p < |symbols|
    ensures 0.0 <= CandidateAt(symbols, actual, cursorSymbol, committedSymbol, p).score <= 1.0
  {
    hide RunningChoice, Continuity, MarginOf;
    var from, upTo := ShortestSpan(|symbols| - p, |actual|), LongestSpan(|symbols| - p, |actual|);
    var m := ChosenSpanLength(symbols, actual, p, from, upTo - from + 1);
    EditPath.AlignmentScore(actual, PhonemesAt(symbols, p, m));
  }
}
