/** Where the observations of a tracker are located: from its own corpus, cursor and commit point. */
module LocatedObservations {
  import opened Wrappers
  import opened Sequences
  import opened EditScript
  import opened Alignments
  import opened Corpus
  import opened IndexCorpus
  import opened Observations
  import opened LocalCandidates
  import opened GlobalSearch
  import opened Candidates
  import opened Sorting
  import opened Locate
  import opened CandidateTheorems
  import opened TrackerModel

  /** The tracker's observation was located by the aligner from the given cursor and commit point. */
  ghost predicate LocatedFrom(index: IndexedCorpus, o: Observation, cursorSymbol: nat, committedSymbol: nat, located: Located)
    requires index.symbols != []
    requires forall p | 0 <= p < |index.symbols| :: AyahOf(index.symbols[p]) in index.ayahSymbolRanges
  {
    if PhonemesOf(o.tokens) == [] then located == Located(None, None)
    else exists positions, cs ::
      LocatedAmong(index, PhonemesOf(o.tokens), Clamp(cursorSymbol, |index.symbols|), committedSymbol, positions, cs, located)
  }

  lemma LocatedIsGood(index: IndexedCorpus, o: Observation, cursorSymbol: nat, committedSymbol: nat, located: Located)
    requires index.symbols != []
    requires forall p | 0 <= p < |index.symbols| :: AyahOf(index.symbols[p]) in index.ayahSymbolRanges
    requires LocatedFrom(index, o, cursorSymbol, committedSymbol, located)
    ensures GoodLocated(index.symbols, o, committedSymbol, located)
  {
    if located.best.Some? {
      var actual := PhonemesOf(o.tokens);
      var positions, cs :| LocatedAmong(index, actual, Clamp(cursorSymbol, |index.symbols|), committedSymbol, positions, cs, located);
      var i :| 0 <= i < |cs| && cs[i] == located.best.value;
      var m := CandidateIsAligned(index.symbols, actual, Clamp(cursorSymbol, |index.symbols|), committedSymbol, positions[i]);
    }
  }

  // ----- one location for every observation

  predicate Within(s: seq<nat>, t: seq<nat>) { forall x <- s :: x in t }

  lemma NoneWithout(s: seq<nat>, t: seq<nat>)
    requires Within(s, t)
    ensures s != [] ==> t != []
  {
    if s != [] { assert s[0] in t; }
  }

  lemma LastWithin(s: seq<nat>, t: seq<nat>)
    requires s != [] && t != [] && Ascending(t) && Within(s, t)
    ensures s[|s| - 1] <= t[|t| - 1]
  {
    assert s[|s| - 1] in t;
  }

  lemma FrontWithin(s: seq<nat>, t: seq<nat>)
    requires s != [] && t != [] && Ascending(s) && s[|s| - 1] == t[|t| - 1] && Within(s, t)
    ensures Within(s[..|s| - 1], t[..|t| - 1])
  {
    var front, other := s[..|s| - 1], t[..|t| - 1];
    forall x | x in front ensures x in other {
      var i :| 0 <= i < |s| - 1 && s[i] == x;
      assert s[i] in t;
      var j :| 0 <= j < |t| && t[j] == x;
      assert other[j] == x;
    }
  }

  /** A strictly increasing list is determined by its elements. */
  lemma {:induction false} SameAscending(s: seq<nat>, t: seq<nat>)
    requires Ascending(s) && Ascending(t) && Within(s, t) && Within(t, s)
    ensures s == t
    decreases |s|
  {
    NoneWithout(s, t);
    NoneWithout(t, s);
    if s != [] {
      LastWithin(s, t);
      LastWithin(t, s);
      FrontWithin(s, t);
      FrontWithin(t, s);
      SameAscending(s[..|s| - 1], t[..|t| - 1]);
      assert s == s[..|s| - 1] + [s[|s| - 1]] && t == t[..|t| - 1] + [t[|t| - 1]];
    }
  }

  lemma PostingsAreUnique(symbols: seq<Symbol>, p: map<string, seq<nat>>, q: map<string, seq<nat>>)
    requires PostingsIndexed(symbols, p) && PostingsIndexed(symbols, q)
    ensures p == q
  {
    forall key ensures PostingsOf(p, key) == PostingsOf(q, key) {
      forall start: nat ensures start in PostingsOf(p, key) <==> start in PostingsOf(q, key) {
        assert start in PostingsOf(p, key) <==> Starts(symbols, key, start);
      }
      SameAscending(PostingsOf(p, key), PostingsOf(q, key));
    }
    forall key ensures key in p <==> key in q { assert PostingsOf(p, key) == PostingsOf(q, key); }
    forall key | key in p ensures p[key] == q[key] { assert PostingsOf(p, key) == PostingsOf(q, key); }
  }

  lemma AyatAreUnique(symbols: seq<Symbol>, p: map<AyahKey, Range>, q: map<AyahKey, Range>)
    requires AyatIndexed(symbols, p) && AyatIndexed(symbols, q)
    ensures p == q
  {
    assert p.Keys == q.Keys;
    forall key | key in p ensures p[key] == q[key] {
      RangeWithin(symbols, p, q, key);
      RangeWithin(symbols, q, p, key);
    }
  }

  lemma RangeWithin(symbols: seq<Symbol>, p: map<AyahKey, Range>, q: map<AyahKey, Range>, key: AyahKey)
    requires AyatIndexed(symbols, p) && AyatIndexed(symbols, q) && key in p && key in q
    ensures q[key].start <= p[key].start && p[key].end <= q[key].end
  {
    assert AyahOf(symbols[p[key].start]) == key;
    assert AyahOf(symbols[p[key].end - 1]) == key;
  }

  lemma WordRangesAreUnique(symbols: seq<Symbol>, words: seq<Word>, p: map<string, Range>, q: map<string, Range>)
    requires WordsIndexed(symbols, words, p) && WordsIndexed(symbols, words, q)
    ensures p == q
  {
    assert p.Keys == q.Keys;
    forall id | id in p ensures p[id] == q[id] {
      var w :| w in words && w.id == id;
      var k :| 0 <= k < |words| && words[k] == w;
      assert p[words[k].id] == Range(WordStart(words, k), WordStart(words, k + 1)) == q[words[k].id];
    }
  }

  /** There is only one index of the same symbols and words. */
  lemma IndexIsUnique(x: IndexedCorpus, y: IndexedCorpus)
    requires WellIndexed(x) && WellIndexed(y) && x.symbols == y.symbols && x.words == y.words
    ensures x == y
  {
    WordRangesAreUnique(x.symbols, x.words, x.wordSymbolRanges, y.wordSymbolRanges);
    AyatAreUnique(x.symbols, x.ayahSymbolRanges, y.ayahSymbolRanges);
    PostingsAreUnique(x.symbols, x.phonemeNgramPostings, y.phonemeNgramPostings);
  }

  ghost predicate IsIndexOf(index: IndexedCorpus, words: seq<Word>, symbols: seq<Symbol>) {
    && index.words == words && index.symbols == symbols && symbols != [] && WellIndexed(index)
    && forall p | 0 <= p < |index.symbols| :: AyahOf(index.symbols[p]) in index.ayahSymbolRanges
  }

  /** Located by the aligner over a corpus with these words and symbols. */
  ghost predicate LocatedIn(words: seq<Word>, symbols: seq<Symbol>, o: Observation, cursorSymbol: nat, committedSymbol: nat, located: Located) {
    exists index :: IsIndexOf(index, words, symbols) && LocatedFrom(index, o, cursorSymbol, committedSymbol, located)
  }

  lemma LocatedInIsGood(words: seq<Word>, symbols: seq<Symbol>, o: Observation, cursorSymbol: nat, committedSymbol: nat, located: Located)
    requires LocatedIn(words, symbols, o, cursorSymbol, committedSymbol, located)
    ensures GoodLocated(symbols, o, committedSymbol, located)
  {
    hide WellIndexed, LocatedFrom, GoodLocated;
    var index :| IsIndexOf(index, words, symbols) && LocatedFrom(index, o, cursorSymbol, committedSymbol, located);
    LocatedIsGood(index, o, cursorSymbol, committedSymbol, located);
  }

  lemma LocatedFromIsUnique(index: IndexedCorpus, o: Observation, cursorSymbol: nat, committedSymbol: nat, x: Located, y: Located)
    requires index.symbols != [] && forall p | 0 <= p < |index.symbols| :: AyahOf(index.symbols[p]) in index.ayahSymbolRanges
    requires LocatedFrom(index, o, cursorSymbol, committedSymbol, x) && LocatedFrom(index, o, cursorSymbol, committedSymbol, y)
    ensures x == y
  {
    hide LocatedAmong;
    var actual, cursor := PhonemesOf(o.tokens), Clamp(cursorSymbol, |index.symbols|);
    if actual != [] {
      var p, cs :| LocatedAmong(index, actual, cursor, committedSymbol, p, cs, x);
      var q, ds :| LocatedAmong(index, actual, cursor, committedSymbol, q, ds, y);
      LocationIsUnique(index, actual, cursor, committedSymbol, p, cs, x, q, ds, y);
    }
  }

  /** Where an observation is located is determined by words, symbols, observation, cursor and commit
      point. */
  lemma LocatedInIsUnique(words: seq<Word>, symbols: seq<Symbol>, o: Observation, cursorSymbol: nat, committedSymbol: nat, x: Located, y: Located)
    requires LocatedIn(words, symbols, o, cursorSymbol, committedSymbol, x) && LocatedIn(words, symbols, o, cursorSymbol, committedSymbol, y)
    ensures x == y
  {
    hide WellIndexed, LocatedFrom;
    var i :| IsIndexOf(i, words, symbols) && LocatedFrom(i, o, cursorSymbol, committedSymbol, x);
    var j :| IsIndexOf(j, words, symbols) && LocatedFrom(j, o, cursorSymbol, committedSymbol, y);
    IndexIsUnique(i, j);
    LocatedFromIsUnique(i, o, cursorSymbol, committedSymbol, x, y);
  }

  // ----- every observation is located

  lemma PositionsExist(index: IndexedCorpus, actual: seq<Phoneme>, cursorSymbol: int, reached: bool)
    requires WellIndexed(index) && index.symbols != [] && actual != []
    ensures forall p | 0 <= p < |index.symbols| :: AyahOf(index.symbols[p]) in index.ayahSymbolRanges
    ensures var positions := RetrievedPositions(index, actual, cursorSymbol, !reached);
            EvaluatedPositions(index, actual, cursorSymbol, reached, positions)
            && LocalPositionsOf(index, cursorSymbol) <= positions && forall x <- positions :: x < |index.symbols|
  {
    hide WellIndexed, Complete, Justified, SearchFor, LocalPositionsOf;
    AyahRangesExist(index);
    var local := LocalPositionsOf(index, cursorSymbol);
    LocalPositionsCorrect(index, cursorSymbol);
    PostingsOfIndex(index);
    SearchFinds(index, actual, cursorSymbol, local);
  }

  lemma PostingsOfIndex(index: IndexedCorpus)
    requires WellIndexed(index)
    ensures PostingsIndexed(index.symbols, index.phonemeNgramPostings)
  {}

  function CandidatesAt(symbols: seq<Symbol>, actual: seq<Phoneme>, cursorSymbol: int, committedSymbol: int, positions: seq<nat>): seq<AlignmentCandidate>
    requires actual != [] && forall x <- positions :: x < |symbols|
  {
    seq(|positions|, (i: nat) requires i < |positions| => assert positions[i] in positions;
                                                          CandidateAt(symbols, actual, cursorSymbol, committedSymbol, positions[i]))
  }

  /** Every observation is located somewhere in an indexed corpus. */
  lemma LocationExists(index: IndexedCorpus, actual: seq<Phoneme>, cursorSymbol: int, committedSymbol: int)
    returns (positions: seq<nat>, cs: seq<AlignmentCandidate>, top: Located)
    requires WellIndexed(index) && index.symbols != [] && actual != []
    ensures forall p | 0 <= p < |index.symbols| :: AyahOf(index.symbols[p]) in index.ayahSymbolRanges
    ensures LocatedAmong(index, actual, cursorSymbol, committedSymbol, positions, cs, top)
  {
    hide WellIndexed, EvaluatedPositions, CandidateAt, TopTwo, RetrievedPositions, FirstTwo, ReachesThreshold, LocalPositionsOf;
    AyahRangesExist(index);
    PositionsExist(index, actual, cursorSymbol, true);
    PositionsExist(index, actual, cursorSymbol, false);
    var local := LocalPositionsOf(index, cursorSymbol);
    LocalIsRetrieved(index, actual, cursorSymbol);
    var reached := ReachesThreshold(CandidatesAt(index.symbols, actual, cursorSymbol, committedSymbol, local));
    positions := RetrievedPositions(index, actual, cursorSymbol, !reached);
    cs := CandidatesAt(index.symbols, actual, cursorSymbol, committedSymbol, positions);
    assert cs[..|local|] == CandidatesAt(index.symbols, actual, cursorSymbol, committedSymbol, local);
    EvaluatedAreDistinct(index, actual, cursorSymbol, reached, positions);
    RankedTopTwo(index.symbols, actual, cursorSymbol, committedSymbol, positions, cs);
    top := FirstTwo(Sort(cs, Precedes));
  }

  lemma LocalIsRetrieved(index: IndexedCorpus, actual: seq<Phoneme>, cursorSymbol: int)
    requires forall p | 0 <= p < |index.symbols| :: AyahOf(index.symbols[p]) in index.ayahSymbolRanges
    ensures RetrievedPositions(index, actual, cursorSymbol, false) == LocalPositionsOf(index, cursorSymbol)
  {}

  lemma EvaluatedAreDistinct(index: IndexedCorpus, actual: seq<Phoneme>, cursorSymbol: int, reached: bool, positions: seq<nat>)
    requires forall p | 0 <= p < |index.symbols| :: AyahOf(index.symbols[p]) in index.ayahSymbolRanges
    requires EvaluatedPositions(index, actual, cursorSymbol, reached, positions)
    ensures Distinct(positions)
  {}

  lemma LocatedInExists(index: IndexedCorpus, o: Observation, cursorSymbol: nat, committedSymbol: nat) returns (located: Located)
    requires WellIndexed(index) && index.symbols != []
    ensures LocatedIn(index.words, index.symbols, o, cursorSymbol, committedSymbol, located)
  {
    hide WellIndexed, LocatedAmong;
    AyahRangesExist(index);
    located := Located(None, None);
    if PhonemesOf(o.tokens) != [] {
      var positions, cs;
      positions, cs, located := LocationExists(index, PhonemesOf(o.tokens), Clamp(cursorSymbol, |index.symbols|), committedSymbol);
    }
    assert IsIndexOf(index, index.words, index.symbols) && LocatedFrom(index, o, cursorSymbol, committedSymbol, located);
  }
}
