/**
 Immutable lookup structures over a valid corpus: word ranges, ayah ranges and n-gram postings.
 Ranges are zero-based and end-exclusive.
 */
module IndexCorpus {
  import opened Wrappers
  import opened Sequences
  import opened EditScript
  import opened Corpus
  import ValidateCorpus

  datatype Range = Range(start: nat, end: nat)

  datatype AyahKey = AyahKey(surah: int, ayah: int)

  /** `words` lists the indexed words in the order in which they were inserted. */
  datatype IndexedCorpus = IndexedCorpus(
    symbols: seq<Symbol>,
    words: seq<Word>,
    wordSymbolRanges: map<string, Range>,
    ayahSymbolRanges: map<AyahKey, Range>,
    phonemeNgramPostings: map<string, seq<nat>>)

  // ----- words

  /** The number of symbols in front of word k. */
  function WordStart(words: seq<Word>, k: nat): nat
    requires k <= |words|
  {
    if k == 0 then 0 else WordStart(words, k - 1) + |words[k - 1].symbolIds|
  }

  /** Word ranges tile the symbol array in word order and hold exactly each word's own symbols. */
  ghost predicate WordsIndexed(symbols: seq<Symbol>, words: seq<Word>, ranges: map<string, Range>) {
    && (forall k | 0 <= k < |words| :: NonBlank(words[k].id) && words[k].symbolIds != [])
    && DistinctWordIds(words)
    && ranges.Keys == (set w <- words :: w.id)
    && (forall k | 0 <= k < |words| :: ranges[words[k].id] == Range(WordStart(words, k), WordStart(words, k + 1)))
    && WordStart(words, |words|) == |symbols|
    && SymbolsFollowWords(symbols, words)
  }

  /** The j-th symbol of word k is the symbol j places after the word's start. */
  ghost predicate SymbolsFollowWords(symbols: seq<Symbol>, words: seq<Word>) {
    forall k, j | 0 <= k < |words| && 0 <= j < |words[k].symbolIds| ::
      WordStart(words, k) + j < |symbols| && symbols[WordStart(words, k) + j].id == words[k].symbolIds[j]
  }

  lemma {:induction false} WordStartIsOffset(c: QuranCorpus, k: nat)
    requires k <= |c.words|
    ensures WordStart(c.words, k) == Offset(Positions(c), k)
    decreases k
  {
    if k > 0 { WordStartIsOffset(c, k - 1); }
  }

  /** In a valid corpus the j-th symbol of word k sits j places after the word's start. */
  lemma SymbolOfWord(c: QuranCorpus, k: nat, j: nat)
    requires ValidCorpus(c) && k < |c.words| && j < |c.words[k].symbolIds|
    ensures IndexOf(c.symbols, c.words[k].symbolIds[j]) == WordStart(c.words, k) + j < |c.symbols|
    ensures c.symbols[WordStart(c.words, k) + j].id == c.words[k].symbolIds[j]
  {
    WordsTileSymbols(c);
    assert TiledGroup(Positions(c), k, |Positions(c)[k]|);
    assert Positions(c)[k][j] == IndexOf(c.symbols, c.words[k].symbolIds[j]);
    WordStartIsOffset(c, k);
    PositionMatches(c, k, j);
  }

  function SymbolIndexes(symbols: seq<Symbol>): map<string, nat>
    requires DistinctSymbolIds(symbols)
  {
    map i | 0 <= i < |symbols| :: symbols[i].id := i
  }

  /** From the first symbol of each word to just after its last. */
  function WordRanges(words: seq<Word>, symbolIndexes: map<string, nat>): map<string, Range>
    requires DistinctWordIds(words)
    requires forall w <- words :: w.symbolIds != [] && forall id <- w.symbolIds :: id in symbolIndexes
  {
    map k | 0 <= k < |words| ::
      words[k].id := (assert words[k] in words;
                      Range(symbolIndexes[words[k].symbolIds[0]],
                            symbolIndexes[words[k].symbolIds[|words[k].symbolIds| - 1]] + 1))
  }

  lemma EveryIdIndexed(c: QuranCorpus)
    requires ValidCorpus(c)
    ensures DistinctSymbolIds(c.symbols) && DistinctWordIds(c.words)
    ensures forall w <- c.words :: w.symbolIds != [] && forall id <- w.symbolIds :: id in SymbolIndexes(c.symbols)
  {
    ChecksOfValidCorpus(c);
    forall w, id | w in c.words && id in w.symbolIds ensures id in SymbolIndexes(c.symbols) {
      assert WordMatchesSymbols(c.symbols, w);
      var j :| 0 <= j < |w.symbolIds| && w.symbolIds[j] == id;
      assert c.symbols[IndexOf(c.symbols, w.symbolIds[j])].id == id;
    }
  }

  lemma SymbolsOfValidCorpusFollowWords(c: QuranCorpus)
    requires ValidCorpus(c)
    ensures SymbolsFollowWords(c.symbols, c.words) && WordStart(c.words, |c.words|) == |c.symbols|
    ensures forall k | 0 <= k < |c.words| :: NonBlank(c.words[k].id)
  {
    forall k, j | 0 <= k < |c.words| && 0 <= j < |c.words[k].symbolIds|
      ensures WordStart(c.words, k) + j < |c.symbols| && c.symbols[WordStart(c.words, k) + j].id == c.words[k].symbolIds[j]
    {
      SymbolOfWord(c, k, j);
    }
    WordsTileSymbols(c);
    WordStartIsOffset(c, |c.words|);
    ChecksOfValidCorpus(c);
    forall k | 0 <= k < |c.words| ensures NonBlank(c.words[k].id) {
      assert c.words[k] in c.words && ValidWord(c.words[k]);
    }
  }

  lemma RangesOfValidCorpus(c: QuranCorpus)
    requires ValidCorpus(c)
    ensures DistinctSymbolIds(c.symbols) && DistinctWordIds(c.words)
    ensures forall w <- c.words :: w.symbolIds != [] && forall id <- w.symbolIds :: id in SymbolIndexes(c.symbols)
    ensures WordsIndexed(c.symbols, c.words, WordRanges(c.words, SymbolIndexes(c.symbols)))
  {
    EveryIdIndexed(c);
    SymbolsOfValidCorpusFollowWords(c);
    var indexes := SymbolIndexes(c.symbols);
    WordRangeKeys(c.words, indexes);
    forall k | 0 <= k < |c.words|
      ensures c.words[k].symbolIds != [] && c.words[k].id in WordRanges(c.words, indexes)
      ensures WordRanges(c.words, indexes)[c.words[k].id] == Range(WordStart(c.words, k), WordStart(c.words, k + 1))
    {
      IndexedRange(c, k);
    }
  }

  lemma IndexedRange(c: QuranCorpus, k: nat)
    requires ValidCorpus(c) && k < |c.words| && DistinctSymbolIds(c.symbols) && DistinctWordIds(c.words)
    requires forall w <- c.words :: w.symbolIds != [] && forall id <- w.symbolIds :: id in SymbolIndexes(c.symbols)
    ensures var ranges := WordRanges(c.words, SymbolIndexes(c.symbols));
            && c.words[k].symbolIds != [] && c.words[k].id in ranges
            && ranges[c.words[k].id] == Range(WordStart(c.words, k), WordStart(c.words, k + 1))
  {
    assert c.words[k] in c.words;
    WordRangeAt(c.words, SymbolIndexes(c.symbols), k);
    RangeOfWord(c, k);
  }

  lemma WordRangeAt(words: seq<Word>, symbolIndexes: map<string, nat>, k: nat)
    requires DistinctWordIds(words) && k < |words|
    requires forall w <- words :: w.symbolIds != [] && forall id <- w.symbolIds :: id in symbolIndexes
    ensures var ids := words[k].symbolIds;
            && ids != [] && ids[0] in symbolIndexes && ids[|ids| - 1] in symbolIndexes
            && words[k].id in WordRanges(words, symbolIndexes)
            && WordRanges(words, symbolIndexes)[words[k].id] == Range(symbolIndexes[ids[0]], symbolIndexes[ids[|ids| - 1]] + 1)
  {
    assert words[k] in words;
  }

  lemma WordRangeKeys(words: seq<Word>, symbolIndexes: map<string, nat>)
    requires DistinctWordIds(words)
    requires forall w <- words :: w.symbolIds != [] && forall id <- w.symbolIds :: id in symbolIndexes
    ensures WordRanges(words, symbolIndexes).Keys == set w <- words :: w.id
  {
    var ranges := WordRanges(words, symbolIndexes);
    forall id | id in (set w <- words :: w.id) ensures id in ranges {
      var w :| w in words && w.id == id;
      var k :| 0 <= k < |words| && words[k] == w;
      assert words[k].id in ranges;
    }
    forall id | id in ranges ensures id in (set w <- words :: w.id) {
      var k :| 0 <= k < |words| && words[k].id == id;
      assert words[k] in words;
    }
  }

  lemma RangeOfWord(c: QuranCorpus, k: nat)
    requires ValidCorpus(c) && k < |c.words|
    requires DistinctSymbolIds(c.symbols) && c.words[k].symbolIds != []
    ensures var indexes, ids := SymbolIndexes(c.symbols), c.words[k].symbolIds;
            && ids[0] in indexes && ids[|ids| - 1] in indexes
            && indexes[ids[0]] == WordStart(c.words, k)
            && indexes[ids[|ids| - 1]] + 1 == WordStart(c.words, k + 1)
  {
    hide ValidCorpus;
    SymbolOfWord(c, k, 0);
    SymbolOfWord(c, k, |c.words[k].symbolIds| - 1);
  }

  // ----- ayat

  function AyahOf(s: Symbol): AyahKey { AyahKey(s.location.surah, s.location.ayah) }

  /** Each ayah's range is non-empty and holds exactly the symbols of that ayah. */
  ghost predicate AyatIndexed(symbols: seq<Symbol>, ranges: map<AyahKey, Range>) {
    && ranges.Keys == (set s <- symbols :: AyahOf(s))
    && forall key <- ranges ::
         && ranges[key].start < ranges[key].end <= |symbols|
         && forall p | 0 <= p < |symbols| :: ranges[key].start <= p < ranges[key].end <==> AyahOf(symbols[p]) == key
  }

  /** Ayah ranges tile the symbols: a range that does not start at zero starts where the range of
      the symbol before it ends. */
  lemma AyatTile(symbols: seq<Symbol>, ranges: map<AyahKey, Range>, p: nat)
    requires AyatIndexed(symbols, ranges) && p < |symbols|
    ensures AyahOf(symbols[p]) in ranges && ranges[AyahOf(symbols[p])].start <= p < ranges[AyahOf(symbols[p])].end
    ensures var start := ranges[AyahOf(symbols[p])].start;
            start > 0 ==> AyahOf(symbols[start - 1]) in ranges && ranges[AyahOf(symbols[start - 1])].end == start
  {
    assert symbols[p] in symbols;
    var start := ranges[AyahOf(symbols[p])].start;
    if start > 0 {
      assert symbols[start - 1] in symbols;
      var before := ranges[AyahOf(symbols[start - 1])];
      assert AyahOf(symbols[start]) == AyahOf(symbols[p]) != AyahOf(symbols[start - 1]);
    }
  }

  /** Ranges of different ayat have no position in common. */
  lemma AyatDisjoint(symbols: seq<Symbol>, ranges: map<AyahKey, Range>, x: AyahKey, y: AyahKey)
    requires AyatIndexed(symbols, ranges) && x in ranges && y in ranges && x != y
    ensures ranges[x].end <= ranges[y].start || ranges[y].end <= ranges[x].start
  {
    var p := if ranges[x].start <= ranges[y].start then ranges[y].start else ranges[x].start;
    assert ranges[x].start <= p < ranges[x].end ==> AyahOf(symbols[p]) == x;
    assert ranges[y].start <= p < ranges[y].end ==> AyahOf(symbols[p]) == y;
  }

  /** The symbols of one ayah are adjacent. */
  lemma AyahConvex(symbols: seq<Symbol>, p: nat, q: nat, r: nat)
    requires OrderedSymbols(symbols) && p <= q <= r < |symbols| && AyahOf(symbols[p]) == AyahOf(symbols[r])
    ensures AyahOf(symbols[q]) == AyahOf(symbols[p])
  {
    if p < q { SymbolsOrderedThroughout(symbols, p, q); }
    if q < r { SymbolsOrderedThroughout(symbols, q, r); }
  }

  /** The ranges of the ayat that lie entirely in front of `end`. */
  ghost predicate AyatIndexedUpTo(symbols: seq<Symbol>, ranges: map<AyahKey, Range>, end: nat)
    requires end <= |symbols|
  {
    && (forall p | 0 <= p < end :: AyahOf(symbols[p]) in ranges)
    && forall key <- ranges ::
         && ranges[key].start < ranges[key].end <= end
         && forall p | 0 <= p < |symbols| :: ranges[key].start <= p < ranges[key].end <==> AyahOf(symbols[p]) == key
  }

  /** No key is written twice: the ayah that starts at `start` has not been seen. */
  lemma NextAyahIsNew(symbols: seq<Symbol>, ranges: map<AyahKey, Range>, start: nat)
    requires start < |symbols| && AyatIndexedUpTo(symbols, ranges, start)
    ensures AyahOf(symbols[start]) !in ranges
  {}

  lemma AddAyah(symbols: seq<Symbol>, ranges: map<AyahKey, Range>, start: nat, end: nat)
    requires OrderedSymbols(symbols) && start < end <= |symbols| && AyatIndexedUpTo(symbols, ranges, start)
    requires forall p | start <= p < end :: AyahOf(symbols[p]) == AyahOf(symbols[start])
    requires end < |symbols| ==> AyahOf(symbols[end]) != AyahOf(symbols[start])
    ensures AyatIndexedUpTo(symbols, ranges[AyahOf(symbols[start]) := Range(start, end)], end)
  {
    var key := AyahOf(symbols[start]);
    NextAyahIsNew(symbols, ranges, start);
    forall p | 0 <= p < |symbols| ensures start <= p < end <==> AyahOf(symbols[p]) == key {
      if p >= end && AyahOf(symbols[p]) == key { AyahConvex(symbols, start, end, p); }
    }
  }

  method IndexAyat(symbols: seq<Symbol>) returns (ayahRanges: map<AyahKey, Range>)
    requires OrderedSymbols(symbols)
    ensures AyatIndexed(symbols, ayahRanges)
  {
    ayahRanges := map[];
    var start := 0;
    while start < |symbols|
      invariant start <= |symbols| && AyatIndexedUpTo(symbols, ayahRanges, start)
    {
      var first := symbols[start];
      var end := start + 1;
      while end < |symbols| && symbols[end].location.surah == first.location.surah
            && symbols[end].location.ayah == first.location.ayah
        invariant start < end <= |symbols|
        invariant forall p | start <= p < end :: AyahOf(symbols[p]) == AyahOf(first)
      {
        end := end + 1;
      }
      AddAyah(symbols, ayahRanges, start, end);
      ayahRanges := ayahRanges[AyahOf(first) := Range(start, end)];
      start := end;
    }
    AyatComplete(symbols, ayahRanges);
  }

  lemma AyatComplete(symbols: seq<Symbol>, ranges: map<AyahKey, Range>)
    requires AyatIndexedUpTo(symbols, ranges, |symbols|)
    ensures AyatIndexed(symbols, ranges)
  {
    forall key | key in ranges ensures key in (set s <- symbols :: AyahOf(s)) {
      assert AyahOf(symbols[ranges[key].start]) == key;
    }
  }

  // ----- postings

  const MAX_NGRAM := 3

  /** Phonemes joined by single spaces. */
  function Join(phonemes: seq<Phoneme>): string {
    if phonemes == [] then ""
    else if |phonemes| == 1 then phonemes[0]
    else Join(phonemes[..|phonemes| - 1]) + " " + phonemes[|phonemes| - 1]
  }

  function PhonemesAt(symbols: seq<Symbol>, start: nat, length: nat): (p: seq<Phoneme>)
    requires start + length <= |symbols|
    ensures |p| == length
  {
    seq(length, (i: nat) requires i < length => symbols[start + i].phoneme)
  }

  function KeyAt(symbols: seq<Symbol>, start: nat, length: nat): string
    requires start + length <= |symbols|
  {
    Join(PhonemesAt(symbols, start, length))
  }

  /** A longer n-gram at the same start has a longer key, whatever its phonemes contain. */
  lemma {:induction false} LongerKey(symbols: seq<Symbol>, start: nat, length: nat, longer: nat)
    requires 0 < length < longer && start + longer <= |symbols|
    ensures |KeyAt(symbols, start, length)| < |KeyAt(symbols, start, longer)|
    decreases longer
  {
    var p := PhonemesAt(symbols, start, longer);
    assert p[..longer - 1] == PhonemesAt(symbols, start, longer - 1);
    if length < longer - 1 { LongerKey(symbols, start, length, longer - 1); }
  }

  /** Some n-gram of one to three symbols at `start` has the given key. */
  ghost predicate Starts(symbols: seq<Symbol>, key: string, start: nat) {
    exists length: nat :: Ngram(symbols, key, start, length)
  }

  function PostingsOf(postings: map<string, seq<nat>>, key: string): seq<nat> {
    if key in postings then postings[key] else []
  }

  /** The list kept for each key is strictly increasing and holds exactly the starts of that key. */
  ghost predicate PostingsIndexed(symbols: seq<Symbol>, postings: map<string, seq<nat>>) {
    && (forall key <- postings :: postings[key] != [] && Ascending(postings[key]))
    && (forall key, start: nat :: start in PostingsOf(postings, key) <==> Starts(symbols, key, start))
  }

  predicate Ngram(symbols: seq<Symbol>, key: string, start: nat, length: nat) {
    1 <= length <= MAX_NGRAM && start + length <= |symbols| && KeyAt(symbols, start, length) == key
  }

  /** An n-gram at `at` of length below `length`, or any n-gram at an earlier start, has the key. */
  ghost predicate StartsBefore(symbols: seq<Symbol>, key: string, start: nat, at: nat, length: nat) {
    exists l: nat | Ngram(symbols, key, start, l) :: start < at || (start == at && l < length)
  }

  ghost predicate PostingsUpTo(symbols: seq<Symbol>, postings: map<string, seq<nat>>, at: nat, length: nat) {
    && (forall key <- postings :: postings[key] != [] && Ascending(postings[key]))
    && (forall key, start: nat :: start in PostingsOf(postings, key) <==> StartsBefore(symbols, key, start, at, length))
  }

  function Push(postings: map<string, seq<nat>>, key: string, start: nat): map<string, seq<nat>> {
    if key in postings then postings[key := postings[key] + [start]] else postings[key := [start]]
  }

  lemma PushKeepsPostings(symbols: seq<Symbol>, postings: map<string, seq<nat>>, at: nat, length: nat)
    requires 1 <= length <= MAX_NGRAM && at + length <= |symbols| && PostingsUpTo(symbols, postings, at, length)
    ensures PostingsUpTo(symbols, Push(postings, KeyAt(symbols, at, length), at), at, length + 1)
  {
    var key := KeyAt(symbols, at, length);
    var pushed := Push(postings, key, at);
    forall start | start in PostingsOf(postings, key) ensures start < at {
      assert StartsBefore(symbols, key, start, at, length);
      var l: nat :| Ngram(symbols, key, start, l) && (start < at || (start == at && l < length));
      if start == at { LongerKey(symbols, at, l, length); }
    }
    AscendingPush(PostingsOf(postings, key), at);
    assert PostingsOf(pushed, key) == PostingsOf(postings, key) + [at];
    forall k, start: nat ensures start in PostingsOf(pushed, k) <==> StartsBefore(symbols, k, start, at, length + 1) {
      StartsOneMore(symbols, k, start, at, length);
    }
  }

  lemma AscendingPush(s: seq<nat>, last: nat)
    requires Ascending(s) && forall x <- s :: x < last
    ensures Ascending(s + [last])
  {
    assert forall i | 0 <= i < |s| :: s[i] in s;
  }

  lemma StartsOneMore(symbols: seq<Symbol>, key: string, start: nat, at: nat, length: nat)
    ensures StartsBefore(symbols, key, start, at, length + 1) <==>
            StartsBefore(symbols, key, start, at, length) || (start == at && Ngram(symbols, key, at, length))
  {}

  lemma NextStart(symbols: seq<Symbol>, postings: map<string, seq<nat>>, at: nat, length: nat)
    requires PostingsUpTo(symbols, postings, at, length) && (length == MAX_NGRAM + 1 || at + length > |symbols|)
    ensures PostingsUpTo(symbols, postings, at + 1, 1)
  {
    assert forall key, start: nat ::
        StartsBefore(symbols, key, start, at + 1, 1) <==> StartsBefore(symbols, key, start, at, length);
  }

  lemma AllStarts(symbols: seq<Symbol>, postings: map<string, seq<nat>>)
    requires PostingsUpTo(symbols, postings, |symbols|, 1)
    ensures PostingsIndexed(symbols, postings)
  {
    assert forall key, start: nat :: StartsBefore(symbols, key, start, |symbols|, 1) <==> Starts(symbols, key, start);
  }

  method AddNgramPostings(symbols: seq<Symbol>) returns (postings: map<string, seq<nat>>)
    ensures PostingsIndexed(symbols, postings)
  {
    postings := map[];
    for start := 0 to |symbols|
      invariant PostingsUpTo(symbols, postings, start, 1)
    {
      var length := 1;
      while length <= MAX_NGRAM && start + length <= |symbols|
        invariant 1 <= length <= MAX_NGRAM + 1 && PostingsUpTo(symbols, postings, start, length)
      {
        var key := KeyAt(symbols, start, length);
        PushKeepsPostings(symbols, postings, start, length);
        if key in postings {
          postings := postings[key := postings[key] + [start]];
        } else {
          postings := postings[key := [start]];
        }
        length := length + 1;
      }
      NextStart(symbols, postings, start, length);
    }
    AllStarts(symbols, postings);
  }

  // ----- the index

  /** What every user of an index relies on without checking it. */
  ghost predicate WellIndexed(index: IndexedCorpus) {
    && DistinctSymbolIds(index.symbols)
    && OrderedSymbols(index.symbols)
    && WordsIndexed(index.symbols, index.words, index.wordSymbolRanges)
    && AyatIndexed(index.symbols, index.ayahSymbolRanges)
    && PostingsIndexed(index.symbols, index.phonemeNgramPostings)
  }

  /** Indexes exactly the valid corpora; the index has all the properties relied on. */
  method Index(corpus: QuranCorpus) returns (r: Result<IndexedCorpus, Defect>)
    ensures r.Ok? <==> ValidCorpus(corpus)
    ensures r.Err? ==> HasDefect(corpus, r.error)
    ensures r.Ok? ==> r.value.symbols == corpus.symbols && r.value.words == corpus.words && WellIndexed(r.value)
  {
    var valid := ValidateCorpus.Validate(corpus);
    if valid.Err? { return Err(valid.error); }
    ChecksOfValidCorpus(corpus);
    RangesOfValidCorpus(corpus);
    var symbolIndexes := SymbolIndexes(corpus.symbols);
    var wordSymbolRanges := WordRanges(corpus.words, symbolIndexes);
    var ayahRanges := IndexAyat(corpus.symbols);
    var postings := AddNgramPostings(corpus.symbols);
    r := Ok(IndexedCorpus(corpus.symbols, corpus.words, wordSymbolRanges, ayahRanges, postings));
  }
}
