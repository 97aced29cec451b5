/** Reading off an alignment which positions it consumes and which words it touches. */
module TouchedWords {
  import opened Wrappers
  import opened EditScript
  import opened Corpus
  import opened IndexCorpus
  import opened Sorting
  import opened WordProgress

  // ----- lookup tables

  datatype OrderedWord = OrderedWord(word: Word, range: Range)

  predicate StartsBefore(x: OrderedWord, y: OrderedWord) { x.range.start < y.range.start }

  function OrderedWordAt(words: seq<Word>, k: nat): OrderedWord
    requires k < |words|
  {
    OrderedWord(words[k], Range(WordStart(words, k), WordStart(words, k + 1)))
  }

  function OrderedWordsOf(words: seq<Word>): seq<OrderedWord> {
    seq(|words|, (k: nat) requires k < |words| => OrderedWordAt(words, k))
  }

  lemma IndexedWords(index: IndexedCorpus)
    requires WellIndexed(index)
    ensures Words(index.words, |index.symbols|)
  {}

  lemma WordsAreSorted(words: seq<Word>, n: nat)
    requires Words(words, n)
    ensures Sort(OrderedWordsOf(words), StartsBefore) == OrderedWordsOf(words)
  {
    var ordered := OrderedWordsOf(words);
    forall i, j | 0 <= i < j < |ordered| ensures !StartsBefore(ordered[j], ordered[i]) {
      StartsIncrease(words, n, i, j);
    }
    SortOfOrdered(ordered, StartsBefore);
  }

  predicate HaveRanges(words: seq<Word>, ranges: map<string, Range>) {
    forall k | 0 <= k < |words| :: words[k].id in ranges
  }

  predicate RangesFit(words: seq<Word>, ranges: map<string, Range>) {
    HaveRanges(words, ranges) && forall k | 0 <= k < |words| :: ranges[words[k].id] == Range(WordStart(words, k), WordStart(words, k + 1))
  }

  lemma IndexedRangesFit(index: IndexedCorpus)
    requires WordsIndexed(index.symbols, index.words, index.wordSymbolRanges)
    ensures RangesFit(index.words, index.wordSymbolRanges) && Words(index.words, |index.symbols|)
  {
    forall k | 0 <= k < |index.words| ensures index.words[k].id in index.wordSymbolRanges {
      assert index.words[k] in index.words;
    }
  }

  function WithRanges(words: seq<Word>, ranges: map<string, Range>): seq<OrderedWord>
    requires HaveRanges(words, ranges)
  {
    seq(|words|, (k: nat) requires k < |words| && words[k].id in ranges => OrderedWord(words[k], ranges[words[k].id]))
  }

  /** The words with their ranges, sorted by where the range starts. */
  function OrderedWords(words: seq<Word>, ranges: map<string, Range>): seq<OrderedWord>
    requires HaveRanges(words, ranges)
  {
    Sort(WithRanges(words, ranges), StartsBefore)
  }

  /** Sorting leaves the words in corpus order. */
  lemma OrderedWordsAreInCorpusOrder(words: seq<Word>, n: nat, ranges: map<string, Range>)
    requires Words(words, n) && RangesFit(words, ranges)
    ensures OrderedWords(words, ranges) == OrderedWordsOf(words)
  {
    assert WithRanges(words, ranges) == OrderedWordsOf(words);
    WordsAreSorted(words, n);
  }

  function WordIdAt(words: seq<Word>, n: nat, p: nat): Option<string>
    requires Words(words, n) && p < n
  {
    WordAtContains(words, n, p);
    Some(words[WordAt(words, p)].id)
  }

  /** One word id per symbol: that of the word whose range contains it. */
  ghost predicate IsWordTable(words: seq<Word>, n: nat, table: seq<Option<string>>)
    requires Words(words, n)
  {
    |table| == n && forall p | 0 <= p < n :: table[p] == WordIdAt(words, n, p)
  }

  method WordIdsBySymbol(words: seq<Word>, n: nat, ordered: seq<OrderedWord>) returns (table: seq<Option<string>>)
    requires Words(words, n) && ordered == OrderedWordsOf(words)
    ensures IsWordTable(words, n, table)
  {
    var result := new Option<string>[n](_ => None);
    assert WordStart(words, 0) == 0;
    for k := 0 to |ordered|
      invariant forall p | 0 <= p < WordStart(words, k) :: p < n && result[p] == WordIdAt(words, n, p)
    {
      var range := ordered[k].range;
      assert range == Range(WordStart(words, k), WordStart(words, k + 1));
      StartsIncrease(words, n, k, |words|);
      for symbolIndex := range.start to range.end
        invariant forall p | 0 <= p < symbolIndex :: p < n && result[p] == WordIdAt(words, n, p)
      {
        WordAtContains(words, n, symbolIndex);
        OnlyOneWord(words, n, symbolIndex, k, WordAt(words, symbolIndex));
        result[symbolIndex] := Some(ordered[k].word.id);
      }
    }
    table := result[..];
  }

  // ----- what an alignment consumes

  function ConsumedOf(start: nat, ops: seq<Operation>): set<nat> {
    if ops == [] then {}
    else
      var last := ops[|ops| - 1];
      ConsumedOf(start, ops[..|ops| - 1]) + if last.IsPair() then {start + last.referenceIndex} else {}
  }

  function MatchedOf(start: nat, ops: seq<Operation>): set<nat> {
    if ops == [] then {}
    else
      var last := ops[|ops| - 1];
      MatchedOf(start, ops[..|ops| - 1]) + if last.Match? then {start + last.referenceIndex} else {}
  }

  function SupportOf(start: nat, ops: seq<Operation>, isFinal: bool): Support {
    Support(start, ConsumedOf(start, ops), MatchedOf(start, ops), isFinal)
  }

  /** The highest reference index of a pair; zero when there is none. */
  function ActiveOffset(ops: seq<Operation>): nat {
    if ops == [] then 0
    else
      var last := ops[|ops| - 1];
      Max(ActiveOffset(ops[..|ops| - 1]), if last.IsPair() then last.referenceIndex else 0)
  }

  lemma {:induction false} ConsumedReachesActive(start: nat, ops: seq<Operation>, m: nat)
    requires forall k | 0 <= k < |ops| && ops[k].IsPair() :: ops[k].referenceIndex < m
    ensures forall p <- ConsumedOf(start, ops) :: start <= p < start + m && p <= start + ActiveOffset(ops)
    ensures MatchedOf(start, ops) <= ConsumedOf(start, ops)
    ensures m > 0 ==> ActiveOffset(ops) < m
    decreases |ops|
  {
    if ops != [] {
      var rest := ops[..|ops| - 1];
      assert forall k | 0 <= k < |rest| :: rest[k] == ops[k];
      ConsumedReachesActive(start, rest, m);
    }
  }

  lemma {:induction false} PairIsConsumed(start: nat, ops: seq<Operation>, k: nat)
    requires k < |ops| && ops[k].IsPair()
    ensures start + ops[k].referenceIndex in ConsumedOf(start, ops)
    decreases |ops|
  {
    if k < |ops| - 1 { PairIsConsumed(start, ops[..|ops| - 1], k); }
  }

  /** What the pairs of a complete script consume lies between the start and the active position. */
  lemma SupportWithin(start: nat, ops: seq<Operation>, actual: seq<Phoneme>, reference: seq<Phoneme>, isFinal: bool)
    requires CompleteScript(ops, actual, reference) && reference != []
    ensures Within(SupportOf(start, ops, isFinal), |reference|)
    ensures forall p <- ConsumedOf(start, ops) :: p <= start + ActiveOffset(ops)
    ensures ActiveOffset(ops) < |reference|
  {
    ConsumedReachesActive(start, ops, |reference|);
  }

  method ActiveReferenceOffset(ops: seq<Operation>) returns (activeOffset: nat)
    ensures activeOffset == ActiveOffset(ops)
  {
    activeOffset := 0;
    for k := 0 to |ops|
      invariant activeOffset == ActiveOffset(ops[..k])
    {
      assert ops[..k + 1][..k] == ops[..k];
      if ops[k].IsPair() { activeOffset := Max(activeOffset, ops[k].referenceIndex); }
    }
    assert ops[..|ops|] == ops;
  }

  method ConsumedAndMatched(start: nat, ops: seq<Operation>) returns (consumed: set<nat>, matched: set<nat>)
    ensures consumed == ConsumedOf(start, ops) && matched == MatchedOf(start, ops)
  {
    consumed, matched := {}, {};
    for k := 0 to |ops|
      invariant consumed == ConsumedOf(start, ops[..k]) && matched == MatchedOf(start, ops[..k])
    {
      assert ops[..k + 1][..k] == ops[..k];
      if ops[k].IsPair() {
        var absoluteIndex := start + ops[k].referenceIndex;
        consumed := consumed + {absoluteIndex};
        if ops[k].Match? { matched := matched + {absoluteIndex}; }
      }
    }
    assert ops[..|ops|] == ops;
  }

  // ----- touched words

  function IdsOf(words: seq<Word>, ks: seq<nat>): seq<string>
    requires AreWords(words, ks)
  {
    seq(|ks|, (i: nat) requires i < |ks| => words[ks[i]].id)
  }

  /** The ids of the words from the one at position p to the one at position q. */
  ghost predicate TouchedIds(words: seq<Word>, n: nat, p: nat, q: nat, ids: seq<string>)
    requires Words(words, n) && p <= q < n
  {
    WordAtMonotone(words, n, p, q);
    ids == IdsOf(words, Interval(WordAt(words, p), WordAt(words, q) + 1))
  }

  function AddId(ids: seq<string>, id: string): seq<string> { if id in ids then ids else ids + [id] }

  lemma FirstTouch(words: seq<Word>, n: nat, p: nat)
    requires Words(words, n) && p < n
    ensures TouchedIds(words, n, p, p, AddId([], WordIdAt(words, n, p).value))
  {
    WordAtContains(words, n, p);
  }

  lemma NextTouch(words: seq<Word>, n: nat, p: nat, q: nat, ids: seq<string>)
    requires Words(words, n) && p <= q && q + 1 < n && TouchedIds(words, n, p, q, ids)
    ensures TouchedIds(words, n, p, q + 1, AddId(ids, WordIdAt(words, n, q + 1).value))
  {
    WordAtMonotone(words, n, p, q);
    WordAtMonotone(words, n, p, q + 1);
    WordAtNext(words, n, q);
    var w, v := WordAt(words, p), WordAt(words, q);
    if WordAt(words, q + 1) == v {
      assert ids[v - w] == words[v].id;
    } else {
      assert Interval(w, v + 2) == Interval(w, v + 1) + [v + 1];
      assert words[v + 1].id !in ids;
    }
  }

  lemma {:induction false} ReferencePrefix(ops: seq<Operation>, t: nat)
    requires t <= |ops|
    ensures ReferenceIndices(ops[..t]) <= ReferenceIndices(ops)
    decreases |ops| - t
  {
    if t < |ops| {
      ReferencePrefix(ops, t + 1);
      assert ops[..t + 1][..t] == ops[..t];
      assert ReferenceIndices(ops[..t]) <= ReferenceIndices(ops[..t + 1]);
    } else {
      assert ops[..t] == ops;
    }
  }

  /** In a complete script each reference index that comes next is the number of those before it. */
  lemma NextReference(ops: seq<Operation>, m: nat, t: nat)
    requires ReferenceIndices(ops) == UpTo(m) && t < |ops|
    ensures var r := |ReferenceIndices(ops[..t])|;
            if ops[t].HasReference()
            then ops[t].referenceIndex == r < m && |ReferenceIndices(ops[..t + 1])| == r + 1
            else |ReferenceIndices(ops[..t + 1])| == r <= m
  {
    ReferencePrefix(ops, t);
    ReferencePrefix(ops, t + 1);
    assert ops[..t + 1][..t] == ops[..t];
    var before, after := ReferenceIndices(ops[..t]), ReferenceIndices(ops[..t + 1]);
    if ops[t].HasReference() {
      assert after == before + [ops[t].referenceIndex];
      assert after[|before|] == UpTo(m)[|before|];
    }
  }

  /** The word ids at the positions the alignment refers to. */
  method CollectReferencedWordIds(words: seq<Word>, n: nat, start: nat, ops: seq<Operation>, ghost m: nat, table: seq<Option<string>>)
    returns (touched: seq<string>, lastReferenceSymbol: int)
    requires Words(words, n) && IsWordTable(words, n, table)
    requires ReferenceIndices(ops) == UpTo(m) && 0 < m && start + m <= n
    ensures lastReferenceSymbol == start + m - 1 && TouchedIds(words, n, start, start + m - 1, touched)
  {
    touched := [];
    lastReferenceSymbol := -1;
    for t := 0 to |ops|
      invariant var r := |ReferenceIndices(ops[..t])|;
                r <= m && if r == 0 then touched == [] && lastReferenceSymbol == -1
                          else lastReferenceSymbol == start + r - 1 && TouchedIds(words, n, start, start + r - 1, touched)
    {
      NextReference(ops, m, t);
      if ops[t].HasReference() {
        var symbolIndex := start + ops[t].referenceIndex;
        if symbolIndex == start { FirstTouch(words, n, start); } else { NextTouch(words, n, start, symbolIndex - 1, touched); }
        touched := AddAt(touched, table, symbolIndex);
        lastReferenceSymbol := if lastReferenceSymbol >= symbolIndex then lastReferenceSymbol else symbolIndex;
      }
    }
    assert ops[..|ops|] == ops;
  }

  /** The word ids at the positions the alignment refers to and at the two positions after them, in
      the order in which they are first met: a stretch of consecutive words. */
  method CollectTouchedWordIds(words: seq<Word>, n: nat, start: nat, ops: seq<Operation>, ghost m: nat, table: seq<Option<string>>)
    returns (touched: seq<string>)
    requires Words(words, n) && IsWordTable(words, n, table)
    requires ReferenceIndices(ops) == UpTo(m) && 0 < m && start + m <= n
    ensures start <= Min(n - 1, start + m - 1 + PARTIAL_COMMIT_LOOKAHEAD)
    ensures TouchedIds(words, n, start, Min(n - 1, start + m - 1 + PARTIAL_COMMIT_LOOKAHEAD), touched)
  {
    var lastReferenceSymbol;
    touched, lastReferenceSymbol := CollectReferencedWordIds(words, n, start, ops, m, table);
    for offset := 1 to PARTIAL_COMMIT_LOOKAHEAD + 1
      invariant TouchedIds(words, n, start, Min(n - 1, start + m - 1 + offset - 1), touched)
    {
      var symbolIndex := lastReferenceSymbol + offset;
      if symbolIndex < n { NextTouch(words, n, start, symbolIndex - 1, touched); }
      touched := AddAt(touched, table, symbolIndex);
    }
  }

  /** Positions outside the table have no word. */
  method AddAt(touched: seq<string>, table: seq<Option<string>>, symbolIndex: nat) returns (more: seq<string>)
    ensures more == if symbolIndex < |table| && table[symbolIndex].Some? then AddId(touched, table[symbolIndex].value) else touched
  {
    more := touched;
    if symbolIndex < |table| && table[symbolIndex].Some? && table[symbolIndex].value !in touched {
      more := touched + [table[symbolIndex].value];
    }
  }
}
