/**
 Which n-grams of an observation are looked up, and the anchors of those that occur in the corpus.
 */
module NgramQueries {
  import opened Sequences
  import opened EditScript
  import opened IndexCorpus
  import opened Postings
  import opened LocalCandidates
  import opened Sorting

  const MAX_NGRAM_QUERIES := 48

  // ----- which n-grams are looked up

  lemma QuotientBounds(x: nat, b: nat)
    requires 0 < b
    ensures 0 <= x / b && (x / b) * b <= x < (x / b) * b + b
  {}

  lemma ProductMonotone(p: int, q: int, b: nat)
    requires p <= q
    ensures p * b <= q * b
  {}

  function Sample(sample: nat, c: nat, b: nat): nat
    requires 0 < b
  {
    QuotientBounds(sample * c, b);
    sample * c / b
  }

  function SampledOffsets(count: nat, budget: nat): seq<nat>
    requires budget > 0
  {
    if count <= budget then seq(count, (offset: nat) => offset)
    else if budget == 1 then [0]
    else seq(budget, (sample: nat) => Sample(sample, count - 1, budget - 1))
  }

  lemma QuotientStep(x: nat, y: nat, b: nat)
    requires 0 < b && x + b <= y
    ensures x / b < y / b
  {
    QuotientBounds(x, b);
    QuotientBounds(y, b);
    if x / b >= y / b {
      ProductMonotone(y / b, x / b, b);
    }
  }

  lemma SampleStep(sample: nat, c: nat, b: nat)
    requires 0 < b <= c
    ensures Sample(sample, c, b) < Sample(sample + 1, c, b)
  {
    assert (sample + 1) * c == sample * c + c;
    QuotientStep(sample * c, (sample + 1) * c, b);
  }

  lemma {:induction false} SamplesIncrease(i: nat, j: nat, c: nat, b: nat)
    requires i < j && 0 < b <= c
    ensures Sample(i, c, b) < Sample(j, c, b)
    decreases j
  {
    SampleStep(j - 1, c, b);
    if i < j - 1 { SamplesIncrease(i, j - 1, c, b); }
  }

  lemma LastSample(c: nat, b: nat)
    requires 0 < b
    ensures Sample(b, c, b) == c && Sample(0, c, b) == 0
  {
    var q := Sample(b, c, b);
    QuotientBounds(b * c, b);
    assert b * c == c * b;
    assert 0 * c == 0 && (q + 1) * b == q * b + b && (c + 1) * b == c * b + b;
    if q < c { ProductMonotone(q + 1, c, b); }
    if q > c { ProductMonotone(c + 1, q, b); }
  }

  /** As many offsets as the budget allows, strictly increasing, all in range and spread from the
      first to the last one. */
  lemma SampledOffsetsSpread(count: nat, budget: nat)
    requires budget > 0
    ensures |SampledOffsets(count, budget)| == Min(count, budget)
    ensures Ascending(SampledOffsets(count, budget))
    ensures forall offset <- SampledOffsets(count, budget) :: offset < count
    ensures count > 0 ==> SampledOffsets(count, budget)[0] == 0
    ensures count > 0 && budget > 1 ==> SampledOffsets(count, budget)[Min(count, budget) - 1] == count - 1
  {
    var offsets := SampledOffsets(count, budget);
    if count > budget > 1 {
      var c, b := count - 1, budget - 1;
      forall i, j | 0 <= i < j < budget ensures offsets[i] < offsets[j] { SamplesIncrease(i, j, c, b); }
      LastSample(c, b);
      assert offsets[0] == Sample(0, c, b) && offsets[b] == Sample(b, c, b);
    }
  }

  datatype Query = Query(length: nat, offset: nat)

  function MaximumLength(n: nat): nat { Min(FORWARD_PHONEME_COUNT, n) }

  function PerLengthBudget(n: nat): nat
    requires n > 0
  {
    MAX_NGRAM_QUERIES / MaximumLength(n)
  }

  function QueriesOfLength(n: nat, length: nat): seq<Query>
    requires 0 < length <= MaximumLength(n)
  {
    var offsets := SampledOffsets(n - length + 1, PerLengthBudget(n));
    seq(|offsets|, (i: nat) requires i < |offsets| => Query(length, offsets[i]))
  }

  /** The lookups made for an observation of n phonemes, longest n-grams first. */
  function QueriesUpTo(n: nat, length: nat): seq<Query>
    requires length <= MaximumLength(n)
  {
    if length == 0 then [] else QueriesOfLength(n, length) + QueriesUpTo(n, length - 1)
  }

  lemma QueriesInside(n: nat, length: nat)
    requires 0 < length <= MaximumLength(n)
    ensures |QueriesOfLength(n, length)| <= PerLengthBudget(n)
    ensures forall q <- QueriesOfLength(n, length) :: q.length == length && q.offset + q.length <= n
  {
    SampledOffsetsSpread(n - length + 1, PerLengthBudget(n));
  }

  lemma {:induction false} QueriesUpToBounded(n: nat, length: nat)
    requires n > 0 && length <= MaximumLength(n)
    ensures |QueriesUpTo(n, length)| <= length * PerLengthBudget(n)
    ensures forall q <- QueriesUpTo(n, length) :: 0 < q.length <= MaximumLength(n) && q.offset + q.length <= n
    decreases length
  {
    if length > 0 {
      QueriesUpToBounded(n, length - 1);
      QueriesInside(n, length);
      assert length * PerLengthBudget(n) == (length - 1) * PerLengthBudget(n) + PerLengthBudget(n);
    }
  }

  /** At most 48 lookups, all inside the observation. */
  lemma QueriesBounded(n: nat)
    requires n > 0
    ensures |QueriesUpTo(n, MaximumLength(n))| <= MAX_NGRAM_QUERIES
    ensures forall q <- QueriesUpTo(n, MaximumLength(n)) :: 0 < q.length <= MAX_NGRAM && q.offset + q.length <= n
  {
    QueriesUpToBounded(n, MaximumLength(n));
  }

  // ----- anchors

  function QueryKey(actual: seq<Phoneme>, q: Query): string
    requires q.offset + q.length <= |actual|
  {
    Join(actual[q.offset..q.offset + q.length])
  }

  /** Rarer lists first, then longer n-grams, then earlier offsets. */
  predicate AnchorBefore(x: Anchor, y: Anchor) {
    || |x.postings| < |y.postings|
    || (|x.postings| == |y.postings| && (x.length > y.length || (x.length == y.length && x.offset < y.offset)))
  }

  /** The anchor stands for an n-gram of the observation and carries all of its postings. */
  ghost predicate IsAnchor(index: IndexedCorpus, actual: seq<Phoneme>, a: Anchor) {
    && 0 < a.length <= MAX_NGRAM && a.offset + a.length <= |actual|
    && a.postings == PostingsOf(index.phonemeNgramPostings, QueryKey(actual, Query(a.length, a.offset)))
  }

  ghost predicate AreAnchors(index: IndexedCorpus, actual: seq<Phoneme>, anchors: seq<Anchor>) {
    forall i | 0 <= i < |anchors| :: IsAnchor(index, actual, anchors[i]) && Ascending(anchors[i].postings)
  }

  lemma FoundAnchor(index: IndexedCorpus, actual: seq<Phoneme>, q: Query)
    requires PostingsIndexed(index.symbols, index.phonemeNgramPostings) && 0 < q.length <= MAX_NGRAM && q.offset + q.length <= |actual|
    requires QueryKey(actual, q) in index.phonemeNgramPostings
    ensures var a := Anchor(q.length, q.offset, index.phonemeNgramPostings[QueryKey(actual, q)]);
            IsAnchor(index, actual, a) && Ascending(a.postings)
  {}

  function AnchorFor(index: IndexedCorpus, actual: seq<Phoneme>, q: Query): seq<Anchor>
    requires q.offset + q.length <= |actual|
  {
    var key := QueryKey(actual, q);
    if key in index.phonemeNgramPostings then [Anchor(q.length, q.offset, index.phonemeNgramPostings[key])] else []
  }

  predicate OffsetsFit(offsets: seq<nat>, length: nat, n: nat) { forall i | 0 <= i < |offsets| :: offsets[i] + length <= n }

  /** The anchors for n-grams of one length at the first k offsets. */
  function AnchorsAt(index: IndexedCorpus, actual: seq<Phoneme>, length: nat, offsets: seq<nat>, k: nat): seq<Anchor>
    requires k <= |offsets| && OffsetsFit(offsets, length, |actual|)
  {
    if k == 0 then [] else AnchorsAt(index, actual, length, offsets, k - 1) + AnchorFor(index, actual, Query(length, offsets[k - 1]))
  }

  /** The sampled offsets for each length, shortest first. */
  function OffsetTable(n: nat): seq<seq<nat>> {
    seq(MaximumLength(n), (i: nat) requires i < MaximumLength(n) => SampledOffsets(n - i, PerLengthBudget(n)))
  }

  ghost predicate TableFits(table: seq<seq<nat>>, n: nat) { forall i | 0 <= i < |table| :: OffsetsFit(table[i], i + 1, n) }

  lemma OffsetTableFits(n: nat)
    ensures TableFits(OffsetTable(n), n)
  {
    forall i | 0 <= i < MaximumLength(n) ensures OffsetsFit(OffsetTable(n)[i], i + 1, n) {
      var offsets := SampledOffsets(n - i, PerLengthBudget(n));
      SampledOffsetsSpread(n - i, PerLengthBudget(n));
      forall k | 0 <= k < |offsets| ensures offsets[k] + i + 1 <= n { assert offsets[k] in offsets; }
    }
  }

  /** The anchors of all n-grams at the offsets of a table, up to the given length, longest first. */
  ghost function AnchorsUpTo(index: IndexedCorpus, actual: seq<Phoneme>, table: seq<seq<nat>>, length: nat): seq<Anchor>
    requires length <= |table| && TableFits(table, |actual|)
  {
    if length == 0 then []
    else AnchorsAt(index, actual, length, table[length - 1], |table[length - 1]|) + AnchorsUpTo(index, actual, table, length - 1)
  }

  /** The anchors of all sampled n-grams. */
  ghost function SampledAnchors(index: IndexedCorpus, actual: seq<Phoneme>): seq<Anchor> {
    OffsetTableFits(|actual|);
    AnchorsUpTo(index, actual, OffsetTable(|actual|), MaximumLength(|actual|))
  }

  lemma {:induction false} AnchorsAtOffsets(index: IndexedCorpus, actual: seq<Phoneme>, length: nat, offsets: seq<nat>, k: nat)
    requires PostingsIndexed(index.symbols, index.phonemeNgramPostings) && 0 < length <= MAX_NGRAM
    requires k <= |offsets| && OffsetsFit(offsets, length, |actual|)
    ensures AreAnchors(index, actual, AnchorsAt(index, actual, length, offsets, k))
    ensures forall i | 0 <= i < k :: forall a <- AnchorFor(index, actual, Query(length, offsets[i])) ::
              a in AnchorsAt(index, actual, length, offsets, k)
    decreases k
  {
    if k > 0 {
      var q := Query(length, offsets[k - 1]);
      AnchorsAtOffsets(index, actual, length, offsets, k - 1);
      if QueryKey(actual, q) in index.phonemeNgramPostings { FoundAnchor(index, actual, q); }
    }
  }

  lemma {:induction false} AnchorsOfTable(index: IndexedCorpus, actual: seq<Phoneme>, table: seq<seq<nat>>, length: nat)
    requires PostingsIndexed(index.symbols, index.phonemeNgramPostings)
    requires length <= |table| <= MAX_NGRAM && TableFits(table, |actual|)
    ensures AreAnchors(index, actual, AnchorsUpTo(index, actual, table, length))
    decreases length
  {
    if length > 0 {
      AnchorsAtOffsets(index, actual, length, table[length - 1], |table[length - 1]|);
      AnchorsOfTable(index, actual, table, length - 1);
    }
  }

  lemma {:induction false} AnchorInTable(index: IndexedCorpus, actual: seq<Phoneme>, table: seq<seq<nat>>, length: nat, l: nat, i: nat)
    requires PostingsIndexed(index.symbols, index.phonemeNgramPostings)
    requires length <= |table| <= MAX_NGRAM && TableFits(table, |actual|) && l < length && i < |table[l]|
    ensures forall a <- AnchorFor(index, actual, Query(l + 1, table[l][i])) :: a in AnchorsUpTo(index, actual, table, length)
    decreases length
  {
    AnchorsAtOffsets(index, actual, length, table[length - 1], |table[length - 1]|);
    if l < length - 1 { AnchorInTable(index, actual, table, length - 1, l, i); }
  }

  lemma {:induction false} QueryInTable(n: nat, length: nat, q: Query) returns (l: nat, i: nat)
    requires length <= MaximumLength(n) && q in QueriesUpTo(n, length)
    ensures l < length && i < |OffsetTable(n)[l]| && q == Query(l + 1, OffsetTable(n)[l][i])
    decreases length
  {
    if q in QueriesOfLength(n, length) {
      l := length - 1;
      i := QueryOfLength(n, length, q);
    } else {
      l, i := QueryInTable(n, length - 1, q);
    }
  }

  lemma QueryOfLength(n: nat, length: nat, q: Query) returns (i: nat)
    requires 0 < length <= MaximumLength(n) && q in QueriesOfLength(n, length)
    ensures i < |OffsetTable(n)[length - 1]| && q == Query(length, OffsetTable(n)[length - 1][i])
  {
    var queries := QueriesOfLength(n, length);
    i :| 0 <= i < |queries| && queries[i] == q;
    assert n - (length - 1) == n - length + 1;
    assert OffsetTable(n)[length - 1] == SampledOffsets(n - length + 1, PerLengthBudget(n));
  }

  /** Every query whose n-gram occurs has its anchor. */
  lemma AnchorsOfQueries(index: IndexedCorpus, actual: seq<Phoneme>, q: Query)
    requires PostingsIndexed(index.symbols, index.phonemeNgramPostings)
    requires q in QueriesUpTo(|actual|, MaximumLength(|actual|)) && q.offset + q.length <= |actual|
    ensures forall a <- AnchorFor(index, actual, q) :: a in SampledAnchors(index, actual)
  {
    OffsetTableFits(|actual|);
    var l, i := QueryInTable(|actual|, MaximumLength(|actual|), q);
    AnchorInTable(index, actual, OffsetTable(|actual|), MaximumLength(|actual|), l, i);
  }

  lemma SortedAnchors(index: IndexedCorpus, actual: seq<Phoneme>, anchors: seq<Anchor>)
    requires AreAnchors(index, actual, anchors)
    ensures AreAnchors(index, actual, Sort(anchors, AnchorBefore)) && Ordered(Sort(anchors, AnchorBefore), AnchorBefore)
    ensures forall a <- anchors :: a in Sort(anchors, AnchorBefore)
  {
    SortOrders(anchors, AnchorBefore);
    SortKeepsElements(anchors, AnchorBefore);
    var sorted := Sort(anchors, AnchorBefore);
    forall i | 0 <= i < |sorted| ensures IsAnchor(index, actual, sorted[i]) && Ascending(sorted[i].postings) {
      assert sorted[i] in multiset(sorted) && sorted[i] in multiset(anchors);
    }
    forall a | a in anchors ensures a in sorted { assert a in multiset(anchors) && a in multiset(sorted); }
  }

  /** Looks up the n-grams of one length at the given offsets. */
  method QueryLength(index: IndexedCorpus, actual: seq<Phoneme>, length: nat, offsets: seq<nat>, queryCount: nat)
    returns (found: seq<Anchor>, count: nat)
    requires OffsetsFit(offsets, length, |actual|) && queryCount + |offsets| <= MAX_NGRAM_QUERIES
    ensures count == queryCount + |offsets| && found == AnchorsAt(index, actual, length, offsets, |offsets|)
  {
    found, count := [], queryCount;
    var i := 0;
    while i < |offsets| && count < MAX_NGRAM_QUERIES
      invariant i <= |offsets| && count == queryCount + i && found == AnchorsAt(index, actual, length, offsets, i)
    {
      found := found + AnchorFor(index, actual, Query(length, offsets[i]));
      count, i := count + 1, i + 1;
    }
  }

  function CountUpTo(table: seq<seq<nat>>, length: nat): nat
    requires length <= |table|
  {
    if length == 0 then 0 else |table[length - 1]| + CountUpTo(table, length - 1)
  }

  lemma {:induction false} CountIsQueries(n: nat, length: nat)
    requires length <= MaximumLength(n)
    ensures CountUpTo(OffsetTable(n), length) == |QueriesUpTo(n, length)|
    decreases length
  {
    if length > 0 { CountIsQueries(n, length - 1); }
  }

  /** The anchors of the sampled n-grams that occur at all, rarest first; every sampled n-gram is looked
      up, in at most 48 lookups. */
  method QueryAnchors(index: IndexedCorpus, actual: seq<Phoneme>) returns (anchors: seq<Anchor>, ghost lookups: nat)
    requires PostingsIndexed(index.symbols, index.phonemeNgramPostings) && actual != []
    ensures lookups == |QueriesUpTo(|actual|, MaximumLength(|actual|))| <= MAX_NGRAM_QUERIES
    ensures anchors == Sort(SampledAnchors(index, actual), AnchorBefore)
    ensures AreAnchors(index, actual, anchors) && Ordered(anchors, AnchorBefore)
  {
    QueriesBounded(|actual|);
    CountIsQueries(|actual|, MaximumLength(|actual|));
    OffsetTableFits(|actual|);
    var found;
    found, lookups := FindAnchors(index, actual, OffsetTable(|actual|));
    AnchorsOfTable(index, actual, OffsetTable(|actual|), MaximumLength(|actual|));
    SortedAnchors(index, actual, found);
    anchors := Sort(found, AnchorBefore);
  }

  /** The offsets for a length are sampled when that length comes up. */
  method FindAnchors(index: IndexedCorpus, actual: seq<Phoneme>, ghost table: seq<seq<nat>>) returns (found: seq<Anchor>, ghost lookups: nat)
    requires actual != [] && table == OffsetTable(|actual|) && TableFits(table, |actual|)
    requires CountUpTo(table, MaximumLength(|actual|)) <= MAX_NGRAM_QUERIES
    ensures lookups == CountUpTo(table, MaximumLength(|actual|))
    ensures found == AnchorsUpTo(index, actual, table, MaximumLength(|actual|))
  {
    ghost var total, all := CountUpTo(table, |table|), AnchorsUpTo(index, actual, table, |table|);
    found := [];
    var queryCount: nat, length: nat := 0, MaximumLength(|actual|);
    while length >= 1
      invariant length <= |table| && queryCount + CountUpTo(table, length) == total
      invariant found + AnchorsUpTo(index, actual, table, length) == all
    {
      found, queryCount := FindLength(index, actual, length, found, queryCount, table);
      length := length - 1;
    }
    lookups := queryCount;
  }

  method FindLength(index: IndexedCorpus, actual: seq<Phoneme>, length: nat, before: seq<Anchor>, queryCount: nat, ghost table: seq<seq<nat>>)
    returns (found: seq<Anchor>, count: nat)
    requires table == OffsetTable(|actual|) && TableFits(table, |actual|)
    requires 0 < length <= |table| && queryCount + CountUpTo(table, length) <= MAX_NGRAM_QUERIES
    ensures count + CountUpTo(table, length - 1) == queryCount + CountUpTo(table, length)
    ensures found + AnchorsUpTo(index, actual, table, length - 1) == before + AnchorsUpTo(index, actual, table, length)
  {
    var offsets := SampledOffsets(|actual| - length + 1, PerLengthBudget(|actual|));
    assert offsets == table[length - 1];
    var more;
    more, count := QueryLength(index, actual, length, offsets, queryCount);
    found := before + more;
    assert before + AnchorsUpTo(index, actual, table, length) == before + (more + AnchorsUpTo(index, actual, table, length - 1));
  }
}
