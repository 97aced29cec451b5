/**
 Which words an aligned observation completes.

 The program commits only the words touched by the alignment. `CommitTouchedIsCommitAll` shows
 that this loses nothing against going through every word of the corpus in order.
 */
module WordProgress {
  import opened Sequences
  import opened EditScript
  import opened Corpus
  import opened IndexCorpus

  const PARTIAL_COMMIT_LOOKAHEAD := 2

  // ----- words by position

  /** The facts about an index used here: non-empty, distinctly named words tile n positions. */
  ghost predicate Words(words: seq<Word>, n: nat) {
    && (forall k | 0 <= k < |words| :: words[k].symbolIds != [])
    && DistinctWordIds(words)
    && WordStart(words, |words|) == n
  }

  lemma {:induction false} StartsIncrease(words: seq<Word>, n: nat, k: nat, l: nat)
    requires Words(words, n) && k < l <= |words|
    ensures WordStart(words, k) < WordStart(words, k + 1) <= WordStart(words, l) <= n
    decreases l
  {
    if k < l - 1 {
      StartsIncrease(words, n, k, l - 1);
    } else if l < |words| {
      StartsMonotone(words, l, |words|);
    }
    if l < |words| { StartsMonotone(words, l, |words|); }
  }

  lemma {:induction false} StartsMonotone(words: seq<Word>, k: nat, l: nat)
    requires k <= l <= |words|
    ensures WordStart(words, k) <= WordStart(words, l)
    decreases l
  {
    if k < l { StartsMonotone(words, k, l - 1); }
  }

  /** The word among those from k on that contains position p. */
  function WordFrom(words: seq<Word>, p: nat, k: nat): nat
    requires k <= |words|
    decreases |words| - k
  {
    if k == |words| || p < WordStart(words, k + 1) then k else WordFrom(words, p, k + 1)
  }

  function WordAt(words: seq<Word>, p: nat): nat { WordFrom(words, p, 0) }

  predicate Contains(words: seq<Word>, k: nat, p: nat) {
    k < |words| && WordStart(words, k) <= p < WordStart(words, k + 1)
  }

  lemma {:induction false} WordFromContains(words: seq<Word>, n: nat, p: nat, k: nat)
    requires Words(words, n) && p < n && k <= |words| && WordStart(words, k) <= p
    ensures Contains(words, WordFrom(words, p, k), p)
    decreases |words| - k
  {
    if k < |words| && WordStart(words, k + 1) <= p { WordFromContains(words, n, p, k + 1); }
  }

  lemma OnlyOneWord(words: seq<Word>, n: nat, p: nat, k: nat, l: nat)
    requires Words(words, n) && Contains(words, k, p) && Contains(words, l, p)
    ensures k == l
  {
    if k < l { StartsMonotone(words, k + 1, l); }
    if l < k { StartsMonotone(words, l + 1, k); }
  }

  lemma WordAtContains(words: seq<Word>, n: nat, p: nat)
    requires Words(words, n) && p < n
    ensures Contains(words, WordAt(words, p), p)
  {
    WordFromContains(words, n, p, 0);
  }

  /** The next position lies in the same word or in the next one. */
  lemma WordAtNext(words: seq<Word>, n: nat, p: nat)
    requires Words(words, n) && p + 1 < n
    ensures WordAt(words, p + 1) == WordAt(words, p) || WordAt(words, p + 1) == WordAt(words, p) + 1
  {
    WordAtContains(words, n, p);
    WordAtContains(words, n, p + 1);
    var k := WordAt(words, p);
    if p + 1 < WordStart(words, k + 1) {
      OnlyOneWord(words, n, p + 1, k, WordAt(words, p + 1));
    } else {
      if k + 1 < |words| { StartsIncrease(words, n, k + 1, |words|); }
      OnlyOneWord(words, n, p + 1, k + 1, WordAt(words, p + 1));
    }
  }

  // ----- one word

  datatype Progress = Progress(committedSymbol: nat, completedWordIds: seq<string>, completedWordIdSet: set<string>)

  /** What an alignment offers: where it starts, which positions it pairs and matches, and whether
      the observation is final. */
  datatype Support = Support(start: nat, consumed: set<nat>, matched: set<nat>, isFinal: bool)

  predicate WordConsumed(words: seq<Word>, s: Support, k: nat)
    requires k < |words|
  {
    forall p | WordStart(words, k) <= p < WordStart(words, k + 1) :: p in s.consumed
  }

  predicate HasLookahead(words: seq<Word>, s: Support, k: nat)
    requires k < |words|
  {
    s.isFinal || (WordStart(words, k + 1) in s.matched && WordStart(words, k + 1) + 1 in s.matched)
  }

  predicate Commits(words: seq<Word>, s: Support, committedSymbol: nat, k: nat)
    requires k < |words|
  {
    && WordStart(words, k + 1) - 1 >= committedSymbol && WordStart(words, k) >= s.start
    && WordConsumed(words, s, k) && HasLookahead(words, s, k)
  }

  function CommitWord(words: seq<Word>, s: Support, p: Progress, k: nat): Progress
    requires k < |words|
  {
    if !Commits(words, s, p.committedSymbol, k) then p
    else
      var id := words[k].id;
      Progress(Max(p.committedSymbol, WordStart(words, k + 1) - 1),
               if id in p.completedWordIdSet then p.completedWordIds else p.completedWordIds + [id],
               p.completedWordIdSet + {id})
  }

  predicate AreWords(words: seq<Word>, ks: seq<nat>) { forall i | 0 <= i < |ks| :: ks[i] < |words| }

  /** Goes through the given words in order. */
  function CommitWords(words: seq<Word>, s: Support, p: Progress, ks: seq<nat>): Progress
    requires AreWords(words, ks)
  {
    if ks == [] then p
    else CommitWord(words, s, CommitWords(words, s, p, ks[..|ks| - 1]), ks[|ks| - 1])
  }

  function Interval(from: nat, upTo: nat): (r: seq<nat>)
    requires from <= upTo
    ensures |r| == upTo - from && forall i | 0 <= i < |r| :: r[i] == from + i
  {
    seq(upTo - from, (i: nat) => from + i)
  }

  // ----- touched words are enough

  /** Everything consumed or matched lies in the `length` positions from the start of the support. */
  ghost predicate Within(s: Support, length: nat) {
    s.matched <= s.consumed && forall p <- s.consumed :: s.start <= p < s.start + length
  }

  function LastTouched(n: nat, s: Support, length: nat): nat
    requires n > 0
  {
    Min(n - 1, s.start + length - 1 + PARTIAL_COMMIT_LOOKAHEAD)
  }

  /** The words from the one at the first reference position to the one two positions after the last. */
  function TouchedInterval(words: seq<Word>, n: nat, s: Support, length: nat): seq<nat>
    requires n > 0 && WordAt(words, s.start) <= WordAt(words, LastTouched(n, s, length))
  {
    Interval(WordAt(words, s.start), WordAt(words, LastTouched(n, s, length)) + 1)
  }

  lemma {:induction false} WordAtMonotone(words: seq<Word>, n: nat, p: nat, q: nat)
    requires Words(words, n) && p <= q < n
    ensures WordAt(words, p) <= WordAt(words, q) < |words|
    decreases q
  {
    WordAtContains(words, n, q);
    if p < q {
      WordAtMonotone(words, n, p, q - 1);
      WordAtNext(words, n, q - 1);
    }
  }

  lemma UntouchedDoesNotCommit(words: seq<Word>, n: nat, s: Support, length: nat, committedSymbol: nat, k: nat)
    requires Words(words, n) && Within(s, length) && 0 < length && s.start + length <= n && k < |words|
    requires k < WordAt(words, s.start) || k > WordAt(words, LastTouched(n, s, length))
    ensures !Commits(words, s, committedSymbol, k)
  {
    StartsIncrease(words, n, k, |words|);
    if k < WordAt(words, s.start) {
      WordAtContains(words, n, s.start);
      StartsMonotone(words, k + 1, WordAt(words, s.start));
    } else {
      var last := LastTouched(n, s, length);
      WordAtContains(words, n, last);
      StartsMonotone(words, WordAt(words, last) + 1, k);
      assert WordStart(words, k) !in s.consumed;
    }
  }

  lemma {:induction false} CommitInterval(words: seq<Word>, n: nat, s: Support, length: nat, p: Progress, upTo: nat)
    requires Words(words, n) && Within(s, length) && 0 < length && s.start + length <= n && upTo <= |words|
    ensures var from, end := WordAt(words, s.start), WordAt(words, LastTouched(n, s, length)) + 1;
            from <= end <= |words|
            && CommitWords(words, s, p, Interval(0, upTo))
               == if upTo <= from then p else CommitWords(words, s, p, Interval(from, Min(upTo, end)))
    decreases upTo
  {
    hide WordAt, Words;
    WordAtMonotone(words, n, s.start, LastTouched(n, s, length));
    var from, end := WordAt(words, s.start), WordAt(words, LastTouched(n, s, length)) + 1;
    if upTo > 0 {
      CommitInterval(words, n, s, length, p, upTo - 1);
      assert Interval(0, upTo)[..upTo - 1] == Interval(0, upTo - 1);
      var k := upTo - 1;
      if k < from || k >= end {
        UntouchedDoesNotCommit(words, n, s, length, CommitWords(words, s, p, Interval(0, k)).committedSymbol, k);
      } else {
        assert Interval(from, upTo)[..upTo - from - 1] == Interval(from, k);
      }
    }
  }

  /** Committing only the touched words gives the same progress as going through every word of the
      corpus in order. */
  lemma CommitTouchedIsCommitAll(words: seq<Word>, n: nat, s: Support, length: nat, p: Progress)
    requires Words(words, n) && Within(s, length) && 0 < length && s.start + length <= n
    ensures WordAt(words, s.start) <= WordAt(words, LastTouched(n, s, length)) < |words|
    ensures CommitWords(words, s, p, TouchedInterval(words, n, s, length)) == CommitWords(words, s, p, Interval(0, |words|))
  {
    CommitInterval(words, n, s, length, p, |words|);
    WordAtMonotone(words, n, s.start, LastTouched(n, s, length));
    assert Min(|words|, WordAt(words, LastTouched(n, s, length)) + 1) == WordAt(words, LastTouched(n, s, length)) + 1;
  }

  // ----- order of completion

  function WordIndexOf(words: seq<Word>, id: string): (k: nat)
    ensures k <= |words| && (k < |words| ==> words[k].id == id)
  {
    if words == [] then 0 else if words[|words| - 1].id == id then |words| - 1
    else
      var k := WordIndexOf(words[..|words| - 1], id);
      if k < |words| - 1 then k else |words|
  }

  lemma {:induction false} WordIndexOfOwnId(words: seq<Word>, k: nat)
    requires DistinctWordIds(words) && k < |words|
    ensures WordIndexOf(words, words[k].id) == k
    decreases |words|
  {
    if k < |words| - 1 { WordIndexOfOwnId(words[..|words| - 1], k); }
  }

  predicate InCorpusOrder(words: seq<Word>, ids: seq<string>) {
    && (forall i | 0 <= i < |ids| :: WordIndexOf(words, ids[i]) < |words|)
    && (forall i, j | 0 <= i < j < |ids| :: WordIndexOf(words, ids[i]) < WordIndexOf(words, ids[j]))
  }

  function LastSymbol(words: seq<Word>, id: string): nat {
    var k := WordIndexOf(words, id);
    if k < |words| && WordStart(words, k + 1) > 0 then WordStart(words, k + 1) - 1 else 0
  }

  /** The maximum of the initial symbol and the last symbols of the completed words. */
  function CommitPoint(words: seq<Word>, initialSymbol: nat, ids: seq<string>): nat {
    if ids == [] then initialSymbol
    else Max(CommitPoint(words, initialSymbol, ids[..|ids| - 1]), LastSymbol(words, ids[|ids| - 1]))
  }

  lemma {:induction false} CommitPointBounds(words: seq<Word>, initialSymbol: nat, ids: seq<string>)
    ensures initialSymbol <= CommitPoint(words, initialSymbol, ids)
    ensures forall i | 0 <= i < |ids| :: LastSymbol(words, ids[i]) <= CommitPoint(words, initialSymbol, ids)
    decreases |ids|
  {
    if ids != [] { CommitPointBounds(words, initialSymbol, ids[..|ids| - 1]); }
  }

  /** Completed words are in strictly increasing corpus order without repetition, and the commit
      point is the maximum of the initial symbol and their last symbols. */
  ghost predicate Consistent(words: seq<Word>, n: nat, initialSymbol: nat, p: Progress) {
    && InCorpusOrder(words, p.completedWordIds)
    && p.completedWordIdSet == IdSet(p.completedWordIds)
    && p.committedSymbol == CommitPoint(words, initialSymbol, p.completedWordIds) < n
  }

  lemma EarlierEnd(words: seq<Word>, n: nat, k: nat, l: nat)
    requires Words(words, n) && k < |words| && l < |words| && WordStart(words, l + 1) <= WordStart(words, k + 1)
    ensures l <= k
  {
    if k < l { StartsIncrease(words, n, k + 1, l + 1); }
  }

  /** A word that is committed for the first time comes after every word completed before. */
  lemma LaterWordIsNew(words: seq<Word>, n: nat, initialSymbol: nat, p: Progress, k: nat, i: nat)
    requires Words(words, n) && k < |words| && i < |p.completedWordIds|
    requires WordIndexOf(words, p.completedWordIds[i]) < |words|
    requires p.committedSymbol == CommitPoint(words, initialSymbol, p.completedWordIds) <= WordStart(words, k + 1) - 1
    requires words[k].id != p.completedWordIds[i]
    ensures WordIndexOf(words, p.completedWordIds[i]) < k
  {
    CommitPointBounds(words, initialSymbol, p.completedWordIds);
    var l := WordIndexOf(words, p.completedWordIds[i]);
    StartsIncrease(words, n, l, |words|);
    assert LastSymbol(words, p.completedWordIds[i]) == WordStart(words, l + 1) - 1;
    EarlierEnd(words, n, k, l);
  }

  lemma AllEarlier(words: seq<Word>, n: nat, initialSymbol: nat, p: Progress, k: nat)
    requires Words(words, n) && Consistent(words, n, initialSymbol, p) && k < |words|
    requires p.committedSymbol <= WordStart(words, k + 1) - 1 && words[k].id !in p.completedWordIdSet
    ensures forall i | 0 <= i < |p.completedWordIds| :: WordIndexOf(words, p.completedWordIds[i]) < k
  {
    forall i | 0 <= i < |p.completedWordIds| ensures WordIndexOf(words, p.completedWordIds[i]) < k {
      assert p.completedWordIds[i] in IdSet(p.completedWordIds);
      LaterWordIsNew(words, n, initialSymbol, p, k, i);
    }
  }

  lemma LastSymbolOf(words: seq<Word>, k: nat)
    requires DistinctWordIds(words) && k < |words| && WordStart(words, k) < WordStart(words, k + 1)
    ensures LastSymbol(words, words[k].id) == WordStart(words, k + 1) - 1
  {
    WordIndexOfOwnId(words, k);
  }

  lemma AppendCompleted(words: seq<Word>, n: nat, initialSymbol: nat, p: Progress, k: nat)
    requires Words(words, n) && Consistent(words, n, initialSymbol, p) && k < |words|
    requires p.committedSymbol <= WordStart(words, k + 1) - 1 && words[k].id !in p.completedWordIdSet
    ensures Consistent(words, n, initialSymbol,
                       Progress(WordStart(words, k + 1) - 1, p.completedWordIds + [words[k].id], p.completedWordIdSet + {words[k].id}))
  {
    hide CommitPoint, InCorpusOrder, LastSymbol, WordIndexOf, IdSet;
    var q := Progress(WordStart(words, k + 1) - 1, p.completedWordIds + [words[k].id], p.completedWordIdSet + {words[k].id});
    var id := words[k].id;
    StartsIncrease(words, n, k, |words|);
    WordIndexOfOwnId(words, k);
    LastSymbolOf(words, k);
    AllEarlier(words, n, initialSymbol, p, k);
    OrderGrows(words, p.completedWordIds, id);
    PointGrows(words, initialSymbol, p.completedWordIds, id);
    assert q.committedSymbol == CommitPoint(words, initialSymbol, q.completedWordIds);
  }

  lemma OrderGrows(words: seq<Word>, ids: seq<string>, id: string)
    requires InCorpusOrder(words, ids) && WordIndexOf(words, id) < |words|
    requires forall i | 0 <= i < |ids| :: WordIndexOf(words, ids[i]) < WordIndexOf(words, id)
    ensures InCorpusOrder(words, ids + [id])
  {}

  lemma PointGrows(words: seq<Word>, initialSymbol: nat, ids: seq<string>, id: string)
    ensures CommitPoint(words, initialSymbol, ids + [id]) == Max(CommitPoint(words, initialSymbol, ids), LastSymbol(words, id))
    ensures IdSet(ids + [id]) == IdSet(ids) + {id}
  {
    assert (ids + [id])[..|ids|] == ids;
  }

  /** Committing a word only appends to the completed words and never moves the commit point back. */
  lemma CommitWordKeeps(words: seq<Word>, n: nat, initialSymbol: nat, s: Support, p: Progress, k: nat)
    requires Words(words, n) && Consistent(words, n, initialSymbol, p) && k < |words|
    ensures var q := CommitWord(words, s, p, k);
            && Consistent(words, n, initialSymbol, q)
            && p.completedWordIds <= q.completedWordIds && p.committedSymbol <= q.committedSymbol
  {
    if Commits(words, s, p.committedSymbol, k) {
      var id := words[k].id;
      if id in p.completedWordIdSet {
        RepeatedWord(words, n, initialSymbol, p, k);
      } else {
        AppendCompleted(words, n, initialSymbol, p, k);
      }
    }
  }

  /** A word committed again is the last one; nothing changes. */
  lemma RepeatedWord(words: seq<Word>, n: nat, initialSymbol: nat, p: Progress, k: nat)
    requires Words(words, n) && Consistent(words, n, initialSymbol, p) && k < |words|
    requires p.committedSymbol <= WordStart(words, k + 1) - 1 && words[k].id in p.completedWordIdSet
    ensures p.committedSymbol == WordStart(words, k + 1) - 1 && p.completedWordIdSet + {words[k].id} == p.completedWordIdSet
  {
    var i :| 0 <= i < |p.completedWordIds| && p.completedWordIds[i] == words[k].id;
    WordIndexOfOwnId(words, k);
    CommitPointBounds(words, initialSymbol, p.completedWordIds);
    StartsIncrease(words, n, k, |words|);
  }

  lemma {:induction false} CommitWordsKeep(words: seq<Word>, n: nat, initialSymbol: nat, s: Support, p: Progress, ks: seq<nat>)
    requires Words(words, n) && Consistent(words, n, initialSymbol, p) && AreWords(words, ks)
    ensures var q := CommitWords(words, s, p, ks);
            && Consistent(words, n, initialSymbol, q)
            && p.completedWordIds <= q.completedWordIds && p.committedSymbol <= q.committedSymbol
    decreases |ks|
  {
    if ks != [] {
      CommitWordsKeep(words, n, initialSymbol, s, p, ks[..|ks| - 1]);
      CommitWordKeeps(words, n, initialSymbol, s, CommitWords(words, s, p, ks[..|ks| - 1]), ks[|ks| - 1]);
    }
  }

  /** The new commit point is the old one or a consumed position; a partial observation that
      completes a word has also matched the two positions after the new commit point. */
  lemma {:induction false} CommitIsSupported(words: seq<Word>, n: nat, s: Support, p: Progress, ks: seq<nat>)
    requires Words(words, n) && AreWords(words, ks)
    ensures var q := CommitWords(words, s, p, ks);
            && (q == p || q.committedSymbol in s.consumed)
            && (q != p && !s.isFinal ==> q.committedSymbol + 1 in s.matched && q.committedSymbol + 2 in s.matched)
    decreases |ks|
  {
    if ks != [] {
      var k := ks[|ks| - 1];
      CommitIsSupported(words, n, s, p, ks[..|ks| - 1]);
      StartsIncrease(words, n, k, |words|);
      var q := CommitWords(words, s, p, ks[..|ks| - 1]);
      if Commits(words, s, q.committedSymbol, k) {
        assert WordStart(words, k + 1) - 1 in s.consumed;
      }
    }
  }
}
