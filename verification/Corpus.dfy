/**
 The canonical corpus: symbols with four-part locations, grouped into words.

 `ValidCorpus` collects the local checks made on a corpus. `WordsTileSymbols` draws the global
 conclusion from them that the rest of the program relies on: the words cut the symbol array
 into consecutive pieces, in order and without gaps.
 */
module Corpus {
  import opened Sequences
  import opened EditScript

  datatype WordLocation = WordLocation(surah: int, ayah: int, word: int)

  datatype Location = Location(surah: int, ayah: int, word: int, symbol: int) {
    function Word(): WordLocation { WordLocation(surah, ayah, word) }
  }

  datatype Symbol = Symbol(id: string, text: string, phoneme: Phoneme, location: Location)

  datatype Word = Word(id: string, text: string, symbolIds: seq<string>, location: WordLocation)

  datatype QuranCorpus = QuranCorpus(corpusId: string, revision: string, symbols: seq<Symbol>, words: seq<Word>)

  const WHITESPACE := {' ', '\t', '\n', '\r', '\U{000B}', '\U{000C}', '\U{00A0}', '\U{1680}', '\U{2028}', '\U{2029}',
                       '\U{202F}', '\U{205F}', '\U{3000}', '\U{FEFF}'} + set c: char | '\U{2000}' <= c <= '\U{200A}'

  predicate NonBlank(s: string) { exists c <- s :: c !in WHITESPACE }

  // ----- order of locations

  predicate WordBefore(x: WordLocation, y: WordLocation) {
    || x.surah < y.surah
    || (x.surah == y.surah && (x.ayah < y.ayah || (x.ayah == y.ayah && x.word < y.word)))
  }

  predicate Before(x: Location, y: Location) {
    WordBefore(x.Word(), y.Word()) || (x.Word() == y.Word() && x.symbol < y.symbol)
  }

  // ----- the local checks

  predicate ValidWordLocation(l: WordLocation) { l.surah > 0 && l.ayah > 0 && l.word > 0 }

  predicate ValidSymbol(s: Symbol) {
    NonBlank(s.id) && NonBlank(s.phoneme) && ValidWordLocation(s.location.Word()) && s.location.symbol > 0
  }

  predicate ValidWord(w: Word) {
    && NonBlank(w.id) && w.symbolIds != [] && (forall id <- w.symbolIds :: NonBlank(id))
    && ValidWordLocation(w.location)
  }

  /** The position of the symbol with the given id; past the end when there is none. */
  function IndexOf(symbols: seq<Symbol>, id: string): (i: nat)
    ensures i <= |symbols| && (i < |symbols| ==> symbols[i].id == id)
    ensures i == |symbols| <==> forall s <- symbols :: s.id != id
  {
    if symbols == [] then 0
    else if symbols[0].id == id then 0
    else 1 + IndexOf(symbols[1..], id)
  }

  predicate DistinctSymbolIds(symbols: seq<Symbol>) {
    forall i, j | 0 <= i < j < |symbols| :: symbols[i].id != symbols[j].id
  }

  predicate OrderedSymbols(symbols: seq<Symbol>) {
    forall i | 0 < i < |symbols| :: Before(symbols[i - 1].location, symbols[i].location)
  }

  predicate DistinctWordIds(words: seq<Word>) {
    forall k, l | 0 <= k < l < |words| :: words[k].id != words[l].id
  }

  predicate OrderedWords(words: seq<Word>) {
    forall k | 0 < k < |words| :: WordBefore(words[k - 1].location, words[k].location)
  }

  /** The word's symbol ids name existing symbols at the word's own location, in array order. */
  predicate WordMatchesSymbols(symbols: seq<Symbol>, w: Word) {
    && (forall j | 0 <= j < |w.symbolIds| ::
          var i := IndexOf(symbols, w.symbolIds[j]);
          i < |symbols| && symbols[i].location.Word() == w.location)
    && (forall j | 0 < j < |w.symbolIds| :: IndexOf(symbols, w.symbolIds[j - 1]) < IndexOf(symbols, w.symbolIds[j]))
  }

  predicate References(w: Word, id: string) { id in w.symbolIds }

  predicate NoSymbolShared(words: seq<Word>) {
    forall k, l | 0 <= k < l < |words| :: forall id | id in words[l].symbolIds :: !References(words[k], id)
  }

  predicate EverySymbolReferenced(symbols: seq<Symbol>, words: seq<Word>) {
    forall s <- symbols :: exists w <- words :: References(w, s.id)
  }

  /** The kinds of defect a corpus can be rejected for. */
  datatype Defect =
    | BlankIdentifier | MalformedSymbol | DuplicateSymbolId | SymbolsOutOfOrder
    | MalformedWord | DuplicateWordId | WordsOutOfOrder
    | WordMismatch | SymbolShared | SymbolUnreferenced

  predicate HasDefect(c: QuranCorpus, d: Defect) {
    match d
    case BlankIdentifier => !NonBlank(c.corpusId) || !NonBlank(c.revision)
    case MalformedSymbol => exists s <- c.symbols :: !ValidSymbol(s)
    case DuplicateSymbolId => !DistinctSymbolIds(c.symbols)
    case SymbolsOutOfOrder => !OrderedSymbols(c.symbols)
    case MalformedWord => exists w <- c.words :: !ValidWord(w)
    case DuplicateWordId => !DistinctWordIds(c.words)
    case WordsOutOfOrder => !OrderedWords(c.words)
    case WordMismatch => exists w <- c.words :: !WordMatchesSymbols(c.symbols, w)
    case SymbolShared => !NoSymbolShared(c.words)
    case SymbolUnreferenced => !EverySymbolReferenced(c.symbols, c.words)
  }

  ghost predicate ValidCorpus(c: QuranCorpus) { forall d: Defect :: !HasDefect(c, d) }

  /** The checks one by one. */
  lemma ChecksOfValidCorpus(c: QuranCorpus)
    ensures ValidCorpus(c) <==>
            && NonBlank(c.corpusId) && NonBlank(c.revision)
            && (forall s <- c.symbols :: ValidSymbol(s)) && DistinctSymbolIds(c.symbols) && OrderedSymbols(c.symbols)
            && (forall w <- c.words :: ValidWord(w)) && DistinctWordIds(c.words) && OrderedWords(c.words)
            && (forall w <- c.words :: WordMatchesSymbols(c.symbols, w))
            && NoSymbolShared(c.words)
            && EverySymbolReferenced(c.symbols, c.words)
  {
    assert ValidCorpus(c) ==>
        !HasDefect(c, BlankIdentifier) && !HasDefect(c, MalformedSymbol) && !HasDefect(c, DuplicateSymbolId)
        && !HasDefect(c, SymbolsOutOfOrder) && !HasDefect(c, MalformedWord) && !HasDefect(c, DuplicateWordId)
        && !HasDefect(c, WordsOutOfOrder) && !HasDefect(c, WordMismatch) && !HasDefect(c, SymbolShared)
        && !HasDefect(c, SymbolUnreferenced);
  }

  // ----- order is global

  lemma {:induction false} SymbolsOrderedThroughout(symbols: seq<Symbol>, i: nat, j: nat)
    requires OrderedSymbols(symbols) && i < j < |symbols|
    ensures Before(symbols[i].location, symbols[j].location)
    decreases j
  {
    if i < j - 1 { SymbolsOrderedThroughout(symbols, i, j - 1); }
  }

  lemma {:induction false} WordsOrderedThroughout(words: seq<Word>, k: nat, l: nat)
    requires OrderedWords(words) && k < l < |words|
    ensures WordBefore(words[k].location, words[l].location)
    decreases l
  {
    if k < l - 1 { WordsOrderedThroughout(words, k, l - 1); }
  }

  // ----- tiling

  /** The number of positions in the first k groups. */
  function Offset(groups: seq<seq<nat>>, k: nat): nat
    requires k <= |groups|
  {
    if k == 0 then 0 else Offset(groups, k - 1) + |groups[k - 1]|
  }

  lemma {:induction false} OffsetMonotone(groups: seq<seq<nat>>, k: nat, l: nat)
    requires k < l <= |groups|
    ensures Offset(groups, k) + |groups[k]| <= Offset(groups, l)
    decreases l
  {
    if k < l - 1 { OffsetMonotone(groups, k, l - 1); }
  }

  lemma {:induction false} GroupAtOffset(groups: seq<seq<nat>>, k: nat, p: nat) returns (l: nat, i: nat)
    requires k <= |groups| && p < Offset(groups, k)
    ensures l < k && i < |groups[l]| && p == Offset(groups, l) + i
    decreases k
  {
    if p < Offset(groups, k - 1) {
      l, i := GroupAtOffset(groups, k - 1, p);
    } else {
      l, i := k - 1, p - Offset(groups, k - 1);
    }
  }

  ghost predicate Owns(groups: seq<seq<nat>>, owner: seq<nat>, k: nat)
    requires k < |groups|
  {
    Ascending(groups[k]) && forall j | 0 <= j < |groups[k]| :: groups[k][j] < |owner| && owner[groups[k][j]] == k
  }

  ghost predicate Owned(groups: seq<seq<nat>>, owner: seq<nat>, p: nat)
    requires p < |owner|
  {
    owner[p] < |groups| && exists j :: 0 <= j < |groups[owner[p]]| && groups[owner[p]][j] == p
  }

  /** Each group lists its own positions in increasing order, every position has an owner, and
      later positions have no earlier owner. */
  ghost predicate OwnedInOrder(groups: seq<seq<nat>>, owner: seq<nat>) {
    && (forall k | 0 <= k < |groups| :: Owns(groups, owner, k))
    && (forall p | 0 <= p < |owner| :: Owned(groups, owner, p))
    && (forall p, q | 0 <= p < q < |owner| :: owner[p] <= owner[q])
  }

  /** The first j positions of group k follow directly on the groups before it. */
  ghost predicate TiledGroup(groups: seq<seq<nat>>, k: nat, j: nat)
    requires k < |groups| && j <= |groups[k]|
  {
    forall i | 0 <= i < j :: groups[k][i] == Offset(groups, k) + i
  }

  ghost predicate Tiled(groups: seq<seq<nat>>, k: nat)
    requires k <= |groups|
  {
    forall l | 0 <= l < k :: TiledGroup(groups, l, |groups[l]|)
  }

  /** A position of a tiled group lies in front of every later offset. */
  lemma TiledPosition(groups: seq<seq<nat>>, l: nat, i: nat, k: nat)
    requires l < k <= |groups| && TiledGroup(groups, l, |groups[l]|) && i < |groups[l]|
    ensures groups[l][i] == Offset(groups, l) + i < Offset(groups, k)
  {
    OffsetMonotone(groups, l, k);
  }

  lemma NotBeforeOffset(groups: seq<seq<nat>>, owner: seq<nat>, k: nat, j: nat)
    requires k < |groups| && j < |groups[k]| && Tiled(groups, k)
    requires forall l | 0 <= l < |groups| :: Owns(groups, owner, l)
    ensures groups[k][j] >= Offset(groups, k)
  {
    var q := groups[k][j];
    forall l, i | 0 <= l < k && 0 <= i < |groups[l]| ensures groups[l][i] != q {
      assert Owns(groups, owner, l) && Owns(groups, owner, k);
    }
    if q < Offset(groups, k) {
      var l, i := GroupAtOffset(groups, k, q);
      TiledPosition(groups, l, i, k);
    }
  }

  lemma NoGap(groups: seq<seq<nat>>, owner: seq<nat>, k: nat, j: nat, p: nat)
    requires OwnedInOrder(groups, owner) && k < |groups| && j < |groups[k]|
    requires Tiled(groups, k) && TiledGroup(groups, k, j) && p == Offset(groups, k) + j
    ensures groups[k][j] <= p
  {
    assert Owns(groups, owner, k);
    var q := groups[k][j];
    if p < q {
      assert Owned(groups, owner, p);
      var l := owner[p];
      var i :| 0 <= i < |groups[l]| && groups[l][i] == p;
      if l < k { TiledPosition(groups, l, i, k); }
    }
  }

  lemma {:induction false} NextGroup(groups: seq<seq<nat>>, owner: seq<nat>, k: nat, j: nat)
    requires OwnedInOrder(groups, owner) && k < |groups| && j <= |groups[k]| && Tiled(groups, k)
    ensures TiledGroup(groups, k, j)
    decreases j
  {
    if j > 0 {
      NextGroup(groups, owner, k, j - 1);
      NotBeforeOffset(groups, owner, k, j - 1);
      NoGap(groups, owner, k, j - 1, Offset(groups, k) + j - 1);
      assert Owns(groups, owner, k);
      if j > 1 { assert groups[k][j - 2] < groups[k][j - 1]; }
    }
  }

  /** Groups owned in order are consecutive intervals. */
  lemma {:induction false} GroupsTile(groups: seq<seq<nat>>, owner: seq<nat>, k: nat)
    requires OwnedInOrder(groups, owner) && k <= |groups|
    ensures Tiled(groups, k)
    decreases k
  {
    if k > 0 {
      GroupsTile(groups, owner, k - 1);
      NextGroup(groups, owner, k - 1, |groups[k - 1]|);
    }
  }

  /** Together the groups cover every position. */
  lemma GroupsCover(groups: seq<seq<nat>>, owner: seq<nat>)
    requires OwnedInOrder(groups, owner) && Tiled(groups, |groups|)
    ensures Offset(groups, |groups|) == |owner|
  {
    var total := Offset(groups, |groups|);
    forall l, i | 0 <= l < |groups| && 0 <= i < |groups[l]| ensures groups[l][i] < |owner| {
      assert Owns(groups, owner, l);
    }
    if total < |owner| {
      assert Owned(groups, owner, total);
      var l := owner[total];
      var i :| 0 <= i < |groups[l]| && groups[l][i] == total;
      TiledPosition(groups, l, i, |groups|);
    } else if total > |owner| {
      var l, i := GroupAtOffset(groups, |groups|, |owner|);
      TiledPosition(groups, l, i, |groups|);
    }
  }

  // ----- a valid corpus is owned in order

  function WordPositions(symbols: seq<Symbol>, w: Word): (s: seq<nat>)
    ensures |s| == |w.symbolIds|
  {
    seq(|w.symbolIds|, (j: nat) requires j < |w.symbolIds| => IndexOf(symbols, w.symbolIds[j]))
  }

  /** For each word the positions of its symbols in the symbol array. */
  function Positions(c: QuranCorpus): (groups: seq<seq<nat>>)
    ensures |groups| == |c.words|
  {
    seq(|c.words|, (k: nat) requires k < |c.words| => WordPositions(c.symbols, c.words[k]))
  }

  lemma IndexOfOwnId(symbols: seq<Symbol>, p: nat)
    requires DistinctSymbolIds(symbols) && p < |symbols|
    ensures IndexOf(symbols, symbols[p].id) == p
  {}

  lemma ReferencedSomewhere(symbols: seq<Symbol>, words: seq<Word>, p: nat) returns (k: nat, j: nat)
    requires EverySymbolReferenced(symbols, words) && DistinctSymbolIds(symbols) && p < |symbols|
    ensures k < |words| && j < |words[k].symbolIds| && IndexOf(symbols, words[k].symbolIds[j]) == p
  {
    IndexOfOwnId(symbols, p);
    assert symbols[p] in symbols;
    var w :| w in words && References(w, symbols[p].id);
    k :| 0 <= k < |words| && words[k] == w;
    j :| 0 <= j < |w.symbolIds| && w.symbolIds[j] == symbols[p].id;
  }

  lemma OwnerExists(c: QuranCorpus, p: nat)
    requires ValidCorpus(c) && p < |c.symbols|
    ensures exists k :: 0 <= k < |c.words| && p in Positions(c)[k]
  {
    ChecksOfValidCorpus(c);
    var k, j := ReferencedSomewhere(c.symbols, c.words, p);
    assert Positions(c)[k][j] == p;
  }

  ghost function Owner(c: QuranCorpus, p: nat): (k: nat)
    requires ValidCorpus(c) && p < |c.symbols|
    ensures k < |c.words| && p in Positions(c)[k]
  {
    OwnerExists(c, p);
    var k :| 0 <= k < |c.words| && p in Positions(c)[k];
    k
  }

  lemma PositionMatches(c: QuranCorpus, k: nat, j: nat)
    requires ValidCorpus(c) && k < |c.words| && j < |c.words[k].symbolIds|
    ensures Positions(c)[k][j] < |c.symbols|
    ensures c.symbols[Positions(c)[k][j]].location.Word() == c.words[k].location
  {
    ChecksOfValidCorpus(c);
    assert c.words[k] in c.words;
    assert WordMatchesSymbols(c.symbols, c.words[k]);
  }

  lemma OwnerMatches(c: QuranCorpus, p: nat)
    requires ValidCorpus(c) && p < |c.symbols|
    ensures c.symbols[p].location.Word() == c.words[Owner(c, p)].location
  {
    var k := Owner(c, p);
    var j :| 0 <= j < |Positions(c)[k]| && Positions(c)[k][j] == p;
    PositionMatches(c, k, j);
  }

  lemma {:induction false} PositionsIncrease(symbols: seq<Symbol>, w: Word, i: nat, j: nat)
    requires WordMatchesSymbols(symbols, w) && i < j < |w.symbolIds|
    ensures WordPositions(symbols, w)[i] < WordPositions(symbols, w)[j]
    decreases j
  {
    if i < j - 1 { PositionsIncrease(symbols, w, i, j - 1); }
  }

  lemma SameWordLocation(c: QuranCorpus, k: nat, l: nat)
    requires ValidCorpus(c) && k < |c.words| && l < |c.words| && c.words[k].location == c.words[l].location
    ensures k == l
  {
    ChecksOfValidCorpus(c);
    if k < l { WordsOrderedThroughout(c.words, k, l); }
    if l < k { WordsOrderedThroughout(c.words, l, k); }
  }

  lemma OwnersIncrease(c: QuranCorpus, p: nat, q: nat)
    requires ValidCorpus(c) && p < q < |c.symbols|
    ensures Owner(c, p) <= Owner(c, q)
  {
    ChecksOfValidCorpus(c);
    OwnerMatches(c, p);
    OwnerMatches(c, q);
    SymbolsOrderedThroughout(c.symbols, p, q);
    if Owner(c, q) < Owner(c, p) { WordsOrderedThroughout(c.words, Owner(c, q), Owner(c, p)); }
  }

  lemma ValidCorpusIsOwnedInOrder(c: QuranCorpus) returns (owner: seq<nat>)
    requires ValidCorpus(c)
    ensures OwnedInOrder(Positions(c), owner) && |owner| == |c.symbols|
  {
    ChecksOfValidCorpus(c);
    var groups := Positions(c);
    owner := seq(|c.symbols|, (p: nat) requires p < |c.symbols| => Owner(c, p));
    forall k | 0 <= k < |groups| ensures Owns(groups, owner, k) {
      forall j | 0 <= j < |groups[k]| ensures groups[k][j] < |owner| && owner[groups[k][j]] == k {
        PositionMatches(c, k, j);
        OwnerMatches(c, groups[k][j]);
        SameWordLocation(c, k, Owner(c, groups[k][j]));
      }
      assert c.words[k] in c.words;
      forall i, j | 0 <= i < j < |groups[k]| ensures groups[k][i] < groups[k][j] {
        PositionsIncrease(c.symbols, c.words[k], i, j);
      }
    }
    forall p | 0 <= p < |owner| ensures Owned(groups, owner, p) {}
    forall p, q | 0 <= p < q < |owner| ensures owner[p] <= owner[q] { OwnersIncrease(c, p, q); }
  }

  /** The local checks imply that the words tile the symbol array: the j-th symbol of word k sits at
      the total length of the words before it plus j, and the words account for every symbol. */
  lemma WordsTileSymbols(c: QuranCorpus)
    requires ValidCorpus(c)
    ensures Tiled(Positions(c), |c.words|)
    ensures Offset(Positions(c), |c.words|) == |c.symbols|
  {
    var owner := ValidCorpusIsOwnedInOrder(c);
    GroupsTile(Positions(c), owner, |c.words|);
    GroupsCover(Positions(c), owner);
  }
}
