/** Validation of boundary values before anything is aligned: corpora and observations. */
module ValidateCorpus {
  import opened Sequences
  import opened Wrappers
  import opened Corpus

  // ----- corpora

  function Ids(symbols: seq<Symbol>): set<string> { set s <- symbols :: s.id }

  function WordIds(words: seq<Word>): set<string> { set w <- words :: w.id }

  function ReferencedIds(words: seq<Word>): set<string> { set w <- words, id <- w.symbolIds :: id }

  lemma {:induction false} IndexOfAppend(symbols: seq<Symbol>, last: Symbol, id: string)
    ensures IndexOf(symbols + [last], id) ==
            if IndexOf(symbols, id) < |symbols| then IndexOf(symbols, id)
            else if last.id == id then |symbols|
            else |symbols| + 1
    decreases |symbols|
  {
    var all := symbols + [last];
    if symbols == [] {
      assert all[1..] == [];
    } else {
      assert all[1..] == symbols[1..] + [last] && all[0] == symbols[0];
      IndexOfAppend(symbols[1..], last, id);
    }
  }

  lemma KnownId(symbols: seq<Symbol>, id: string)
    ensures id in Ids(symbols) <==> IndexOf(symbols, id) < |symbols|
  {
    assert forall s <- symbols :: s.id in Ids(symbols);
  }

  /** The table maps each symbol id to the symbol's position. */
  predicate IsTable(symbols: seq<Symbol>, table: map<string, nat>) {
    table.Keys == Ids(symbols) && forall id <- table :: table[id] == IndexOf(symbols, id)
  }

  lemma TableGrows(symbols: seq<Symbol>, table: map<string, nat>, last: Symbol)
    requires IsTable(symbols, table) && last.id !in table
    ensures IsTable(symbols + [last], table[last.id := |symbols|])
  {
    var grown := table[last.id := |symbols|];
    assert Ids(symbols + [last]) == Ids(symbols) + {last.id};
    forall id | id in grown ensures grown[id] == IndexOf(symbols + [last], id) {
      IndexOfAppend(symbols, last, id);
      KnownId(symbols, id);
    }
  }

  predicate GoodSymbols(symbols: seq<Symbol>) {
    (forall s <- symbols :: ValidSymbol(s)) && DistinctSymbolIds(symbols) && OrderedSymbols(symbols)
  }

  lemma GoodSymbolsGrow(symbols: seq<Symbol>, last: Symbol)
    requires GoodSymbols(symbols) && ValidSymbol(last) && last.id !in Ids(symbols)
    requires symbols != [] ==> Before(symbols[|symbols| - 1].location, last.location)
    ensures GoodSymbols(symbols + [last])
  {
    assert forall s <- symbols :: s.id in Ids(symbols);
  }

  lemma RepeatedId(symbols: seq<Symbol>, i: nat)
    requires i < |symbols| && symbols[i].id in Ids(symbols[..i])
    ensures !DistinctSymbolIds(symbols)
  {
    var s :| s in symbols[..i] && s.id == symbols[i].id;
    var j :| 0 <= j < i && symbols[j] == s;
    assert symbols[j].id == symbols[i].id;
  }

  /** What is wrong with the i-th symbol after those in front of it. */
  function SymbolDefect(symbols: seq<Symbol>, i: nat): Option<Defect>
    requires i < |symbols|
  {
    if !ValidSymbol(symbols[i]) then Some(MalformedSymbol)
    else if symbols[i].id in Ids(symbols[..i]) then Some(DuplicateSymbolId)
    else if i > 0 && !Before(symbols[i - 1].location, symbols[i].location) then Some(SymbolsOutOfOrder)
    else None
  }

  predicate SymbolsPass(symbols: seq<Symbol>, n: nat)
    requires n <= |symbols|
  {
    forall i | 0 <= i < n :: SymbolDefect(symbols, i) == None
  }

  /** The defect of the first symbol with which something is wrong. */
  ghost predicate IsSymbolsDefect(symbols: seq<Symbol>, d: Defect) {
    exists i :: 0 <= i < |symbols| && SymbolsPass(symbols, i) && SymbolDefect(symbols, i) == Some(d)
  }

  /** The next symbol passes its checks and joins the table. */
  lemma SymbolAdded(symbols: seq<Symbol>, i: nat, table: map<string, nat>)
    requires i < |symbols| && GoodSymbols(symbols[..i]) && IsTable(symbols[..i], table)
    requires ValidSymbol(symbols[i]) && symbols[i].id !in table
    requires i > 0 ==> Before(symbols[i - 1].location, symbols[i].location)
    ensures GoodSymbols(symbols[..i + 1]) && IsTable(symbols[..i + 1], table[symbols[i].id := i])
  {
    assert symbols[..i + 1] == symbols[..i] + [symbols[i]];
    GoodSymbolsGrow(symbols[..i], symbols[i]);
    TableGrows(symbols[..i], table, symbols[i]);
  }

  method ValidateSymbols(symbols: seq<Symbol>) returns (r: Result<map<string, nat>, Defect>)
    ensures r.Ok? ==> GoodSymbols(symbols) && IsTable(symbols, r.value)
    ensures r.Err? ==> r.error in {MalformedSymbol, DuplicateSymbolId, SymbolsOutOfOrder}
    ensures r.Err? ==> HasDefect(QuranCorpus("", "", symbols, []), r.error) && IsSymbolsDefect(symbols, r.error)
    ensures r.Ok? ==> SymbolsPass(symbols, |symbols|)
  {
    hide IndexOf, Before;
    var symbolIndexes: map<string, nat> := map[];
    for i := 0 to |symbols|
      invariant GoodSymbols(symbols[..i]) && IsTable(symbols[..i], symbolIndexes) && SymbolsPass(symbols, i)
    {
      var symbol := symbols[i];
      if !ValidSymbol(symbol) {
        assert symbol in symbols;
        return Err(MalformedSymbol);
      }
      if symbol.id in symbolIndexes {
        RepeatedId(symbols, i);
        return Err(DuplicateSymbolId);
      }
      if i > 0 && !Before(symbols[i - 1].location, symbol.location) { return Err(SymbolsOutOfOrder); }
      SymbolAdded(symbols, i, symbolIndexes);
      symbolIndexes := symbolIndexes[symbol.id := i];
    }
    assert symbols[..|symbols|] == symbols;
    return Ok(symbolIndexes);
  }

  predicate PlacedIn(symbols: seq<Symbol>, w: Word, symbolId: string) {
    var p := IndexOf(symbols, symbolId);
    p < |symbols| && symbols[p].location.Word() == w.location
  }

  predicate Misplaced(symbols: seq<Symbol>, w: Word, j: nat)
    requires j < |w.symbolIds|
  {
    || !PlacedIn(symbols, w, w.symbolIds[j])
    || (j > 0 && IndexOf(symbols, w.symbolIds[j]) <= IndexOf(symbols, w.symbolIds[j - 1]))
  }

  lemma WordMatchesWhenPlaced(symbols: seq<Symbol>, w: Word)
    ensures WordMatchesSymbols(symbols, w) <==> forall j: nat | j < |w.symbolIds| :: !Misplaced(symbols, w, j)
  {
    if forall j: nat | j < |w.symbolIds| :: !Misplaced(symbols, w, j) {
      forall j | 0 <= j < |w.symbolIds| ensures PlacedIn(symbols, w, w.symbolIds[j]) { assert !Misplaced(symbols, w, j); }
      forall j | 0 < j < |w.symbolIds| ensures IndexOf(symbols, w.symbolIds[j - 1]) < IndexOf(symbols, w.symbolIds[j]) {
        assert !Misplaced(symbols, w, j);
      }
    }
  }

  lemma {:induction false} PlacedInOrder(symbols: seq<Symbol>, w: Word, i: nat, j: nat)
    requires i < j < |w.symbolIds| && forall l: nat | l <= j :: !Misplaced(symbols, w, l)
    ensures IndexOf(symbols, w.symbolIds[i]) < IndexOf(symbols, w.symbolIds[j])
    decreases j
  {
    assert !Misplaced(symbols, w, j);
    if i < j - 1 { PlacedInOrder(symbols, w, i, j - 1); }
  }

  /** A well-placed id does not repeat an earlier one. */
  lemma NewInWord(symbols: seq<Symbol>, w: Word, j: nat)
    requires j < |w.symbolIds| && forall l: nat | l <= j :: !Misplaced(symbols, w, l)
    ensures w.symbolIds[j] !in IdSet(w.symbolIds[..j])
    ensures IdSet(w.symbolIds[..j + 1]) == IdSet(w.symbolIds[..j]) + {w.symbolIds[j]}
  {
    assert w.symbolIds[..j + 1] == w.symbolIds[..j] + [w.symbolIds[j]];
    forall i | 0 <= i < j ensures w.symbolIds[i] != w.symbolIds[j] { PlacedInOrder(symbols, w, i, j); }
  }

  lemma Lookup(symbols: seq<Symbol>, table: map<string, nat>, id: string)
    requires IsTable(symbols, table)
    ensures id in table <==> IndexOf(symbols, id) < |symbols|
    ensures id in table ==> table[id] == IndexOf(symbols, id)
  {
    KnownId(symbols, id);
  }

  /** What is wrong with the j-th id of a word, given the ids that earlier words reference. */
  function IdDefect(symbols: seq<Symbol>, w: Word, referenced: set<string>, j: nat): Option<Defect>
    requires j < |w.symbolIds|
  {
    if Misplaced(symbols, w, j) then Some(WordMismatch)
    else if w.symbolIds[j] in referenced + IdSet(w.symbolIds[..j]) then Some(SymbolShared)
    else None
  }

  predicate IdsPass(symbols: seq<Symbol>, w: Word, referenced: set<string>, n: nat)
    requires n <= |w.symbolIds|
  {
    forall j | 0 <= j < n :: IdDefect(symbols, w, referenced, j) == None
  }

  /** The defect of the word's first id with which something is wrong. */
  ghost predicate IsIdsDefect(symbols: seq<Symbol>, w: Word, referenced: set<string>, d: Defect) {
    exists j :: 0 <= j < |w.symbolIds| && IdsPass(symbols, w, referenced, j) && IdDefect(symbols, w, referenced, j) == Some(d)
  }

  /** Checks one word against the symbol table and adds the ids it references to `referenced`. */
  method ValidateWordSymbols(symbols: seq<Symbol>, symbolIndexes: map<string, nat>, w: Word, referenced: set<string>)
    returns (r: Result<set<string>, Defect>)
    requires IsTable(symbols, symbolIndexes)
    ensures r.Ok? ==> WordMatchesSymbols(symbols, w) && r.value == referenced + IdSet(w.symbolIds)
    ensures r.Ok? ==> referenced !! IdSet(w.symbolIds)
    ensures r.Err? ==> (r.error == WordMismatch && !WordMatchesSymbols(symbols, w))
                       || (r.error == SymbolShared && exists id <- w.symbolIds :: id in referenced)
    ensures if r.Ok? then IdsPass(symbols, w, referenced, |w.symbolIds|) else IsIdsDefect(symbols, w, referenced, r.error)
  {
    hide WordMatchesSymbols, IndexOf, IsTable;
    WordMatchesWhenPlaced(symbols, w);
    var seen: set<string> := {};
    var previousSymbolIndex: int := -1;
    for j := 0 to |w.symbolIds|
      invariant seen == IdSet(w.symbolIds[..j]) && referenced !! seen
      invariant if j == 0 then previousSymbolIndex == -1 else previousSymbolIndex == IndexOf(symbols, w.symbolIds[j - 1])
      invariant (forall i: nat | i < j :: !Misplaced(symbols, w, i)) && IdsPass(symbols, w, referenced, j)
    {
      var symbolId := w.symbolIds[j];
      Lookup(symbols, symbolIndexes, symbolId);
      if symbolId !in symbolIndexes || symbols[symbolIndexes[symbolId]].location.Word() != w.location
         || symbolIndexes[symbolId] <= previousSymbolIndex {
        assert Misplaced(symbols, w, j);
        return Err(WordMismatch);
      }
      assert !Misplaced(symbols, w, j);
      NewInWord(symbols, w, j);
      if symbolId in referenced + seen { return Err(SymbolShared); }
      seen := seen + {symbolId};
      previousSymbolIndex := symbolIndexes[symbolId];
    }
    assert w.symbolIds[..|w.symbolIds|] == w.symbolIds;
    return Ok(referenced + seen);
  }

  predicate GoodWords(symbols: seq<Symbol>, words: seq<Word>) {
    && (forall w <- words :: ValidWord(w)) && DistinctWordIds(words) && OrderedWords(words)
    && (forall w <- words :: WordMatchesSymbols(symbols, w)) && NoSymbolShared(words)
  }

  lemma NewIds(words: seq<Word>, last: Word)
    ensures WordIds(words + [last]) == WordIds(words) + {last.id}
    ensures ReferencedIds(words + [last]) == ReferencedIds(words) + IdSet(last.symbolIds)
  {
    assert forall w <- words + [last] :: w in words || w == last;
    assert last in words + [last];
  }

  lemma NothingSharedWithNext(words: seq<Word>, last: Word, k: nat)
    requires k < |words| && ReferencedIds(words) !! IdSet(last.symbolIds)
    ensures forall id | id in last.symbolIds :: !References(words[k], id)
  {
    forall id | id in last.symbolIds ensures !References(words[k], id) {
      assert id in IdSet(last.symbolIds);
      assert id in words[k].symbolIds ==> id in ReferencedIds(words);
    }
  }

  lemma GoodWordsGrow(symbols: seq<Symbol>, words: seq<Word>, last: Word)
    requires GoodWords(symbols, words) && ValidWord(last) && WordMatchesSymbols(symbols, last)
    requires last.id !in WordIds(words) && (words != [] ==> WordBefore(words[|words| - 1].location, last.location))
    requires ReferencedIds(words) !! IdSet(last.symbolIds)
    ensures GoodWords(symbols, words + [last])
  {
    assert forall w <- words :: w.id in WordIds(words);
    var all := words + [last];
    forall k, l | 0 <= k < l < |all| ensures forall id | id in all[l].symbolIds :: !References(all[k], id) {
      if l == |words| { NothingSharedWithNext(words, last, k); }
    }
  }

  lemma RepeatedWordId(words: seq<Word>, k: nat)
    requires k < |words| && words[k].id in WordIds(words[..k])
    ensures !DistinctWordIds(words)
  {
    var w :| w in words[..k] && w.id == words[k].id;
    var l :| 0 <= l < k && words[l] == w;
    assert words[l].id == words[k].id;
  }

  lemma RepeatedReference(words: seq<Word>, k: nat, id: string)
    requires k < |words| && id in words[k].symbolIds && id in ReferencedIds(words[..k])
    ensures !NoSymbolShared(words)
  {
    var w :| w in words[..k] && id in w.symbolIds;
    var l :| 0 <= l < k && words[l] == w;
    assert References(words[l], id);
  }

  /** What is wrong with the k-th word itself, its ids aside. */
  function WordDefect(words: seq<Word>, k: nat): Option<Defect>
    requires k < |words|
  {
    if !ValidWord(words[k]) then Some(MalformedWord)
    else if words[k].id in WordIds(words[..k]) then Some(DuplicateWordId)
    else if k > 0 && !WordBefore(words[k - 1].location, words[k].location) then Some(WordsOutOfOrder)
    else None
  }

  /** The word is looked at before its ids, and these in order. */
  ghost predicate IsDefectAt(symbols: seq<Symbol>, words: seq<Word>, k: nat, d: Defect)
    requires k < |words|
  {
    if WordDefect(words, k).Some? then WordDefect(words, k) == Some(d)
    else IsIdsDefect(symbols, words[k], ReferencedIds(words[..k]), d)
  }

  predicate WordPasses(symbols: seq<Symbol>, words: seq<Word>, k: nat)
    requires k < |words|
  {
    WordDefect(words, k) == None && IdsPass(symbols, words[k], ReferencedIds(words[..k]), |words[k].symbolIds|)
  }

  predicate WordsPass(symbols: seq<Symbol>, words: seq<Word>, n: nat)
    requires n <= |words|
  {
    forall k | 0 <= k < n :: WordPasses(symbols, words, k)
  }

  /** The defect of the first word with which something is wrong. */
  ghost predicate IsWordsDefect(symbols: seq<Symbol>, words: seq<Word>, d: Defect) {
    exists k :: 0 <= k < |words| && WordsPass(symbols, words, k) && IsDefectAt(symbols, words, k, d)
  }

  lemma NoWordsYet(symbols: seq<Symbol>, words: seq<Word>)
    ensures GoodWords(symbols, words[..0]) && WordIds(words[..0]) == {} && ReferencedIds(words[..0]) == {}
  {}

  lemma WordAdded(symbols: seq<Symbol>, words: seq<Word>, k: nat)
    requires k < |words| && GoodWords(symbols, words[..k]) && ValidWord(words[k]) && WordMatchesSymbols(symbols, words[k])
    requires words[k].id !in WordIds(words[..k]) && (k > 0 ==> WordBefore(words[k - 1].location, words[k].location))
    requires ReferencedIds(words[..k]) !! IdSet(words[k].symbolIds)
    ensures GoodWords(symbols, words[..k + 1])
    ensures WordIds(words[..k + 1]) == WordIds(words[..k]) + {words[k].id}
    ensures ReferencedIds(words[..k + 1]) == ReferencedIds(words[..k]) + IdSet(words[k].symbolIds)
  {
    assert words[..k + 1] == words[..k] + [words[k]];
    GoodWordsGrow(symbols, words[..k], words[k]);
    NewIds(words[..k], words[k]);
  }

  method ValidateWords(symbols: seq<Symbol>, symbolIndexes: map<string, nat>, words: seq<Word>)
    returns (r: Result<set<string>, Defect>)
    requires IsTable(symbols, symbolIndexes)
    ensures r.Ok? ==> GoodWords(symbols, words) && r.value == ReferencedIds(words)
    ensures r.Err? ==> r.error != BlankIdentifier && HasDefect(QuranCorpus("", "", symbols, words), r.error)
    ensures if r.Ok? then WordsPass(symbols, words, |words|) else IsWordsDefect(symbols, words, r.error)
  {
    NoWordsYet(symbols, words);
    hide GoodWords, WordMatchesSymbols, IsTable, IdsPass, IsIdsDefect, WordIds, ReferencedIds, ValidWord;
    var wordsById: set<string> := {};
    var referencedSymbols: set<string> := {};
    for k := 0 to |words|
      invariant GoodWords(symbols, words[..k]) && WordsPass(symbols, words, k)
      invariant wordsById == WordIds(words[..k]) && referencedSymbols == ReferencedIds(words[..k])
    {
      var word := words[k];
      assert word in words;
      if !ValidWord(word) { return Err(MalformedWord); }
      if word.id in wordsById {
        RepeatedWordId(words, k);
        return Err(DuplicateWordId);
      }
      if k > 0 && !WordBefore(words[k - 1].location, word.location) { return Err(WordsOutOfOrder); }
      var checked := ValidateWordSymbols(symbols, symbolIndexes, word, referencedSymbols);
      if checked.Err? {
        if checked.error == SymbolShared {
          var id :| id in word.symbolIds && id in referencedSymbols;
          RepeatedReference(words, k, id);
        }
        return Err(checked.error);
      }
      WordAdded(symbols, words, k);
      wordsById := wordsById + {word.id};
      referencedSymbols := checked.value;
    }
    assert words[..|words|] == words;
    return Ok(referencedSymbols);
  }

  lemma ReferencedBySomeWord(words: seq<Word>, id: string)
    ensures id in ReferencedIds(words) <==> exists w <- words :: References(w, id)
  {
    if id in ReferencedIds(words) {
      var w :| w in words && id in w.symbolIds;
      assert References(w, id);
    }
  }

  method AllReferenced(symbols: seq<Symbol>, words: seq<Word>, referencedSymbols: set<string>) returns (ok: bool)
    requires referencedSymbols == ReferencedIds(words)
    ensures ok <==> EverySymbolReferenced(symbols, words)
  {
    for i := 0 to |symbols|
      invariant EverySymbolReferenced(symbols[..i], words)
    {
      ReferencedBySomeWord(words, symbols[i].id);
      if symbols[i].id !in referencedSymbols {
        assert symbols[i] in symbols;
        return false;
      }
      assert symbols[..i + 1] == symbols[..i] + [symbols[i]];
    }
    assert symbols[..|symbols|] == symbols;
    return true;
  }

  /** The one defect that is reported: first the names are looked at, then the symbols in order, then the
      words in order, and last whether every symbol is referenced. */
  ghost predicate IsFirstDefect(c: QuranCorpus, d: Defect) {
    if HasDefect(c, BlankIdentifier) then d == BlankIdentifier
    else if !SymbolsPass(c.symbols, |c.symbols|) then IsSymbolsDefect(c.symbols, d)
    else if !WordsPass(c.symbols, c.words, |c.words|) then IsWordsDefect(c.symbols, c.words, d)
    else d == SymbolUnreferenced
  }

  lemma OneIdsDefect(symbols: seq<Symbol>, w: Word, referenced: set<string>, d: Defect, e: Defect)
    requires IsIdsDefect(symbols, w, referenced, d) && IsIdsDefect(symbols, w, referenced, e)
    ensures d == e && !IdsPass(symbols, w, referenced, |w.symbolIds|)
  {
    var i :| 0 <= i < |w.symbolIds| && IdsPass(symbols, w, referenced, i) && IdDefect(symbols, w, referenced, i) == Some(d);
    var j :| 0 <= j < |w.symbolIds| && IdsPass(symbols, w, referenced, j) && IdDefect(symbols, w, referenced, j) == Some(e);
    assert !(i < j) && !(j < i);
  }

  lemma DefectivePassesNot(symbols: seq<Symbol>, words: seq<Word>, k: nat, d: Defect)
    requires k < |words| && IsDefectAt(symbols, words, k, d)
    ensures !WordPasses(symbols, words, k)
  {
    if WordDefect(words, k).None? { OneIdsDefect(symbols, words[k], ReferencedIds(words[..k]), d, d); }
  }

  lemma OneSymbolsDefect(symbols: seq<Symbol>, d: Defect, e: Defect)
    requires IsSymbolsDefect(symbols, d) && IsSymbolsDefect(symbols, e)
    ensures d == e && !SymbolsPass(symbols, |symbols|)
  {
    hide SymbolDefect;
    var i :| 0 <= i < |symbols| && SymbolsPass(symbols, i) && SymbolDefect(symbols, i) == Some(d);
    var j :| 0 <= j < |symbols| && SymbolsPass(symbols, j) && SymbolDefect(symbols, j) == Some(e);
    assert !(i < j) && !(j < i);
  }

  lemma OneWordsDefect(symbols: seq<Symbol>, words: seq<Word>, d: Defect, e: Defect)
    requires IsWordsDefect(symbols, words, d) && IsWordsDefect(symbols, words, e)
    ensures d == e && !WordsPass(symbols, words, |words|)
  {
    hide WordDefect, WordPasses, IsIdsDefect;
    var k :| 0 <= k < |words| && WordsPass(symbols, words, k) && IsDefectAt(symbols, words, k, d);
    var l :| 0 <= l < |words| && WordsPass(symbols, words, l) && IsDefectAt(symbols, words, l, e);
    DefectivePassesNot(symbols, words, k, d);
    DefectivePassesNot(symbols, words, l, e);
    assert !(k < l) && !(l < k);
    if WordDefect(words, k).None? { OneIdsDefect(symbols, words[k], ReferencedIds(words[..k]), d, e); }
  }

  /** Which defect is reported is determined. */
  lemma OneFirstDefect(c: QuranCorpus, d: Defect, e: Defect)
    requires IsFirstDefect(c, d) && IsFirstDefect(c, e)
    ensures d == e
  {
    hide HasDefect, SymbolsPass, WordsPass, IsSymbolsDefect, IsWordsDefect;
    if !HasDefect(c, BlankIdentifier) {
      if !SymbolsPass(c.symbols, |c.symbols|) {
        OneSymbolsDefect(c.symbols, d, e);
      } else if !WordsPass(c.symbols, c.words, |c.words|) {
        OneWordsDefect(c.symbols, c.words, d, e);
      }
    }
  }

  /** Accepts exactly the valid corpora; a rejected corpus has the reported defect, which is the first one
      met. */
  method Validate(c: QuranCorpus) returns (r: Result<(), Defect>)
    ensures r.Ok? <==> ValidCorpus(c)
    ensures r.Err? ==> HasDefect(c, r.error) && IsFirstDefect(c, r.error)
  {
    if !NonBlank(c.corpusId) || !NonBlank(c.revision) {
      assert HasDefect(c, BlankIdentifier);
      return Err(BlankIdentifier);
    }
    var symbolsChecked := ValidateSymbols(c.symbols);
    if symbolsChecked.Err? {
      assert HasDefect(c, symbolsChecked.error);
      OneSymbolsDefect(c.symbols, symbolsChecked.error, symbolsChecked.error);
      return Err(symbolsChecked.error);
    }
    var wordsChecked := ValidateWords(c.symbols, symbolsChecked.value, c.words);
    if wordsChecked.Err? {
      assert HasDefect(c, wordsChecked.error);
      OneWordsDefect(c.symbols, c.words, wordsChecked.error, wordsChecked.error);
      return Err(wordsChecked.error);
    }
    var complete := AllReferenced(c.symbols, c.words, wordsChecked.value);
    if !complete {
      assert HasDefect(c, SymbolUnreferenced);
      return Err(SymbolUnreferenced);
    }
    ChecksOfValidCorpus(c);
    return Ok(());
  }
}
