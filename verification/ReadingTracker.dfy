/** The reading tracker as the program has it: an object whose methods update its fields in place. */
module ReadingTracker {
  import opened DuplicateWindow
  import opened Wrappers
  import opened EditScript
  import opened Corpus
  import opened IndexCorpus
  import opened Observations
  import opened Alignments
  import opened Locate
  import opened CandidateTheorems
  import opened LocalCandidates
  import opened LocatedObservations
  import opened Findings
  import opened WordProgress
  import opened TouchedWords
  import opened TrackerModel
  import opened TrackerTheorems
  import Confidence

  datatype TrackerError = EmptyCorpus | UnknownLocation

  // ----- lookup tables

  /** Every word can be looked up by its id. */
  ghost predicate IsWordMap(words: seq<Word>, byId: map<string, OrderedWord>) {
    HasWords(words, |words|, byId)
  }

  method WordsById(words: seq<Word>, n: nat, ordered: seq<OrderedWord>) returns (byId: map<string, OrderedWord>)
    requires Words(words, n) && ordered == OrderedWordsOf(words)
    ensures IsWordMap(words, byId)
  {
    byId := map[];
    for k := 0 to |ordered|
      invariant HasWords(words, k, byId)
    {
      assert ordered[k] == OrderedWordAt(words, k);
      OneMoreWord(words, k, byId);
      byId := byId[ordered[k].word.id := ordered[k]];
    }
  }

  ghost predicate HasWords(words: seq<Word>, upTo: nat, byId: map<string, OrderedWord>)
    requires upTo <= |words|
  {
    forall k | 0 <= k < upTo :: words[k].id in byId && byId[words[k].id] == OrderedWordAt(words, k)
  }

  lemma OneMoreWord(words: seq<Word>, k: nat, byId: map<string, OrderedWord>)
    requires DistinctWordIds(words) && k < |words| && HasWords(words, k, byId)
    ensures HasWords(words, k + 1, byId[words[k].id := OrderedWordAt(words, k)])
  {}

  /** The i-th touched word is found under its id, and it is not empty. */
  lemma LookUp(words: seq<Word>, n: nat, byId: map<string, OrderedWord>, ks: seq<nat>, i: nat)
    requires Words(words, n) && IsWordMap(words, byId) && AreWords(words, ks) && i < |ks|
    ensures ks[i] < |words| && IdsOf(words, ks)[i] in byId
    ensures byId[IdsOf(words, ks)[i]] == OrderedWordAt(words, ks[i])
    ensures WordStart(words, ks[i]) < WordStart(words, ks[i] + 1)
    ensures ks[..i + 1][..i] == ks[..i] && ks[..i + 1][i] == ks[i]
  {
    StartsIncrease(words, n, ks[i], |words|);
  }

  lemma TouchedIdsAreTouchedBy(words: seq<Word>, symbols: seq<Symbol>, actual: seq<Phoneme>, committedSymbol: nat,
                               c: AlignmentCandidate, m: nat, touched: seq<string>)
    requires Words(words, |symbols|) && Aligned(symbols, actual, committedSymbol, c, m)
    requires TouchedIds(words, |symbols|, c.symbolIndex, Min(|symbols| - 1, c.symbolIndex + m - 1 + PARTIAL_COMMIT_LOOKAHEAD), touched)
    ensures touched == IdsOf(words, TouchedBy(words, |symbols|, c))
  {
    TouchedByAligned(words, symbols, actual, committedSymbol, c, m, false);
  }

  method StabilityOf(h: Hypothesis, history: seq<Hypothesis>) returns (stability: real)
    ensures stability == StabilityFor(h, history)
  {
    var matches := 0;
    for k := 0 to |history|
      invariant matches == CountOf(history[..k], h)
    {
      assert history[..k + 1][..k] == history[..k];
      if history[k] == h { matches := matches + 1; }
    }
    assert history[..|history|] == history;
    stability := matches as real / STABILITY_HISTORY_LIMIT as real;
  }

  // ----- what locating guarantees

  /** The margin is the exact lead over the second candidate: the ranking never lets it be negative. */
  lemma MarginIsLead(index: IndexedCorpus, o: Observation, cursorSymbol: nat, committedSymbol: nat, located: Located)
    requires index.symbols != [] && located.best.Some?
    requires forall p | 0 <= p < |index.symbols| :: AyahOf(index.symbols[p]) in index.ayahSymbolRanges
    requires LocatedFrom(index, o, cursorSymbol, committedSymbol, located)
    ensures MarginOver(located.best.value, located.second)
         == located.best.value.score - (if located.second.Some? then located.second.value.score else 0.0)
    ensures 0.0 <= located.best.value.score <= 1.0
  {
    hide EvaluatedPositions, AreCandidates, CandidateAt;
    var actual, cursor := PhonemesOf(o.tokens), Clamp(cursorSymbol, |index.symbols|);
    var positions, cs :| LocatedAmong(index, actual, cursor, committedSymbol, positions, cs, located);
    BestIsCandidate(index.symbols, actual, cursor, committedSymbol, positions, cs, located);
    SecondScoresNoMore(cs, located);
  }

  lemma SecondScoresNoMore(cs: seq<AlignmentCandidate>, top: Located)
    requires TopTwo(cs, top) && top.best.Some?
    ensures top.second.Some? ==> top.second.value.score <= top.best.value.score
  {}

  lemma BestIsCandidate(symbols: seq<Symbol>, actual: seq<Phoneme>, cursorSymbol: int, committedSymbol: nat,
                        positions: seq<nat>, cs: seq<AlignmentCandidate>, top: Located)
    requires AreCandidates(symbols, actual, cursorSymbol, committedSymbol, positions, cs)
    requires top.best.Some? && top.best.value in cs
    ensures 0.0 <= top.best.value.score <= 1.0
  {
    var i :| 0 <= i < |cs| && cs[i] == top.best.value;
    CandidateScore(symbols, actual, cursorSymbol, committedSymbol, positions[i]);
  }

  /** Remembering the observation changes nothing that the candidate's step looks at. */
  lemma RememberIsInvisible(words: seq<Word>, symbols: seq<Symbol>, mode: FindingMode, st: State, o: Observation,
                            c: AlignmentCandidate, second: Option<AlignmentCandidate>)
    requires Words(words, |symbols|) && symbols != []
    ensures Apply(words, symbols, mode, Remember(st, o), o, c, second) == Apply(words, symbols, mode, st, o, c, second)
  {
    assert InputFor(Remember(st, o), o, c, second) == InputFor(st, o, c, second);
  }

  // ----- the object

  class ReadingTracker {
    const index: IndexedCorpus
    const symbolWordIds: seq<Option<string>>
    const orderedWordsById: map<string, OrderedWord>
    const defaultInitialLocation: Location
    const findingMode: FindingMode

    var initialSymbol: nat
    var cursorSymbol: nat
    var committedSymbol: nat
    var latestSourceRevision: int
    var observationIds: set<string>
    var observationIdOrder: seq<string>
    var hypothesisHistory: seq<Hypothesis>
    var provisionalFinding: Option<Provisional>
    var completedWordIds: seq<string>
    var completedWordIdSet: set<string>
    var snapshot: Snapshot

    function CurrentProgress(): Progress
      reads this
    {
      Progress(committedSymbol, completedWordIds, completedWordIdSet)
    }

    function Current(): State
      reads this
    {
      State(initialSymbol, cursorSymbol, CurrentProgress(), latestSourceRevision, observationIds, observationIdOrder,
            hypothesisHistory, provisionalFinding, snapshot)
    }

    /** The index and the tables prepared from it, none of which ever changes. */
    ghost predicate Prepared() {
      && index.symbols != []
      && Words(index.words, |index.symbols|)
      && IsWordTable(index.words, |index.symbols|, symbolWordIds)
      && IsWordMap(index.words, orderedWordsById)
    }

    ghost predicate Usable() {
      && WellIndexed(index) && index.symbols != []
      && (forall p | 0 <= p < |index.symbols| :: AyahOf(index.symbols[p]) in index.ayahSymbolRanges)
      && SymbolFrom(index.symbols, defaultInitialLocation, 0) < |index.symbols|
    }

    ghost predicate Valid()
      reads this
    {
      Prepared() && Usable() && Invariant(index.words, index.symbols, Current())
    }

    constructor (index: IndexedCorpus, initialLocation: Location, findingMode: FindingMode)
      requires WellIndexed(index) && SymbolFrom(index.symbols, initialLocation, 0) < |index.symbols|
      ensures Valid() && this.index == index && this.findingMode == findingMode && defaultInitialLocation == initialLocation
      ensures Current() == Initial(index.symbols, SymbolFrom(index.symbols, initialLocation, 0))
    {
      IndexedWords(index);
      IndexedRangesFit(index);
      AyahRangesExist(index);
      OrderedWordsAreInCorpusOrder(index.words, |index.symbols|, index.wordSymbolRanges);
      var words := TouchedWords.OrderedWords(index.words, index.wordSymbolRanges);
      var table := WordIdsBySymbol(index.words, |index.symbols|, words);
      var byId := WordsById(index.words, |index.symbols|, words);
      this.index, symbolWordIds, orderedWordsById := index, table, byId;
      defaultInitialLocation, this.findingMode := initialLocation, findingMode;
      var start := SymbolFrom(index.symbols, initialLocation, 0);
      initialSymbol, cursorSymbol, committedSymbol := start, start, start;
      latestSourceRevision, observationIds, observationIdOrder, hypothesisHistory := -1, {}, [], [];
      provisionalFinding, completedWordIds, completedWordIdSet := None, [], {};
      snapshot := StartSnapshot(0, initialLocation);
      new;
      StartKeeps(index.words, index.symbols, Current(), start);
    }

    /** Creation fails exactly for an empty corpus or a location that is not in the corpus; without a
        location the tracker starts at the first symbol. */
    static method Create(index: IndexedCorpus, initialLocation: Option<Location>, findingMode: FindingMode)
      returns (r: Result<ReadingTracker, TrackerError>)
      requires WellIndexed(index)
      ensures r.Ok? <==> index.symbols != [] &&
                         (initialLocation.Some? ==> exists p :: 0 <= p < |index.symbols| && index.symbols[p].location == initialLocation.value)
      ensures r.Ok? ==> fresh(r.value) && r.value.Valid() && r.value.index == index && r.value.findingMode == findingMode
      ensures r.Ok? ==> exists p | 0 <= p < |index.symbols| ::
                          r.value.Current() == Initial(index.symbols, p)
                          && index.symbols[p].location == (if initialLocation.Some? then initialLocation.value else index.symbols[0].location)
    {
      if index.symbols == [] { return Err(EmptyCorpus); }
      var location := if initialLocation.Some? then initialLocation.value else index.symbols[0].location;
      var start := SymbolFrom(index.symbols, location, 0);
      if start == |index.symbols| { return Err(UnknownLocation); }
      var tracker := new ReadingTracker(index, location, findingMode);
      r := Ok(tracker);
    }

    // ----- parts of a submission

    method RememberObservationId(observationId: string)
      modifies `observationIds, `observationIdOrder
      ensures observationIdOrder == PushBounded(old(observationIdOrder), observationId, OBSERVATION_ID_LIMIT)
      ensures observationIds == if |old(observationIdOrder)| + 1 > OBSERVATION_ID_LIMIT
                                then old(observationIds) + {observationId} - {(old(observationIdOrder) + [observationId])[0]}
                                else old(observationIds) + {observationId}
    {
      observationIds := observationIds + {observationId};
      observationIdOrder := observationIdOrder + [observationId];
      if |observationIdOrder| > OBSERVATION_ID_LIMIT {
        observationIds := observationIds - {observationIdOrder[0]};
        observationIdOrder := observationIdOrder[1..];
      }
    }

    method RememberHypothesis(h: Hypothesis)
      modifies `hypothesisHistory
      ensures hypothesisHistory == PushBounded(old(hypothesisHistory), h, STABILITY_HISTORY_LIMIT)
    {
      hypothesisHistory := hypothesisHistory + [h];
      if |hypothesisHistory| > STABILITY_HISTORY_LIMIT { hypothesisHistory := hypothesisHistory[1..]; }
    }

    method IsConsumed(range: Range, consumed: set<nat>) returns (wordConsumed: bool)
      requires range.start <= range.end
      ensures wordConsumed <==> forall p | range.start <= p < range.end :: p in consumed
    {
      for symbolIndex := range.start to range.end
        invariant forall p | range.start <= p < symbolIndex :: p in consumed
      {
        if symbolIndex !in consumed { return false; }
      }
      return true;
    }

    method HasMatchedLookahead(end: nat, matched: set<nat>) returns (hasLookahead: bool)
      ensures hasLookahead <==> end in matched && end + 1 in matched
    {
      for offset := 0 to PARTIAL_COMMIT_LOOKAHEAD
        invariant (offset >= 1 ==> end in matched) && (offset >= 2 ==> end + 1 in matched)
      {
        if end + offset !in matched { return false; }
      }
      return true;
    }

    /** Commits one touched word if the alignment supports it. */
    method CommitTouchedWord(touchedWord: OrderedWord, s: Support, ghost words: seq<Word>, ghost k: nat)
      requires k < |words| && touchedWord == OrderedWordAt(words, k) && WordStart(words, k) < WordStart(words, k + 1)
      modifies `committedSymbol, `completedWordIds, `completedWordIdSet
      ensures CurrentProgress() == CommitWord(words, s, old(CurrentProgress()), k)
    {
      var word, range := touchedWord.word, touchedWord.range;
      if range.end - 1 < committedSymbol || range.start < s.start { return; }
      var wordConsumed := IsConsumed(range, s.consumed);
      if !wordConsumed { return; }
      var hasLookahead := s.isFinal;
      if !hasLookahead { hasLookahead := HasMatchedLookahead(range.end, s.matched); }
      if !hasLookahead { return; }
      if word.id !in completedWordIdSet {
        completedWordIdSet := completedWordIdSet + {word.id};
        completedWordIds := completedWordIds + [word.id];
      }
      committedSymbol := Max(committedSymbol, range.end - 1);
    }

    /** Commits the touched words in the order in which they are first met. */
    method CommitTouchedWords(touched: seq<string>, s: Support, ghost ks: seq<nat>)
      requires Words(index.words, |index.symbols|) && IsWordMap(index.words, orderedWordsById)
      requires AreWords(index.words, ks) && touched == IdsOf(index.words, ks)
      modifies `committedSymbol, `completedWordIds, `completedWordIdSet
      ensures CurrentProgress() == CommitWords(index.words, s, old(CurrentProgress()), ks)
    {
      ghost var before := CurrentProgress();
      for i := 0 to |touched|
        invariant CurrentProgress() == CommitWords(index.words, s, before, ks[..i])
      {
        LookUp(index.words, |index.symbols|, orderedWordsById, ks, i);
        CommitTouchedWord(orderedWordsById[touched[i]], s, index.words, ks[i]);
      }
      assert ks[..|touched|] == ks;
    }

    method CommitSupportedWords(c: AlignmentCandidate, isFinal: bool, ghost actual: seq<Phoneme>, ghost m: nat)
      requires Prepared() && Aligned(index.symbols, actual, committedSymbol, c, m)
      modifies `committedSymbol, `completedWordIds, `completedWordIdSet
      ensures CurrentProgress() == CommitSupported(index.words, |index.symbols|, old(CurrentProgress()), c, isFinal)
    {
      hide WordAt;
      var consumed, matched := ConsumedAndMatched(c.symbolIndex, c.alignment.operations);
      var touched := CollectTouchedWordIds(index.words, |index.symbols|, c.symbolIndex, c.alignment.operations, m, symbolWordIds);
      TouchedIdsAreTouchedBy(index.words, index.symbols, actual, committedSymbol, c, m, touched);
      CommitTouchedWords(touched, Support(c.symbolIndex, consumed, matched, isFinal), TouchedBy(index.words, |index.symbols|, c));
    }

    /** Moves cursor and display to the candidate and commits the words it supports. */
    method MoveTo(c: AlignmentCandidate, isFinal: bool, ghost actual: seq<Phoneme>, ghost m: nat) returns (display: Display)
      requires Prepared() && Aligned(index.symbols, actual, committedSymbol, c, m)
      modifies `cursorSymbol, `committedSymbol, `completedWordIds, `completedWordIdSet
      ensures var moved := MoveDisplay(index.words, index.symbols, old(Current()), c, isFinal);
              cursorSymbol == moved.cursorSymbol && CurrentProgress() == moved.progress && display == moved.snapshot.display
    {
      var offset := ActiveReferenceOffset(c.alignment.operations);
      var activeSymbol := Min(|index.symbols| - 1, c.symbolIndex + offset);
      cursorSymbol := activeSymbol;
      display := Display(index.symbols[activeSymbol].location, activeSymbol < committedSymbol, symbolWordIds[activeSymbol]);
      CommitSupportedWords(c, isFinal, actual, m);
    }

    method UpdateProvisionalFinding(c: AlignmentCandidate, actual: seq<Phoneme>, evidence: Option<SubstitutionEvidence>)
      returns (confirmations: nat, context: nat)
      requires evidence.Some? ==> evidence.value.operation.Substitution?
      modifies `provisionalFinding
      ensures var update := UpdateProvisional(index.symbols, old(provisionalFinding), c, actual, evidence);
              provisionalFinding == update.provisional && confirmations == update.confirmations && context == update.context
    {
      if evidence.None? {
        provisionalFinding := None;
        return 0, 0;
      }
      var operation := evidence.value.operation;
      context := CountFindingContextPhonemes(c.alignment.operations, operation);
      var fingerprint := Fingerprint(index.symbols, c, operation, actual);
      if fingerprint.None? {
        provisionalFinding := None;
        return 0, context;
      }
      provisionalFinding := AdvanceProvisional(provisionalFinding, fingerprint.value, evidence.value.confidence, context);
      return if provisionalFinding.Some? then provisionalFinding.value.confirmations else 0, context;
    }

    /** Looks for a substitution finding and keeps count of agreeing ones. */
    method FindSubstitution(c: AlignmentCandidate, o: Observation, actual: seq<Phoneme>, e: Evidence) returns (finding: Option<Finding>)
      modifies `provisionalFinding
      ensures var evidence := FindingInput(findingMode, c, e);
              var update := UpdateProvisional(index.symbols, old(provisionalFinding), c, actual, evidence);
              && provisionalFinding == update.provisional
              && finding == ClassifyFinding(index.symbols, c, o.observationId, o.isFinal, actual,
                                            update.confirmations, update.context, evidence)
    {
      if findingMode == Substitutions && !c.isReread {
        var evidence := DeriveSubstitutionEvidence(c, e);
        SubstitutionFromIsFirst(c.alignment.operations, 0);
        var confirmations, context := UpdateProvisionalFinding(c, actual, evidence);
        finding := ClassifyFinding(index.symbols, c, o.observationId, o.isFinal, actual, confirmations, context, evidence);
      } else {
        provisionalFinding := None;
        finding := None;
      }
    }

    method ScoreCandidate(o: Observation, c: AlignmentCandidate, second: Option<AlignmentCandidate>, h: Hypothesis) returns (e: Evidence)
      requires h == HypothesisOf(c)
      ensures e == Confidence.ScoreOf(InputFor(Current(), o, c, second))
    {
      var stability := StabilityOf(h, hypothesisHistory);
      e := Confidence.ScoreConfidence(Confidence.ConfidenceInput(
        c.score, stability, c.alignment.matchedLookaheadCount, MarginOver(c, second),
        |PhonemesOf(o.tokens)|, AcousticsOf(o.tokens)));
    }

    /** The part of a submission after the observation has been located with a candidate. */
    method ApplyCandidate(o: Observation, c: AlignmentCandidate, second: Option<AlignmentCandidate>, ghost m: nat)
      returns (display: Display, e: Evidence, finding: Option<Finding>)
      requires Prepared() && Aligned(index.symbols, PhonemesOf(o.tokens), committedSymbol, c, m)
      modifies `cursorSymbol, `committedSymbol, `completedWordIds, `completedWordIdSet, `hypothesisHistory, `provisionalFinding
      ensures Applied(cursorSymbol, CurrentProgress(), hypothesisHistory, provisionalFinding, display, e, finding)
           == Apply(index.words, index.symbols, findingMode, old(Current()), o, c, second)
    {
      hide Aligned, CommitSupported;
      var offset := ActiveReferenceOffset(c.alignment.operations);
      var h := Hypothesis(c.symbolIndex, offset);
      e := ScoreCandidate(o, c, second, h);
      RememberHypothesis(h);
      display := snapshot.display;
      if Confidence.PassesPositionGate(e) { display := MoveTo(c, o.isFinal, PhonemesOf(o.tokens), m); }
      finding := FindSubstitution(c, o, PhonemesOf(o.tokens), e);
    }

    // ----- the operations

    /** Rejects an invalid observation without any effect, ignores duplicates and stale observations,
        and otherwise takes the step of the state machine for where the aligner located it. */
    method Submit(o: Observation) returns (r: Result<Snapshot, Rejection>, ghost located: Located)
      requires Valid()
      modifies this
      ensures Valid()
      ensures r.Ok? <==> ValidObservation(o)
      ensures r.Err? ==> Current() == old(Current())
      ensures r.Ok? ==> r.value == snapshot
                        && Current() == TrackerModel.Submit(index.words, index.symbols, findingMode, old(Current()), o, located)
      ensures r.Ok? && !Ignored(old(Current()), o) ==> LocatedFrom(index, o, old(cursorSymbol), old(committedSymbol), located)
    {
      located := Located(None, None);
      var valid := Observations.Validate(o);
      if valid.Err? { return Err(valid.error), located; }
      if o.observationId in observationIds || o.sourceRevision < latestSourceRevision { return Ok(snapshot), located; }
      located := Advance(o);
      r := Ok(snapshot);
    }

    /** Everything after the duplicate and stale checks. */
    method Advance(o: Observation) returns (located: Located)
      requires Valid() && ValidObservation(o) && !Ignored(Current(), o)
      modifies this
      ensures Valid()
      ensures Current() == Accept(index.words, index.symbols, findingMode, old(Current()), o, located)
      ensures LocatedFrom(index, o, old(cursorSymbol), old(committedSymbol), located)
    {
      ghost var before := Current();
      Remember(o);
      located := Locate(o);
      LocatedIsGood(index, o, cursorSymbol, committedSymbol, located);
      ApplyLocated(o, located, before);
      SubmitKeeps(index.words, index.symbols, findingMode, before, o, located);
    }

    method Remember(o: Observation)
      modifies `observationIds, `observationIdOrder, `latestSourceRevision
      ensures Current() == TrackerModel.Remember(old(Current()), o)
    {
      RememberObservationId(o.observationId);
      latestSourceRevision := o.sourceRevision;
    }

    method Locate(o: Observation) returns (located: Located)
      requires Usable() && ValidObservation(o)
      ensures LocatedFrom(index, o, cursorSymbol, committedSymbol, located)
    {
      var at, _, _, _ := LocateObservation(index, o, cursorSymbol, committedSymbol);
      located := at.value;
    }

    method ApplyLocated(o: Observation, located: Located, ghost before: TrackerModel.State)
      requires Prepared() && Current() == TrackerModel.Remember(before, o)
      requires GoodLocated(index.symbols, o, committedSymbol, located)
      modifies this
      ensures Current() == Accept(index.words, index.symbols, findingMode, before, o, located)
    {
      if located.best.Some? {
        ghost var m :| Aligned(index.symbols, PhonemesOf(o.tokens), committedSymbol, located.best.value, m);
        ApplyBest(o, located, m, before);
      } else {
        provisionalFinding := None;
        Publish(o, snapshot.display, None, None);
      }
    }

    method ApplyBest(o: Observation, located: Located, ghost m: nat, ghost before: TrackerModel.State)
      requires Prepared() && Current() == TrackerModel.Remember(before, o)
      requires located.best.Some? && Aligned(index.symbols, PhonemesOf(o.tokens), committedSymbol, located.best.value, m)
      modifies this
      ensures Current() == Accept(index.words, index.symbols, findingMode, before, o, located)
    {
      RememberIsInvisible(index.words, index.symbols, findingMode, before, o, located.best.value, located.second);
      var display, e, finding := ApplyCandidate(o, located.best.value, located.second, m);
      Publish(o, display, Some(e), finding);
    }

    method Publish(o: Observation, display: Display, confidence: Option<Evidence>, finding: Option<Finding>)
      requires index.symbols != []
      modifies `snapshot
      ensures snapshot == NextSnapshot(index.symbols, old(Current()), o, display, CurrentProgress(), confidence, finding)
    {
      snapshot := Snapshot(snapshot.revision + 1, Some(o.observationId), display,
                           index.symbols[Min(committedSymbol, |index.symbols| - 1)].location, completedWordIds, confidence, finding);
    }

    /** An unknown location is an error without any effect; otherwise the tracker starts over with the
        next revision. */
    method Reset(location: Option<Location>) returns (r: Result<Snapshot, TrackerError>)
      requires Valid()
      modifies this
      ensures Valid()
      ensures r.Ok? <==> location.None? || SymbolFrom(index.symbols, location.value, 0) < |index.symbols|
      ensures r.Err? ==> Current() == old(Current())
      ensures r.Ok? ==> r.value == snapshot
      ensures r.Ok? ==> var p := SymbolFrom(index.symbols, if location.Some? then location.value else defaultInitialLocation, 0);
                        Current() == TrackerModel.Reset(index.symbols, old(Current()), p)
    {
      var target := if location.Some? then location.value else defaultInitialLocation;
      var start := SymbolFrom(index.symbols, target, 0);
      if start == |index.symbols| { return Err(UnknownLocation); }
      StartKeeps(index.words, index.symbols, Current(), start);
      StartOver(start, target);
      r := Ok(snapshot);
    }

    method StartOver(start: nat, target: Location)
      requires start < |index.symbols| && index.symbols[start].location == target
      modifies this
      ensures Current() == TrackerModel.Reset(index.symbols, old(Current()), start)
    {
      Forget(start);
      snapshot := StartSnapshot(snapshot.revision + 1, target);
    }

    /** Everything but the snapshot. */
    method Forget(start: nat)
      modifies this
      ensures Current() == StartAt(start, old(snapshot))
    {
      initialSymbol, cursorSymbol, committedSymbol := start, start, start;
      latestSourceRevision, observationIds, observationIdOrder, hypothesisHistory := -1, {}, [], [];
      provisionalFinding, completedWordIds, completedWordIdSet := None, [], {};
    }
  }
}
