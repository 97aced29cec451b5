/** What every step of the reading tracker keeps, and what holds over whole runs. */
module TrackerTheorems {
  import opened DuplicateWindow
  import opened Wrappers
  import opened Sequences
  import opened EditScript
  import opened Alignments
  import opened Corpus
  import opened IndexCorpus
  import opened Observations
  import opened Findings
  import opened WordProgress
  import opened TouchedWords
  import opened TrackerModel
  import Confidence

  // ----- the invariant

  /** The remembered ids are the entries of the window, each once, at most 512 of them. */
  ghost predicate WindowOk(st: State) {
    && st.observationIds == IdSet(st.observationIdOrder)
    && Distinct(st.observationIdOrder)
    && |st.observationIdOrder| <= OBSERVATION_ID_LIMIT
    && |st.hypothesisHistory| <= STABILITY_HISTORY_LIMIT
  }

  /** The display shows the cursor, is marked as a reread exactly when the cursor lies in front of the
      commit point, and names the cursor's word or none. */
  ghost predicate DisplayOk(words: seq<Word>, symbols: seq<Symbol>, st: State)
    requires Words(words, |symbols|)
  {
    && st.cursorSymbol < |symbols|
    && st.snapshot.display.location == symbols[st.cursorSymbol].location
    && (st.snapshot.display.isReread <==> st.cursorSymbol < st.progress.committedSymbol)
    && (st.snapshot.display.activeWordId.Some? ==> st.snapshot.display.activeWordId == WordIdAt(words, |symbols|, st.cursorSymbol))
  }

  /** Completed words are in strictly increasing corpus order, and the commit point is the maximum of
      the initial symbol and their last symbols; the snapshot shows both. */
  ghost predicate CommitOk(words: seq<Word>, symbols: seq<Symbol>, st: State)
    requires symbols != []
  {
    && Consistent(words, |symbols|, st.initialSymbol, st.progress)
    && st.snapshot.commitLocation == LocationAt(symbols, st.progress.committedSymbol)
    && st.snapshot.completedWordIds == st.progress.completedWordIds
  }

  ghost predicate Invariant(words: seq<Word>, symbols: seq<Symbol>, st: State) {
    && Words(words, |symbols|) && symbols != []
    && WindowOk(st) && DisplayOk(words, symbols, st) && CommitOk(words, symbols, st)
  }

  lemma StartKeeps(words: seq<Word>, symbols: seq<Symbol>, st: State, p: nat)
    requires Words(words, |symbols|) && p < |symbols|
    ensures Invariant(words, symbols, Initial(symbols, p)) && Invariant(words, symbols, Reset(symbols, st, p))
    ensures Reset(symbols, st, p).snapshot.revision == st.snapshot.revision + 1
  {}

  lemma RememberKeeps(st: State, o: Observation)
    requires WindowOk(st) && !Ignored(st, o)
    ensures WindowOk(Remember(st, o))
    ensures Remember(st, o).observationIdOrder == PushBounded(st.observationIdOrder, o.observationId, OBSERVATION_ID_LIMIT)
  {
    var all := st.observationIdOrder + [o.observationId];
    assert IdSet(all) == IdSet(st.observationIdOrder) + {o.observationId};
    assert Distinct(all) by {
      forall i | 0 <= i < |st.observationIdOrder| ensures all[i] != o.observationId {
        assert all[i] in IdSet(st.observationIdOrder);
      }
    }
    DropFirst(all);
  }

  lemma DropFirst(ids: seq<string>)
    requires ids != [] && Distinct(ids)
    ensures IdSet(ids[1..]) == IdSet(ids) - {ids[0]} && Distinct(ids[1..])
  {
    forall id | id in IdSet(ids) - {ids[0]} ensures id in ids[1..] {
      var i :| 0 <= i < |ids| && ids[i] == id;
      assert ids[1..][i - 1] == id;
    }
    forall id | id in ids[1..] ensures id in ids && id != ids[0] {
      var i :| 0 <= i < |ids[1..]| && ids[1..][i] == id;
      assert ids[i + 1] == id;
    }
  }

  // ----- moving and committing

  /** The words touched by an aligned candidate are those of its support. */
  lemma TouchedByAligned(words: seq<Word>, symbols: seq<Symbol>, actual: seq<Phoneme>, committedSymbol: nat,
                         c: AlignmentCandidate, m: nat, isFinal: bool)
    requires Words(words, |symbols|) && Aligned(symbols, actual, committedSymbol, c, m)
    ensures var s := SupportOf(c.symbolIndex, c.alignment.operations, isFinal);
            && Within(s, m)
            && WordAt(words, s.start) <= WordAt(words, LastTouched(|symbols|, s, m)) < |words|
            && TouchedBy(words, |symbols|, c) == TouchedInterval(words, |symbols|, s, m)
  {
    var s := SupportOf(c.symbolIndex, c.alignment.operations, isFinal);
    SupportWithin(c.symbolIndex, c.alignment.operations, actual, PhonemesAt(symbols, c.symbolIndex, m), isFinal);
    WordAtMonotone(words, |symbols|, s.start, LastTouched(|symbols|, s, m));
    assert |ReferenceIndices(c.alignment.operations)| == |UpTo(m)| == m;
  }

  /** Committing the touched words of a located observation equals going through every word of the
      corpus in order. */
  lemma TouchedCommitIsFullCommit(words: seq<Word>, symbols: seq<Symbol>, actual: seq<Phoneme>, committedSymbol: nat,
                                  c: AlignmentCandidate, m: nat, isFinal: bool, p: Progress)
    requires Words(words, |symbols|) && Aligned(symbols, actual, committedSymbol, c, m)
    ensures CommitSupported(words, |symbols|, p, c, isFinal)
         == CommitWords(words, SupportOf(c.symbolIndex, c.alignment.operations, isFinal), p, Interval(0, |words|))
  {
    TouchedByAligned(words, symbols, actual, committedSymbol, c, m, isFinal);
    CommitTouchedIsCommitAll(words, |symbols|, SupportOf(c.symbolIndex, c.alignment.operations, isFinal), m, p);
  }

  /** A move keeps the order of completed words, only appends to them and never moves the commit
      point back. The reread flag, computed before words are committed, is right afterwards as well,
      because no commit reaches past the cursor; and a partial observation that commits leaves the
      cursor at least two positions past the commit point. */
  lemma MoveKeeps(words: seq<Word>, symbols: seq<Symbol>, st: State, actual: seq<Phoneme>, c: AlignmentCandidate, m: nat, isFinal: bool)
    requires Words(words, |symbols|) && symbols != [] && Consistent(words, |symbols|, st.initialSymbol, st.progress)
    requires Aligned(symbols, actual, st.progress.committedSymbol, c, m)
    ensures var moved := MoveDisplay(words, symbols, st, c, isFinal);
            && DisplayOk(words, symbols, moved)
            && Consistent(words, |symbols|, st.initialSymbol, moved.progress)
            && st.progress.completedWordIds <= moved.progress.completedWordIds
            && st.progress.committedSymbol <= moved.progress.committedSymbol
            && moved.cursorSymbol == c.symbolIndex + ActiveOffset(c.alignment.operations)
            && (moved.progress != st.progress ==> moved.progress.committedSymbol <= moved.cursorSymbol)
            && (moved.progress != st.progress && !isFinal ==> moved.progress.committedSymbol + 2 <= moved.cursorSymbol)
  {
    var s := SupportOf(c.symbolIndex, c.alignment.operations, isFinal);
    SupportWithin(c.symbolIndex, c.alignment.operations, actual, PhonemesAt(symbols, c.symbolIndex, m), isFinal);
    CommitWordsKeep(words, |symbols|, st.initialSymbol, s, st.progress, TouchedBy(words, |symbols|, c));
    CommitIsSupported(words, |symbols|, s, st.progress, TouchedBy(words, |symbols|, c));
  }

  // ----- one submission

  /** What an accepted submission does besides moving: it advances the revision by one, pushes the id
      and takes over the source revision. */
  lemma AcceptAdvances(words: seq<Word>, symbols: seq<Symbol>, mode: FindingMode, st: State, o: Observation, located: Located)
    requires Words(words, |symbols|) && symbols != [] && !Ignored(st, o)
    ensures var next := Submit(words, symbols, mode, st, o, located);
            && next.snapshot.revision == st.snapshot.revision + 1
            && next.snapshot.observationId == Some(o.observationId)
            && next.observationIdOrder == PushBounded(st.observationIdOrder, o.observationId, OBSERVATION_ID_LIMIT)
            && next.observationIds == Remember(st, o).observationIds
            && next.latestSourceRevision == o.sourceRevision
            && next.initialSymbol == st.initialSymbol
  {}

  /** What a submission with a candidate does to cursor, progress and display. */
  lemma AcceptMoves(words: seq<Word>, symbols: seq<Symbol>, mode: FindingMode, st: State, o: Observation, located: Located)
    requires Words(words, |symbols|) && symbols != [] && !Ignored(st, o)
    ensures var next := Submit(words, symbols, mode, st, o, located);
            var moves := located.best.Some? && Confidence.PassesPositionGate(Confidence.ScoreOf(InputFor(st, o, located.best.value, located.second)));
            if moves
            then var moved := MoveDisplay(words, symbols, st, located.best.value, o.isFinal);
                 next.cursorSymbol == moved.cursorSymbol && next.progress == moved.progress
                 && next.snapshot.display == moved.snapshot.display
            else next.cursorSymbol == st.cursorSymbol && next.progress == st.progress && next.snapshot.display == st.snapshot.display
  {}

  lemma AcceptShowsCommit(words: seq<Word>, symbols: seq<Symbol>, mode: FindingMode, st: State, o: Observation, located: Located)
    requires Words(words, |symbols|) && symbols != [] && !Ignored(st, o)
    ensures var next := Submit(words, symbols, mode, st, o, located);
            && next.snapshot.commitLocation == LocationAt(symbols, next.progress.committedSymbol)
            && next.snapshot.completedWordIds == next.progress.completedWordIds
            && (if located.best.Some?
                then next.hypothesisHistory == PushBounded(st.hypothesisHistory, HypothesisOf(located.best.value), STABILITY_HISTORY_LIMIT)
                     && next.snapshot.confidence == Some(Confidence.ScoreOf(InputFor(st, o, located.best.value, located.second)))
                else next.hypothesisHistory == st.hypothesisHistory && next.snapshot.confidence == None)
  {}

  lemma {:induction false} CountAtMostLength(history: seq<Hypothesis>, h: Hypothesis)
    ensures CountOf(history, h) <= |history|
    ensures CountOf(history, h) == |history| <==> forall i | 0 <= i < |history| :: history[i] == h
    decreases |history|
  {
    if history != [] {
      var front := history[..|history| - 1];
      CountAtMostLength(front, h);
      if forall i | 0 <= i < |front| :: front[i] == h { assert history[|front|] == h ==> forall i | 0 <= i < |history| :: history[i] == h; }
      if forall i | 0 <= i < |history| :: history[i] == h { assert forall i | 0 <= i < |front| :: front[i] == history[i]; }
    }
  }

  /** Stability is a share, and full exactly when both remembered hypotheses agree with this one. */
  lemma StabilityIsAgreement(st: State, h: Hypothesis)
    requires WindowOk(st)
    ensures 0.0 <= StabilityFor(h, st.hypothesisHistory) <= 1.0
    ensures StabilityFor(h, st.hypothesisHistory) == 1.0 <==> st.hypothesisHistory == [h, h]
  {
    CountAtMostLength(st.hypothesisHistory, h);
    if st.hypothesisHistory == [h, h] { assert forall i | 0 <= i < 2 :: st.hypothesisHistory[i] == h; }
  }

  /** Every submission keeps the invariant, only appends to the completed words and never moves the
      commit point back; a partial observation that completes a word leaves two positions between the
      commit point and the cursor. */
  lemma SubmitKeeps(words: seq<Word>, symbols: seq<Symbol>, mode: FindingMode, st: State, o: Observation, located: Located)
    requires Invariant(words, symbols, st) && GoodLocated(symbols, o, st.progress.committedSymbol, located)
    ensures var next := Submit(words, symbols, mode, st, o, located);
            && Invariant(words, symbols, next)
            && st.progress.completedWordIds <= next.progress.completedWordIds
            && st.progress.committedSymbol <= next.progress.committedSymbol
            && (next.progress != st.progress && !o.isFinal ==> next.progress.committedSymbol + 2 <= next.cursorSymbol)
  {
    if !Ignored(st, o) {
      RememberKeeps(st, o);
      AcceptAdvances(words, symbols, mode, st, o, located);
      AcceptMoves(words, symbols, mode, st, o, located);
      AcceptShowsCommit(words, symbols, mode, st, o, located);
      if located.best.Some? {
        var m :| Aligned(symbols, PhonemesOf(o.tokens), st.progress.committedSymbol, located.best.value, m);
        MoveKeeps(words, symbols, st, PhonemesOf(o.tokens), located.best.value, m, o.isFinal);
      }
    }
  }

  // ----- findings

  /** The aligned candidate's first substitution pairs two different phonemes at real positions. */
  lemma SubstitutionDiffers(symbols: seq<Symbol>, actual: seq<Phoneme>, committedSymbol: nat, c: AlignmentCandidate, m: nat, k: nat)
    requires Aligned(symbols, actual, committedSymbol, c, m)
    requires k < |c.alignment.operations| && c.alignment.operations[k].Substitution?
    ensures var op := c.alignment.operations[k];
            && op.actualIndex < |actual| && op.referenceIndex < m
            && actual[op.actualIndex] != symbols[c.symbolIndex + op.referenceIndex].phoneme
            && op.referenceIndex <= ActiveOffset(c.alignment.operations)
  {
    var ops := c.alignment.operations;
    PairIsConsumed(c.symbolIndex, ops, k);
    SupportWithin(c.symbolIndex, ops, actual, PhonemesAt(symbols, c.symbolIndex, m), true);
    assert PairsAgree(ops, actual, PhonemesAt(symbols, c.symbolIndex, m));
  }

  /** The finding that a located candidate carries. */
  function FindingFor(symbols: seq<Symbol>, mode: FindingMode, st: State, o: Observation,
                      c: AlignmentCandidate, second: Option<AlignmentCandidate>): Option<Finding> {
    var evidence := FindingInput(mode, c, Confidence.ScoreOf(InputFor(st, o, c, second)));
    var update := UpdateProvisional(symbols, st.provisional, c, PhonemesOf(o.tokens), evidence);
    ClassifyFinding(symbols, c, o.observationId, o.isFinal, PhonemesOf(o.tokens), update.confirmations, update.context, evidence)
  }

  lemma SubmittedFinding(words: seq<Word>, symbols: seq<Symbol>, mode: FindingMode, st: State, o: Observation, located: Located)
    requires Words(words, |symbols|) && symbols != [] && !Ignored(st, o)
    ensures Submit(words, symbols, mode, st, o, located).snapshot.finding
         == if located.best.None? then None else FindingFor(symbols, mode, st, o, located.best.value, located.second)
  {
    hide Words, Ignored, Remember, InputFor, FindingInput, UpdateProvisional, ClassifyFinding, MoveDisplay;
  }

  /** A finding is a substitution of the selected candidate that passes the position gate. */
  lemma FindingOrigin(words: seq<Word>, symbols: seq<Symbol>, mode: FindingMode, st: State, o: Observation, located: Located)
    requires Words(words, |symbols|) && symbols != [] && !Ignored(st, o)
    requires Submit(words, symbols, mode, st, o, located).snapshot.finding.Some?
    ensures located.best.Some? && mode == Substitutions && !located.best.value.isReread
    ensures var c, f := located.best.value, Submit(words, symbols, mode, st, o, located).snapshot.finding.value;
            var ops, actual := c.alignment.operations, PhonemesOf(o.tokens);
            var k := SubstitutionFrom(ops, 0);
            && k < |ops| && f.operation == ops[k] && ops[k].Substitution?
            && f.confidence == WithLookahead(Confidence.ScoreOf(InputFor(st, o, c, located.second)), MatchRun(ops, k + 1))
            && Confidence.PassesPositionGate(f.confidence)
            && f.operation.actualIndex < |actual| && f.actualPhoneme == actual[f.operation.actualIndex]
            && c.symbolIndex + f.operation.referenceIndex < |symbols|
            && f.referencePhoneme == symbols[c.symbolIndex + f.operation.referenceIndex].phoneme
            && f.location == symbols[c.symbolIndex + f.operation.referenceIndex].location
            && f.observationId == o.observationId
  {
    hide Submit, Words, Ignored, InputFor;
    SubmittedFinding(words, symbols, mode, st, o, located);
    SubstitutionFromIsFirst(located.best.value.alignment.operations, 0);
  }

  /** The finding names two different phonemes at a symbol between the commit point before the
      submission and the cursor after it. */
  predicate SoundFinding(symbols: seq<Symbol>, committedBefore: nat, cursorAfter: nat, c: AlignmentCandidate, f: Finding) {
    && f.operation.Substitution?
    && var p := c.symbolIndex + f.operation.referenceIndex;
       && f.actualPhoneme != f.referencePhoneme
       && committedBefore <= p <= cursorAfter < |symbols|
       && f.location == symbols[p].location && f.referencePhoneme == symbols[p].phoneme
  }

  /** A finding comes with a position that moves the display, and carries the confidence scored with
      the substitution's own lookahead, which lies in the unit interval. */
  lemma FindingIsRescored(words: seq<Word>, symbols: seq<Symbol>, mode: FindingMode, st: State, o: Observation, located: Located)
    requires Words(words, |symbols|) && symbols != [] && !Ignored(st, o)
    requires Submit(words, symbols, mode, st, o, located).snapshot.finding.Some?
    ensures located.best.Some?
    ensures var c, f := located.best.value, Submit(words, symbols, mode, st, o, located).snapshot.finding.value;
            var ops := c.alignment.operations;
            && SubstitutionFrom(ops, 0) < |ops|
            && f.confidence == Confidence.ScoreOf(InputFor(st, o, c, located.second).(
                 matchedLookaheadCount := MatchRun(ops, SubstitutionFrom(ops, 0) + 1)))
            && 0.0 <= f.confidence.combined <= 1.0
            && Confidence.PassesPositionGate(Confidence.ScoreOf(InputFor(st, o, c, located.second)))
  {
    FindingOrigin(words, symbols, mode, st, o, located);
    var c := located.best.value;
    var ops := c.alignment.operations;
    var input, run := InputFor(st, o, c, located.second), MatchRun(ops, SubstitutionFrom(ops, 0) + 1);
    AdjustedIsRescored(input, run);
    Confidence.ScoreInUnit(input.(matchedLookaheadCount := run));
  }

  /** Every finding is sound, and the display moves to the cursor with it. */
  lemma FindingIsSound(words: seq<Word>, symbols: seq<Symbol>, mode: FindingMode, st: State, o: Observation, located: Located)
    requires Invariant(words, symbols, st) && GoodLocated(symbols, o, st.progress.committedSymbol, located) && !Ignored(st, o)
    requires Submit(words, symbols, mode, st, o, located).snapshot.finding.Some?
    ensures located.best.Some?
    ensures var next, c := Submit(words, symbols, mode, st, o, located), located.best.value;
            && SoundFinding(symbols, st.progress.committedSymbol, next.cursorSymbol, c, next.snapshot.finding.value)
            && next.cursorSymbol == c.symbolIndex + ActiveOffset(c.alignment.operations)
            && next.snapshot.display == MoveDisplay(words, symbols, st, c, o.isFinal).snapshot.display
  {
    hide Aligned, SoundFinding, ProvisionalOf;
    FindingIsRescored(words, symbols, mode, st, o, located);
    FindingOrigin(words, symbols, mode, st, o, located);
    AcceptMoves(words, symbols, mode, st, o, located);
    var next, c := Submit(words, symbols, mode, st, o, located), located.best.value;
    var m :| Aligned(symbols, PhonemesOf(o.tokens), st.progress.committedSymbol, c, m);
    MoveKeeps(words, symbols, st, PhonemesOf(o.tokens), c, m, o.isFinal);
    OriginIsSound(symbols, PhonemesOf(o.tokens), st.progress.committedSymbol, next.cursorSymbol, c, m, next.snapshot.finding.value);
  }

  lemma OriginIsSound(symbols: seq<Symbol>, actual: seq<Phoneme>, committedSymbol: nat, cursorAfter: nat,
                      c: AlignmentCandidate, m: nat, f: Finding)
    requires Aligned(symbols, actual, committedSymbol, c, m) && !c.isReread
    requires var ops := c.alignment.operations;
             var k := SubstitutionFrom(ops, 0);
             && k < |ops| && f.operation == ops[k] && ops[k].Substitution?
             && f.operation.actualIndex < |actual| && f.actualPhoneme == actual[f.operation.actualIndex]
             && c.symbolIndex + f.operation.referenceIndex < |symbols|
             && f.referencePhoneme == symbols[c.symbolIndex + f.operation.referenceIndex].phoneme
             && f.location == symbols[c.symbolIndex + f.operation.referenceIndex].location
    requires cursorAfter == c.symbolIndex + ActiveOffset(c.alignment.operations) < |symbols|
    ensures SoundFinding(symbols, committedSymbol, cursorAfter, c, f)
  {
    SubstitutionDiffers(symbols, actual, committedSymbol, c, m, SubstitutionFrom(c.alignment.operations, 0));
  }

  // ----- confirmations as a property of the history

  predicate NoNul(s: string) { '\0' !in s }

  /** The part in front of the first separator, and what follows it, can be read back. */
  lemma SplitAtNul(a: string, rest: string, b: string, other: string)
    requires NoNul(a) && NoNul(b) && a + "\0" + rest == b + "\0" + other
    ensures a == b && rest == other
  {
    var x, y := a + "\0" + rest, b + "\0" + other;
    assert x[|a|] == '\0' && forall i | 0 <= i < |a| :: x[i] != '\0';
    assert y[|b|] == '\0' && forall i | 0 <= i < |b| :: y[i] != '\0';
    assert |a| == |b|;
    assert a == x[..|a|] && b == y[..|b|];
    assert rest == x[|a| + 1..] && other == y[|b| + 1..];
  }

  /** The symbol at which a substitution points. */
  function SymbolOf(c: AlignmentCandidate, op: Operation): nat
    requires op.Substitution?
  {
    c.symbolIndex + op.referenceIndex
  }

  /** Equal fingerprints stand for the same substitution: the same phoneme spoken at the same symbol, when
      neither ids nor phonemes contain the separator. */
  lemma FingerprintIdentifies(symbols: seq<Symbol>, c: AlignmentCandidate, op: Operation, actual: seq<Phoneme>,
                              d: AlignmentCandidate, other: Operation, spoken: seq<Phoneme>)
    requires op.Substitution? && other.Substitution? && DistinctSymbolIds(symbols)
    requires Fingerprint(symbols, c, op, actual).Some? && Fingerprint(symbols, c, op, actual) == Fingerprint(symbols, d, other, spoken)
    requires NoNul(actual[op.actualIndex]) && NoNul(spoken[other.actualIndex])
    requires NoNul(symbols[SymbolOf(c, op)].id) && NoNul(symbols[SymbolOf(d, other)].id)
    ensures SymbolOf(c, op) == SymbolOf(d, other) && actual[op.actualIndex] == spoken[other.actualIndex]
  {
    var x, y := symbols[SymbolOf(c, op)], symbols[SymbolOf(d, other)];
    var said, heard := actual[op.actualIndex], spoken[other.actualIndex];
    assert x.id + "\0" + said + "\0" + x.phoneme == x.id + "\0" + (said + "\0" + x.phoneme);
    assert y.id + "\0" + heard + "\0" + y.phoneme == y.id + "\0" + (heard + "\0" + y.phoneme);
    SplitAtNul(x.id, said + "\0" + x.phoneme, y.id, heard + "\0" + y.phoneme);
    SplitAtNul(said, x.phoneme, heard, y.phoneme);
  }

  /** The fingerprint an accepted observation contributes: that of its selected substitution when it
      passes the soft gate's thresholds, otherwise none. */
  function Eligible(symbols: seq<Symbol>, mode: FindingMode, st: State, o: Observation, located: Located): Option<string> {
    if located.best.None? then None
    else
      var c := located.best.value;
      var evidence := FindingInput(mode, c, Confidence.ScoreOf(InputFor(st, o, c, located.second)));
      if evidence.None? || !evidence.value.operation.Substitution? then None
      else
        var op := evidence.value.operation;
        if Confidence.PassesSoftFindingGate(evidence.value.confidence, 2, ContextOf(c.alignment.operations, op))
        then Fingerprint(symbols, c, op, PhonemesOf(o.tokens)) else None
  }

  /** The length of the longest suffix of the trace that consists of x only. */
  function TrailingRun(trace: seq<Option<string>>, x: Option<string>): nat {
    if trace == [] || trace[|trace| - 1] != x then 0 else 1 + TrailingRun(trace[..|trace| - 1], x)
  }

  /** The run is a suffix of x only, and the entry in front of it, if any, is different. */
  lemma {:induction false} TrailingRunIsMaximal(trace: seq<Option<string>>, x: Option<string>)
    ensures var k := TrailingRun(trace, x);
            && k <= |trace|
            && (forall i | |trace| - k <= i < |trace| :: trace[i] == x)
            && (k < |trace| ==> trace[|trace| - k - 1] != x)
    decreases |trace|
  {
    if trace != [] && trace[|trace| - 1] == x { TrailingRunIsMaximal(trace[..|trace| - 1], x); }
  }

  /** The provisional finding that a history of contributions amounts to. */
  function ProvisionalOf(trace: seq<Option<string>>): Option<Provisional> {
    if trace == [] || trace[|trace| - 1].None? then None
    else Some(Provisional(trace[|trace| - 1].value, TrailingRun(trace, trace[|trace| - 1])))
  }

  lemma ProvisionalStep(trace: seq<Option<string>>, x: Option<string>)
    ensures ProvisionalOf(trace + [x]) ==
            if x.None? then None
            else Some(Provisional(x.value, if ProvisionalOf(trace).Some? && ProvisionalOf(trace).value.fingerprint == x.value
                                           then ProvisionalOf(trace).value.confirmations + 1 else 1))
  {
    var all := trace + [x];
    assert all[..|all| - 1] == trace;
    assert TrailingRun(all, x) == 1 + TrailingRun(trace, x);
  }

  /** A submission extends the history by what the observation contributes. */
  lemma {:induction false} SubmitExtendsTrace(words: seq<Word>, symbols: seq<Symbol>, mode: FindingMode, st: State, o: Observation,
                                              located: Located, trace: seq<Option<string>>)
    requires Words(words, |symbols|) && symbols != [] && !Ignored(st, o) && st.provisional == ProvisionalOf(trace)
    ensures Submit(words, symbols, mode, st, o, located).provisional
         == ProvisionalOf(trace + [Eligible(symbols, mode, st, o, located)])
  {
    ProvisionalStep(trace, Eligible(symbols, mode, st, o, located));
  }

  /** A soft finding is backed by at least two agreeing observations in a row, this one included. */
  lemma {:induction false} SoftFindingIsConfirmed(words: seq<Word>, symbols: seq<Symbol>, mode: FindingMode, st: State, o: Observation,
                                                  located: Located, trace: seq<Option<string>>)
    requires Words(words, |symbols|) && symbols != [] && !Ignored(st, o) && st.provisional == ProvisionalOf(trace)
    requires var f := Submit(words, symbols, mode, st, o, located).snapshot.finding; f.Some? && f.value.confirmation.Soft?
    ensures var x, f := Eligible(symbols, mode, st, o, located), Submit(words, symbols, mode, st, o, located).snapshot.finding.value;
            && x.Some? && f.confirmations >= 2 && f.confirmations == TrailingRun(trace + [x], x)
            && trace != [] && trace[|trace| - 1] == x
  {
    hide Submit, Words, Ignored, InputFor;
    SubmittedFinding(words, symbols, mode, st, o, located);
    var x := Eligible(symbols, mode, st, o, located);
    ProvisionalStep(trace, x);
    TrailingRunIsMaximal(trace + [x], x);
    var f := Submit(words, symbols, mode, st, o, located).snapshot.finding.value;
    assert (trace + [x])[|trace| - 1] == x;
  }

  /** The confidence of the selected substitution. */
  function SubstitutionScore(st: State, o: Observation, c: AlignmentCandidate, second: Option<AlignmentCandidate>): Evidence {
    var ops := c.alignment.operations;
    SubstitutionFromIsFirst(ops, 0);
    var run := if SubstitutionFrom(ops, 0) < |ops| then MatchRun(ops, SubstitutionFrom(ops, 0) + 1) else 0;
    Confidence.ScoreOf(InputFor(st, o, c, second).(matchedLookaheadCount := run))
  }

  /** When a substitution is there to be reported, and how it is confirmed. */
  predicate Reportable(mode: FindingMode, located: Located) {
    && mode == Substitutions && located.best.Some? && !located.best.value.isReread
    && SubstitutionFrom(located.best.value.alignment.operations, 0) < |located.best.value.alignment.operations|
  }

  /** The number of agreeing contributions in a row with x as the last one. */
  function Agreement(trace: seq<Option<string>>, x: Option<string>): nat { if x.Some? then TrailingRun(trace + [x], x) else 0 }

  predicate Confirmed(e: Evidence, isFinal: bool, agreement: nat) {
    && Confidence.PassesPositionGate(e)
    && (Confidence.PassesImmediateFindingGate(e) || (isFinal && Confidence.PassesFinalFindingGate(e)) || agreement >= 2)
  }

  /** The finding is marked with the first of the three ways in which it is confirmed. */
  predicate MarkedAs(f: Finding, e: Evidence, isFinal: bool) {
    && f.confidence == e
    && (f.confirmation.Immediate? <==> Confidence.PassesImmediateFindingGate(e))
    && (f.confirmation.Final? <==> !Confidence.PassesImmediateFindingGate(e) && isFinal && Confidence.PassesFinalFindingGate(e))
  }

  /** The selected substitution lies in range, and its evidence is scored with its own lookahead. */
  predicate InRange(symbols: seq<Symbol>, st: State, o: Observation, c: AlignmentCandidate, second: Option<AlignmentCandidate>) {
    var ops := c.alignment.operations;
    var k := SubstitutionFrom(ops, 0);
    SubstitutionFromIsFirst(ops, 0);
    && k < |ops| && ops[k].Substitution? && ops[k].actualIndex < |PhonemesOf(o.tokens)| && c.symbolIndex + ops[k].referenceIndex < |symbols|
    && EvidenceOf(c, Confidence.ScoreOf(InputFor(st, o, c, second)))
       == Some(SubstitutionEvidence(ops[k], SubstitutionScore(st, o, c, second)))
  }

  lemma ReportableIsInRange(symbols: seq<Symbol>, mode: FindingMode, st: State, o: Observation, located: Located)
    requires Reportable(mode, located) && GoodLocated(symbols, o, st.progress.committedSymbol, located)
    ensures InRange(symbols, st, o, located.best.value, located.second)
  {
    var c := located.best.value;
    var ops := c.alignment.operations;
    SubstitutionFromIsFirst(ops, 0);
    var m :| Aligned(symbols, PhonemesOf(o.tokens), st.progress.committedSymbol, c, m);
    SubstitutionDiffers(symbols, PhonemesOf(o.tokens), st.progress.committedSymbol, c, m, SubstitutionFrom(ops, 0));
    var input, run := InputFor(st, o, c, located.second), MatchRun(ops, SubstitutionFrom(ops, 0) + 1);
    AdjustedIsRescored(input, run);
    assert SubstitutionScore(st, o, c, located.second) == Confidence.ScoreOf(input.(matchedLookaheadCount := run));
    assert EvidenceOf(c, Confidence.ScoreOf(input)) ==
      Some(SubstitutionEvidence(ops[SubstitutionFrom(ops, 0)], WithLookahead(Confidence.ScoreOf(input), run)));
  }

  lemma NothingReported(words: seq<Word>, symbols: seq<Symbol>, mode: FindingMode, st: State, o: Observation, located: Located)
    requires Words(words, |symbols|) && symbols != [] && !Ignored(st, o) && !Reportable(mode, located)
    ensures Submit(words, symbols, mode, st, o, located).snapshot.finding == None
  {
    hide Submit, Words, Ignored, InputFor;
    SubmittedFinding(words, symbols, mode, st, o, located);
    if located.best.Some? {
      var c := located.best.value;
      SubstitutionFromIsFirst(c.alignment.operations, 0);
      assert FindingInput(mode, c, Confidence.ScoreOf(InputFor(st, o, c, located.second))) == None;
    }
  }

  lemma {:induction false} FindingOfSubstitution(words: seq<Word>, symbols: seq<Symbol>, mode: FindingMode, st: State, o: Observation,
                                                 located: Located, trace: seq<Option<string>>)
    requires Words(words, |symbols|) && symbols != [] && !Ignored(st, o) && Reportable(mode, located) && st.provisional == ProvisionalOf(trace)
    requires InRange(symbols, st, o, located.best.value, located.second)
    ensures var finding := Submit(words, symbols, mode, st, o, located).snapshot.finding;
            var e := SubstitutionScore(st, o, located.best.value, located.second);
            && (finding.Some? <==> Confirmed(e, o.isFinal, Agreement(trace, Eligible(symbols, mode, st, o, located))))
            && (finding.Some? ==> MarkedAs(finding.value, e, o.isFinal))
  {
    hide Submit, Words, Ignored, InputFor;
    SubmittedFinding(words, symbols, mode, st, o, located);
    ProvisionalStep(trace, Eligible(symbols, mode, st, o, located));
  }

  /** A finding appears exactly when there is a substitution to report and it is confirmed: it passes the
      position gate and one of the immediate gate, the final gate on a final observation, or agreement
      with the observation before it. */
  lemma {:induction false} FindingExactlyWhen(words: seq<Word>, symbols: seq<Symbol>, mode: FindingMode, st: State, o: Observation,
                                              located: Located, trace: seq<Option<string>>)
    requires Words(words, |symbols|) && symbols != [] && GoodLocated(symbols, o, st.progress.committedSymbol, located)
    requires !Ignored(st, o) && st.provisional == ProvisionalOf(trace)
    ensures var finding := Submit(words, symbols, mode, st, o, located).snapshot.finding;
            && (finding.Some? <==>
                  && Reportable(mode, located)
                  && Confirmed(SubstitutionScore(st, o, located.best.value, located.second), o.isFinal,
                               Agreement(trace, Eligible(symbols, mode, st, o, located))))
            && (finding.Some? ==> MarkedAs(finding.value, SubstitutionScore(st, o, located.best.value, located.second), o.isFinal))
  {
    if Reportable(mode, located) {
      ReportableIsInRange(symbols, mode, st, o, located);
      FindingOfSubstitution(words, symbols, mode, st, o, located, trace);
    } else {
      NothingReported(words, symbols, mode, st, o, located);
    }
  }

  // ----- whole runs

  datatype Event = Observed(o: Observation, located: Located) | WasReset(p: nat)

  function Step(words: seq<Word>, symbols: seq<Symbol>, mode: FindingMode, st: State, e: Event): State
    requires Words(words, |symbols|) && symbols != []
  {
    match e
    case Observed(o, located) => Submit(words, symbols, mode, st, o, located)
    case WasReset(p) => if p < |symbols| then Reset(symbols, st, p) else st
  }

  function After(words: seq<Word>, symbols: seq<Symbol>, mode: FindingMode, st: State, events: seq<Event>): State
    requires Words(words, |symbols|) && symbols != []
  {
    if events == [] then st
    else Step(words, symbols, mode, After(words, symbols, mode, st, events[..|events| - 1]), events[|events| - 1])
  }

  /** Each observation is located relative to the commit point the tracker has at that moment. */
  ghost predicate Legal(words: seq<Word>, symbols: seq<Symbol>, mode: FindingMode, st: State, events: seq<Event>)
    requires Words(words, |symbols|) && symbols != []
  {
    events != [] ==>
      var before, e := events[..|events| - 1], events[|events| - 1];
      && Legal(words, symbols, mode, st, before)
      && (e.Observed? ==> GoodLocated(symbols, e.o, After(words, symbols, mode, st, before).progress.committedSymbol, e.located))
  }

  /** The ids accepted, and the contributions made, since the last reset. */
  datatype History = History(accepted: seq<string>, trace: seq<Option<string>>)

  function HistoryOf(words: seq<Word>, symbols: seq<Symbol>, mode: FindingMode, st: State, events: seq<Event>): History
    requires Words(words, |symbols|) && symbols != []
  {
    if events == [] then History([], [])
    else
      var before, e := events[..|events| - 1], events[|events| - 1];
      var h, at := HistoryOf(words, symbols, mode, st, before), After(words, symbols, mode, st, before);
      match e
      case WasReset(p) => if p < |symbols| then History([], []) else h
      case Observed(o, located) =>
        if Ignored(at, o) then h
        else History(h.accepted + [o.observationId], h.trace + [Eligible(symbols, mode, at, o, located)])
  }

  lemma PushIsLast<T>(s: seq<T>, x: T, limit: nat)
    requires limit > 0
    ensures PushBounded(LastUpTo(s, limit), x, limit) == LastUpTo(s + [x], limit)
  {}

  /** Every reachable state satisfies the invariant; the window holds the last 512 ids accepted since
      the last reset; and the provisional finding counts the maximal suffix of agreeing contributions
      since the last reset. */
  lemma {:induction false} RunInvariant(words: seq<Word>, symbols: seq<Symbol>, mode: FindingMode, p: nat, events: seq<Event>)
    requires Words(words, |symbols|) && p < |symbols| && Legal(words, symbols, mode, Initial(symbols, p), events)
    ensures var st, h := After(words, symbols, mode, Initial(symbols, p), events), HistoryOf(words, symbols, mode, Initial(symbols, p), events);
            && Invariant(words, symbols, st)
            && st.observationIdOrder == LastUpTo(h.accepted, OBSERVATION_ID_LIMIT)
            && st.provisional == ProvisionalOf(h.trace)
    decreases |events|
  {
    var st0 := Initial(symbols, p);
    StartKeeps(words, symbols, st0, p);
    if events != [] {
      var before, e := events[..|events| - 1], events[|events| - 1];
      RunInvariant(words, symbols, mode, p, before);
      var st, h := After(words, symbols, mode, st0, before), HistoryOf(words, symbols, mode, st0, before);
      match e
      case WasReset(q) => if q < |symbols| { StartKeeps(words, symbols, st, q); }
      case Observed(o, located) =>
        SubmitKeeps(words, symbols, mode, st, o, located);
        if !Ignored(st, o) {
          AcceptAdvances(words, symbols, mode, st, o, located);
          PushIsLast(h.accepted, o.observationId, OBSERVATION_ID_LIMIT);
          SubmitExtendsTrace(words, symbols, mode, st, o, located, h.trace);
        }
    }
  }

  predicate NoReset(events: seq<Event>) { forall i | 0 <= i < |events| :: events[i].Observed? }

  lemma AfterAppend(words: seq<Word>, symbols: seq<Symbol>, mode: FindingMode, st: State, events: seq<Event>, e: Event)
    requires Words(words, |symbols|) && symbols != []
    ensures After(words, symbols, mode, st, events + [e]) == Step(words, symbols, mode, After(words, symbols, mode, st, events), e)
    ensures Legal(words, symbols, mode, st, events + [e]) ==> Legal(words, symbols, mode, st, events)
  {
    assert (events + [e])[..|events|] == events;
  }

  /** Between resets the completed words only grow by appending and the commit point never moves back. */
  lemma {:induction false} ProgressBetweenResets(words: seq<Word>, symbols: seq<Symbol>, mode: FindingMode, p: nat,
                                                 events: seq<Event>, more: seq<Event>)
    requires Words(words, |symbols|) && p < |symbols| && NoReset(more)
    requires Legal(words, symbols, mode, Initial(symbols, p), events + more)
    ensures var st := After(words, symbols, mode, Initial(symbols, p), events);
            var later := After(words, symbols, mode, Initial(symbols, p), events + more);
            && st.progress.completedWordIds <= later.progress.completedWordIds
            && st.progress.committedSymbol <= later.progress.committedSymbol
            && st.initialSymbol == later.initialSymbol
    decreases |more|
  {
    if more == [] {
      assert events + more == events;
    } else {
      var front, e := more[..|more| - 1], more[|more| - 1];
      assert events + more == (events + front) + [e];
      AfterAppend(words, symbols, mode, Initial(symbols, p), events + front, e);
      ProgressBetweenResets(words, symbols, mode, p, events, front);
      RunInvariant(words, symbols, mode, p, events + front);
      var st := After(words, symbols, mode, Initial(symbols, p), events + front);
      assert (events + more)[..|events + more| - 1] == events + front;
      SubmitKeeps(words, symbols, mode, st, e.o, e.located);
      if !Ignored(st, e.o) { AcceptAdvances(words, symbols, mode, st, e.o, e.located); }
    }
  }
}
