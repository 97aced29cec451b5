/**
 The reading tracker as a state machine on values: what one submission or reset does to the
 tracker's state, given where the observation was located.
 */
module TrackerModel {
  import opened DuplicateWindow
  import opened Wrappers
  import opened EditScript
  import opened Corpus
  import opened IndexCorpus
  import opened Observations
  import opened Alignments
  import opened Findings
  import opened WordProgress
  import opened TouchedWords
  import Confidence

  const STABILITY_HISTORY_LIMIT := 2

  datatype FindingMode = Off | Substitutions

  datatype Display = Display(location: Location, isReread: bool, activeWordId: Option<string>)

  datatype Snapshot = Snapshot(
    revision: nat,
    observationId: Option<string>,
    display: Display,
    commitLocation: Location,
    completedWordIds: seq<string>,
    confidence: Option<Evidence>,
    finding: Option<Finding>)

  datatype Provisional = Provisional(fingerprint: string, confirmations: nat)

  /** Where the best candidate starts and how far into the reference it reaches. */
  datatype Hypothesis = Hypothesis(symbolIndex: nat, activeOffset: nat)

  datatype State = State(
    initialSymbol: nat,
    cursorSymbol: nat,
    progress: Progress,
    latestSourceRevision: int,
    observationIds: set<string>,
    observationIdOrder: seq<string>,
    hypothesisHistory: seq<Hypothesis>,
    provisional: Option<Provisional>,
    snapshot: Snapshot)

  // ----- looking up a location

  /** The first symbol from k on with the given location; past the end when there is none. */
  function SymbolFrom(symbols: seq<Symbol>, location: Location, k: nat): (p: nat)
    requires k <= |symbols|
    ensures k <= p <= |symbols| && (p < |symbols| ==> symbols[p].location == location)
    ensures forall i | k <= i < p :: symbols[i].location != location
    decreases |symbols| - k
  {
    if k == |symbols| || symbols[k].location == location then k else SymbolFrom(symbols, location, k + 1)
  }

  /** In an ordered corpus a symbol's own location leads back to that symbol. */
  lemma OwnLocationIsFound(symbols: seq<Symbol>, p: nat)
    requires OrderedSymbols(symbols) && p < |symbols|
    ensures SymbolFrom(symbols, symbols[p].location, 0) == p
  {
    var q := SymbolFrom(symbols, symbols[p].location, 0);
    if q < p { SymbolsOrderedThroughout(symbols, q, p); }
  }

  // ----- starting and resetting

  function StartSnapshot(revision: nat, location: Location): Snapshot {
    Snapshot(revision, None, Display(location, false, None), location, [], None, None)
  }

  function StartAt(p: nat, snapshot: Snapshot): State {
    State(p, p, Progress(p, [], {}), -1, {}, [], [], None, snapshot)
  }

  function Initial(symbols: seq<Symbol>, p: nat): State
    requires p < |symbols|
  {
    StartAt(p, StartSnapshot(0, symbols[p].location))
  }

  function Reset(symbols: seq<Symbol>, st: State, p: nat): State
    requires p < |symbols|
  {
    StartAt(p, StartSnapshot(st.snapshot.revision + 1, symbols[p].location))
  }

  // ----- remembering observations and hypotheses

  predicate Ignored(st: State, o: Observation) {
    o.observationId in st.observationIds || o.sourceRevision < st.latestSourceRevision
  }

  /** Appends to a bounded list, dropping the oldest entry when it is full. */
  function PushBounded<T>(s: seq<T>, x: T, limit: nat): seq<T> {
    if |s| + 1 > limit then (s + [x])[1..] else s + [x]
  }

  function Remember(st: State, o: Observation): State {
    var order := PushBounded(st.observationIdOrder, o.observationId, OBSERVATION_ID_LIMIT);
    var ids := st.observationIds + {o.observationId};
    st.(observationIdOrder := order,
        observationIds := if |st.observationIdOrder| + 1 > OBSERVATION_ID_LIMIT
                          then ids - {(st.observationIdOrder + [o.observationId])[0]} else ids,
        latestSourceRevision := o.sourceRevision)
  }

  function HypothesisOf(c: AlignmentCandidate): Hypothesis {
    Hypothesis(c.symbolIndex, ActiveOffset(c.alignment.operations))
  }

  function CountOf(history: seq<Hypothesis>, h: Hypothesis): nat {
    if history == [] then 0
    else CountOf(history[..|history| - 1], h) + if history[|history| - 1] == h then 1 else 0
  }

  function StabilityFor(h: Hypothesis, history: seq<Hypothesis>): real {
    CountOf(history, h) as real / STABILITY_HISTORY_LIMIT as real
  }

  function MarginOver(best: AlignmentCandidate, second: Option<AlignmentCandidate>): real {
    var other := if second.Some? then second.value.score else 0.0;
    if best.score - other < 0.0 then 0.0 else best.score - other
  }

  function InputFor(st: State, o: Observation, c: AlignmentCandidate, second: Option<AlignmentCandidate>): Confidence.ConfidenceInput {
    Confidence.ConfidenceInput(
      c.score, StabilityFor(HypothesisOf(c), st.hypothesisHistory), c.alignment.matchedLookaheadCount,
      MarginOver(c, second), |PhonemesOf(o.tokens)|, AcousticsOf(o.tokens))
  }

  // ----- moving and committing

  function ActiveSymbol(n: nat, c: AlignmentCandidate): nat
    requires n > 0
  {
    Min(n - 1, c.symbolIndex + ActiveOffset(c.alignment.operations))
  }

  /** The words touched by a candidate, by index. */
  function TouchedBy(words: seq<Word>, n: nat, c: AlignmentCandidate): (ks: seq<nat>)
    ensures AreWords(words, ks)
  {
    var m := |ReferenceIndices(c.alignment.operations)|;
    if m == 0 || n == 0 then []
    else
      var first, last := WordAt(words, c.symbolIndex), WordAt(words, Min(n - 1, c.symbolIndex + m - 1 + PARTIAL_COMMIT_LOOKAHEAD));
      if first <= last < |words| then Interval(first, last + 1) else []
  }

  function CommitSupported(words: seq<Word>, n: nat, p: Progress, c: AlignmentCandidate, isFinal: bool): Progress {
    CommitWords(words, SupportOf(c.symbolIndex, c.alignment.operations, isFinal), p, TouchedBy(words, n, c))
  }

  // ----- findings

  /** The reference symbol's id, the spoken phoneme and the expected one, separated by a null character. */
  function Fingerprint(symbols: seq<Symbol>, c: AlignmentCandidate, op: Operation, actual: seq<Phoneme>): Option<string>
    requires op.Substitution?
  {
    var p := c.symbolIndex + op.referenceIndex;
    if p < |symbols| && op.actualIndex < |actual|
    then Some(symbols[p].id + "\0" + actual[op.actualIndex] + "\0" + symbols[p].phoneme)
    else None
  }

  function AdvanceProvisional(previous: Option<Provisional>, fingerprint: string, e: Evidence, context: nat): Option<Provisional> {
    if !Confidence.PassesSoftFindingGate(e, 2, context) then None
    else Some(Provisional(fingerprint,
                          if previous.Some? && previous.value.fingerprint == fingerprint then previous.value.confirmations + 1 else 1))
  }

  datatype Update = Update(provisional: Option<Provisional>, confirmations: nat, context: nat)

  function UpdateProvisional(symbols: seq<Symbol>, previous: Option<Provisional>, c: AlignmentCandidate,
                             actual: seq<Phoneme>, evidence: Option<SubstitutionEvidence>): Update
  {
    if evidence.None? || !evidence.value.operation.Substitution? then Update(None, 0, 0)
    else
      var op := evidence.value.operation;
      var context := ContextOf(c.alignment.operations, op);
      var fingerprint := Fingerprint(symbols, c, op, actual);
      if fingerprint.None? then Update(None, 0, context)
      else
        var next := AdvanceProvisional(previous, fingerprint.value, evidence.value.confidence, context);
        Update(next, if next.Some? then next.value.confirmations else 0, context)
  }

  // ----- one submission

  function LocationAt(symbols: seq<Symbol>, p: nat): Location
    requires symbols != []
  {
    symbols[Min(p, |symbols| - 1)].location
  }

  function NextSnapshot(symbols: seq<Symbol>, st: State, o: Observation, display: Display, progress: Progress,
                        confidence: Option<Evidence>, finding: Option<Finding>): Snapshot
    requires symbols != []
  {
    Snapshot(st.snapshot.revision + 1, Some(o.observationId), display, LocationAt(symbols, progress.committedSymbol),
             progress.completedWordIds, confidence, finding)
  }

  /** A located observation that passes the position gate moves the display and commits words. */
  function MoveDisplay(words: seq<Word>, symbols: seq<Symbol>, st: State, c: AlignmentCandidate, isFinal: bool): State
    requires Words(words, |symbols|) && symbols != []
  {
    var active := ActiveSymbol(|symbols|, c);
    st.(cursorSymbol := active,
        progress := CommitSupported(words, |symbols|, st.progress, c, isFinal),
        snapshot := st.snapshot.(display := Display(symbols[active].location, active < st.progress.committedSymbol,
                                                    WordIdAt(words, |symbols|, active))))
  }

  function FindingInput(mode: FindingMode, c: AlignmentCandidate, e: Evidence): Option<SubstitutionEvidence> {
    if mode == Substitutions && !c.isReread then EvidenceOf(c, e) else None
  }

  /** What a located candidate does: it moves the display if it passes the position gate, joins the
      history, and may carry a finding. */
  datatype Applied = Applied(cursorSymbol: nat, progress: Progress, history: seq<Hypothesis>, provisional: Option<Provisional>,
                             display: Display, confidence: Evidence, finding: Option<Finding>)

  function Apply(words: seq<Word>, symbols: seq<Symbol>, mode: FindingMode, st: State, o: Observation,
                 c: AlignmentCandidate, second: Option<AlignmentCandidate>): Applied
    requires Words(words, |symbols|) && symbols != []
  {
    var e := Confidence.ScoreOf(InputFor(st, o, c, second));
    var actual := PhonemesOf(o.tokens);
    var evidence := FindingInput(mode, c, e);
    var update := UpdateProvisional(symbols, st.provisional, c, actual, evidence);
    var finding := ClassifyFinding(symbols, c, o.observationId, o.isFinal, actual, update.confirmations, update.context, evidence);
    var moved := if Confidence.PassesPositionGate(e) then MoveDisplay(words, symbols, st, c, o.isFinal) else st;
    Applied(moved.cursorSymbol, moved.progress, PushBounded(st.hypothesisHistory, HypothesisOf(c), STABILITY_HISTORY_LIMIT),
            update.provisional, moved.snapshot.display, e, finding)
  }

  function Accept(words: seq<Word>, symbols: seq<Symbol>, mode: FindingMode, st: State, o: Observation, located: Located): State
    requires Words(words, |symbols|) && symbols != []
  {
    var remembered := Remember(st, o);
    match located.best
    case None =>
      remembered.(provisional := None,
                  snapshot := NextSnapshot(symbols, st, o, st.snapshot.display, st.progress, None, None))
    case Some(c) =>
      var a := Apply(words, symbols, mode, st, o, c, located.second);
      remembered.(cursorSymbol := a.cursorSymbol, progress := a.progress, hypothesisHistory := a.history, provisional := a.provisional,
                  snapshot := NextSnapshot(symbols, st, o, a.display, a.progress, Some(a.confidence), a.finding))
  }

  /** Duplicates and stale observations leave the state alone. */
  function Submit(words: seq<Word>, symbols: seq<Symbol>, mode: FindingMode, st: State, o: Observation, located: Located): State
    requires Words(words, |symbols|) && symbols != []
  {
    if Ignored(st, o) then st else Accept(words, symbols, mode, st, o, located)
  }

  // ----- what is known of a located observation

  /** The candidate aligns the observation with m reference symbols from its position on. */
  ghost predicate Aligned(symbols: seq<Symbol>, actual: seq<Phoneme>, committedSymbol: nat, c: AlignmentCandidate, m: nat) {
    && 0 < m && c.symbolIndex + m <= |symbols|
    && CompleteScript(c.alignment.operations, actual, PhonemesAt(symbols, c.symbolIndex, m))
    && (c.isReread <==> c.symbolIndex < committedSymbol)
  }

  ghost predicate GoodLocated(symbols: seq<Symbol>, o: Observation, committedSymbol: nat, located: Located) {
    located.best.Some? ==> exists m :: Aligned(symbols, PhonemesOf(o.tokens), committedSymbol, located.best.value, m)
  }
}
