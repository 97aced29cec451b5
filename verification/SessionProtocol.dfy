/**
 One session of the service: its stored record, its tracker, the queue of operations called on it
 and its live subscribers.

 Operations of a session run one at a time in the order in which they were called. `Advance` takes
 the running operation from one suspension point to the next; between the steps of this session
 anything may happen to others.
 */
module SessionProtocol {
  import opened DuplicateWindow
  import opened Wrappers
  import opened Sequences
  import opened Alignments
  import opened Corpus
  import opened Observations
  import opened WordProgress
  import opened TrackerModel
  import opened TrackerTheorems

  const SNAPSHOT_LIMIT := 256

  // ----- data

  datatype Record = Record(
    snapshot: Snapshot,
    snapshots: seq<Snapshot>,
    observationIds: seq<string>,
    latestSourceRevision: int)

  /** A tracker over its corpus. `history` lists every snapshot the tracker has had. */
  datatype Runtime = Runtime(
    words: seq<Word>,
    symbols: seq<Symbol>,
    mode: FindingMode,
    defaultStart: nat,
    tracker: State,
    history: seq<Snapshot>)

  /** What a subscriber's listener has been called with: all snapshots from revision `first` on. */
  datatype Stream = Stream(first: nat, received: seq<Snapshot>)

  datatype CreatePhase = AwaitingCorpus | AwaitingStore(runtime: Runtime) | Created(runtime: Runtime) | Refused

  datatype UpdatePhase = Waiting | Checked | Updated(snapshot: Snapshot, changed: bool)

  datatype ReadPhase = AwaitingRecord | HaveRecord(record: Option<Record>)

  datatype DeletePhase = AwaitingDelete | Removed

  datatype Job =
    | Creating(corpusId: string, location: Option<Location>, mode: FindingMode, creating: CreatePhase)
    | Getting
    | Resuming(lastRevision: int)
    | Resetting(location: Option<Location>, updating: UpdatePhase)
    | Submitting(o: Observation, updating: UpdatePhase)
    | Subscribing(lastRevision: int, reading: ReadPhase)
    | Deleting(deleting: DeletePhase)

  datatype View = View(record: Option<Record>, runtime: Option<Runtime>, queue: seq<Job>, subscribers: map<nat, Stream>)

  datatype ServiceError = SessionNotFound | InvalidCorpus | InvalidObservation | StaleRevision | CapacityExhausted | SessionExists | ListenerThrew

  datatype Reply =
    | Current(snapshot: Snapshot)
    | Replay(snapshots: seq<Snapshot>)
    | Subscribed(id: nat)
    | Deleted
    | Failed(error: ServiceError)

  /** The session after a step; a reply when the running operation has finished. */
  datatype Turn = Turn(view: View, reply: Option<Reply>)

  /** What a listener does when it is called: it may throw, and it may end subscriptions. */
  datatype Reaction = Reaction(throws: bool, unsubscribes: set<nat>)

  /** What the environment supplies to a step: the resolved corpus, where the observation is located,
      and how the listeners react. */
  datatype Input = Input(corpus: Option<QuranCorpus>, located: Located, reactions: map<nat, Reaction>)

  // ----- the queue

  predicate IsWaiting(j: Job) {
    match j
    case Creating(_, _, _, phase) => phase.AwaitingCorpus?
    case Resetting(_, phase) => phase.Waiting?
    case Submitting(_, phase) => phase.Waiting?
    case Subscribing(_, phase) => phase.AwaitingRecord?
    case Deleting(phase) => phase.AwaitingDelete?
    case _ => true
  }

  function Enqueue(v: View, j: Job): View { v.(queue := v.queue + [j]) }

  /** The running operation enters its next phase. */
  function Become(v: View, j: Job): View
    requires v.queue != []
  {
    v.(queue := [j] + v.queue[1..])
  }

  /** The running operation ends, with or without success, and the next one may run. */
  function Done(v: View): View
    requires v.queue != []
  {
    v.(queue := v.queue[1..])
  }

  function Finish(v: View, reply: Reply): Turn
    requires v.queue != []
  {
    Turn(Done(v), Some(reply))
  }

  function Continue(v: View, j: Job): Turn
    requires v.queue != []
  {
    Turn(Become(v, j), None)
  }

  // ----- subscribers

  /** Calling the listener of `id` ends the subscription x: the listener ends it, or it is its own and
      it throws. */
  predicate Releases(id: nat, x: nat, reactions: map<nat, Reaction>) {
    id in reactions && (x in reactions[id].unsubscribes || (x == id && reactions[id].throws))
  }

  predicate Survives(subscribers: map<nat, Stream>, x: nat, reactions: map<nat, Reaction>) {
    forall id <- subscribers :: !Releases(id, x, reactions)
  }

  /** Every subscriber is called with the snapshot; those released meanwhile are gone. */
  function PublishTo(subscribers: map<nat, Stream>, snapshot: Snapshot, reactions: map<nat, Reaction>): map<nat, Stream> {
    map x | x in subscribers && Survives(subscribers, x, reactions) ::
      subscribers[x].(received := subscribers[x].received + [snapshot])
  }

  /** The snapshots with a revision above the given one. */
  function Above(snapshots: seq<Snapshot>, lastRevision: int): seq<Snapshot> {
    if snapshots == [] then []
    else
      var last := snapshots[|snapshots| - 1];
      Above(snapshots[..|snapshots| - 1], lastRevision) + if last.revision > lastRevision then [last] else []
  }

  /** A new subscriber is first called with the retained snapshots it has not seen. */
  function Register(v: View, record: Record, id: nat, lastRevision: int, reactions: map<nat, Reaction>): Turn
    requires v.queue != []
  {
    var replay := Above(record.snapshots, lastRevision);
    var first := record.snapshot.revision + 1 - |replay|;
    var added := v.subscribers[id := Stream(if first < 0 then 0 else first, replay)];
    if replay == [] || id !in reactions then Finish(v.(subscribers := added), Subscribed(id))
    else Finish(v.(subscribers := AfterReplay(added, id, reactions[id])),
                if reactions[id].throws then Failed(ListenerThrew) else Subscribed(id))
  }

  /** During the replay the listener can end other subscriptions, and its own only by throwing. */
  function AfterReplay(subscribers: map<nat, Stream>, id: nat, reaction: Reaction): map<nat, Stream> {
    map x | x in subscribers && !(if x == id then reaction.throws else x in reaction.unsubscribes) :: subscribers[x]
  }

  // ----- records and runtimes

  function NewRecord(rt: Runtime): Record { Record(rt.tracker.snapshot, [rt.tracker.snapshot], [], -1) }

  function RecordAfter(r: Record, snapshot: Snapshot, observationIds: seq<string>, latestSourceRevision: int): Record {
    Record(snapshot, LastUpTo(r.snapshots + [snapshot], SNAPSHOT_LIMIT), observationIds, latestSourceRevision)
  }

  function Started(words: seq<Word>, symbols: seq<Symbol>, mode: FindingMode, start: nat): Runtime
    requires start < |symbols|
  {
    var st := Initial(symbols, start);
    Runtime(words, symbols, mode, start, st, [st.snapshot])
  }

  function MovedTo(rt: Runtime, st: State): Runtime { rt.(tracker := st, history := rt.history + [st.snapshot]) }

  function HasLocation(symbols: seq<Symbol>, location: Option<Location>): bool {
    location.Some? ==> SymbolFrom(symbols, location.value, 0) < |symbols|
  }

  // ----- the invariant of a session

  /** The tracker's revisions count its snapshots. */
  ghost predicate HistoryOk(history: seq<Snapshot>, snapshot: Snapshot) {
    && |history| == snapshot.revision + 1 && history[|history| - 1] == snapshot
    && forall i | 0 <= i < |history| :: history[i].revision == i
  }

  ghost predicate RuntimeOk(rt: Runtime) {
    && Invariant(rt.words, rt.symbols, rt.tracker) && rt.defaultStart < |rt.symbols|
    && HistoryOk(rt.history, rt.tracker.snapshot)
  }

  /** The record shows the tracker: the same snapshot, the last 256 snapshots, the remembered ids and
      the latest source revision. */
  ghost predicate Mirrors(r: Record, rt: Runtime) {
    && r.snapshot == rt.tracker.snapshot
    && r.snapshots == LastUpTo(rt.history, SNAPSHOT_LIMIT)
    && r.observationIds == rt.tracker.observationIdOrder
    && r.latestSourceRevision == rt.tracker.latestSourceRevision
  }

  /** Every subscriber has received all snapshots from its first one on, except `pending` ones that
      have not been published yet, each once and in order. */
  ghost predicate StreamsOk(subscribers: map<nat, Stream>, history: seq<Snapshot>, pending: nat) {
    forall id <- subscribers :: subscribers[id].first + pending <= |history|
                                && subscribers[id].received == history[subscribers[id].first..|history| - pending]
  }

  ghost predicate Live(r: Record, rt: Runtime, subscribers: map<nat, Stream>, pending: nat) {
    RuntimeOk(rt) && Mirrors(r, rt) && StreamsOk(subscribers, rt.history, pending)
  }

  /** Either the session does not exist, or record, tracker and streams agree. */
  ghost predicate Settled(v: View, pending: nat) {
    if v.record.Some? then v.runtime.Some? && Live(v.record.value, v.runtime.value, v.subscribers, pending)
    else v.runtime.None? && v.subscribers == map[]
  }

  ghost predicate Fresh(rt: Runtime) {
    RuntimeOk(rt) && |rt.history| == 1 && rt.tracker.observationIdOrder == [] && rt.tracker.latestSourceRevision == -1
  }

  /** What holds while the operation runs. Only between the two halves of a creation or a deletion do
      record and tracker not exist together. */
  ghost predicate HeadOk(v: View, j: Job) {
    match j
    case Creating(_, _, _, phase) => (
      match phase
      case AwaitingStore(rt) => Settled(v, 0) && Fresh(rt)
      case Created(rt) => v.record == Some(NewRecord(rt)) && v.runtime.None? && v.subscribers == map[] && Fresh(rt)
      case _ => Settled(v, 0))
    case Resetting(location, phase) => (
      match phase
      case Waiting => Settled(v, 0)
      case Checked => Settled(v, 0) && v.runtime.Some? && HasLocation(v.runtime.value.symbols, location)
      case Updated(snapshot, changed) => changed && Settled(v, 1) && v.record.Some? && v.record.value.snapshot == snapshot)
    case Submitting(_, phase) => (
      match phase
      case Updated(snapshot, changed) =>
        Settled(v, if changed then 1 else 0) && v.record.Some? && v.record.value.snapshot == snapshot
      case _ => Settled(v, 0))
    case Subscribing(_, phase) => Settled(v, 0) && (phase.HaveRecord? ==> phase.record == v.record)
    case Deleting(phase) =>
      if phase.Removed? then v.record.None? && v.runtime.Some? && RuntimeOk(v.runtime.value) else Settled(v, 0)
    case _ => Settled(v, 0)
  }

  ghost predicate OthersWait(queue: seq<Job>) { forall i | 0 < i < |queue| :: IsWaiting(queue[i]) }

  ghost predicate ViewOk(v: View) {
    OthersWait(v.queue) && if v.queue == [] then Settled(v, 0) else HeadOk(v, v.queue[0])
  }

  // ----- the steps of each operation

  /** The corpus is only accepted when it is valid, not empty, the requested one, and contains the
      requested location. */
  ghost predicate AcceptableCorpus(corpusId: string, location: Option<Location>, corpus: Option<QuranCorpus>) {
    && corpus.Some? && ValidCorpus(corpus.value) && corpus.value.symbols != [] && corpus.value.corpusId == corpusId
    && HasLocation(corpus.value.symbols, location)
  }

  function StartFor(symbols: seq<Symbol>, location: Option<Location>): nat {
    if location.Some? then SymbolFrom(symbols, location.value, 0) else 0
  }

  ghost function AdvanceCreate(v: View, corpus: Option<QuranCorpus>): Turn
    requires v.queue != [] && v.queue[0].Creating?
  {
    var j := v.queue[0];
    match j.creating
    case AwaitingCorpus =>
      if AcceptableCorpus(j.corpusId, j.location, corpus)
      then Continue(v, j.(creating := AwaitingStore(Started(corpus.value.words, corpus.value.symbols, j.mode,
                                                            StartFor(corpus.value.symbols, j.location)))))
      else Finish(v, Failed(InvalidCorpus))
    case AwaitingStore(rt) =>
      if v.record.Some? then Continue(v, j.(creating := Refused))
      else Continue(v.(record := Some(NewRecord(rt))), j.(creating := Created(rt)))
    case Created(rt) => Finish(v.(runtime := Some(rt)), Reply.Current(rt.tracker.snapshot))
    case Refused => Finish(v, Failed(SessionExists))
  }

  function Announce(v: View, reactions: map<nat, Reaction>): Turn
    requires v.queue != [] && (v.queue[0].Resetting? || v.queue[0].Submitting?) && v.queue[0].updating.Updated?
  {
    var phase := v.queue[0].updating;
    Finish(if phase.changed then v.(subscribers := PublishTo(v.subscribers, phase.snapshot, reactions)) else v,
           Reply.Current(phase.snapshot))
  }

  function ApplyReset(v: View, record: Record, rt: Runtime, location: Option<Location>, start: nat): Turn
    requires v.queue != [] && start < |rt.symbols|
  {
    var st := Reset(rt.symbols, rt.tracker, start);
    Continue(v.(record := Some(RecordAfter(record, st.snapshot, [], -1)), runtime := Some(MovedTo(rt, st))),
             Resetting(location, Updated(st.snapshot, true)))
  }

  function AdvanceReset(v: View, reactions: map<nat, Reaction>): Turn
    requires v.queue != [] && v.queue[0].Resetting?
    requires v.runtime.Some? ==> v.runtime.value.defaultStart < |v.runtime.value.symbols|
  {
    var j := v.queue[0];
    match j.updating
    case Waiting =>
      if v.runtime.None? then Finish(v, Failed(SessionNotFound))
      else if !HasLocation(v.runtime.value.symbols, j.location) then Finish(v, Failed(InvalidCorpus))
      else Continue(v, Resetting(j.location, Checked))
    case Checked =>
      if v.record.None? || v.runtime.None? || !HasLocation(v.runtime.value.symbols, j.location) then Finish(v, Failed(SessionNotFound))
      else ApplyReset(v, v.record.value, v.runtime.value, j.location,
                      if j.location.Some? then SymbolFrom(v.runtime.value.symbols, j.location.value, 0) else v.runtime.value.defaultStart)
    case Updated(_, _) => Announce(v, reactions)
  }

  /** The tracker's submission, and the record of it. */
  function ApplySubmit(v: View, record: Record, rt: Runtime, o: Observation, located: Located): Turn
    requires v.queue != [] && Words(rt.words, |rt.symbols|) && rt.symbols != []
  {
    var st := Submit(rt.words, rt.symbols, rt.mode, rt.tracker, o, located);
    if st.snapshot.revision == rt.tracker.snapshot.revision
    then Continue(v.(runtime := Some(rt.(tracker := st))), Submitting(o, Updated(record.snapshot, false)))
    else Continue(v.(record := Some(RecordAfter(record, st.snapshot,
                                                LastUpTo(record.observationIds + [o.observationId], OBSERVATION_ID_LIMIT),
                                                o.sourceRevision)),
                     runtime := Some(MovedTo(rt, st))),
                  Submitting(o, Updated(st.snapshot, true)))
  }

  /** Duplicates and stale observations are recognised on the record. */
  function UpdateForSubmit(v: View, o: Observation, located: Located): Turn
    requires v.queue != []
    requires v.runtime.Some? ==> Words(v.runtime.value.words, |v.runtime.value.symbols|) && v.runtime.value.symbols != []
  {
    if v.record.None? then Finish(v, Failed(SessionNotFound))
    else if o.observationId in v.record.value.observationIds then Continue(v, Submitting(o, Updated(v.record.value.snapshot, false)))
    else if o.sourceRevision < v.record.value.latestSourceRevision then Finish(v, Failed(StaleRevision))
    else if v.runtime.None? then Finish(v, Failed(SessionNotFound))
    else ApplySubmit(v, v.record.value, v.runtime.value, o, located)
  }

  function AdvanceSubscribe(v: View, id: nat, room: bool, reactions: map<nat, Reaction>): Turn
    requires v.queue != [] && v.queue[0].Subscribing?
  {
    var j := v.queue[0];
    match j.reading
    case AwaitingRecord => Continue(v, j.(reading := HaveRecord(v.record)))
    case HaveRecord(record) =>
      if record.None? then Finish(v, Failed(SessionNotFound))
      else if !room then Finish(v, Failed(CapacityExhausted))
      else Register(v, record.value, id, j.lastRevision, reactions)
  }

  function AdvanceDelete(v: View): Turn
    requires v.queue != [] && v.queue[0].Deleting?
  {
    var j := v.queue[0];
    match j.deleting
    case AwaitingDelete =>
      if v.record.None? then Finish(v, Failed(SessionNotFound))
      else Continue(v.(record := None), j.(deleting := Removed))
    case Removed => Finish(v.(runtime := None, subscribers := map[]), Deleted)
  }

  /** One step of the running operation. `id` is the identity of a subscriber created in this step, and
      `room` says whether another subscriber fits. */
  ghost function Advance(v: View, input: Input, id: nat, room: bool): Turn
    requires ViewOk(v) && v.queue != []
  {
    match v.queue[0]
    case Creating(_, _, _, _) => AdvanceCreate(v, input.corpus)
    case Getting => Finish(v, if v.record.None? then Failed(SessionNotFound) else Reply.Current(v.record.value.snapshot))
    case Resuming(last) => Finish(v, if v.record.None? then Failed(SessionNotFound) else Replay(Above(v.record.value.snapshots, last)))
    case Resetting(_, _) => AdvanceReset(v, input.reactions)
    case Submitting(o, updating) => if updating.Updated? then Announce(v, input.reactions) else UpdateForSubmit(v, o, input.located)
    case Subscribing(_, _) => AdvanceSubscribe(v, id, room, input.reactions)
    case Deleting(_) => AdvanceDelete(v)
  }

  /** An empty set of subscribers has no entry. */
  function KeptStreams(subscribers: map<nat, Stream>): Option<map<nat, Stream>> {
    if subscribers == map[] then None else Some(subscribers)
  }

  function Without(subscribers: map<nat, Stream>, id: nat): map<nat, Stream> {
    map x | x in subscribers && x != id :: subscribers[x]
  }

  function Unsubscribe(v: View, id: nat): View { v.(subscribers := Without(v.subscribers, id)) }
}
