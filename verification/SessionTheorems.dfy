/** What every step of a session keeps: the record mirrors the tracker, and streams have no gaps. */
module SessionTheorems {
  import opened DuplicateWindow
  import opened Wrappers
  import opened Sequences
  import opened Alignments
  import opened Corpus
  import opened IndexCorpus
  import opened Observations
  import opened WordProgress
  import opened TrackerModel
  import opened TrackerTheorems
  import opened LocatedObservations
  import opened SessionProtocol

  // ----- retained snapshots

  lemma RetainedGrow(history: seq<Snapshot>, x: Snapshot, limit: nat)
    requires limit > 0
    ensures LastUpTo(LastUpTo(history, limit) + [x], limit) == LastUpTo(history + [x], limit)
  {}

  predicate Consecutive(snapshots: seq<Snapshot>, first: int) {
    forall i | 0 <= i < |snapshots| :: snapshots[i].revision == first + i
  }

  function Skipped(count: nat, first: int, lastRevision: int): nat {
    if lastRevision < first then 0 else if lastRevision - first + 1 > count then count else lastRevision - first + 1
  }

  /** Of consecutive snapshots those above a revision are a suffix. */
  lemma {:induction false} AboveIsSuffix(snapshots: seq<Snapshot>, first: int, lastRevision: int)
    requires Consecutive(snapshots, first)
    ensures Above(snapshots, lastRevision) == snapshots[Skipped(|snapshots|, first, lastRevision)..]
    decreases |snapshots|
  {
    if snapshots != [] {
      var front, n := snapshots[..|snapshots| - 1], |snapshots| - 1;
      AboveIsSuffix(front, first, lastRevision);
      assert snapshots[n].revision == first + n;
      SuffixGrows(snapshots, Skipped(n, first, lastRevision));
    }
  }

  lemma SuffixGrows(snapshots: seq<Snapshot>, k: nat)
    requires snapshots != [] && k < |snapshots|
    ensures snapshots[..|snapshots| - 1][k..] + [snapshots[|snapshots| - 1]] == snapshots[k..]
  {}

  lemma LastOnes<T>(s: seq<T>, limit: nat) returns (skipped: nat)
    ensures |LastUpTo(s, limit)| == (if |s| <= limit then |s| else limit) && skipped + |LastUpTo(s, limit)| == |s|
    ensures forall i | 0 <= i < |LastUpTo(s, limit)| :: LastUpTo(s, limit)[i] == s[skipped + i]
  {
    skipped := |s| - |LastUpTo(s, limit)|;
  }

  /** The record keeps the last min(256, r + 1) snapshots, with consecutive revisions ending at the
      current revision r. */
  lemma RetainedAreConsecutive(r: Record, rt: Runtime)
    requires RuntimeOk(rt) && Mirrors(r, rt)
    ensures var revision := rt.tracker.snapshot.revision;
            && |r.snapshots| == (if revision + 1 <= SNAPSHOT_LIMIT then revision + 1 else SNAPSHOT_LIMIT)
            && Consecutive(r.snapshots, revision + 1 - |r.snapshots|)
            && r.snapshots[|r.snapshots| - 1] == r.snapshot == rt.tracker.snapshot
  {
    hide Invariant, LastUpTo;
    var skipped := LastOnes(rt.history, SNAPSHOT_LIMIT);
    forall i | 0 <= i < |r.snapshots| ensures r.snapshots[i].revision == skipped + i {
      assert r.snapshots[i] == rt.history[skipped + i];
    }
  }

  /** The retained snapshots above a revision, up to the current one. */
  lemma RetainedAbove(r: Record, rt: Runtime, lastRevision: int)
    requires RuntimeOk(rt) && Mirrors(r, rt)
    ensures var oldest := r.snapshot.revision + 1 - |r.snapshots|;
            var kept := r.snapshots[Skipped(|r.snapshots|, oldest, lastRevision)..];
            && Above(r.snapshots, lastRevision) == kept && Consecutive(r.snapshots, oldest)
            && (lastRevision < r.snapshot.revision ==> kept != [] && kept[|kept| - 1] == r.snapshot)
  {
    RetainedAreConsecutive(r, rt);
    AboveIsSuffix(r.snapshots, r.snapshot.revision + 1 - |r.snapshots|, lastRevision);
  }

  /** Resuming replays them. */
  lemma ResumeReplaysRetained(v: View, input: Input, id: nat, room: bool)
    requires ViewOk(v) && v.queue != [] && v.queue[0].Resuming? && v.record.Some?
    ensures var r, last := v.record.value, v.queue[0].lastRevision;
            var oldest := r.snapshot.revision + 1 - |r.snapshots|;
            var kept := r.snapshots[Skipped(|r.snapshots|, oldest, last)..];
            && Advance(v, input, id, room).reply == Some(Replay(kept)) && Consecutive(r.snapshots, oldest)
            && (last < r.snapshot.revision ==> kept != [] && kept[|kept| - 1] == r.snapshot)
  {
    hide AdvanceCreate, AdvanceReset, UpdateForSubmit, AdvanceSubscribe, AdvanceDelete, Announce;
    RetainedAbove(v.record.value, v.runtime.value, v.queue[0].lastRevision);
  }

  // ----- the queue

  lemma EnqueueKeeps(v: View, j: Job)
    requires ViewOk(v) && IsWaiting(j)
    ensures ViewOk(Enqueue(v, j))
  {
    var w := Enqueue(v, j);
    assert forall i | 0 <= i < |v.queue| :: w.queue[i] == v.queue[i];
  }

  lemma DoneKeeps(v: View)
    requires v.queue != [] && OthersWait(v.queue) && Settled(v, 0)
    ensures ViewOk(Done(v))
  {
    assert Settled(Done(v), 0);
    if |v.queue| > 1 { WaitingHeadOk(Done(v)); }
  }

  lemma WaitingHeadOk(v: View)
    requires v.queue != [] && OthersWait(v.queue) && IsWaiting(v.queue[0]) && Settled(v, 0)
    ensures ViewOk(v)
  {}

  lemma BecomeKeeps(v: View, j: Job)
    requires v.queue != [] && OthersWait(v.queue) && HeadOk(Become(v, j), j)
    ensures ViewOk(Become(v, j))
  {}

  // ----- streams

  /** A subscriber that stays has the same first revision and keeps what it has received. */
  ghost predicate StreamsExtend(before: map<nat, Stream>, after: map<nat, Stream>) {
    forall id | id in before && id in after :: before[id].first == after[id].first && before[id].received <= after[id].received
  }

  /** Publishing the newest snapshot brings every remaining subscriber up to date. */
  lemma PublishCatchesUp(subscribers: map<nat, Stream>, history: seq<Snapshot>, reactions: map<nat, Reaction>)
    requires history != [] && StreamsOk(subscribers, history, 1)
    ensures StreamsOk(PublishTo(subscribers, history[|history| - 1], reactions), history, 0)
    ensures StreamsExtend(subscribers, PublishTo(subscribers, history[|history| - 1], reactions))
  {
    var n := |history|;
    var after := PublishTo(subscribers, history[n - 1], reactions);
    forall id | id in after ensures after[id].first <= n && after[id].received == history[after[id].first..n] {
      assert subscribers[id].received == history[subscribers[id].first..n - 1];
    }
  }

  lemma FewerStreams(subscribers: map<nat, Stream>, fewer: map<nat, Stream>, history: seq<Snapshot>, pending: nat)
    requires StreamsOk(subscribers, history, pending)
    requires forall id <- fewer :: id in subscribers && fewer[id] == subscribers[id]
    ensures StreamsOk(fewer, history, pending)
  {}

  /** Where a new stream starts: at the oldest retained revision above the last one the subscriber has
      seen, or else at the next revision. */
  function FirstOf(r: Record, lastRevision: int): int {
    var oldest := r.snapshot.revision + 1 - |r.snapshots|;
    if lastRevision >= r.snapshot.revision then r.snapshot.revision + 1 else if lastRevision + 1 > oldest then lastRevision + 1 else oldest
  }

  lemma ReplayIsStream(r: Record, rt: Runtime, lastRevision: int)
    requires RuntimeOk(rt) && Mirrors(r, rt)
    ensures var replay, first := Above(r.snapshots, lastRevision), FirstOf(r, lastRevision);
            && first == r.snapshot.revision + 1 - |replay| && 0 <= first <= |rt.history|
            && replay == rt.history[first..]
  {
    hide Above, LastUpTo;
    RetainedAreConsecutive(r, rt);
    RetainedAbove(r, rt, lastRevision);
    var oldest := r.snapshot.revision + 1 - |r.snapshots|;
    RetainedAreSuffix(rt.history, r.snapshots, Skipped(|r.snapshots|, oldest, lastRevision));
  }

  lemma RetainedAreSuffix(history: seq<Snapshot>, retained: seq<Snapshot>, k: nat)
    requires retained == LastUpTo(history, SNAPSHOT_LIMIT) && k <= |retained|
    ensures retained[k..] == history[|history| - |retained| + k..]
  {}

  lemma AddStream(subscribers: map<nat, Stream>, history: seq<Snapshot>, id: nat, s: Stream)
    requires StreamsOk(subscribers, history, 0) && id !in subscribers
    requires s.first <= |history| && s.received == history[s.first..]
    ensures StreamsOk(subscribers[id := s], history, 0) && StreamsExtend(subscribers, subscribers[id := s])
  {
    assert history[s.first..] == history[s.first..|history|];
  }

  /** A subscription starts where it should and is up to date. */
  lemma RegisterKeeps(v: View, record: Record, id: nat, lastRevision: int, reactions: map<nat, Reaction>)
    requires v.queue != [] && OthersWait(v.queue) && Settled(v, 0) && v.record == Some(record) && id !in v.subscribers
    ensures var after := Register(v, record, id, lastRevision, reactions).view;
            && ViewOk(after) && StreamsExtend(v.subscribers, after.subscribers)
            && (id in after.subscribers ==> after.subscribers[id].first == FirstOf(record, lastRevision))
            && after.subscribers.Keys <= v.subscribers.Keys + {id}
  {
    var rt := v.runtime.value;
    ReplayIsStream(record, rt, lastRevision);
    var replay := Above(record.snapshots, lastRevision);
    var s := Stream(FirstOf(record, lastRevision), replay);
    AddStream(v.subscribers, rt.history, id, s);
    var turn := Register(v, record, id, lastRevision, reactions);
    var added := v.subscribers[id := s];
    var fewer := if replay == [] || id !in reactions then added else AfterReplay(added, id, reactions[id]);
    FewerStreams(added, fewer, rt.history, 0);
    var w := v.(subscribers := fewer);
    assert turn.view == Done(w);
    DoneKeeps(w);
  }

  // ----- updates

  /** What the tracker remembers and what the record lists are the same ids. */
  lemma RecordKnowsDuplicates(r: Record, rt: Runtime, o: Observation)
    requires RuntimeOk(rt) && Mirrors(r, rt)
    ensures Ignored(rt.tracker, o) <==> o.observationId in r.observationIds || o.sourceRevision < r.latestSourceRevision
  {}

  lemma HistoryGrows(rt: Runtime, st: State)
    requires HistoryOk(rt.history, rt.tracker.snapshot) && st.snapshot.revision == rt.tracker.snapshot.revision + 1
    ensures HistoryOk(rt.history + [st.snapshot], st.snapshot)
  {}

  lemma PendingStreams(subscribers: map<nat, Stream>, history: seq<Snapshot>, x: Snapshot)
    requires StreamsOk(subscribers, history, 0)
    ensures StreamsOk(subscribers, history + [x], 1)
  {
    forall id | id in subscribers
      ensures subscribers[id].first + 1 <= |history| + 1
      ensures subscribers[id].received == (history + [x])[subscribers[id].first..|history + [x]| - 1]
    {
      assert (history + [x])[subscribers[id].first..|history|] == history[subscribers[id].first..|history|];
    }
  }

  /** Moving tracker and record together keeps them in agreement; the new snapshot is yet to be
      published. */
  lemma MoveTogether(r: Record, rt: Runtime, subscribers: map<nat, Stream>, st: State, ids: seq<string>, revision: int)
    requires Live(r, rt, subscribers, 0) && Invariant(rt.words, rt.symbols, st)
    requires st.snapshot.revision == rt.tracker.snapshot.revision + 1
    requires ids == st.observationIdOrder && revision == st.latestSourceRevision
    ensures Live(RecordAfter(r, st.snapshot, ids, revision), MovedTo(rt, st), subscribers, 1)
  {
    HistoryGrows(rt, st);
    RetainedGrow(rt.history, st.snapshot, SNAPSHOT_LIMIT);
    PendingStreams(subscribers, rt.history, st.snapshot);
  }

  lemma WindowsAgree(ids: seq<string>, id: string)
    requires |ids| <= OBSERVATION_ID_LIMIT
    ensures PushBounded(ids, id, OBSERVATION_ID_LIMIT) == LastUpTo(ids + [id], OBSERVATION_ID_LIMIT)
  {}

  /** A submission that passes the checks on the record advances the tracker by exactly one revision,
      so the exit for an unchanged tracker is never taken, and record and tracker stay in agreement. */
  lemma SubmissionAdvances(v: View, o: Observation, located: Located)
    requires Settled(v, 0) && v.queue != [] && OthersWait(v.queue) && v.record.Some?
    requires var r := v.record.value; o.observationId !in r.observationIds && o.sourceRevision >= r.latestSourceRevision
    requires GoodLocated(v.runtime.value.symbols, o, v.runtime.value.tracker.progress.committedSymbol, located)
    ensures var rt := v.runtime.value;
            var st := Submit(rt.words, rt.symbols, rt.mode, rt.tracker, o, located);
            var after := UpdateForSubmit(v, o, located);
            && st.snapshot.revision == rt.tracker.snapshot.revision + 1
            && after.view.queue == [Submitting(o, Updated(st.snapshot, true))] + v.queue[1..]
            && after.view.runtime == Some(MovedTo(rt, st)) && after.view.subscribers == v.subscribers
            && after.reply == None && Settled(after.view, 1) && after.view.record.value.snapshot == st.snapshot
  {
    var r, rt := v.record.value, v.runtime.value;
    RecordKnowsDuplicates(r, rt, o);
    var st := Submit(rt.words, rt.symbols, rt.mode, rt.tracker, o, located);
    AcceptAdvances(rt.words, rt.symbols, rt.mode, rt.tracker, o, located);
    SubmitKeeps(rt.words, rt.symbols, rt.mode, rt.tracker, o, located);
    WindowsAgree(r.observationIds, o.observationId);
    MoveTogether(r, rt, v.subscribers, st, st.observationIdOrder, st.latestSourceRevision);
  }

  // ----- every step keeps the invariant

  /** A submission that the tracker will not ignore is located in the session's own corpus, from the
      tracker's cursor and commit point at that moment. */
  ghost predicate LegalInput(v: View, input: Input) {
    IsLocatedNow(v) ==>
      var rt := v.runtime.value;
      LocatedIn(rt.words, rt.symbols, v.queue[0].o, rt.tracker.cursorSymbol, rt.tracker.progress.committedSymbol, input.located)
  }

  predicate IsLocatedNow(v: View) {
    && v.queue != [] && v.queue[0].Submitting? && !v.queue[0].updating.Updated? && v.runtime.Some?
    && !Ignored(v.runtime.value.tracker, v.queue[0].o)
  }

  ghost predicate GoodInput(v: View, located: Located) {
    IsLocatedNow(v) ==>
      GoodLocated(v.runtime.value.symbols, v.queue[0].o, v.runtime.value.tracker.progress.committedSymbol, located)
  }

  lemma LegalIsGood(v: View, input: Input)
    requires LegalInput(v, input)
    ensures GoodInput(v, input.located)
  {
    hide LocatedIn, GoodLocated;
    if IsLocatedNow(v) {
      var rt := v.runtime.value;
      LocatedInIsGood(rt.words, rt.symbols, v.queue[0].o, rt.tracker.cursorSymbol, rt.tracker.progress.committedSymbol, input.located);
    }
  }

  lemma ValidCorpusHasWords(corpus: QuranCorpus)
    requires ValidCorpus(corpus)
    ensures Words(corpus.words, |corpus.symbols|)
  {
    RangesOfValidCorpus(corpus);
  }

  lemma StartedIsFresh(words: seq<Word>, symbols: seq<Symbol>, mode: FindingMode, start: nat)
    requires Words(words, |symbols|) && start < |symbols|
    ensures Fresh(Started(words, symbols, mode, start))
  {
    StartKeeps(words, symbols, Started(words, symbols, mode, start).tracker, start);
  }

  lemma FreshRecordMirrors(rt: Runtime)
    requires Fresh(rt)
    ensures Mirrors(NewRecord(rt), rt)
  {}

  lemma CorpusAccepted(v: View, corpus: QuranCorpus)
    requires ViewOk(v) && v.queue != [] && v.queue[0].Creating? && v.queue[0].creating.AwaitingCorpus?
    requires AcceptableCorpus(v.queue[0].corpusId, v.queue[0].location, Some(corpus))
    ensures var j := v.queue[0];
            var rt := Started(corpus.words, corpus.symbols, j.mode, StartFor(corpus.symbols, j.location));
            ViewOk(Become(v, j.(creating := AwaitingStore(rt))))
  {
    var j := v.queue[0];
    var start := StartFor(corpus.symbols, j.location);
    ValidCorpusHasWords(corpus);
    StartedIsFresh(corpus.words, corpus.symbols, j.mode, start);
    BecomeKeeps(v, j.(creating := AwaitingStore(Started(corpus.words, corpus.symbols, j.mode, start))));
  }

  lemma CreateKeeps(v: View, corpus: Option<QuranCorpus>)
    requires ViewOk(v) && v.queue != [] && v.queue[0].Creating?
    ensures ViewOk(AdvanceCreate(v, corpus).view) && AdvanceCreate(v, corpus).view.subscribers == v.subscribers
  {
    hide Started, StartFor, RuntimeOk, StreamsOk, ValidCorpus;
    var j := v.queue[0];
    match j.creating
    case AwaitingCorpus =>
      if AcceptableCorpus(j.corpusId, j.location, corpus) { CorpusAccepted(v, corpus.value); } else { DoneKeeps(v); }
    case AwaitingStore(rt) =>
      if v.record.Some? { BecomeKeeps(v, j.(creating := Refused)); }
      else { BecomeKeeps(v.(record := Some(NewRecord(rt))), j.(creating := Created(rt))); }
    case Created(rt) =>
      FreshRecordMirrors(rt);
      DoneKeeps(v.(runtime := Some(rt)));
    case Refused => DoneKeeps(v);
  }

  lemma AnnounceKeeps(v: View, reactions: map<nat, Reaction>)
    requires ViewOk(v) && v.queue != [] && (v.queue[0].Resetting? || v.queue[0].Submitting?) && v.queue[0].updating.Updated?
    ensures var after := Announce(v, reactions).view;
            ViewOk(after) && StreamsExtend(v.subscribers, after.subscribers) && after.subscribers.Keys <= v.subscribers.Keys
  {
    var phase := v.queue[0].updating;
    if phase.changed {
      PublishCatchesUp(v.subscribers, v.runtime.value.history, reactions);
      DoneKeeps(v.(subscribers := PublishTo(v.subscribers, phase.snapshot, reactions)));
    } else { DoneKeeps(v); }
  }

  lemma ResetApplies(v: View, location: Option<Location>, start: nat)
    requires v.queue != [] && OthersWait(v.queue) && Settled(v, 0) && v.record.Some? && start < |v.runtime.value.symbols|
    ensures var after := ApplyReset(v, v.record.value, v.runtime.value, location, start).view;
            ViewOk(after) && after.subscribers == v.subscribers
  {
    var r, rt := v.record.value, v.runtime.value;
    var st := Reset(rt.symbols, rt.tracker, start);
    StartKeeps(rt.words, rt.symbols, rt.tracker, start);
    MoveTogether(r, rt, v.subscribers, st, [], -1);
    var w := v.(record := Some(RecordAfter(r, st.snapshot, [], -1)), runtime := Some(MovedTo(rt, st)));
    BecomeKeeps(w, Resetting(location, Updated(st.snapshot, true)));
  }

  lemma ResetKeeps(v: View, reactions: map<nat, Reaction>)
    requires ViewOk(v) && v.queue != [] && v.queue[0].Resetting?
    ensures var after := AdvanceReset(v, reactions).view;
            ViewOk(after) && StreamsExtend(v.subscribers, after.subscribers) && after.subscribers.Keys <= v.subscribers.Keys
  {
    hide Announce, ApplyReset, Mirrors, StreamsOk, Invariant, HistoryOk;
    var j := v.queue[0];
    match j.updating
    case Waiting =>
      if v.runtime.None? || !HasLocation(v.runtime.value.symbols, j.location) { DoneKeeps(v); }
      else { BecomeKeeps(v, Resetting(j.location, Checked)); }
    case Checked =>
      ResetApplies(v, j.location, if j.location.Some? then SymbolFrom(v.runtime.value.symbols, j.location.value, 0) else v.runtime.value.defaultStart);
    case Updated(_, _) => AnnounceKeeps(v, reactions);
  }

  /** The tracker has not ignored it: the submission is recorded and yet to be published. */
  lemma SubmissionKeeps(v: View, o: Observation, located: Located)
    requires Settled(v, 0) && v.queue != [] && OthersWait(v.queue) && v.record.Some? && v.queue[0].Submitting? && v.queue[0].o == o
    requires o.observationId !in v.record.value.observationIds && o.sourceRevision >= v.record.value.latestSourceRevision
    requires !v.queue[0].updating.Updated? && GoodInput(v, located)
    ensures var after := UpdateForSubmit(v, o, located).view; ViewOk(after) && after.subscribers == v.subscribers
  {
    hide UpdateForSubmit, GoodLocated, Live;
    NotIgnored(v, o);
    SubmissionAdvances(v, o, located);
  }

  lemma NotIgnored(v: View, o: Observation)
    requires Settled(v, 0) && v.record.Some?
    requires o.observationId !in v.record.value.observationIds && o.sourceRevision >= v.record.value.latestSourceRevision
    ensures v.runtime.Some? && !Ignored(v.runtime.value.tracker, o)
  {
    RecordKnowsDuplicates(v.record.value, v.runtime.value, o);
  }

  lemma WaitingIsSettled(v: View)
    requires ViewOk(v) && v.queue != [] && v.queue[0].Submitting? && !v.queue[0].updating.Updated?
    ensures Settled(v, 0) && OthersWait(v.queue)
    ensures v.runtime.Some? ==> Words(v.runtime.value.words, |v.runtime.value.symbols|) && v.runtime.value.symbols != []
  {}

  lemma SubmitStepKeeps(v: View, located: Located)
    requires ViewOk(v) && v.queue != [] && v.queue[0].Submitting? && !v.queue[0].updating.Updated?
    requires GoodInput(v, located)
    ensures var after := UpdateForSubmit(v, v.queue[0].o, located).view; ViewOk(after) && after.subscribers == v.subscribers
  {
    hide ApplySubmit, GoodInput, Live, ViewOk;
    var o := v.queue[0].o;
    WaitingIsSettled(v);
    if v.record.None? { DoneKeeps(v); }
    else if o.observationId in v.record.value.observationIds { UnchangedKeeps(v, o); }
    else if o.sourceRevision < v.record.value.latestSourceRevision { DoneKeeps(v); }
    else { SubmissionKeeps(v, o, located); }
  }

  lemma UnchangedKeeps(v: View, o: Observation)
    requires Settled(v, 0) && v.queue != [] && OthersWait(v.queue) && v.record.Some?
    ensures ViewOk(Become(v, Submitting(o, Updated(v.record.value.snapshot, false))))
  {
    BecomeKeeps(v, Submitting(o, Updated(v.record.value.snapshot, false)));
  }

  lemma SubscribeKeeps(v: View, id: nat, room: bool, reactions: map<nat, Reaction>)
    requires ViewOk(v) && v.queue != [] && v.queue[0].Subscribing? && id !in v.subscribers
    ensures var after := AdvanceSubscribe(v, id, room, reactions).view;
            && ViewOk(after) && StreamsExtend(v.subscribers, after.subscribers)
            && after.subscribers.Keys <= v.subscribers.Keys + if room then {id} else {}
  {
    var j := v.queue[0];
    match j.reading
    case AwaitingRecord => BecomeKeeps(v, j.(reading := HaveRecord(v.record)));
    case HaveRecord(record) =>
      if record.None? || !room { DoneKeeps(v); } else { RegisterKeeps(v, record.value, id, j.lastRevision, reactions); }
  }

  lemma DeleteKeeps(v: View)
    requires ViewOk(v) && v.queue != [] && v.queue[0].Deleting?
    ensures var after := AdvanceDelete(v).view;
            ViewOk(after) && StreamsExtend(v.subscribers, after.subscribers) && after.subscribers.Keys <= v.subscribers.Keys
  {
    var j := v.queue[0];
    match j.deleting
    case AwaitingDelete =>
      if v.record.None? { DoneKeeps(v); } else { BecomeKeeps(v.(record := None), j.(deleting := Removed)); }
    case Removed => DoneKeeps(v.(runtime := None, subscribers := map[]));
  }

  /** Every step of every operation keeps the session's invariant; subscribers that stay keep their
      first revision and what they have received; and at most one subscriber is added, if there is room. */
  lemma AdvanceKeeps(v: View, input: Input, id: nat, room: bool)
    requires ViewOk(v) && v.queue != [] && LegalInput(v, input) && id !in v.subscribers
    ensures var after := Advance(v, input, id, room).view;
            && ViewOk(after) && StreamsExtend(v.subscribers, after.subscribers)
            && after.subscribers.Keys <= v.subscribers.Keys + if room then {id} else {}
  {
    hide LocatedIn, GoodLocated, GoodInput, Mirrors, StreamsOk, HistoryOk;
    hide AdvanceCreate, AdvanceReset, UpdateForSubmit, AdvanceSubscribe, AdvanceDelete, Announce;
    LegalIsGood(v, input);
    match v.queue[0]
    case Creating(_, _, _, _) => CreateKeeps(v, input.corpus);
    case Getting => DoneKeeps(v);
    case Resuming(_) => DoneKeeps(v);
    case Resetting(_, _) => ResetKeeps(v, input.reactions);
    case Submitting(_, updating) => if updating.Updated? { AnnounceKeeps(v, input.reactions); } else { SubmitStepKeeps(v, input.located); }
    case Subscribing(_, _) => SubscribeKeeps(v, id, room, input.reactions);
    case Deleting(_) => DeleteKeeps(v);
  }

  /** A step is determined by the session, the resolved corpus and the listeners' reactions: where an
      observation is located is no choice. */
  lemma StepIsDetermined(v: View, x: Input, y: Input, id: nat, room: bool)
    requires ViewOk(v) && v.queue != [] && LegalInput(v, x) && LegalInput(v, y) && x.corpus == y.corpus && x.reactions == y.reactions
    ensures Advance(v, x, id, room) == Advance(v, y, id, room)
  {
    hide LocatedIn, ApplySubmit;
    if v.queue[0].Submitting? && !v.queue[0].updating.Updated? && v.record.Some? {
      var rt, o := v.runtime.value, v.queue[0].o;
      RecordKnowsDuplicates(v.record.value, rt, o);
      if !Ignored(rt.tracker, o) {
        LocatedInIsUnique(rt.words, rt.symbols, o, rt.tracker.cursorSymbol, rt.tracker.progress.committedSymbol, x.located, y.located);
      }
    }
  }

  /** The operation without its phase. */
  function Restarted(j: Job): Job {
    match j
    case Creating(corpusId, location, mode, _) => Creating(corpusId, location, mode, AwaitingCorpus)
    case Resetting(location, _) => Resetting(location, Waiting)
    case Submitting(o, _) => Submitting(o, Waiting)
    case Subscribing(last, _) => Subscribing(last, AwaitingRecord)
    case Deleting(_) => Deleting(AwaitingDelete)
    case _ => j
  }

  /** How many steps the operation can take at most from here on. */
  function StepsLeft(j: Job): nat {
    match j
    case Creating(_, _, _, phase) => if phase.AwaitingCorpus? then 3 else if phase.AwaitingStore? then 2 else 1
    case Resetting(_, phase) => if phase.Waiting? then 3 else if phase.Checked? then 2 else 1
    case Submitting(_, phase) => if phase.Updated? then 1 else 2
    case Subscribing(_, phase) => if phase.AwaitingRecord? then 2 else 1
    case Deleting(phase) => if phase.AwaitingDelete? then 2 else 1
    case _ => 1
  }

  predicate InOrder(v: View, turn: Turn)
    requires v.queue != []
  {
    if turn.reply.Some? then turn.view.queue == v.queue[1..]
    else
      && |turn.view.queue| == |v.queue| && turn.view.queue[1..] == v.queue[1..]
      && Restarted(turn.view.queue[0]) == Restarted(v.queue[0]) && StepsLeft(turn.view.queue[0]) < StepsLeft(v.queue[0])
  }

  lemma SubmitInOrder(v: View, o: Observation, located: Located)
    requires v.queue != [] && v.queue[0].Submitting? && v.queue[0].o == o && !v.queue[0].updating.Updated?
    requires v.runtime.Some? ==> Words(v.runtime.value.words, |v.runtime.value.symbols|) && v.runtime.value.symbols != []
    ensures InOrder(v, UpdateForSubmit(v, o, located))
  {}

  lemma ResetInOrder(v: View, reactions: map<nat, Reaction>)
    requires v.queue != [] && v.queue[0].Resetting?
    requires v.runtime.Some? ==> v.runtime.value.defaultStart < |v.runtime.value.symbols|
    ensures InOrder(v, AdvanceReset(v, reactions))
  {}

  lemma SubscribeInOrder(v: View, id: nat, room: bool, reactions: map<nat, Reaction>)
    requires v.queue != [] && v.queue[0].Subscribing?
    ensures InOrder(v, AdvanceSubscribe(v, id, room, reactions))
  {}

  lemma CreateInOrder(v: View, corpus: Option<QuranCorpus>)
    requires v.queue != [] && v.queue[0].Creating?
    ensures InOrder(v, AdvanceCreate(v, corpus))
  {}

  /** Operations of a session end one by one in the order in which they were called: a step either
      continues the running one, which has fewer steps left, or ends it with one reply. Failures do not
      touch those behind it. */
  lemma OperationsEndInOrder(v: View, input: Input, id: nat, room: bool)
    requires ViewOk(v) && v.queue != []
    ensures InOrder(v, Advance(v, input, id, room)) && StepsLeft(v.queue[0]) <= 3
  {
    hide AdvanceCreate, AdvanceReset, UpdateForSubmit, AdvanceSubscribe, Mirrors, StreamsOk, HistoryOk;
    match v.queue[0]
    case Creating(_, _, _, _) => CreateInOrder(v, input.corpus);
    case Resetting(_, _) => ResetInOrder(v, input.reactions);
    case Submitting(o, updating) => if !updating.Updated? { SubmitInOrder(v, o, input.located); }
    case Subscribing(_, _) => SubscribeInOrder(v, id, room, input.reactions);
    case _ =>
  }

  lemma UnsubscribeKeeps(v: View, id: nat)
    requires ViewOk(v)
    ensures ViewOk(Unsubscribe(v, id)) && StreamsExtend(v.subscribers, Unsubscribe(v, id).subscribers)
  {
    hide RuntimeOk, Mirrors, Fresh, HasLocation;
  }

  /** Between operations the record shows the tracker, and every live subscriber has received the
      revisions from its first one up to the current one, each exactly once and in order. */
  lemma StreamsHaveNoGaps(v: View)
    requires ViewOk(v) && v.queue == [] && v.record.Some?
    ensures v.runtime.Some? && Mirrors(v.record.value, v.runtime.value)
    ensures forall id <- v.subscribers ::
              && Consecutive(v.subscribers[id].received, v.subscribers[id].first)
              && v.subscribers[id].first + |v.subscribers[id].received| == v.record.value.snapshot.revision + 1
              && (v.subscribers[id].received != [] ==>
                    v.subscribers[id].received[|v.subscribers[id].received| - 1] == v.record.value.snapshot)
  {
    var rt := v.runtime.value;
    forall id | id in v.subscribers
      ensures Consecutive(v.subscribers[id].received, v.subscribers[id].first)
      ensures v.subscribers[id].first + |v.subscribers[id].received| == v.record.value.snapshot.revision + 1
    {
      assert v.subscribers[id].received == rt.history[v.subscribers[id].first..|rt.history|];
    }
  }

  /** When no operation is running, a record exists exactly when a tracker does. */
  lemma IdleSessionIsWhole(v: View)
    requires ViewOk(v) && v.queue == []
    ensures v.record.Some? <==> v.runtime.Some?
    ensures v.runtime.None? ==> v.subscribers == map[]
  {}
}
