/**
 The session service as the program has it: an object with maps of sessions, records, operation
 queues and subscribers and two counters, all updated in place.

 Every method is proved against the transitions of `ServiceModel`, so what is proved there of every
 run holds for the object. Between two method calls the object is at a suspension point.
 */
module SessionService {
  import opened DuplicateWindow
  import opened Wrappers
  import opened Sequences
  import opened Alignments
  import opened Corpus
  import opened Observations
  import opened WordProgress
  import opened TrackerModel
  import opened SessionProtocol
  import opened SessionTheorems
  import opened Entries
  import opened ListenerCalls
  import opened ServiceModel
  import CorpusChecks = ValidateCorpus
  import ObservationChecks = Observations

  /** Storing back what is there changes nothing. */
  lemma StoringBack(g: Service, s: string)
    requires NoEmptyEntries(g)
    ensures Store(g.sessions, s, Find(g.sessions, s)) == g.sessions && Store(g.records, s, Find(g.records, s)) == g.records
    ensures Store(g.queues, s, Kept(QueueOf(g, s))) == g.queues
    ensures Store(g.subscribers, s, KeptStreams(SubscribersOf(g, s))) == g.subscribers
  {}

  /** A queued call, written out. */
  lemma CallIsQueued(g: Service, limits: Limits, s: string, j: Job)
    requires NoEmptyEntries(g) && Admits(g, limits, j)
    ensures Next(g, limits, s, Call(j)) ==
            g.(queues := Store(g.queues, s, Kept(QueueOf(g, s) + [j])),
               reservedSessions := g.reservedSessions + if j.Creating? then 1 else 0)
  {
    StoringBack(g, s);
    CreatesAppend(QueueOf(g, s), j);
  }

  /** The service h is g after the turn of session s, with that turn's reply. */
  ghost predicate IsTurn(g: Service, s: string, turn: Turn, h: Service, reply: Option<Reply>) {
    h == Settle(g, s, turn.view) && reply == turn.reply
  }

  lemma BecomeCounts(v: View, j: Job)
    requires v.queue != [] && (j.Creating? <==> v.queue[0].Creating?)
    ensures Creates(Become(v, j).queue) == Creates(v.queue)
  {
    assert Become(v, j).queue[1..] == v.queue[1..];
  }

  lemma ViewIsOk(g: Service, limits: Limits, s: string)
    requires ServiceOk(g, limits)
    ensures ViewOk(ViewOf(g, s))
  {}

  function ReadTurn(v: View): Turn
    requires v.queue != [] && (v.queue[0].Getting? || v.queue[0].Resuming?)
  {
    Finish(v, if v.record.None? then Failed(SessionNotFound)
              else if v.queue[0].Getting? then Reply.Current(v.record.value.snapshot)
              else Replay(Above(v.record.value.snapshots, v.queue[0].lastRevision)))
  }

  /** Removing one subscriber is ending its subscription. */
  lemma EndIsNext(g: Service, limits: Limits, s: string, id: nat, h: Service)
    requires NoEmptyEntries(g)
    requires h == g.(subscribers := Store(g.subscribers, s, KeptStreams(Without(StreamsAt(g.subscribers, s), id))),
                     subscriberCount := g.subscriberCount - if id in StreamsAt(g.subscribers, s) then 1 else 0)
    ensures h == Next(g, limits, s, Unsubscribing(id))
  {
    hide Store, NoEmptyEntries, Advance;
    StoringBack(g, s);
    WithoutOne(SubscribersOf(g, s), id);
  }

  class SessionService {
    const limits: Limits

    var sessions: map<string, Runtime>
    var records: map<string, Record>
    var queues: map<string, seq<Job>>
    var subscribers: map<string, map<nat, Stream>>
    var reservedSessions: int
    var subscriberCount: int
    var nextSubscriber: nat

    function Now(): Service
      reads this
    {
      Service(sessions, records, queues, subscribers, reservedSessions, subscriberCount, nextSubscriber)
    }

    ghost predicate Valid()
      reads this
    {
      ServiceOk(Now(), limits)
    }

    constructor (maxSessions: nat, maxSubscribers: nat)
      ensures Valid() && Now() == EMPTY && limits == Limits(maxSessions, maxSubscribers)
    {
      limits := Limits(maxSessions, maxSubscribers);
      sessions, records, queues, subscribers := map[], map[], map[], map[];
      reservedSessions, subscriberCount, nextSubscriber := 0, 0, 0;
      new;
      EmptyIsOk(limits);
    }

    // ----- the queues

    method Append(s: string, j: Job)
      modifies `queues
      ensures queues == Store(old(queues), s, Kept(QueueOf(old(Now()), s) + [j]))
    {
      queues := queues[s := (if s in queues then queues[s] else []) + [j]];
    }

    // ----- calls

    /** A creation reserves its place before it is queued, or is refused. */
    method Create(s: string, corpusId: string, location: Option<Location>, mode: FindingMode) returns (r: Result<(), ServiceError>)
      requires Valid()
      modifies this
      ensures Valid()
      ensures Now() == Next(old(Now()), limits, s, Call(Creating(corpusId, location, mode, AwaitingCorpus)))
      ensures r.Err? <==> |old(sessions)| + old(reservedSessions) >= limits.maxSessions
    {
      hide Advance, ViewOk;
      ghost var g := Now();
      var reserved := ReserveSession();
      if !reserved { return Err(CapacityExhausted); }
      EnqueueReserved(s, Creating(corpusId, location, mode, AwaitingCorpus), g);
      r := Ok(());
    }

    method ReserveSession() returns (ok: bool)
      modifies `reservedSessions
      ensures ok <==> |sessions| + old(reservedSessions) < limits.maxSessions
      ensures reservedSessions == old(reservedSessions) + if ok then 1 else 0
    {
      ok := |sessions| + reservedSessions < limits.maxSessions;
      if ok { reservedSessions := reservedSessions + 1; }
    }

    method EnqueueReserved(s: string, j: Job, ghost g: Service)
      requires ServiceOk(g, limits) && Admits(g, limits, j) && j.Creating?
      requires Now() == g.(reservedSessions := g.reservedSessions + 1)
      modifies `queues
      ensures Valid() && Now() == Next(g, limits, s, Call(j))
    {
      hide Next, LegalInput, ViewOk;
      Append(s, j);
      CallIsQueued(g, limits, s, j);
      NextKeeps(g, limits, s, Call(j));
    }

    /** An invalid observation is refused before it is queued. */
    method Submit(s: string, o: Observation) returns (r: Result<(), ServiceError>)
      requires Valid()
      modifies this
      ensures Valid() && Now() == Next(old(Now()), limits, s, Call(Submitting(o, Waiting)))
      ensures r.Ok? <==> ValidObservation(o)
    {
      hide ValidObservation, Advance, LegalInput;
      var valid := ObservationChecks.Validate(o);
      if valid.Err? { return Err(InvalidObservation); }
      ghost var g := Now();
      Append(s, Submitting(o, Waiting));
      CallIsQueued(g, limits, s, Submitting(o, Waiting));
      NextKeeps(g, limits, s, Call(Submitting(o, Waiting)));
      r := Ok(());
    }

    /** Reads, resets, resumptions, subscriptions and deletions are queued unconditionally. */
    method Enqueue(s: string, j: Job)
      requires Valid() && IsWaiting(j) && !j.Creating? && !j.Submitting?
      modifies this
      ensures Valid() && Now() == Next(old(Now()), limits, s, Call(j))
    {
      hide Next, LegalInput;
      ghost var g := Now();
      Append(s, j);
      CallIsQueued(g, limits, s, j);
      NextKeeps(g, limits, s, Call(j));
    }

    // ----- subscribers

    /** Removing a subscriber that is not there, or not there any more, does nothing. */
    method ReleaseSubscriber(s: string, id: nat)
      requires s in subscribers ==> subscribers[s] != map[]
      modifies `subscribers, `subscriberCount
      ensures subscribers == Store(old(subscribers), s, KeptStreams(Without(StreamsAt(old(subscribers), s), id)))
      ensures subscriberCount == old(subscriberCount) - (if id in StreamsAt(old(subscribers), s) then 1 else 0)
    {
      WithoutOne(StreamsAt(subscribers, s), id);
      if s !in subscribers || id !in subscribers[s] { return; }
      subscriberCount := subscriberCount - 1;
      var active := Without(subscribers[s], id);
      subscribers := if active == map[] then Dropped(subscribers, s) else subscribers[s := active];
    }

    /** Ends the given subscriptions one after the other; each that was there is counted once. */
    method ReleaseAll(s: string, ids: set<nat>)
      requires s in subscribers ==> subscribers[s] != map[]
      modifies `subscribers, `subscriberCount
      ensures subscribers == Store(old(subscribers), s, KeptStreams(Except(StreamsAt(old(subscribers), s), ids)))
      ensures subscriberCount - |StreamsAt(subscribers, s)| == old(subscriberCount - |StreamsAt(subscribers, s)|)
    {
      ghost var all, before, live := subscribers, StreamsAt(subscribers, s), StreamsAt(subscribers, s);
      var done: set<nat> := {};
      ExceptOneMore(before, {}, 0);
      StoredAsIs(all, s);
      while done != ids
        invariant done <= ids && live == Except(before, done)
        invariant subscribers == Store(all, s, KeptStreams(live)) && subscriberCount - |live| == old(subscriberCount) - |before|
        decreases |ids - done|
      {
        var id := OtherThan(ids, done);
        ReleaseNext(s, id, all, live);
        ExceptOneMore(before, done, id);
        live, done := Without(live, id), done + {id};
      }
      StoredStreams(all, s, live);
    }

    method ReleaseNext(s: string, id: nat, ghost all: map<string, map<nat, Stream>>, ghost live: map<nat, Stream>)
      requires subscribers == Store(all, s, KeptStreams(live))
      modifies `subscribers, `subscriberCount
      ensures subscribers == Store(all, s, KeptStreams(Without(live, id)))
      ensures subscriberCount - |Without(live, id)| == old(subscriberCount) - |live|
    {
      StoredStreams(all, s, live);
      ReleaseSubscriber(s, id);
      StoredTwice(all, s, live, Without(live, id));
      StoredStreams(all, s, Without(live, id));
      WithoutOne(live, id);
    }

    method Copy(s: string) returns (ids: seq<nat>)
      ensures Distinct(ids) && NumberSet(ids) == StreamsAt(subscribers, s).Keys
    {
      var all := if s in subscribers then subscribers[s].Keys else {};
      ids := [];
      while NumberSet(ids) != all
        invariant Distinct(ids) && NumberSet(ids) <= all
        decreases |all - NumberSet(ids)|
      {
        MissingId(all, ids);
        var id :| id in all && id !in NumberSet(ids);
        OneMoreId(all, ids, id);
        ids := ids + [id];
      }
    }

    /** Calls every subscriber of a copy of the current set; a listener may end subscriptions, and one
        that throws is released. A set that becomes empty is dropped. */
    method Publish(s: string, snapshot: Snapshot, reactions: map<nat, Reaction>)
      requires s in subscribers ==> subscribers[s] != map[]
      modifies `subscribers, `subscriberCount
      ensures var before := StreamsAt(old(subscribers), s);
              && subscribers == Store(old(subscribers), s, KeptStreams(PublishTo(before, snapshot, reactions)))
              && subscriberCount == old(subscriberCount) - |before| + |PublishTo(before, snapshot, reactions)|
    {
      if s !in subscribers {
        assert PublishTo(map[], snapshot, reactions) == map[];
        return;
      }
      ghost var all, before := subscribers, subscribers[s];
      var ids := Copy(s);
      CallingAllPublishes(before, ids, snapshot, reactions);
      StoredAsIs(all, s);
      for k := 0 to |ids|
        invariant subscribers == Store(all, s, KeptStreams(Called(before, ids, k, snapshot, reactions)))
        invariant subscriberCount - |Called(before, ids, k, snapshot, reactions)| == old(subscriberCount) - |before|
      {
        CallListener(s, ids[k], snapshot, reactions, all, Called(before, ids, k, snapshot, reactions));
      }
    }

    /** The listener gets the snapshot; what it ends while it is called is released subscription by
        subscription, and so is the listener itself if it throws, unless it has been released before. */
    method CallListener(s: string, id: nat, snapshot: Snapshot, reactions: map<nat, Reaction>,
                        ghost all: map<string, map<nat, Stream>>, ghost live: map<nat, Stream>)
      requires subscribers == Store(all, s, KeptStreams(live))
      modifies `subscribers, `subscriberCount
      ensures var after := Remaining(Grown(live, id, snapshot), id, reactions);
              && subscribers == Store(all, s, KeptStreams(after)) && subscriberCount - |after| == old(subscriberCount) - |live|
    {
      StoredStreams(all, s, live);
      GrownSize(live, id, snapshot);
      ghost var grown := Grown(live, id, snapshot);
      Deliver(s, id, snapshot, all, live);
      StoredStreams(all, s, grown);
      ReleasesInTurn(grown, id, reactions);
      if id in reactions {
        ghost var rest := Except(grown, reactions[id].unsubscribes);
        ReleaseAll(s, reactions[id].unsubscribes);
        StoredTwice(all, s, grown, rest);
        StoredStreams(all, s, rest);
        if reactions[id].throws { ReleaseNext(s, id, all, rest); }
      }
    }

    method Deliver(s: string, id: nat, snapshot: Snapshot, ghost all: map<string, map<nat, Stream>>, ghost live: map<nat, Stream>)
      requires subscribers == Store(all, s, KeptStreams(live))
      modifies `subscribers
      ensures subscribers == Store(all, s, KeptStreams(Grown(live, id, snapshot)))
    {
      StoredStreams(all, s, live);
      if s in subscribers && id in subscribers[s] {
        subscribers := subscribers[s := Grown(subscribers[s], id, snapshot)];
      }
    }

    // ----- the steps of the running operation

    /** The object is at g, where session s is v and an operation of it is running. */
    ghost predicate At(g: Service, s: string, v: View)
      reads this
    {
      Now() == g && NoEmptyEntries(g) && v == ViewOf(g, s) && v.queue != []
    }

    /** Session s has been changed from its state in g to v, except that the queue has not moved yet. */
    ghost predicate ChangedTo(g: Service, s: string, v: View)
      reads this
    {
      && sessions == Store(g.sessions, s, v.runtime) && records == Store(g.records, s, v.record)
      && subscribers == Store(g.subscribers, s, KeptStreams(v.subscribers)) && queues == g.queues
      && subscriberCount == g.subscriberCount + |v.subscribers| - |SubscribersOf(g, s)|
      && s in queues && v.queue == queues[s] && v.queue != []
    }

    /** The running operation settles; an empty queue is dropped. */
    method FinishJob(s: string, ghost g: Service, ghost v: View)
      requires ChangedTo(g, s, v) && nextSubscriber == g.nextSubscriber
      requires reservedSessions == g.reservedSessions - if v.queue[0].Creating? then 1 else 0
      modifies `queues
      ensures Now() == Settle(g, s, Done(v))
    {
      var rest := queues[s][1..];
      queues := if rest == [] then Dropped(queues, s) else queues[s := rest];
    }

    method ContinueJob(s: string, j: Job, ghost g: Service, ghost v: View)
      requires ChangedTo(g, s, v) && nextSubscriber == g.nextSubscriber
      requires reservedSessions == g.reservedSessions && (j.Creating? <==> v.queue[0].Creating?)
      modifies `queues
      ensures Now() == Settle(g, s, Become(v, j))
    {
      BecomeCounts(v, j);
      queues := queues[s := [j] + queues[s][1..]];
    }

    // ----- creation

    method StepCreate(s: string, corpus: Option<QuranCorpus>, ghost g: Service, ghost v: View) returns (reply: Option<Reply>)
      requires At(g, s, v) && v.queue[0].Creating?
      modifies `sessions, `records, `queues, `reservedSessions
      ensures IsTurn(g, s, AdvanceCreate(v, corpus), Now(), reply)
    {
      hide AcceptableCorpus, Settle;
      StoringBack(g, s);
      match queues[s][0].creating
      case AwaitingCorpus => reply := CorpusResolved(s, corpus, g, v);
      case AwaitingStore(rt) => reply := StoreRecord(s, rt, g, v);
      case Created(rt) =>
        sessions := sessions[s := rt];
        reservedSessions := reservedSessions - 1;
        FinishJob(s, g, v.(runtime := Some(rt)));
        reply := Some(Reply.Current(rt.tracker.snapshot));
      case Refused =>
        reservedSessions := reservedSessions - 1;
        FinishJob(s, g, v);
        reply := Some(Failed(SessionExists));
    }

    method CorpusResolved(s: string, corpus: Option<QuranCorpus>, ghost g: Service, ghost v: View) returns (reply: Option<Reply>)
      requires At(g, s, v) && ChangedTo(g, s, v) && v.queue[0].Creating? && v.queue[0].creating.AwaitingCorpus?
      modifies `queues, `reservedSessions
      ensures IsTurn(g, s, AdvanceCreate(v, corpus), Now(), reply)
    {
      var j := queues[s][0];
      var accepted := AcceptCorpus(j.corpusId, j.location, corpus);
      if accepted {
        var rt := Started(corpus.value.words, corpus.value.symbols, j.mode, StartFor(corpus.value.symbols, j.location));
        ContinueJob(s, j.(creating := AwaitingStore(rt)), g, v);
        reply := None;
      } else {
        reservedSessions := reservedSessions - 1;
        FinishJob(s, g, v);
        reply := Some(Failed(InvalidCorpus));
      }
    }

    method AcceptCorpus(corpusId: string, location: Option<Location>, corpus: Option<QuranCorpus>) returns (accepted: bool)
      ensures accepted <==> AcceptableCorpus(corpusId, location, corpus)
    {
      if corpus.None? { return false; }
      var valid := CorpusChecks.Validate(corpus.value);
      return valid.Ok? && corpus.value.symbols != [] && corpus.value.corpusId == corpusId && HasLocation(corpus.value.symbols, location);
    }

    method StoreRecord(s: string, rt: Runtime, ghost g: Service, ghost v: View) returns (reply: Option<Reply>)
      requires At(g, s, v) && ChangedTo(g, s, v) && v.queue[0].Creating? && v.queue[0].creating == AwaitingStore(rt)
      modifies `records, `queues
      ensures IsTurn(g, s, AdvanceCreate(v, None), Now(), reply)
    {
      hide NewRecord, AcceptableCorpus;
      var j := queues[s][0];
      if s in records {
        ContinueJob(s, j.(creating := Refused), g, v);
      } else {
        records := records[s := NewRecord(rt)];
        ContinueJob(s, j.(creating := Created(rt)), g, v.(record := Some(NewRecord(rt))));
      }
      reply := None;
    }

    // ----- reading

    method StepRead(s: string, ghost g: Service, ghost v: View) returns (reply: Option<Reply>)
      requires At(g, s, v) && (v.queue[0].Getting? || v.queue[0].Resuming?)
      modifies `queues
      ensures IsTurn(g, s, ReadTurn(v), Now(), reply)
    {
      StoringBack(g, s);
      var j := queues[s][0];
      FinishJob(s, g, v);
      reply := Some(if s !in records then Failed(SessionNotFound)
                    else if j.Getting? then Reply.Current(records[s].snapshot)
                    else Replay(Above(records[s].snapshots, j.lastRevision)));
    }

    // ----- resetting and submitting

    method StepReset(s: string, reactions: map<nat, Reaction>, ghost g: Service, ghost v: View) returns (reply: Option<Reply>)
      requires At(g, s, v) && v.queue[0].Resetting?
      requires v.runtime.Some? ==> v.runtime.value.defaultStart < |v.runtime.value.symbols|
      modifies `sessions, `records, `queues, `subscribers, `subscriberCount
      ensures IsTurn(g, s, AdvanceReset(v, reactions), Now(), reply)
    {
      StoringBack(g, s);
      var j := queues[s][0];
      match j.updating
      case Waiting =>
        if s !in sessions {
          FinishJob(s, g, v);
          reply := Some(Failed(SessionNotFound));
        } else if !HasLocation(sessions[s].symbols, j.location) {
          FinishJob(s, g, v);
          reply := Some(Failed(InvalidCorpus));
        } else {
          ContinueJob(s, Resetting(j.location, Checked), g, v);
          reply := None;
        }
      case Checked => reply := ResetTracker(s, j.location, g, v);
      case Updated(snapshot, changed) => reply := StepAnnounce(s, reactions, g, v);
    }

    method ResetTracker(s: string, location: Option<Location>, ghost g: Service, ghost v: View) returns (reply: Option<Reply>)
      requires At(g, s, v) && ChangedTo(g, s, v) && v.queue[0] == Resetting(location, Checked)
      requires v.runtime.Some? ==> v.runtime.value.defaultStart < |v.runtime.value.symbols|
      modifies `sessions, `records, `queues
      ensures IsTurn(g, s, AdvanceReset(v, map[]), Now(), reply)
    {
      hide Reset, Settle;
      if s !in records || s !in sessions || !HasLocation(sessions[s].symbols, location) {
        FinishJob(s, g, v);
        return Some(Failed(SessionNotFound));
      }
      var rt := sessions[s];
      var start := if location.Some? then SymbolFrom(rt.symbols, location.value, 0) else rt.defaultStart;
      var st := Reset(rt.symbols, rt.tracker, start);
      var record := RecordAfter(records[s], st.snapshot, [], -1);
      sessions, records := sessions[s := MovedTo(rt, st)], records[s := record];
      ContinueJob(s, Resetting(location, Updated(st.snapshot, true)), g, v.(record := Some(record), runtime := Some(MovedTo(rt, st))));
      reply := None;
    }

    /** Publishes the new snapshot, if there is one, and replies with it. */
    method StepAnnounce(s: string, reactions: map<nat, Reaction>, ghost g: Service, ghost v: View) returns (reply: Option<Reply>)
      requires At(g, s, v) && (v.queue[0].Resetting? || v.queue[0].Submitting?) && v.queue[0].updating.Updated?
      modifies `queues, `subscribers, `subscriberCount
      ensures IsTurn(g, s, Announce(v, reactions), Now(), reply)
    {
      StoringBack(g, s);
      var phase := queues[s][0].updating;
      if phase.changed {
        Publish(s, phase.snapshot, reactions);
        FinishJob(s, g, v.(subscribers := PublishTo(v.subscribers, phase.snapshot, reactions)));
      } else {
        FinishJob(s, g, v);
      }
      reply := Some(Reply.Current(phase.snapshot));
    }

    method StepSubmit(s: string, o: Observation, located: Located, ghost g: Service, ghost v: View) returns (reply: Option<Reply>)
      requires At(g, s, v) && v.queue[0].Submitting?
      requires v.runtime.Some? ==> Words(v.runtime.value.words, |v.runtime.value.symbols|) && v.runtime.value.symbols != []
      modifies `sessions, `records, `queues
      ensures IsTurn(g, s, UpdateForSubmit(v, o, located), Now(), reply)
    {
      StoringBack(g, s);
      if s in records && o.observationId in records[s].observationIds {
        ContinueJob(s, Submitting(o, Updated(records[s].snapshot, false)), g, v);
        reply := None;
      } else if s in records && o.sourceRevision < records[s].latestSourceRevision {
        FinishJob(s, g, v);
        reply := Some(Failed(StaleRevision));
      } else if s !in records || s !in sessions {
        FinishJob(s, g, v);
        reply := Some(Failed(SessionNotFound));
      } else {
        SubmitToTracker(s, o, located, records[s], sessions[s], g, v);
        reply := None;
      }
    }

    method SubmitToTracker(s: string, o: Observation, located: Located, record: Record, rt: Runtime, ghost g: Service, ghost v: View)
      requires At(g, s, v) && ChangedTo(g, s, v) && v.queue[0].Submitting? && v.record == Some(record) && v.runtime == Some(rt)
      requires Words(rt.words, |rt.symbols|) && rt.symbols != []
      modifies `sessions, `records, `queues
      ensures Now() == Settle(g, s, ApplySubmit(v, record, rt, o, located).view)
    {
      hide Settle, Accept;
      var st := TrackerModel.Submit(rt.words, rt.symbols, rt.mode, rt.tracker, o, located);
      if st.snapshot.revision == rt.tracker.snapshot.revision {
        sessions := sessions[s := rt.(tracker := st)];
        ContinueJob(s, Submitting(o, Updated(record.snapshot, false)), g, v.(runtime := Some(rt.(tracker := st))));
      } else {
        var ids := LastUpTo(record.observationIds + [o.observationId], OBSERVATION_ID_LIMIT);
        var next := RecordAfter(record, st.snapshot, ids, o.sourceRevision);
        sessions, records := sessions[s := MovedTo(rt, st)], records[s := next];
        ContinueJob(s, Submitting(o, Updated(st.snapshot, true)), g, v.(record := Some(next), runtime := Some(MovedTo(rt, st))));
      }
    }

    // ----- subscribing

    method StepSubscribe(s: string, id: nat, reactions: map<nat, Reaction>, ghost g: Service, ghost v: View) returns (reply: Option<Reply>)
      requires At(g, s, v) && v.queue[0].Subscribing? && id !in v.subscribers
      modifies `queues, `subscribers, `subscriberCount
      ensures IsTurn(g, s, AdvanceSubscribe(v, id, HasRoom(g, limits), reactions), Now(), reply)
    {
      StoringBack(g, s);
      var j := queues[s][0];
      match j.reading
      case AwaitingRecord =>
        ContinueJob(s, j.(reading := HaveRecord(if s in records then Some(records[s]) else None)), g, v);
        reply := None;
      case HaveRecord(record) =>
        if record.None? {
          FinishJob(s, g, v);
          reply := Some(Failed(SessionNotFound));
        } else if subscriberCount >= limits.maxSubscribers {
          FinishJob(s, g, v);
          reply := Some(Failed(CapacityExhausted));
        } else {
          reply := AddSubscriber(s, record.value, id, j.lastRevision, reactions, g, v);
        }
    }

    method RegisterStream(s: string, id: nat, stream: Stream)
      requires id !in StreamsAt(subscribers, s)
      modifies `subscribers, `subscriberCount
      ensures subscribers == Store(old(subscribers), s, KeptStreams(StreamsAt(old(subscribers), s)[id := stream]))
      ensures subscriberCount == old(subscriberCount) + 1
      ensures |StreamsAt(old(subscribers), s)[id := stream]| == |StreamsAt(old(subscribers), s)| + 1
    {
      AddedOne(StreamsAt(subscribers, s), id, stream);
      var active := if s in subscribers then subscribers[s] else map[];
      subscribers := subscribers[s := active[id := stream]];
      subscriberCount := subscriberCount + 1;
    }

    /** Registers the subscriber and calls it with the retained snapshots it has not seen. */
    method AddSubscriber(s: string, record: Record, id: nat, lastRevision: int, reactions: map<nat, Reaction>, ghost g: Service, ghost v: View)
      returns (reply: Option<Reply>)
      requires At(g, s, v) && ChangedTo(g, s, v) && v.queue[0].Subscribing? && id !in v.subscribers
      modifies `queues, `subscribers, `subscriberCount
      ensures IsTurn(g, s, Register(v, record, id, lastRevision, reactions), Now(), reply)
    {
      hide Above, Settle, AfterReplay, ViewOf;
      var replay := Above(record.snapshots, lastRevision);
      var first := record.snapshot.revision + 1 - |replay|;
      ghost var added := v.subscribers[id := Stream(if first < 0 then 0 else first, replay)];
      RegisterStream(s, id, Stream(if first < 0 then 0 else first, replay));
      if replay == [] || id !in reactions {
        FinishJob(s, g, v.(subscribers := added));
        reply := Some(Subscribed(id));
      } else {
        reply := ReplayTo(s, id, added, reactions[id], g, v);
      }
    }

    /** What the listener ends while it is called is released, and so is the listener if it throws. Its own
        subscription it can end only in this way: it has no handle of it yet. */
    method ReplayTo(s: string, id: nat, ghost added: map<nat, Stream>, reaction: Reaction, ghost g: Service, ghost v: View)
      returns (reply: Option<Reply>)
      requires sessions == Store(g.sessions, s, v.runtime) && records == Store(g.records, s, v.record)
      requires subscribers == Store(g.subscribers, s, KeptStreams(added))
      requires queues == g.queues && s in queues && v.queue == queues[s] && v.queue != [] && !v.queue[0].Creating?
      requires reservedSessions == g.reservedSessions && nextSubscriber == g.nextSubscriber
      requires subscriberCount == g.subscriberCount - |SubscribersOf(g, s)| + |added|
      modifies `queues, `subscribers, `subscriberCount
      ensures Now() == Settle(g, s, Done(v.(subscribers := AfterReplay(added, id, reaction))))
      ensures reply == Some(if reaction.throws then Failed(ListenerThrew) else Subscribed(id))
    {
      ghost var rest := Except(added, reaction.unsubscribes - {id});
      StoredStreams(g.subscribers, s, added);
      ReleaseAll(s, reaction.unsubscribes - {id});
      StoredTwice(g.subscribers, s, added, rest);
      StoredStreams(g.subscribers, s, rest);
      ReplayReleases(added, id, reaction);
      if reaction.throws { ReleaseNext(s, id, g.subscribers, rest); }
      FinishJob(s, g, v.(subscribers := AfterReplay(added, id, reaction)));
      reply := Some(if reaction.throws then Failed(ListenerThrew) else Subscribed(id));
    }

    // ----- deletion

    method StepDelete(s: string, ghost g: Service, ghost v: View) returns (reply: Option<Reply>)
      requires At(g, s, v) && v.queue[0].Deleting?
      modifies `sessions, `records, `queues, `subscribers, `subscriberCount
      ensures IsTurn(g, s, AdvanceDelete(v), Now(), reply)
    {
      StoringBack(g, s);
      var j := queues[s][0];
      match j.deleting
      case AwaitingDelete =>
        if s !in records {
          FinishJob(s, g, v);
          reply := Some(Failed(SessionNotFound));
        } else {
          records := Dropped(records, s);
          ContinueJob(s, Deleting(Removed), g, v.(record := None));
          reply := None;
        }
      case Removed => reply := RemoveSession(s, g, v);
    }

    method RemoveSession(s: string, ghost g: Service, ghost v: View) returns (reply: Option<Reply>)
      requires At(g, s, v) && ChangedTo(g, s, v) && v.queue[0] == Deleting(Removed)
      modifies `sessions, `queues, `subscribers, `subscriberCount
      ensures IsTurn(g, s, AdvanceDelete(v), Now(), reply)
    {
      DropSession(s);
      DropSubscribers(s);
      FinishJob(s, g, v.(runtime := None, subscribers := map[]));
      reply := Some(Deleted);
    }

    method DropSession(s: string)
      modifies `sessions
      ensures sessions == Store(old(sessions), s, None)
    {
      sessions := Dropped(sessions, s);
    }

    method DropSubscribers(s: string)
      modifies `subscribers, `subscriberCount
      ensures subscribers == Store(old(subscribers), s, KeptStreams(map[]))
      ensures subscriberCount == old(subscriberCount) - |StreamsAt(old(subscribers), s)|
    {
      if s in subscribers { subscriberCount := subscriberCount - |subscribers[s]|; }
      subscribers := Dropped(subscribers, s);
    }

    // ----- any step

    /** One step of the session's running operation, from one suspension point to the next. */
    method Step(s: string, input: Input) returns (reply: Option<Reply>)
      requires Valid() && s in queues && LegalInput(ViewOf(Now(), s), input)
      modifies this
      ensures Valid()
      ensures Now() == Next(old(Now()), limits, s, Action.Step(input))
      ensures reply == Advance(ViewOf(old(Now()), s), input, old(nextSubscriber), HasRoom(old(Now()), limits)).reply
    {
      hide Next, Advance;
      ghost var g, v := Now(), ViewOf(Now(), s);
      SubscribersBelow(g, s);
      ViewIsOk(g, limits, s);
      reply := RunStep(s, input, g, v);
      StepIsSettled(g, limits, s, input);
      NextKeeps(g, limits, s, Action.Step(input));
    }

    method RunStep(s: string, input: Input, ghost g: Service, ghost v: View) returns (reply: Option<Reply>)
      requires At(g, s, v) && ViewOk(v) && nextSubscriber !in v.subscribers
      modifies this
      ensures var turn := Advance(v, input, g.nextSubscriber, HasRoom(g, limits));
              Now() == Settle(g, s, turn.view).(nextSubscriber := g.nextSubscriber + if Registers(v) then 1 else 0) && reply == turn.reply
    {
      hide ViewOk, AdvanceCreate, AdvanceReset, UpdateForSubmit, AdvanceDelete, AdvanceSubscribe, Settle;
      if queues[s][0].Subscribing? { reply := RunSubscribe(s, input, g, v); } else { reply := RunOther(s, input, g, v); }
    }

    /** The subscription uses up one identity when it is registered. */
    method RunSubscribe(s: string, input: Input, ghost g: Service, ghost v: View) returns (reply: Option<Reply>)
      requires At(g, s, v) && v.queue[0].Subscribing? && nextSubscriber !in v.subscribers
      modifies `queues, `subscribers, `subscriberCount, `nextSubscriber
      ensures var turn := AdvanceSubscribe(v, g.nextSubscriber, HasRoom(g, limits), input.reactions);
              Now() == Settle(g, s, turn.view).(nextSubscriber := g.nextSubscriber + if Registers(v) then 1 else 0) && reply == turn.reply
    {
      var reading := queues[s][0].reading;
      reply := StepSubscribe(s, nextSubscriber, input.reactions, g, v);
      if reading.HaveRecord? { nextSubscriber := nextSubscriber + 1; }
    }

    method RunOther(s: string, input: Input, ghost g: Service, ghost v: View) returns (reply: Option<Reply>)
      requires At(g, s, v) && ViewOk(v) && !v.queue[0].Subscribing?
      modifies `sessions, `records, `queues, `subscribers, `subscriberCount, `reservedSessions
      ensures IsTurn(g, s, Advance(v, input, g.nextSubscriber, HasRoom(g, limits)), Now(), reply)
    {
      hide IsTurn, UpdateForSubmit, AdvanceCreate;
      var j := queues[s][0];
      match j
      case Creating(_, _, _, _) => reply := StepCreate(s, input.corpus, g, v);
      case Getting => reply := StepRead(s, g, v);
      case Resuming(_) => reply := StepRead(s, g, v);
      case Resetting(_, _) => reply := StepReset(s, input.reactions, g, v);
      case Submitting(o, updating) =>
        if updating.Updated? {
          reply := StepAnnounce(s, input.reactions, g, v);
        } else {
          reply := StepSubmit(s, o, input.located, g, v);
        }
      case Deleting(_) => reply := StepDelete(s, g, v);
    }

    /** Ends a subscription; ending it again, or after the session is gone, does nothing. */
    method Unsubscribe(s: string, id: nat)
      requires Valid()
      modifies this
      ensures Valid() && Now() == Next(old(Now()), limits, s, Unsubscribing(id))
    {
      hide Next, LegalInput;
      ghost var g := Now();
      ReleaseSubscriber(s, id);
      EndIsNext(g, limits, s, id, Now());
      NextKeeps(g, limits, s, Unsubscribing(id));
    }
  }
}
