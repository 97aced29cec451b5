/** The server that the remote session is proved against is what the session service does. */
module RemoteServer {
  import opened Wrappers
  import opened Alignments
  import opened Corpus
  import opened Observations
  import opened TrackerModel
  import opened SessionProtocol
  import opened SessionTheorems
  import opened LocatedObservations
  import opened ServiceModel
  import RemoteClient
  import RemoteWorld
  import RemoteTheorems

  function ServerOf(r: Record): RemoteWorld.Server { RemoteWorld.Server(r.observationIds, r.latestSourceRevision, r.snapshot.revision) }

  /** A submission to the service changes the record as the remote model's server says, is answered as
      stale exactly when that server rejects it, and is otherwise answered with the server's revision. */
  lemma SubmissionIsServed(v: View, o: Observation, located: Located)
    requires Settled(v, 0) && v.queue != [] && OthersWait(v.queue) && v.record.Some?
    requires !Ignored(v.runtime.value.tracker, o) ==>
               GoodLocated(v.runtime.value.symbols, o, v.runtime.value.tracker.progress.committedSymbol, located)
    ensures var before, after := ServerOf(v.record.value), UpdateForSubmit(v, o, located);
            var served := RemoteWorld.Submitted(before, o.observationId, o.sourceRevision);
            && after.view.record.Some? && ServerOf(after.view.record.value) == served
            && (after.reply == Some(Failed(StaleRevision)) <==> RemoteWorld.IsStale(before, o.observationId, o.sourceRevision))
            && (after.reply == None ==>
                  after.view.queue[0] == Submitting(o, Updated(after.view.record.value.snapshot,
                                                               RemoteWorld.Advances(before, o.observationId, o.sourceRevision))))
            && (after.reply == None || after.reply == Some(Failed(StaleRevision)))
  {
    var r := v.record.value;
    RecordKnowsDuplicates(r, v.runtime.value, o);
    if !Ignored(v.runtime.value.tracker, o) {
      SubmissionAdvances(v, o, located);
      WindowsAgree(r.observationIds, o.observationId);
    }
  }

  /** A reset to a location of the corpus resets the record as the remote model's server says; one to
      another location is rejected and leaves the record alone. */
  lemma ResetIsServed(v: View, location: Option<Location>)
    requires Settled(v, 0) && v.queue != [] && v.queue[0] == Resetting(location, Waiting) && v.record.Some?
    ensures var before, m := ServerOf(v.record.value),
                             RemoteClient.ResetRequest(HasLocation(v.runtime.value.symbols, location), RemoteClient.Waiting);
            var checked := AdvanceReset(v, map[]);
            && checked.view.record == v.record
            && (RemoteWorld.Rejects(before, m) <==> checked.reply == Some(Failed(InvalidCorpus)))
            && (RemoteWorld.Rejects(before, m) ==> RemoteWorld.Served(before, m) == before)
            && (!RemoteWorld.Rejects(before, m) ==>
                  && checked.reply == None && checked.view.queue[0] == Resetting(location, Checked)
                  && var after := AdvanceReset(checked.view, map[]);
                     && after.reply == None && after.view.record.Some?
                     && ServerOf(after.view.record.value) == RemoteWorld.Served(before, m)
                     && after.view.queue[0] == Resetting(location, Updated(after.view.record.value.snapshot, true)))
  {}

  /** An invalid observation is refused before it reaches the session: the service stays as it is, as does
      the remote model's server when it refuses a request. */
  lemma InvalidIsRefused(g: Service, limits: Limits, s: string, o: Observation, w: RemoteWorld.World, maxAttempts: nat)
    requires !ValidObservation(o) && RemoteWorld.Running(w.client)
    ensures Next(g, limits, s, Call(Submitting(o, Waiting))) == g
    ensures RemoteWorld.Exchange(w, maxAttempts, RemoteWorld.Refuses, map[]).server == w.server
    ensures RemoteWorld.Exchange(w, maxAttempts, RemoteWorld.Refuses, map[]).log == w.log
    ensures RemoteWorld.Exchange(w, maxAttempts, RemoteWorld.Refuses, map[]).client == RemoteClient.Settle(w.client)
  {}

  /** A new session's record is the server that a remote session starts with. */
  lemma NewSessionIsServer(rt: Runtime)
    requires Fresh(rt)
    ensures ServerOf(NewRecord(rt)) == RemoteWorld.Server([], -1, 0) && RemoteWorld.Matches(ServerOf(NewRecord(rt)), [])
  {}

  // ----- one request through the service

  /** The job is what a mutation sends. */
  ghost predicate Carries(j: Job, m: RemoteClient.Mutation, symbols: seq<Symbol>) {
    match m
    case Submission(id, sourceRevision, _, _) =>
      && j.Submitting? && j.updating.Waiting? && ValidObservation(j.o)
      && j.o.observationId == id && j.o.sourceRevision == sourceRevision
    case ResetRequest(known, _) => j.Resetting? && j.updating.Waiting? && HasLocation(symbols, j.location) == known
  }

  /** The session exists and no operation is under way in it. */
  predicate IsIdle(g: Service, s: string) { s in g.records && s in g.sessions && s !in g.queues }

  /** How many steps the service takes up to the reply. */
  predicate IsShort(r: Record, symbols: seq<Symbol>, j: Job)
    requires j.Submitting? || j.Resetting?
  {
    if j.Submitting? then RemoteWorld.IsStale(ServerOf(r), j.o.observationId, j.o.sourceRevision) else !HasLocation(symbols, j.location)
  }

  function StepsFor(r: Record, symbols: seq<Symbol>, j: Job): nat
    requires j.Submitting? || j.Resetting?
  {
    if IsShort(r, symbols, j) then 1 else if j.Submitting? then 2 else 3
  }

  /** The call of an operation and its first n steps. */
  function RequestEvents(s: string, j: Job, input: Input, n: nat): seq<Event> {
    if n == 0 then [Event(s, Call(j))] else RequestEvents(s, j, input, n - 1) + [Event(s, Step(input))]
  }

  /** The reply with which the last event has ended an operation, if it has. */
  ghost function LastReply(limits: Limits, events: seq<Event>): Option<Reply>
    requires Possible(limits, events)
  {
    if events == [] || !events[|events| - 1].action.Step? then None
    else
      var g, e := After(limits, events[..|events| - 1]), events[|events| - 1];
      if QueueOf(g, e.session) == [] then None
      else Advance(ViewOf(g, e.session), e.action.input, g.nextSubscriber, HasRoom(g, limits)).reply
  }

  function ReceivedOf(reply: Reply): RemoteClient.Received {
    if reply.Current? then RemoteClient.Replied(reply.snapshot.revision) else RemoteClient.Rejected
  }

  lemma CallHappens(limits: Limits, events: seq<Event>, s: string, j: Job)
    requires Possible(limits, events) && IsWaiting(j) && (j.Submitting? || j.Resetting?) && (j.Submitting? ==> ValidObservation(j.o))
    ensures var all := events + [Event(s, Call(j))];
            Possible(limits, all) && ViewOf(After(limits, all), s) == Enqueue(ViewOf(After(limits, events), s), j)
  {
    hide Advance, ViewOk;
    assert (events + [Event(s, Call(j))])[..|events|] == events;
    var g := After(limits, events);
    SettledView(g, s, Enqueue(ViewOf(g, s), j), g.nextSubscriber, s);
  }

  lemma StepHappens(limits: Limits, events: seq<Event>, s: string, input: Input)
    requires Possible(limits, events) && QueueOf(After(limits, events), s) != [] && LegalInput(ViewOf(After(limits, events), s), input)
    ensures var g, all := After(limits, events), events + [Event(s, Step(input))];
            && ViewOk(ViewOf(g, s)) && Possible(limits, all)
            && var turn := Advance(ViewOf(g, s), input, g.nextSubscriber, HasRoom(g, limits));
               ViewOf(After(limits, all), s) == turn.view && LastReply(limits, all) == turn.reply
  {
    hide Advance, ViewOk, LegalInput;
    assert (events + [Event(s, Step(input))])[..|events|] == events;
    var g := After(limits, events);
    EveryRunIsOk(limits, events);
    assert ViewOk(ViewOf(g, s));
    var v := Advance(ViewOf(g, s), input, g.nextSubscriber, HasRoom(g, limits)).view;
    StepIsSettled(g, limits, s, input);
    SettledView(g, s, v, g.nextSubscriber + if Registers(ViewOf(g, s)) then 1 else 0, s);
  }

  // ----- the turns of one request

  /** What the last step of a submission or reset does: publish, and answer with the recorded snapshot. */
  lemma AnnouncingTurn(v: View, snapshot: Snapshot, input: Input, id: nat, room: bool)
    requires ViewOk(v) && |v.queue| == 1 && (v.queue[0].Submitting? || v.queue[0].Resetting?)
    requires v.queue[0].updating.Updated? && v.queue[0].updating.snapshot == snapshot
    ensures var turn := Advance(v, input, id, room);
            && turn.view.queue == [] && turn.view.record == v.record && turn.view.runtime == v.runtime
            && turn.reply == Some(Reply.Current(snapshot))
  {
    hide HeadOk, AdvanceCreate, UpdateForSubmit, AdvanceSubscribe, AdvanceDelete, PublishTo;
  }

  /** The first step of a submission to an idle session. */
  lemma SubmittingTurn(v: View, o: Observation, input: Input, id: nat, room: bool)
    requires ViewOk(v) && v.record.Some? && v.queue == [Submitting(o, Waiting)] && LegalInput(v, input)
    ensures v.runtime.Some?
    ensures var turn, server := Advance(v, input, id, room), ServerOf(v.record.value);
            if RemoteWorld.IsStale(server, o.observationId, o.sourceRevision) then turn == Turn(Done(v), Some(Failed(StaleRevision)))
            else
              && turn.reply == None && IsUpdated(v, turn.view, RemoteWorld.Submitted(server, o.observationId, o.sourceRevision))
  {
    hide AdvanceCreate, AdvanceReset, AdvanceSubscribe, AdvanceDelete, GoodLocated, LegalInput;
    LegalIsGood(v, input);
    SubmissionIsServed(v, o, input.located);
    SubmissionMovesOn(v, o, input.located);
  }

  /** The operation has recorded its snapshot and is about to publish it. */
  predicate IsUpdated(v: View, after: View, server: RemoteWorld.Server) {
    && after.record.Some? && ServerOf(after.record.value) == server
    && v.runtime.Some? && after.runtime.Some? && after.runtime.value.symbols == v.runtime.value.symbols
    && |after.queue| == 1 && (after.queue[0].Submitting? || after.queue[0].Resetting?)
    && after.queue[0].updating.Updated? && after.queue[0].updating.snapshot == after.record.value.snapshot
  }

  lemma SubmissionMovesOn(v: View, o: Observation, located: Located)
    requires Settled(v, 0) && v.record.Some? && v.queue == [Submitting(o, Waiting)]
    ensures var turn := UpdateForSubmit(v, o, located);
            if turn.reply.Some? then turn.view == Done(v)
            else turn.view.runtime.Some? && turn.view.runtime.value.symbols == v.runtime.value.symbols && |turn.view.queue| == 1
  {}

  /** The steps of a reset of an idle session before the last one. */
  lemma ResettingTurns(v: View, location: Option<Location>, input: Input, id: nat, room: bool)
    requires ViewOk(v) && v.record.Some? && v.queue == [Resetting(location, Waiting)]
    ensures v.runtime.Some?
    ensures var turn := Advance(v, input, id, room);
            if !HasLocation(v.runtime.value.symbols, location) then turn == Turn(Done(v), Some(Failed(InvalidCorpus)))
            else turn == Turn(Become(v, Resetting(location, Checked)), None)
  {
    hide AdvanceCreate, UpdateForSubmit, AdvanceSubscribe, AdvanceDelete;
  }

  lemma CheckedTurn(v: View, location: Option<Location>, input: Input, id: nat, room: bool)
    requires ViewOk(v) && v.record.Some? && v.queue == [Resetting(location, Checked)]
    ensures v.runtime.Some?
    ensures var turn, server := Advance(v, input, id, room), ServerOf(v.record.value);
            turn.reply == None && IsUpdated(v, turn.view, RemoteWorld.Server([], -1, server.revision + 1))
  {
    hide AdvanceCreate, UpdateForSubmit, AdvanceSubscribe, AdvanceDelete;
  }

  // ----- one exchange

  /** The session is idle again, has become what the remote model's server becomes, and the last event's
      reply is what the client receives in the remote model. */
  ghost predicate IsServed(limits: Limits, before: Service, all: seq<Event>, s: string, m: RemoteClient.Mutation)
    requires IsIdle(before, s) && Possible(limits, all)
  {
    var after, reply, server := After(limits, all), LastReply(limits, all), ServerOf(before.records[s]);
    && IsIdle(after, s) && after.sessions[s].symbols == before.sessions[s].symbols
    && ServerOf(after.records[s]) == RemoteWorld.Served(server, m)
    && reply.Some? && ReceivedOf(reply.value) == RemoteWorld.ReceivedFrom(server, m, RemoteWorld.Arrives)
  }

  lemma IdleView(g: Service, s: string)
    ensures IsIdle(g, s) ==> ViewOf(g, s).queue == [] && ViewOf(g, s).record == Some(g.records[s]) && ViewOf(g, s).runtime == Some(g.sessions[s])
    ensures NoEmptyEntries(g) && ViewOf(g, s).queue == [] && ViewOf(g, s).record.Some? && ViewOf(g, s).runtime.Some? ==> IsIdle(g, s)
  {}

  lemma EndsIdle(limits: Limits, all: seq<Event>, s: string, v: View)
    requires Possible(limits, all) && ViewOf(After(limits, all), s) == v
    requires v.queue == [] && v.record.Some? && v.runtime.Some?
    ensures var g := After(limits, all); IsIdle(g, s) && g.records[s] == v.record.value && g.sessions[s] == v.runtime.value
  {
    hide After, Possible, SessionsOk, CountsOk, IdsUsed;
    EveryRunIsOk(limits, all);
    IdleView(After(limits, all), s);
  }

  lemma NextRequestEvent(events: seq<Event>, s: string, j: Job, input: Input, n: nat)
    ensures events + RequestEvents(s, j, input, n + 1) == (events + RequestEvents(s, j, input, n)) + [Event(s, Step(input))]
  {}

  lemma LocatesNoMore(v: View, input: Input)
    requires v.queue != [] && (v.queue[0].Resetting? || (v.queue[0].Submitting? && v.queue[0].updating.Updated?))
    ensures LegalInput(v, input)
  {
    hide LocatedIn;
  }

  /** The last step, which publishes. */
  lemma EndsByAnnouncing(limits: Limits, before: Service, events: seq<Event>, s: string, v: View, input: Input, m: RemoteClient.Mutation)
    requires Possible(limits, events) && IsIdle(before, s) && !RemoteWorld.Rejects(ServerOf(before.records[s]), m)
    requires IsUpdated(v, ViewOf(After(limits, events), s), RemoteWorld.Served(ServerOf(before.records[s]), m))
    requires v.runtime.value.symbols == before.sessions[s].symbols
    ensures Possible(limits, events + [Event(s, Step(input))])
    ensures IsServed(limits, before, events + [Event(s, Step(input))], s, m)
  {
    hide After, Possible, Advance, ViewOk, LastReply, LegalInput;
    var w, g := ViewOf(After(limits, events), s), After(limits, events);
    LocatesNoMore(w, input);
    StepHappens(limits, events, s, input);
    AnnouncingTurn(w, w.record.value.snapshot, input, g.nextSubscriber, HasRoom(g, limits));
    EndsIdle(limits, events + [Event(s, Step(input))], s, ViewOf(After(limits, events + [Event(s, Step(input))]), s));
  }

  lemma EndsByFailing(limits: Limits, before: Service, events: seq<Event>, s: string, v: View, error: ServiceError, m: RemoteClient.Mutation)
    requires Possible(limits, events) && IsIdle(before, s) && RemoteWorld.Rejects(ServerOf(before.records[s]), m)
    requires v.queue != [] && v.queue[1..] == [] && v.record == Some(before.records[s]) && v.runtime == Some(before.sessions[s])
    requires ViewOf(After(limits, events), s) == Done(v) && LastReply(limits, events) == Some(Failed(error))
    requires RemoteWorld.Served(ServerOf(before.records[s]), m) == ServerOf(before.records[s])
    ensures IsServed(limits, before, events, s, m)
  {
    hide After, Possible, LastReply;
    EndsIdle(limits, events, s, Done(v));
  }

  lemma SubmissionExchange(limits: Limits, events: seq<Event>, s: string, m: RemoteClient.Mutation, j: Job, input: Input)
    requires Possible(limits, events) && IsIdle(After(limits, events), s) && j.Submitting?
    requires Carries(j, m, After(limits, events).sessions[s].symbols) && LegalInput(Enqueue(ViewOf(After(limits, events), s), j), input)
    ensures var g := After(limits, events);
            var all := events + RequestEvents(s, j, input, StepsFor(g.records[s], g.sessions[s].symbols, j));
            Possible(limits, all) && IsServed(limits, g, all, s, m)
  {
    hide After, Possible, LegalInput, IsServed, LastReply, Advance, ViewOk, ValidObservation;
    var g := After(limits, events);
    IdleView(g, s);
    CallHappens(limits, events, s, j);
    var called := events + RequestEvents(s, j, input, 0);
    var v, h := ViewOf(After(limits, called), s), After(limits, called);
    assert v.queue == [j];
    StepHappens(limits, called, s, input);
    NextRequestEvent(events, s, j, input, 0);
    SubmittingTurn(v, j.o, input, h.nextSubscriber, HasRoom(h, limits));
    var stepped := events + RequestEvents(s, j, input, 1);
    if IsShort(g.records[s], g.sessions[s].symbols, j) {
      EndsByFailing(limits, g, stepped, s, v, StaleRevision, m);
    } else {
      NextRequestEvent(events, s, j, input, 1);
      EndsByAnnouncing(limits, g, stepped, s, v, input, m);
    }
  }

  lemma ResetExchange(limits: Limits, events: seq<Event>, s: string, m: RemoteClient.Mutation, j: Job, input: Input)
    requires Possible(limits, events) && IsIdle(After(limits, events), s) && j.Resetting?
    requires Carries(j, m, After(limits, events).sessions[s].symbols)
    ensures var g := After(limits, events);
            var all := events + RequestEvents(s, j, input, StepsFor(g.records[s], g.sessions[s].symbols, j));
            Possible(limits, all) && IsServed(limits, g, all, s, m)
  {
    hide After, Possible, LocatedIn, IsServed, LastReply, Advance, ViewOk;
    var g := After(limits, events);
    IdleView(g, s);
    CallHappens(limits, events, s, j);
    var called := events + RequestEvents(s, j, input, 0);
    var v, h := ViewOf(After(limits, called), s), After(limits, called);
    assert v.queue == [j];
    StepHappens(limits, called, s, input);
    NextRequestEvent(events, s, j, input, 0);
    ResettingTurns(v, j.location, input, h.nextSubscriber, HasRoom(h, limits));
    var checked := events + RequestEvents(s, j, input, 1);
    if IsShort(g.records[s], g.sessions[s].symbols, j) {
      EndsByFailing(limits, g, checked, s, v, InvalidCorpus, m);
    } else {
      var w, k := ViewOf(After(limits, checked), s), After(limits, checked);
      StepHappens(limits, checked, s, input);
      NextRequestEvent(events, s, j, input, 1);
      CheckedTurn(w, j.location, input, k.nextSubscriber, HasRoom(k, limits));
      NextRequestEvent(events, s, j, input, 2);
      EndsByAnnouncing(limits, g, events + RequestEvents(s, j, input, 2), s, w, input, m);
    }
  }

  /** A request that arrives: on a session that only this client calls, the call and the service's steps up
      to the reply do what one exchange does in the remote model, with the same reply. */
  lemma ExchangeIsServed(limits: Limits, events: seq<Event>, s: string, m: RemoteClient.Mutation, j: Job, input: Input)
    requires Possible(limits, events) && IsIdle(After(limits, events), s)
    requires Carries(j, m, After(limits, events).sessions[s].symbols) && LegalInput(Enqueue(ViewOf(After(limits, events), s), j), input)
    ensures var g := After(limits, events);
            var all := events + RequestEvents(s, j, input, StepsFor(g.records[s], g.sessions[s].symbols, j));
            Possible(limits, all) && IsServed(limits, g, all, s, m)
  {
    if j.Submitting? { SubmissionExchange(limits, events, s, m, j, input); } else { ResetExchange(limits, events, s, m, j, input); }
  }

  // ----- whole runs

  /** An event that does not come from the client: one of another session, the end of a subscription, or
      the call of an invalid observation, which is refused. */
  ghost predicate IsAside(e: Event, s: string) {
    || e.session != s || e.action.Unsubscribing?
    || (e.action.Call? && e.action.job.Submitting? && !ValidObservation(e.action.job.o))
  }

  /** What the service does during one action of the remote model. */
  datatype Block = Aside(events: seq<Event>) | Request(job: Job, input: Input)

  ghost function EventsOf(limits: Limits, start: seq<Event>, s: string, blocks: seq<Block>): seq<Event> {
    if blocks == [] then start
    else
      var before := EventsOf(limits, start, s, blocks[..|blocks| - 1]);
      before + BlockEvents(limits, before, s, blocks[|blocks| - 1])
  }

  ghost function BlockEvents(limits: Limits, before: seq<Event>, s: string, b: Block): seq<Event> {
    match b
    case Aside(events) => events
    case Request(j, input) =>
      if Possible(limits, before) && IsIdle(After(limits, before), s) && (j.Submitting? || j.Resetting?)
      then RequestEvents(s, j, input, StepsFor(After(limits, before).records[s], After(limits, before).sessions[s].symbols, j))
      else []
  }

  predicate IsServedBy(a: RemoteWorld.Action) { a.Exchanges? && RemoteWorld.Reaches(a.net) }

  /** The block is what the service does for the action: the request if one reaches it, or else nothing of
      the client's. */
  ghost predicate Fits(limits: Limits, before: seq<Event>, s: string, w: RemoteWorld.World, a: RemoteWorld.Action, b: Block)
    requires RemoteWorld.Possible(w, a)
  {
    match b
    case Aside(events) => !IsServedBy(a) && Possible(limits, before + events) && forall e <- events :: IsAside(e, s)
    case Request(j, input) =>
      && IsServedBy(a) && Possible(limits, before)
      && var g := After(limits, before);
         && IsIdle(g, s) && Carries(j, w.client.mutations[0], g.sessions[s].symbols)
         && LegalInput(Enqueue(ViewOf(g, s), j), input)
  }

  /** The client runs against the service, which serves the client's requests as they reach it. */
  ghost predicate JointRun(limits: Limits, start: seq<Event>, s: string, w: RemoteWorld.World, maxAttempts: nat,
                           actions: seq<RemoteWorld.Action>, blocks: seq<Block>)
    decreases |actions|
  {
    && |actions| == |blocks| && RemoteWorld.Run(w, maxAttempts, actions)
    && (actions != [] ==>
          var n := |actions| - 1;
          && JointRun(limits, start, s, w, maxAttempts, actions[..n], blocks[..n])
          && Fits(limits, EventsOf(limits, start, s, blocks[..n]), s, RemoteWorld.After(w, maxAttempts, actions[..n]), actions[n], blocks[n]))
  }

  lemma OneAside(limits: Limits, events: seq<Event>, e: Event, s: string)
    requires Possible(limits, events + [e]) && IsAside(e, s) && Possible(limits, events) && IsIdle(After(limits, events), s)
    ensures var g, h := After(limits, events), After(limits, events + [e]);
            IsIdle(h, s) && h.records[s] == g.records[s] && h.sessions[s] == g.sessions[s]
  {
    hide Advance, ViewOk, LegalInput, ServiceOk;
    var g, h := After(limits, events), After(limits, events + [e]);
    AfterOneMore(limits, events, e);
    IdleView(g, s);
    var v := ViewOf(h, s);
    AsideView(g, limits, e, s);
    EndsIdle(limits, events + [e], s, v);
  }

  lemma AsideView(g: Service, limits: Limits, e: Event, s: string)
    requires IsAside(e, s) && Enabled(g, e.session, e.action)
    ensures var v, w := ViewOf(g, s), ViewOf(Next(g, limits, e.session, e.action), s);
            w.queue == v.queue && w.record == v.record && w.runtime == v.runtime
  {
    hide Advance, ViewOk, LegalInput, ValidObservation;
    var v := ViewOf(g, e.session);
    match e.action
    case Call(j) => if Admits(g, limits, j) { SettledView(g, e.session, Enqueue(v, j), g.nextSubscriber, s); }
    case Step(input) =>
      if v.queue != [] {
        StepIsSettled(g, limits, e.session, input);
        SettledView(g, e.session, Advance(v, input, g.nextSubscriber, HasRoom(g, limits)).view,
                    g.nextSubscriber + if Registers(v) then 1 else 0, s);
      }
    case Unsubscribing(id) => SettledView(g, e.session, Unsubscribe(v, id), g.nextSubscriber, s);
  }

  lemma {:induction false} AsidesKeep(limits: Limits, events: seq<Event>, more: seq<Event>, s: string)
    requires Possible(limits, events + more) && (forall e <- more :: IsAside(e, s))
    requires Possible(limits, events) && IsIdle(After(limits, events), s)
    ensures var g, h := After(limits, events), After(limits, events + more);
            IsIdle(h, s) && h.records[s] == g.records[s] && h.sessions[s] == g.sessions[s]
    decreases |more|
  {
    hide After, IsIdle, IsAside, Possible, Next;
    if more == [] {
      assert events + more == events;
    } else {
      var front, e := more[..|more| - 1], more[|more| - 1];
      assert events + more == (events + front) + [e];
      AfterOneMore(limits, events + front, e);
      AsidesKeep(limits, events, front, s);
      OneAside(limits, events + front, e, s);
    }
  }

  function ServerAfter(w: RemoteWorld.World, a: RemoteWorld.Action): RemoteWorld.Server
    requires RemoteWorld.Possible(w, a)
  {
    if IsServedBy(a) then RemoteWorld.Served(w.server, w.client.mutations[0]) else w.server
  }

  lemma OnlyRequestsServe(w: RemoteWorld.World, maxAttempts: nat, a: RemoteWorld.Action)
    requires RemoteWorld.Possible(w, a)
    ensures RemoteWorld.Next(w, maxAttempts, a).server == ServerAfter(w, a)
  {}

  /** The session is idle and is the server; a request has been answered as in the remote model. */
  ghost predicate Agrees(limits: Limits, events: seq<Event>, s: string, server: RemoteWorld.Server) {
    Possible(limits, events) && IsIdle(After(limits, events), s) && ServerOf(After(limits, events).records[s]) == server
  }

  ghost predicate IsAnswered(limits: Limits, events: seq<Event>, w: RemoteWorld.World, a: RemoteWorld.Action)
    requires RemoteWorld.Possible(w, a)
  {
    IsServedBy(a) ==>
      && Possible(limits, events) && LastReply(limits, events).Some?
      && ReceivedOf(LastReply(limits, events).value)
         == RemoteWorld.ReceivedFrom(w.server, w.client.mutations[0], RemoteWorld.Arrives)
  }

  lemma BlockIsServed(limits: Limits, before: seq<Event>, s: string, w: RemoteWorld.World, a: RemoteWorld.Action, b: Block)
    requires RemoteWorld.Possible(w, a) && Fits(limits, before, s, w, a, b) && Agrees(limits, before, s, w.server)
    ensures Agrees(limits, before + BlockEvents(limits, before, s, b), s, ServerAfter(w, a))
    ensures IsAnswered(limits, before + BlockEvents(limits, before, s, b), w, a)
  {
    hide After, Possible, LegalInput, LastReply, ViewOf;
    match b
    case Aside(events) => AsidesKeep(limits, before, events, s);
    case Request(j, input) => ExchangeIsServed(limits, before, s, w.client.mutations[0], j, input);
  }

  lemma LastBlock(limits: Limits, start: seq<Event>, s: string, blocks: seq<Block>)
    requires blocks != []
    ensures var before := EventsOf(limits, start, s, blocks[..|blocks| - 1]);
            EventsOf(limits, start, s, blocks) == before + BlockEvents(limits, before, s, blocks[|blocks| - 1])
  {
    hide BlockEvents;
  }

  /** In every run of a client against a session that only it calls, the session has become what the remote
      model's server has become, and every request that reaches it is answered as in the remote model. So
      what is proved of all runs of the remote model holds of client and service. */
  lemma {:induction false} RunIsServed(limits: Limits, start: seq<Event>, s: string, w: RemoteWorld.World, maxAttempts: nat,
                                       actions: seq<RemoteWorld.Action>, blocks: seq<Block>)
    requires JointRun(limits, start, s, w, maxAttempts, actions, blocks) && Agrees(limits, start, s, w.server)
    ensures Agrees(limits, EventsOf(limits, start, s, blocks), s, RemoteWorld.After(w, maxAttempts, actions).server)
    ensures actions != [] ==> IsAnswered(limits, EventsOf(limits, start, s, blocks),
                                         RemoteWorld.After(w, maxAttempts, actions[..|actions| - 1]), actions[|actions| - 1])
    decreases |actions|
  {
    hide Agrees, IsAnswered, Fits, EventsOf, BlockEvents, RemoteWorld.Possible, RemoteWorld.Next;
    if actions == [] {
      NoBlock(limits, start, s, blocks);
    } else {
      var n := |actions| - 1;
      RunIsServed(limits, start, s, w, maxAttempts, actions[..n], blocks[..n]);
      var before := RemoteWorld.After(w, maxAttempts, actions[..n]);
      BlockIsServed(limits, EventsOf(limits, start, s, blocks[..n]), s, before, actions[n], blocks[n]);
      OnlyRequestsServe(before, maxAttempts, actions[n]);
      LastBlock(limits, start, s, blocks);
    }
  }

  lemma NoBlock(limits: Limits, start: seq<Event>, s: string, blocks: seq<Block>)
    requires blocks == []
    ensures EventsOf(limits, start, s, blocks) == start
  {
    hide BlockEvents;
  }

  /** So the session's record holds exactly what the log of the run says: the last 512 ids accepted since
      the last reset, and the source revision accepted last. */
  lemma RecordFollowsLog(limits: Limits, start: seq<Event>, s: string, server: RemoteWorld.Server, log: seq<RemoteWorld.Entry>,
                         maxAttempts: nat, actions: seq<RemoteWorld.Action>, blocks: seq<Block>)
    requires Agrees(limits, start, s, server) && RemoteWorld.Matches(server, log)
    requires JointRun(limits, start, s, RemoteWorld.Opened(server, log), maxAttempts, actions, blocks)
    ensures var events := EventsOf(limits, start, s, blocks);
            && Possible(limits, events) && IsIdle(After(limits, events), s)
            && RemoteWorld.Matches(ServerOf(After(limits, events).records[s]),
                                   RemoteWorld.After(RemoteWorld.Opened(server, log), maxAttempts, actions).log)
  {
    hide After, Possible, LastReply, Fits, EventsOf, IsAnswered;
    RunIsServed(limits, start, s, RemoteWorld.Opened(server, log), maxAttempts, actions, blocks);
    RemoteTheorems.EveryRunIsOk(server, log, maxAttempts, actions);
  }
}
