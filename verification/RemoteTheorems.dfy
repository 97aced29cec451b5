/** What holds in every run of a remote session and its server over a lossy network. */
module RemoteTheorems {
  import opened DuplicateWindow
  import opened Sequences
  import opened RemoteClient
  import opened RemoteWorld
  import opened RemoteListeners

  // ----- every step keeps the client's invariant

  lemma BoundGrows(c: Client, bound: nat, more: nat)
    requires ClientOk(c, bound) && bound <= more
    ensures ClientOk(c, more)
  {}

  lemma SettleKeepsFlights(c: Client)
    requires FlightsOk(c) && c.mutations != []
    ensures FlightsOk(Settle(c))
  {
    var d := Settle(c);
    forall id | id in d.submissions ensures IsQueued(d.mutations, id, d.submissions[id]) {
      var i :| 0 <= i < |c.mutations| && IsFlight(c.mutations[i], id, c.submissions[id]);
      assert IsFlight(d.mutations[i - 1], id, d.submissions[id]);
    }
  }

  lemma BecomeKeepsFlights(c: Client, phase: Phase)
    requires FlightsOk(c) && c.mutations != []
    ensures FlightsOk(Become(c, phase))
  {
    var d := Become(c, phase);
    forall id | id in d.submissions ensures IsQueued(d.mutations, id, d.submissions[id]) {
      var i :| 0 <= i < |c.mutations| && IsFlight(c.mutations[i], id, c.submissions[id]);
      assert IsFlight(d.mutations[i], id, d.submissions[id]);
    }
  }

  /** The running mutation ends without changing anything else. */
  lemma SettleKeepsClient(c: Client, bound: nat)
    requires ClientOk(c, bound) && c.mutations != []
    ensures ClientOk(Settle(c), bound) && forall x: nat :: LogOf(Settle(c), x) == LogOf(c, x)
  {
    SettleKeepsQueue(c);
    SettleKeepsFlights(c);
  }

  lemma BecomeKeepsClient(c: Client, phase: Phase, bound: nat)
    requires ClientOk(c, bound) && c.mutations != []
    ensures ClientOk(Become(c, phase), bound)
  {
    BecomeKeepsQueue(c, phase);
    BecomeKeepsFlights(c, phase);
  }

  lemma ReplyingKeepsClient(c: Client, bound: nat)
    requires ClientOk(c, bound) && c.mutations != []
    ensures ClientOk(Replying(c), bound) && LogsAtMost(Replying(c), Replying(c).snapshot)
    ensures Replying(c).mutations == c.mutations && forall x: nat :: LogOf(Replying(c), x) == LogOf(c, x)
  {
    FlightsStay(c, Replying(c));
  }

  lemma ReplyKeepsClient(c: Client, revision: nat, reactions: map<nat, Reaction>, bound: nat)
    requires ClientOk(c, bound) && c.mutations != [] && revision <= bound
    ensures ClientOk(ReplyArrives(c, revision, reactions), bound)
  {
    hide ClientOk, CallingOk, Notify;
    ReplyingKeepsClient(c, bound);
    NotifyKeeps(Replying(c), revision, reactions, bound);
    SettleKeepsClient(Notify(Replying(c), revision, reactions), bound);
  }

  lemma ReceiveKeepsClient(c: Client, maxAttempts: nat, received: Received, reactions: map<nat, Reaction>, bound: nat)
    requires ClientOk(c, bound)
    requires c.mutations != [] && c.mutations[0].phase.Fetching? && (received.Replied? ==> received.revision <= bound)
    ensures ClientOk(Receive(c, maxAttempts, received, reactions), bound)
  {
    if TriesAgain(c, maxAttempts, received) {
      BecomeKeepsClient(c, Sleeping(c.mutations[0].phase.attempt), bound);
    } else if !received.Replied? {
      SettleKeepsClient(c, bound);
    } else {
      ReplyKeepsClient(c, received.revision, reactions, bound);
    }
  }

  /** Besides those of c, d has only mutations called meanwhile. */
  predicate Follows(c: Client, mutations: seq<Mutation>, d: Client) {
    && mutations <= d.mutations && (forall i | |mutations| <= i < |d.mutations| :: IsNewer(c, d.mutations[i]))
    && c.nextFlight <= d.nextFlight
  }

  lemma SettleFollows(c: Client, d: Client)
    requires c.mutations != [] && Continues(c, d)
    ensures d.mutations != [] && d.mutations[0] == c.mutations[0] && Follows(c, c.mutations[1..], Settle(d))
    ensures Ended(Settle(d)) == Ended(c) + (if c.mutations[0].ResetRequest? then 1 else 0)
    ensures Settle(d).acknowledged <= c.acknowledged
  {
    assert d.mutations[..|c.mutations|] == c.mutations;
  }

  lemma ReplyEnds(c: Client, revision: nat, reactions: map<nat, Reaction>, bound: nat)
    requires ClientOk(c, bound) && c.mutations != []
    ensures var d := ReplyArrives(c, revision, reactions);
            && Follows(c, c.mutations[1..], d) && d.acknowledged <= Replying(c).acknowledged
            && Ended(d) == Ended(c) + (if c.mutations[0].ResetRequest? then 1 else 0)
  {
    hide ClientOk, CallingOk, Notify, Settle;
    BoundGrows(c, bound, bound + revision);
    ReplyingKeepsClient(c, bound + revision);
    NotifyKeeps(Replying(c), revision, reactions, bound + revision);
    var notified := Notify(Replying(c), revision, reactions);
    SettleFollows(Replying(c).(snapshot := notified.snapshot), notified);
  }

  /** What the end of an exchange does to queue, acknowledgements and counts. */
  lemma ReceiveEnds(c: Client, maxAttempts: nat, received: Received, reactions: map<nat, Reaction>, bound: nat)
    requires ClientOk(c, bound) && c.mutations != [] && c.mutations[0].phase.Fetching?
    ensures var d := Receive(c, maxAttempts, received, reactions);
            if TriesAgain(c, maxAttempts, received) then
              d == Become(c, Sleeping(c.mutations[0].phase.attempt))
            else
              && Follows(c, c.mutations[1..], d)
              && Ended(d) == Ended(c) + (if c.mutations[0].ResetRequest? then 1 else 0)
              && d.acknowledged <= if received.Replied? then Replying(c).acknowledged else c.acknowledged
  {
    hide ReplyArrives, Replying;
    if received.Replied? { ReplyEnds(c, received.revision, reactions, bound); }
  }

  /** Nothing has ended or been acknowledged, and mutations have at most been queued. */
  predicate Queues(c: Client, d: Client) {
    Follows(c, c.mutations, d) && Ended(d) == Ended(c) && d.acknowledged <= c.acknowledged
  }

  /** Steps that only concern listeners. */
  lemma ListenerStep(w: World, maxAttempts: nat, a: Action)
    requires ClientOk(w.client, w.server.revision) && Possible(w, a) && (a.Drains? || a.Subscribes?)
    ensures var d := Next(w, maxAttempts, a).client; Next(w, maxAttempts, a) == w.(client := d) && Queues(w.client, d)
  {
    hide ClientOk, CallingOk, Notify, Subscribe;
    var c := w.client;
    if a.Drains? {
      DequeuedKeepsClient(c, w.server.revision);
      NotifyKeeps(Dequeued(c), c.notifications[0], a.reactions, w.server.revision);
    } else {
      ClientIsCalling(c, w.server.revision);
      SubscribeKeeps(c, a.l, a.reaction, w.server.revision);
    }
  }

  lemma ClientIsCalling(c: Client, bound: nat)
    requires ClientOk(c, bound)
    ensures CallingOk(c, bound)
  {}

  lemma CallKeepsClient(c: Client, id: string, sourceRevision: int, known: bool, bound: nat)
    requires ClientOk(c, bound)
    ensures ClientOk(CallSubmit(c, id, sourceRevision).0, bound) && ClientOk(CallReset(c, known), bound)
  {
    CallsKeepQueue(c, id, sourceRevision, known);
    OneMoreFlight(c, id, sourceRevision);
    ResetKeepsFlights(c, known);
  }

  lemma StartKeepsClient(c: Client, bound: nat)
    requires ClientOk(c, bound) && c.mutations != []
    ensures ClientOk(Start(c), bound)
  {
    if c.closed || AnsweredOnStart(c) { SettleKeepsClient(c, bound); } else { BecomeKeepsClient(c, Fetching(1), bound); }
  }

  lemma WakeKeepsClient(c: Client, bound: nat)
    requires ClientOk(c, bound) && c.mutations != [] && c.mutations[0].phase.Sleeping?
    ensures ClientOk(Wake(c), bound)
  {
    if c.closed {
      SettleKeepsClient(c, bound);
    } else {
      var phase := Fetching(c.mutations[0].phase.attempt + 1);
      assert Wake(c) == Become(c, phase);
      BecomeKeepsClient(c, phase, bound);
    }
  }

  lemma SubscribeKeepsClient(c: Client, l: nat, r: Reaction, bound: nat)
    requires ClientOk(c, bound)
    ensures ClientOk(Subscribe(c, l, r), bound)
  {
    SubscribeKeeps(c, l, r, bound);
    forall x | x in Subscribe(c, l, r).listeners ensures UpToDate(Subscribe(c, l, r), x) {
      SubscribeCalls(c, l, r, x, bound);
      CalledIsUpToDate(c, Subscribe(c, l, r), x, SubscriptionsBy(c, l, r, x));
    }
  }

  lemma UnsubscribeKeepsClient(c: Client, l: nat, bound: nat)
    requires ClientOk(c, bound)
    ensures ClientOk(Unsubscribe(c, l), bound)
  {
    UnsubscribeKeeps(c, l, bound);
    forall x | x in Unsubscribe(c, l).listeners ensures UpToDate(Unsubscribe(c, l), x) { WithoutKeepsOthers(c.listeners, l, x); }
  }

  lemma DequeuedKeepsClient(c: Client, bound: nat)
    requires ClientOk(c, bound) && c.notifications != []
    ensures ClientOk(Dequeued(c), bound) && c.notifications[0] <= bound && LogsAtMost(c, c.snapshot)
  {
    FlightsStay(c, Dequeued(c));
  }

  lemma CloseKeepsClient(c: Client, bound: nat)
    requires ClientOk(c, bound)
    ensures ClientOk(Close(c), bound)
  {
    CloseKeeps(c, bound);
  }

  /** Every step keeps the client's invariant, whatever the server holds. */
  lemma NextKeepsClient(w: World, maxAttempts: nat, a: Action)
    requires ClientOk(w.client, w.server.revision) && Possible(w, a)
    ensures ClientOk(Next(w, maxAttempts, a).client, Next(w, maxAttempts, a).server.revision)
  {
    var c, bound := w.client, w.server.revision;
    match a
    case Submits(id, sourceRevision) => CallKeepsClient(c, id, sourceRevision, true, bound);
    case Resets(known) => CallKeepsClient(c, "", 0, known, bound);
    case Starts => StartKeepsClient(c, bound);
    case Exchanges(net, reactions) =>
      ReceiveKeepsClient(c, maxAttempts, ReceivedFrom(w.server, c.mutations[0], net), reactions, Next(w, maxAttempts, a).server.revision);
    case Wakes => WakeKeepsClient(c, bound);
    case Messages(_) =>
    case Drains(reactions) =>
      DequeuedKeepsClient(c, bound);
      NotifyKeeps(Dequeued(c), c.notifications[0], reactions, bound);
    case Subscribes(l, reaction) => SubscribeKeepsClient(c, l, reaction, bound);
    case Unsubscribes(l) => UnsubscribeKeepsClient(c, l, bound);
    case Closes => CloseKeepsClient(c, bound);
  }

  /** The client's invariant holds in every run against any server. */
  lemma {:induction false} EveryClientIsOk(w: World, maxAttempts: nat, actions: seq<Action>)
    requires ClientOk(w.client, w.server.revision) && Run(w, maxAttempts, actions)
    ensures ClientOk(After(w, maxAttempts, actions).client, After(w, maxAttempts, actions).server.revision)
    decreases |actions|
  {
    if actions != [] {
      EveryClientIsOk(w, maxAttempts, actions[..|actions| - 1]);
      NextKeepsClient(After(w, maxAttempts, actions[..|actions| - 1]), maxAttempts, actions[|actions| - 1]);
    }
  }

  lemma OpenedClientIsOk(s: Server, log: seq<Entry>)
    ensures ClientOk(Opened(s, log).client, s.revision)
  {}

  // ----- every step keeps the world's invariant

  lemma LastAccepted(log: seq<Entry>, e: Entry)
    requires e.Accepted?
    ensures e.id in AcceptedSince(log + [e])
  {
    assert (log + [e])[..|log|] == log;
    assert AcceptedSince(log + [e])[|AcceptedSince(log)|] == e.id;
  }

  lemma WindowIsAccepted(s: Server, log: seq<Entry>, id: string)
    requires Matches(s, log) && id in s.window
    ensures id in AcceptedSince(log)
  {
    hide AcceptedSince, LatestSince, LastUpTo;
    LastOnesAreThere(AcceptedSince(log), OBSERVATION_ID_LIMIT, id);
  }

  /** A submission that is answered with a snapshot has been accepted since the last reset. */
  lemma AnsweredIsAccepted(s: Server, log: seq<Entry>, m: Mutation)
    requires Matches(s, log) && m.Submission? && !Rejects(s, m)
    ensures m.id in AcceptedSince(Logged(log, s, m, Arrives))
  {
    if Advances(s, m.id, m.sourceRevision) { LastAccepted(log, Accepted(m.id, m.sourceRevision)); } else { WindowIsAccepted(s, log, m.id); }
  }

  lemma AckStays(log: seq<Entry>, more: seq<Entry>, id: string, at: nat)
    requires AckHolds(log, id, at) && log <= more
    requires forall k | |log| <= k < |more| :: more[k] != WasReset(true) && !(more[k].Accepted? && more[k].id == id)
    ensures AckHolds(more, id, at)
  {
    assert more[..at] == log[..at];
  }

  /** Every acknowledgement that counts while a reply is passed on is as current as it should be. */
  lemma ReplyingAcks(w: World, maxAttempts: nat, net: Net, reactions: map<nat, Reaction>, id: string)
    requires WorldOk(w) && Running(w.client)
    requires var received := ReceivedFrom(w.server, w.client.mutations[0], net);
             id in if received.Replied? then Replying(w.client).acknowledged else w.client.acknowledged
    ensures var next := Exchange(w, maxAttempts, net, reactions);
            id in next.acks && AckHolds(next.log, id, next.acks[id].entries) && forall n <- next.successes :: n <= next.acks[id].ended
  {
    var m := w.client.mutations[0];
    var next := Exchange(w, maxAttempts, net, reactions);
    if ReceivedFrom(w.server, m, net).Replied? && m.Submission? && m.id == id && !w.client.closed {
      AnsweredIsAccepted(w.server, w.log, m);
      assert next.log[..|next.log|] == next.log;
    } else {
      AckStays(w.log, next.log, id, w.acks[id].entries);
    }
  }

  lemma ExchangeKeepsAcks(w: World, maxAttempts: nat, net: Net, reactions: map<nat, Reaction>)
    requires WorldOk(w) && Running(w.client)
    ensures AcksOk(Exchange(w, maxAttempts, net, reactions))
  {
    hide ReceivedFrom, AckHolds, Receive;
    var c, received := w.client, ReceivedFrom(w.server, w.client.mutations[0], net);
    var next := Exchange(w, maxAttempts, net, reactions);
    ReceiveEnds(c, maxAttempts, received, reactions, w.server.revision);
    forall id | id in next.client.acknowledged
      ensures id in next.acks && AckHolds(next.log, id, next.acks[id].entries) && forall n <- next.successes :: n <= next.acks[id].ended
    {
      ReplyingAcks(w, maxAttempts, net, reactions, id);
    }
  }

  lemma AppliedAfterExchange(w: World, maxAttempts: nat, net: Net, reactions: map<nat, Reaction>)
    requires WorldOk(w) && Running(w.client)
    ensures AppliedOk(Exchange(w, maxAttempts, net, reactions))
  {
    ReceiveEnds(w.client, maxAttempts, ReceivedFrom(w.server, w.client.mutations[0], net), reactions, w.server.revision);
    if w.applied { RememberedIsKnown(w, w.client.mutations[0].id); }
  }

  /** The id accepted last is remembered by the server. */
  lemma RememberedIsKnown(w: World, id: string)
    requires Matches(w.server, w.log) && w.log != [] && w.log[|w.log| - 1].Accepted? && w.log[|w.log| - 1].id == id
    ensures id in w.server.window
  {
    var all := AcceptedSince(w.log);
    assert all[|all| - 1] == id;
    assert LastUpTo(all, OBSERVATION_ID_LIMIT)[|LastUpTo(all, OBSERVATION_ID_LIMIT)| - 1] == id;
  }

  /** A request and its outcome, delivered or lost on either way, keep the invariant. */
  lemma ExchangeKeeps(w: World, maxAttempts: nat, net: Net, reactions: map<nat, Reaction>)
    requires WorldOk(w) && Running(w.client)
    ensures WorldOk(Exchange(w, maxAttempts, net, reactions))
  {
    NextKeepsClient(w, maxAttempts, Exchanges(net, reactions));
    ServedIsLogged(w.server, w.log, w.client.mutations[0], net);
    ExchangeKeepsAcks(w, maxAttempts, net, reactions);
    AppliedAfterExchange(w, maxAttempts, net, reactions);
  }

  /** A step of the client alone keeps what ties it to the server. */
  lemma ClientStepKeeps(w: World, c: Client, applied: bool)
    requires WorldOk(w) && Ended(w.client) <= Ended(c) && c.acknowledged <= w.client.acknowledged
    requires IsSent(c) ==> c.mutations[0].id !in c.acknowledged
    requires applied ==> w.applied && IsSent(c) && c.mutations[0].id == w.client.mutations[0].id
                         && c.mutations[0].sourceRevision == w.client.mutations[0].sourceRevision
    ensures AcksOk(w.(client := c, applied := applied)) && AppliedOk(w.(client := c, applied := applied))
  {}

  /** Every step keeps the invariant. */
  lemma NextKeeps(w: World, maxAttempts: nat, a: Action)
    requires WorldOk(w) && Possible(w, a)
    ensures WorldOk(Next(w, maxAttempts, a))
  {
    NextKeepsClient(w, maxAttempts, a);
    match a
    case Exchanges(net, reactions) => ExchangeKeeps(w, maxAttempts, net, reactions);
    case _ =>
      ClientStepShape(w, maxAttempts, a);
      ClientStepKeeps(w, Next(w, maxAttempts, a).client, Next(w, maxAttempts, a).applied);
  }

  /** The client step leaves the server alone and the running mutation too, or ends it. */
  predicate IsClientStep(w: World, next: World) {
    var c, d := w.client, next.client;
    && next == w.(client := d, applied := next.applied)
    && Ended(c) <= Ended(d) && d.acknowledged <= c.acknowledged && (next.applied ==> w.applied)
    && (IsSent(d) ==> d.mutations[0].id !in d.acknowledged)
    && (next.applied ==> IsSent(c) && IsSent(d) && d.mutations[0].id == c.mutations[0].id
                         && d.mutations[0].sourceRevision == c.mutations[0].sourceRevision)
  }

  lemma QueueingStep(w: World, d: Client)
    requires WorldOk(w) && Queues(w.client, d)
    ensures IsClientStep(w, w.(client := d))
  {
    hide ClientOk, Matches;
    if w.client.mutations != [] { assert d.mutations[0] == w.client.mutations[0]; }
  }

  lemma ClientStepShape(w: World, maxAttempts: nat, a: Action)
    requires WorldOk(w) && Possible(w, a) && !a.Exchanges?
    ensures IsClientStep(w, Next(w, maxAttempts, a))
  {
    hide Matches, FlightsOk, ListenersOk, Notify, Subscribe;
    if a.Drains? || a.Subscribes? {
      ListenerStep(w, maxAttempts, a);
      QueueingStep(w, Next(w, maxAttempts, a).client);
    }
  }

  /** A run keeps the invariant. */
  lemma {:induction false} RunKeeps(w: World, maxAttempts: nat, actions: seq<Action>)
    requires WorldOk(w) && Run(w, maxAttempts, actions)
    ensures WorldOk(After(w, maxAttempts, actions))
    decreases |actions|
  {
    if actions != [] {
      RunKeeps(w, maxAttempts, actions[..|actions| - 1]);
      NextKeeps(After(w, maxAttempts, actions[..|actions| - 1]), maxAttempts, actions[|actions| - 1]);
    }
  }

  /** Every world that a client can reach satisfies the invariant, whatever had happened to the server
      before the client came. */
  lemma EveryRunIsOk(s: Server, log: seq<Entry>, maxAttempts: nat, actions: seq<Action>)
    requires Matches(s, log) && Run(Opened(s, log), maxAttempts, actions)
    ensures WorldOk(After(Opened(s, log), maxAttempts, actions))
  {
    OpenedClientIsOk(s, log);
    RunKeeps(Opened(s, log), maxAttempts, actions);
  }

  // ----- submissions advance the server at most once

  predicate AllAccepted(log: seq<Entry>, from: nat) { forall k | from <= k < |log| :: log[k].Accepted? }

  /** Entries after the last reset are what has been accepted since. */
  lemma {:induction false} SuffixIsAccepted(log: seq<Entry>, from: nat, k: nat)
    requires from <= k < |log| && AllAccepted(log, from)
    ensures |AcceptedSince(log)| >= |log| - from
    ensures AcceptedSince(log)[|AcceptedSince(log)| - (|log| - k)] == log[k].id
    decreases |log|
  {
    var front := log[..|log| - 1];
    if k < |front| {
      assert forall i | from <= i < |front| :: front[i] == log[i];
      SuffixIsAccepted(front, from, k);
    } else if from < |front| {
      assert forall i | from <= i < |front| :: front[i] == log[i];
      SuffixIsAccepted(front, from, from);
    }
  }

  /** An id among the last 512 entries since the last reset is remembered. */
  lemma RecentIsRemembered(w: World, i: nat)
    requires Matches(w.server, w.log) && i < |w.log| && AllAccepted(w.log, i) && |w.log| - i <= OBSERVATION_ID_LIMIT
    ensures w.log[i].id in w.server.window
  {
    SuffixIsAccepted(w.log, i, i);
    var all := AcceptedSince(w.log);
    var at := |all| - (|w.log| - i);
    assert w.server.window[at - (|all| - |w.server.window|)] == all[at];
  }

  predicate ResetBetween(log: seq<Entry>, i: nat, j: nat) { exists k | i < k < j && k < |log| :: log[k].WasReset? }

  /** From entry `start` on, an id is accepted again without a reset in between only after at least 512
      other acceptances. */
  predicate NoEarlyRepeat(log: seq<Entry>, start: nat) {
    forall i, j | 0 <= i < j < |log| && start <= j && log[i].Accepted? && log[j].Accepted? && log[i].id == log[j].id
                  && !ResetBetween(log, i, j) ::
      j - i > OBSERVATION_ID_LIMIT
  }

  lemma ExchangeKeepsNoRepeat(w: World, m: Mutation, net: Net, start: nat)
    requires Matches(w.server, w.log) && NoEarlyRepeat(w.log, start)
    ensures NoEarlyRepeat(Logged(w.log, w.server, m, net), start)
  {
    var log := w.log;
    var more := Logged(log, w.server, m, net);
    if more != log {
      forall i, j | 0 <= i < j < |more| && start <= j && more[i].Accepted? && more[j].Accepted? && more[i].id == more[j].id
                    && !ResetBetween(more, i, j)
        ensures j - i > OBSERVATION_ID_LIMIT
      {
        if j < |log| {
          assert forall k | i < k < j :: more[k] == log[k];
          assert !ResetBetween(log, i, j);
        } else if |log| - i <= OBSERVATION_ID_LIMIT {
          assert forall k | i <= k < |log| :: more[k] == log[k] && !more[k].WasReset?;
          RecentIsRemembered(w, i);
        }
      }
    }
  }

  /** In every run the client makes each id advance the server at most once between two server resets,
      unless 512 others have been accepted in between; an id accepted before the client came counts. */
  lemma {:induction false} AtMostOnce(s: Server, log: seq<Entry>, maxAttempts: nat, actions: seq<Action>)
    requires Matches(s, log) && Run(Opened(s, log), maxAttempts, actions)
    ensures NoEarlyRepeat(After(Opened(s, log), maxAttempts, actions).log, |log|)
    decreases |actions|
  {
    if actions != [] {
      var before := actions[..|actions| - 1];
      AtMostOnce(s, log, maxAttempts, before);
      EveryRunIsOk(s, log, maxAttempts, before);
      var w := After(Opened(s, log), maxAttempts, before);
      match actions[|actions| - 1]
      case Exchanges(net, _) => ExchangeKeepsNoRepeat(w, w.client.mutations[0], net, |log|);
      case _ =>
    }
  }

  /** A reset that reached the server while its response was lost. */
  predicate LostResetBetween(log: seq<Entry>, i: nat, j: nat) { exists k | i < k < j && k < |log| :: log[k] == WasReset(false) }

  predicate KnownResetBetween(log: seq<Entry>, i: nat, j: nat) { exists k | i < k < j && k < |log| :: log[k] == WasReset(true) }

  /** Between two resets that the client knows to have succeeded, with fewer than 512 acceptances in
      between, an id can advance the server twice only across a reset whose response was lost. */
  lemma RepeatNeedsLostReset(log: seq<Entry>, start: nat, i: nat, j: nat)
    requires NoEarlyRepeat(log, start) && start <= j && i < j < |log| && j - i <= OBSERVATION_ID_LIMIT
    requires log[i].Accepted? && log[j].Accepted? && log[i].id == log[j].id && !KnownResetBetween(log, i, j)
    ensures LostResetBetween(log, i, j)
  {
    assert ResetBetween(log, i, j);
    var k :| i < k < j && k < |log| && log[k].WasReset?;
    assert log[k] == WasReset(true) || log[k] == WasReset(false);
  }

  lemma {:induction false} SinceReset(log: seq<Entry>, k: nat, id: string)
    requires k < |log| && log[k].WasReset?
    requires forall i | k < i < |log| && log[i].Accepted? :: log[i].id != id
    ensures id !in AcceptedSince(log)
    decreases |log|
  {
    if k < |log| - 1 && !log[|log| - 1].WasReset? {
      var front := log[..|log| - 1];
      assert forall i | k <= i < |front| :: front[i] == log[i];
      SinceReset(front, k, id);
    }
  }

  // ----- when an id accepted before advances the server again

  lemma NotSentWhenAcknowledged(w: World, maxAttempts: nat)
    requires WorldOk(w) && Possible(w, Starts) && w.client.mutations[0].Submission? && !w.client.closed
    ensures Running(Next(w, maxAttempts, Starts).client) <==> w.client.mutations[0].id !in w.client.acknowledged
    ensures Running(Next(w, maxAttempts, Starts).client) ==>
              Next(w, maxAttempts, Starts).client.mutations[0] == WithPhase(w.client.mutations[0], Fetching(1))
  {}

  lemma AdvancesAgainIffReset(w: World, i: nat, sourceRevision: int)
    requires WorldOk(w) && i < |w.log| && w.log[i].Accepted? && |w.log| - i <= OBSERVATION_ID_LIMIT
    requires forall k | i < k < |w.log| && w.log[k].Accepted? :: w.log[k].id != w.log[i].id
    ensures Advances(w.server, w.log[i].id, sourceRevision) <==>
            ResetBetween(w.log, i, |w.log|) && sourceRevision >= LatestSince(w.log)
  {
    if ResetBetween(w.log, i, |w.log|) {
      var k :| i < k < |w.log| && w.log[k].WasReset?;
      SinceReset(w.log, k, w.log[i].id);
      assert w.log[i].id !in AcceptedSince(w.log);
    } else {
      RecentIsRemembered(w, i);
    }
  }

  /** The world after the queued submission in front has been started and, if that sends it, its request
      has been served. */
  function Attempted(w: World, maxAttempts: nat, net: Net, reactions: map<nat, Reaction>): World
    requires Possible(w, Starts)
  {
    var started := Next(w, maxAttempts, Starts);
    if Running(started.client) then Exchange(started, maxAttempts, net, reactions) else started
  }

  /** Whenever the turn of a submission comes whose id has been accepted before, it advances the server
      again exactly when there has been a reset since, it is not stale for what has been accepted since,
      and the client holds no acknowledgement of it. */
  lemma AttemptAdvancesAgainIff(w: World, maxAttempts: nat, net: Net, reactions: map<nat, Reaction>, i: nat)
    requires WorldOk(w) && Possible(w, Starts) && w.client.mutations[0].Submission? && !w.client.closed && Reaches(net)
    requires i < |w.log| && w.log[i].Accepted? && w.log[i].id == w.client.mutations[0].id && |w.log| - i <= OBSERVATION_ID_LIMIT
    requires forall k | i < k < |w.log| && w.log[k].Accepted? :: w.log[k].id != w.log[i].id
    ensures var m, next := w.client.mutations[0], Attempted(w, maxAttempts, net, reactions);
            && (next.log != w.log ==> next.log == w.log + [Accepted(m.id, m.sourceRevision)])
            && (next.log != w.log <==> ResetBetween(w.log, i, |w.log|) && m.sourceRevision >= LatestSince(w.log)
                                       && m.id !in w.client.acknowledged)
  {
    NotSentWhenAcknowledged(w, maxAttempts);
    AdvancesAgainIffReset(w, i, w.client.mutations[0].sourceRevision);
  }

  /** The world after a call of submit on a client with an empty queue, and the request it causes, if any. */
  function Resubmitted(w: World, maxAttempts: nat, id: string, sourceRevision: int, net: Net, reactions: map<nat, Reaction>): World
    requires WorldOk(w) && w.client.mutations == []
  {
    var called := Next(w, maxAttempts, Submits(id, sourceRevision));
    if called.client.mutations == [] then called else Attempted(called, maxAttempts, net, reactions)
  }

  lemma CallOnEmptyQueue(c: Client, bound: nat, id: string, sourceRevision: int)
    requires ClientOk(c, bound) && c.mutations == [] && !c.closed
    ensures var (d, answer) := CallSubmit(c, id, sourceRevision);
            if id in c.acknowledged then d == c && answer == Answered(c.snapshot)
            else d.mutations == [Submission(id, sourceRevision, Flight(c.scheduledResetSequence, c.nextFlight), Waiting)]
                 && d.acknowledged == c.acknowledged && !d.closed
  {
    if id in c.submissions { assert false; }
  }

  /** Exactly when calling submit again with an id accepted before makes it advance the server again:
      there has been a reset since, the source revision is not stale for what has been accepted since, and
      the client holds no acknowledgement of the id. Unless the client knows of a reset since, that reset
      is one whose response was lost. */
  lemma AdvancesAgainIffResetLost(w: World, maxAttempts: nat, sourceRevision: int, net: Net, reactions: map<nat, Reaction>, i: nat)
    requires WorldOk(w) && w.client.mutations == [] && !w.client.closed && Reaches(net)
    requires i < |w.log| && w.log[i].Accepted? && |w.log| - i <= OBSERVATION_ID_LIMIT
    requires forall k | i < k < |w.log| && w.log[k].Accepted? :: w.log[k].id != w.log[i].id
    ensures var id, next := w.log[i].id, Resubmitted(w, maxAttempts, w.log[i].id, sourceRevision, net, reactions);
            && (next.log != w.log ==> next.log == w.log + [Accepted(id, sourceRevision)])
            && (next.log != w.log <==> ResetBetween(w.log, i, |w.log|) && sourceRevision >= LatestSince(w.log)
                                       && id !in w.client.acknowledged)
    ensures !KnownResetBetween(w.log, i, |w.log|) ==> (ResetBetween(w.log, i, |w.log|) <==> LostResetBetween(w.log, i, |w.log|))
  {
    hide ClientOk, Matches, CallSubmit, Attempted;
    var id := w.log[i].id;
    CallOnEmptyQueue(w.client, w.server.revision, id, sourceRevision);
    if id !in w.client.acknowledged {
      var called := Next(w, maxAttempts, Submits(id, sourceRevision));
      NextKeeps(w, maxAttempts, Submits(id, sourceRevision));
      AttemptAdvancesAgainIff(called, maxAttempts, net, reactions, i);
    }
    if ResetBetween(w.log, i, |w.log|) {
      var k :| i < k < |w.log| && w.log[k].WasReset?;
      assert w.log[k] == WasReset(true) || w.log[k] == WasReset(false);
    }
  }

  lemma OneMore(w: World, maxAttempts: nat, actions: seq<Action>, a: Action) returns (more: seq<Action>)
    requires Run(w, maxAttempts, actions) && Possible(After(w, maxAttempts, actions), a)
    ensures more == actions + [a] && more[..|more| - 1] == actions
    ensures Run(w, maxAttempts, more) && After(w, maxAttempts, more) == Next(After(w, maxAttempts, actions), maxAttempts, a)
  {
    more := actions + [a];
    assert more[..|more| - 1] == actions;
  }

  predicate IsQuiet(c: Client) { !c.closed && c.mutations == [] && c.submissions == map[] && c.pendingResetCount == 0 }

  /** The mutation that a call on a quiet client queues. */
  function CallOf(c: Client, a: Action): Mutation
    requires a.Submits? || a.Resets?
  {
    if a.Submits? then Submission(a.id, a.sourceRevision, Flight(c.scheduledResetSequence, c.nextFlight), Fetching(1))
    else ResetRequest(a.known, Fetching(1))
  }

  lemma QuietCallIsSent(w: World, a: Action)
    requires IsQuiet(w.client) && (a.Submits? || a.Resets?) && (a.Submits? ==> a.id !in w.client.acknowledged)
    ensures Possible(Next(w, 1, a), Starts)
    ensures var sent := Next(Next(w, 1, a), 1, Starts);
            && Running(sent.client) && sent.client.mutations == [CallOf(w.client, a)] && !sent.client.closed
            && sent.client.acknowledged == w.client.acknowledged && sent.server == w.server && sent.log == w.log
            && sent.successes == w.successes && sent.client.pendingResetCount == (if a.Resets? then 1 else 0)
            && sent.client.submissions == (if a.Submits? then map[a.id := CallOf(w.client, a).flight] else map[])
            && sent.client.listeners == w.client.listeners && sent.client.logs == w.client.logs
            && sent.client.snapshot == w.client.snapshot
  {}

  lemma OnlyMutationEnds(c: Client, received: Received)
    requires !c.closed && |c.mutations| == 1 && c.mutations[0].phase == Fetching(1) && c.listeners == []
    requires if c.mutations[0].Submission? then c.pendingResetCount == 0 && c.submissions == map[c.mutations[0].id := c.mutations[0].flight]
             else c.pendingResetCount == 1 && c.submissions == map[]
    ensures IsQuiet(Receive(c, 1, received, map[])) && Receive(c, 1, received, map[]).listeners == []
    ensures Receive(c, 1, received, map[]).acknowledged ==
              if !received.Replied? then c.acknowledged
              else if c.mutations[0].ResetRequest? then {} else c.acknowledged + {c.mutations[0].id}
  {
    if c.mutations[0].Submission? { assert c.submissions - {c.mutations[0].id} == map[]; }
  }

  /** A call on a quiet client without listeners, and the request it causes. */
  lemma CallAndExchange(w: World, actions: seq<Action>, a: Action, net: Net) returns (more: seq<Action>)
    requires Run(w, 1, actions) && (a.Submits? || a.Resets?)
    requires var c := After(w, 1, actions).client; IsQuiet(c) && c.listeners == [] && (a.Submits? ==> a.id !in c.acknowledged)
    ensures Run(w, 1, more) && IsQuiet(After(w, 1, more).client) && After(w, 1, more).client.listeners == []
    ensures var before, after := After(w, 1, actions), After(w, 1, more);
            var m := CallOf(before.client, a);
            && after.server == (if Reaches(net) then Served(before.server, m) else before.server)
            && after.log == Logged(before.log, before.server, m, net)
            && (if !ReceivedFrom(before.server, m, net).Replied?
                then after.successes == before.successes && after.client.acknowledged == before.client.acknowledged
                else a.Submits? ==> after.successes == before.successes && a.id in after.client.acknowledged)
  {
    var before := After(w, 1, actions);
    QuietCallIsSent(before, a);
    more := OneMore(w, 1, actions, a);
    more := OneMore(w, 1, more, Starts);
    var sent := After(w, 1, more);
    OnlyMutationEnds(sent.client, ReceivedFrom(before.server, CallOf(before.client, a), net));
    more := OneMore(w, 1, more, Exchanges(net, map[]));
  }

  /** A run in which it happens: the same observation advances the server twice although no reset has
      succeeded as far as the client knows. */
  lemma LostResetAdvancesTwice() returns (actions: seq<Action>)
    ensures var w := Opened(Server([], -1, 0), []);
            && Run(w, 1, actions)
            && After(w, 1, actions).log == [Accepted("a", 0), WasReset(false), Accepted("a", 0)]
            && After(w, 1, actions).successes == {} && !After(w, 1, actions).client.closed
  {
    var w := Opened(Server([], -1, 0), []);
    actions := CallAndExchange(w, [], Submits("a", 0), ResponseLost(false));
    actions := CallAndExchange(w, actions, Resets(true), ResponseLost(false));
    actions := CallAndExchange(w, actions, Submits("a", 0), ResponseLost(false));
  }

  // ----- retries

  /** Sending a submission again whose id is among the last 512 entries since the last reset neither
      advances the server once more nor is answered as stale. */
  lemma RetryIsNeverStale(w: World, m: Mutation, i: nat)
    requires WorldOk(w) && m.Submission?
    requires i < |w.log| && AllAccepted(w.log, i) && w.log[i].id == m.id && |w.log| - i <= OBSERVATION_ID_LIMIT
    ensures !Rejects(w.server, m) && Served(w.server, m) == w.server
  {
    RecentIsRemembered(w, i);
  }

  /** In particular when an earlier attempt of the running submission has advanced the server. */
  lemma NextAttemptIsNeverStale(w: World)
    requires WorldOk(w) && Running(w.client) && w.applied
    ensures !Rejects(w.server, w.client.mutations[0]) && Served(w.server, w.client.mutations[0]) == w.server
  {
    RetryIsNeverStale(w, w.client.mutations[0], |w.log| - 1);
  }

  // ----- how current answers without a request are

  predicate LostResetSince(log: seq<Entry>, at: nat) { exists k | at <= k < |log| :: log[k] == WasReset(false) }

  lemma {:induction false} AcceptedStays(log: seq<Entry>, at: nat, id: string)
    requires at <= |log| && id in AcceptedSince(log[..at]) && AllAccepted(log, at)
    ensures id in AcceptedSince(log)
    decreases |log|
  {
    if at == |log| {
      assert log[..at] == log;
    } else {
      var front := log[..|log| - 1];
      assert front[..at] == log[..at];
      assert forall k | at <= k < |front| :: front[k] == log[k];
      AcceptedStays(front, at, id);
    }
  }

  /** An acknowledged id is one that the server has accepted since its last reset, exactly when no reset
      with a lost response has taken effect since the acknowledgement arrived. */
  lemma AcknowledgementHoldsIff(w: World, id: string)
    requires WorldOk(w) && id in w.client.acknowledged
    ensures id in AcceptedSince(w.log) <==> !LostResetSince(w.log, w.acks[id].entries)
  {
    var at := w.acks[id].entries;
    if LostResetSince(w.log, at) {
      var k :| at <= k < |w.log| && w.log[k] == WasReset(false);
      SinceReset(w.log, k, id);
    } else {
      forall k | at <= k < |w.log| ensures w.log[k].Accepted? { assert w.log[k] != WasReset(true) && w.log[k] != WasReset(false); }
      AcceptedStays(w.log, at, id);
    }
  }

  /** A submission answered at once from an acknowledgement was called with no reset under way, and that
      acknowledgement is later than every reset known to have succeeded. The server has accepted the id
      since its last reset, exactly when no reset with a lost response came after the acknowledgement. */
  lemma ImmediateAnswerIsFresh(w: World, id: string, sourceRevision: int)
    requires WorldOk(w) && CallSubmit(w.client, id, sourceRevision).1.Answered?
    ensures Ended(w.client) == w.client.scheduledResetSequence
    ensures id in w.acks && forall n <- w.successes :: n <= w.acks[id].ended
    ensures id in AcceptedSince(w.log) <==> !LostResetSince(w.log, w.acks[id].entries)
  {
    AcknowledgementHoldsIff(w, id);
  }

  /** The same holds of a call that a listener makes while the reply to a request is passed on, in whatever
      state d the listeners called before have left the client. */
  lemma AnswerToListenerIsFresh(w: World, maxAttempts: nat, net: Net, reactions: map<nat, Reaction>, d: Client, id: string, sourceRevision: int)
    requires WorldOk(w) && Running(w.client) && ReceivedFrom(w.server, w.client.mutations[0], net).Replied?
    requires Continues(Replying(w.client).(snapshot := d.snapshot), d) && CallSubmit(d, id, sourceRevision).1.Answered?
    ensures var next := Exchange(w, maxAttempts, net, reactions);
            && Ended(d) == d.scheduledResetSequence
            && id in next.acks && AckHolds(next.log, id, next.acks[id].entries) && forall n <- next.successes :: n <= next.acks[id].ended
  {
    ReplyingAcks(w, maxAttempts, net, reactions, id);
  }

  /** A queued submission answered from an acknowledgement runs when exactly the resets requested before
      its call have ended; its acknowledgement is as current as that of an immediate answer. */
  lemma QueuedAnswerIsFresh(w: World)
    requires WorldOk(w) && AnsweredOnStart(w.client)
    ensures var m := w.client.mutations[0];
            && m.flight.resetSequence == Ended(w.client)
            && m.id in w.acks && (forall n <- w.successes :: n <= w.acks[m.id].ended)
            && (m.id in AcceptedSince(w.log) <==> !LostResetSince(w.log, w.acks[m.id].entries))
  {
    AcknowledgementHoldsIff(w, w.client.mutations[0].id);
  }

  /** A run in which an answer is older than a reset that took effect: the server has been reset, and the
      observation it is told of as accepted is none that it has accepted since. */
  lemma LostResetAnswersFromBefore() returns (actions: seq<Action>)
    ensures var start := Opened(Server([], -1, 0), []);
            && Run(start, 1, actions)
            && var w := After(start, 1, actions);
               && CallSubmit(w.client, "a", 0) == (w.client, Answered(w.client.snapshot))
               && "a" !in AcceptedSince(w.log) && w.log == [Accepted("a", 0), WasReset(false)]
  {
    var w := Opened(Server([], -1, 0), []);
    actions := CallAndExchange(w, [], Submits("a", 0), Arrives);
    actions := CallAndExchange(w, actions, Resets(true), ResponseLost(false));
  }

  // ----- shared submissions

  lemma {:induction false} ResetCountSplit(mutations: seq<Mutation>, i: nat)
    requires i <= |mutations|
    ensures ResetCount(mutations) == ResetCount(mutations[..i]) + ResetCount(mutations[i..])
    decreases i
  {
    if i == 0 {
      assert mutations[0..] == mutations;
    } else {
      ResetCountSplit(mutations[1..], i - 1);
      assert mutations[..i][1..] == mutations[1..][..i - 1];
      assert mutations[1..][i - 1..] == mutations[i..];
    }
  }

  lemma {:induction false} SequenceAt(mutations: seq<Mutation>, ended: int, i: nat)
    requires SequencesOk(mutations, ended) && i < |mutations| && mutations[i].Submission?
    ensures mutations[i].flight.resetSequence == ended + ResetCount(mutations[..i])
    decreases i
  {
    if i > 0 {
      SequenceAt(mutations[1..], if mutations[0].ResetRequest? then ended + 1 else ended, i - 1);
      assert mutations[..i][1..] == mutations[1..][..i - 1];
    }
  }

  /** A call that shares a submission shares one that is still queued for the same id, with every reset
      requested before the call in front of it and none behind it. */
  lemma SharedIsQueued(c: Client, bound: nat, id: string, sourceRevision: int) returns (i: nat)
    requires CallingOk(c, bound) && CallSubmit(c, id, sourceRevision).1.Shares?
    ensures i < |c.mutations| && IsFlight(c.mutations[i], id, c.submissions[id])
    ensures c.submissions[id].number == CallSubmit(c, id, sourceRevision).1.number
    ensures ResetCount(c.mutations[..i]) == c.pendingResetCount && ResetCount(c.mutations[i..]) == 0
  {
    assert IsQueued(c.mutations, id, c.submissions[id]);
    i :| 0 <= i < |c.mutations| && IsFlight(c.mutations[i], id, c.submissions[id]);
    ResetCountSplit(c.mutations, i);
    SequenceAt(c.mutations, Ended(c), i);
  }

  /** Queued submissions with this number are the one of this id and flight. */
  predicate Identifies(c: Client, id: string, flight: Flight) {
    && flight.number < c.nextFlight
    && forall i | 0 <= i < |c.mutations| && c.mutations[i].Submission? && c.mutations[i].flight.number == flight.number ::
         c.mutations[i].id == id && c.mutations[i].flight == flight
  }

  lemma FollowingIdentifies(c: Client, mutations: seq<Mutation>, d: Client, id: string, flight: Flight)
    requires Identifies(c, id, flight) && Follows(c, mutations, d) && forall m <- mutations :: m in c.mutations
    ensures Identifies(d, id, flight)
  {
    forall i | 0 <= i < |d.mutations| && d.mutations[i].Submission? && d.mutations[i].flight.number == flight.number
      ensures d.mutations[i].id == id && d.mutations[i].flight == flight
    {
      assert d.mutations[i] in mutations;
    }
  }

  lemma NextIdentifies(w: World, maxAttempts: nat, a: Action, id: string, flight: Flight)
    requires ClientOk(w.client, w.server.revision) && Possible(w, a) && Identifies(w.client, id, flight)
    ensures Identifies(Next(w, maxAttempts, a).client, id, flight)
  {
    hide ClientOk, Receive, Notify, Subscribe;
    var c := w.client;
    match a
    case Exchanges(net, reactions) =>
      var received := ReceivedFrom(w.server, c.mutations[0], net);
      ReceiveEnds(c, maxAttempts, received, reactions, w.server.revision);
      if !TriesAgain(c, maxAttempts, received) {
        FollowingIdentifies(c, c.mutations[1..], Receive(c, maxAttempts, received, reactions), id, flight);
      }
    case Drains(_) =>
      ListenerStep(w, maxAttempts, a);
      FollowingIdentifies(c, c.mutations, Next(w, maxAttempts, a).client, id, flight);
    case Subscribes(_, _) =>
      ListenerStep(w, maxAttempts, a);
      FollowingIdentifies(c, c.mutations, Next(w, maxAttempts, a).client, id, flight);
    case _ =>
  }

  lemma {:induction false} RunIdentifies(w: World, maxAttempts: nat, actions: seq<Action>, id: string, flight: Flight)
    requires ClientOk(w.client, w.server.revision) && Run(w, maxAttempts, actions) && Identifies(w.client, id, flight)
    ensures Identifies(After(w, maxAttempts, actions).client, id, flight)
    decreases |actions|
  {
    if actions != [] {
      var before := actions[..|actions| - 1];
      RunIdentifies(w, maxAttempts, before, id, flight);
      EveryClientIsOk(w, maxAttempts, before);
      NextIdentifies(After(w, maxAttempts, before), maxAttempts, actions[|actions| - 1], id, flight);
    }
  }

  /** However a run goes on after a call that shares a submission: when that submission's turn has come,
      exactly the resets requested before the call have ended. If it is then answered from an
      acknowledgement or by a reply, that acknowledgement or reply is later than every reset known to
      have succeeded. */
  lemma SharedAnswerIsFresh(w: World, maxAttempts: nat, actions: seq<Action>, id: string, sourceRevision: int,
                            net: Net, reactions: map<nat, Reaction>)
    requires WorldOk(w) && CallSubmit(w.client, id, sourceRevision).1.Shares? && Run(w, maxAttempts, actions)
    requires var c := After(w, maxAttempts, actions).client;
             && c.mutations != [] && c.mutations[0].Submission? && !c.closed
             && c.mutations[0].flight.number == CallSubmit(w.client, id, sourceRevision).1.number
    ensures var v := After(w, maxAttempts, actions);
            && v.client.mutations[0].id == id && Ended(v.client) == w.client.scheduledResetSequence
            && (AnsweredOnStart(v.client) ==> id in v.acks && forall n <- v.successes :: n <= v.acks[id].ended)
            && (Running(v.client) && ReceivedFrom(v.server, v.client.mutations[0], net).Replied? ==>
                  var next := Exchange(v, maxAttempts, net, reactions);
                  && id in next.acks && next.acks[id].ended == w.client.scheduledResetSequence
                  && id in AcceptedSince(next.log) && forall n <- next.successes :: n <= next.acks[id].ended)
  {
    var flight := w.client.submissions[id];
    var i := SharedIsQueued(w.client, w.server.revision, id, sourceRevision);
    OnlyOneNumbered(w.client, i);
    RunIdentifies(w, maxAttempts, actions, id, flight);
    RunKeeps(w, maxAttempts, actions);
    var v := After(w, maxAttempts, actions);
    if Running(v.client) && ReceivedFrom(v.server, v.client.mutations[0], net).Replied? {
      AnsweredIsAccepted(v.server, v.log, v.client.mutations[0]);
    }
  }

  lemma OnlyOneNumbered(c: Client, i: nat)
    requires FlightsOk(c) && i < |c.mutations| && c.mutations[i].Submission?
    ensures Identifies(c, c.mutations[i].id, c.mutations[i].flight)
  {
    forall j | 0 <= j < |c.mutations| && c.mutations[j].Submission? && c.mutations[j].flight.number == c.mutations[i].flight.number
      ensures j == i
    {}
  }

  // ----- attempts are bounded

  /** The running request has been sent at most maxAttempts times. */
  predicate AttemptsOk(c: Client, maxAttempts: nat) {
    c.mutations != [] ==>
      match c.mutations[0].phase
      case Waiting => true
      case Fetching(attempt) => 1 <= attempt <= maxAttempts && (c.mutations[0].ResetRequest? ==> attempt == 1)
      case Sleeping(attempt) => 1 <= attempt < maxAttempts && c.mutations[0].Submission?
  }

  lemma FrontAttempts(c: Client, d: Client, maxAttempts: nat)
    requires AttemptsOk(c, maxAttempts)
    requires d.mutations != [] ==> d.mutations[0].phase.Waiting? || (c.mutations != [] && d.mutations[0] == c.mutations[0])
    ensures AttemptsOk(d, maxAttempts)
  {}

  lemma NextAttempts(w: World, maxAttempts: nat, a: Action)
    requires ClientOk(w.client, w.server.revision) && Possible(w, a) && maxAttempts >= 1 && AttemptsOk(w.client, maxAttempts)
    ensures AttemptsOk(Next(w, maxAttempts, a).client, maxAttempts)
  {
    hide FlightsOk, ListenersOk, Notify, Subscribe;
    if a.Exchanges? {
      ExchangeAttempts(w, maxAttempts, a.net, a.reactions);
    } else if a.Drains? || a.Subscribes? {
      ListenerStep(w, maxAttempts, a);
      FrontAttempts(w.client, Next(w, maxAttempts, a).client, maxAttempts);
    }
  }

  lemma ExchangeAttempts(w: World, maxAttempts: nat, net: Net, reactions: map<nat, Reaction>)
    requires ClientOk(w.client, w.server.revision) && Running(w.client) && AttemptsOk(w.client, maxAttempts)
    ensures AttemptsOk(Exchange(w, maxAttempts, net, reactions).client, maxAttempts)
  {
    hide FlightsOk;
    var c, received := w.client, ReceivedFrom(w.server, w.client.mutations[0], net);
    ReceiveEnds(c, maxAttempts, received, reactions, w.server.revision);
    if !TriesAgain(c, maxAttempts, received) {
      var d := Receive(c, maxAttempts, received, reactions);
      if d.mutations != [] && |c.mutations| > 1 { assert d.mutations[0] == c.mutations[1]; }
    }
  }

  /** In every run a submission is sent at most maxAttempts times and a reset once. */
  lemma {:induction false} AttemptsAreBounded(s: Server, log: seq<Entry>, maxAttempts: nat, actions: seq<Action>)
    requires maxAttempts >= 1 && Run(Opened(s, log), maxAttempts, actions)
    ensures AttemptsOk(After(Opened(s, log), maxAttempts, actions).client, maxAttempts)
    decreases |actions|
  {
    if actions != [] {
      var before := actions[..|actions| - 1];
      AttemptsAreBounded(s, log, maxAttempts, before);
      OpenedClientIsOk(s, log);
      EveryClientIsOk(Opened(s, log), maxAttempts, before);
      NextAttempts(After(Opened(s, log), maxAttempts, before), maxAttempts, actions[|actions| - 1]);
    }
  }

  // ----- what listeners see

  /** The listener has not yet been called with the current revision. */
  predicate Clean(c: Client, l: nat) { LogOf(c, l) == [] || LogOf(c, l)[|LogOf(c, l)| - 1] < c.snapshot }

  /** A listener whose turn comes is not subscribed during the notification, any other at most once. */
  predicate CleanNotification(c: Client, revision: nat, reactions: map<nat, Reaction>, l: nat) {
    c.closed || revision <= c.snapshot ||
    var e, n := c.(snapshot := revision), |c.listeners|;
    Subscriptions(e, c.listeners, n, reactions, l) <= if Reached(e, c.listeners, n, reactions, l) then 0 else 1
  }

  /** Subscribing a listener that has been called with the current revision is not clean, nor is doing it
      again while it is done. */
  predicate CleanSubscription(c: Client, subscribed: nat, reaction: Reaction, l: nat) {
    var n := SubscriptionsBy(c, subscribed, reaction, l);
    n == 0 || (n == 1 && Clean(c, l))
  }

  predicate CleanStep(w: World, a: Action, l: nat)
    requires Possible(w, a)
  {
    match a
    case Exchanges(net, reactions) =>
      var received := ReceivedFrom(w.server, w.client.mutations[0], net);
      received.Replied? ==> CleanNotification(Replying(w.client), received.revision, reactions, l)
    case Drains(reactions) => CleanNotification(Dequeued(w.client), w.client.notifications[0], reactions, l)
    case Subscribes(subscribed, reaction) => CleanSubscription(w.client, subscribed, reaction, l)
    case _ => true
  }

  predicate CleanRun(w: World, maxAttempts: nat, actions: seq<Action>, l: nat)
    requires Run(w, maxAttempts, actions)
    decreases |actions|
  {
    actions != [] ==>
      var before, a := actions[..|actions| - 1], actions[|actions| - 1];
      CleanRun(w, maxAttempts, before, l) && CleanStep(After(w, maxAttempts, before), a, l)
  }

  lemma RepeatIncreases(log: seq<nat>, x: nat, k: nat)
    requires AtMost(log, x)
    ensures Ascending(log + Repeat(x, k)) <==> Ascending(log) && (k == 0 || (k == 1 && (log == [] || log[|log| - 1] < x)))
  {
    var more := log + Repeat(x, k);
    if Ascending(more) {
      forall i, j | 0 <= i < j < |log| ensures log[i] < log[j] { assert more[i] < more[j]; }
      if k > 0 && log != [] { assert more[|log| - 1] < more[|log|]; }
    }
    if k > 1 { assert more[|log|] == more[|log| + 1]; }
  }

  lemma NewerIncreases(log: seq<nat>, bound: nat, x: nat, k: nat)
    requires AtMost(log, bound) && bound < x
    ensures Ascending(log + Repeat(x, k)) <==> Ascending(log) && k <= 1
  {
    RepeatIncreases(log, x, k);
  }

  lemma NotificationLog(c: Client, d: Client, revision: nat, reactions: map<nat, Reaction>, l: nat)
    requires LogsAtMost(c, c.snapshot)
    requires LogOf(d, l) == LogOf(c, l) + Repeat(d.snapshot, NotifyCalls(c, revision, reactions, l))
    requires d.snapshot == (if c.closed || revision <= c.snapshot then c.snapshot else revision)
    ensures Ascending(LogOf(d, l)) <==> Ascending(LogOf(c, l)) && CleanNotification(c, revision, reactions, l)
  {
    assert AtMost(LogOf(c, l), c.snapshot);
    if c.closed || revision <= c.snapshot {
      assert LogOf(d, l) == LogOf(c, l);
    } else {
      NewerIncreases(LogOf(c, l), c.snapshot, revision, NotifyCalls(c, revision, reactions, l));
    }
  }

  lemma SubscriptionLog(c: Client, subscribed: nat, reaction: Reaction, l: nat, bound: nat)
    requires ClientOk(c, bound)
    ensures Ascending(LogOf(Subscribe(c, subscribed, reaction), l)) <==> Ascending(LogOf(c, l)) && CleanSubscription(c, subscribed, reaction, l)
  {
    SubscribeCalls(c, subscribed, reaction, l, bound);
    assert AtMost(LogOf(c, l), c.snapshot);
    RepeatIncreases(LogOf(c, l), c.snapshot, SubscriptionsBy(c, subscribed, reaction, l));
  }

  lemma ReplyLog(c: Client, revision: nat, reactions: map<nat, Reaction>, l: nat, bound: nat)
    requires ClientOk(c, bound) && c.mutations != []
    ensures Ascending(LogOf(ReplyArrives(c, revision, reactions), l))
            <==> Ascending(LogOf(c, l)) && CleanNotification(Replying(c), revision, reactions, l)
  {
    hide ClientOk, CallingOk, Notify, NotifyCalls, CleanNotification, Replying;
    BoundGrows(c, bound, bound + revision);
    ReplyingKeepsClient(c, bound + revision);
    NotifyKeeps(Replying(c), revision, reactions, bound + revision);
    var notified := Notify(Replying(c), revision, reactions);
    NotificationLog(Replying(c), notified, revision, reactions, l);
    if notified.mutations != [] { SettleKeepsClient(notified, bound + revision); }
  }

  lemma ExchangeLog(w: World, maxAttempts: nat, net: Net, reactions: map<nat, Reaction>, l: nat)
    requires ClientOk(w.client, w.server.revision) && Running(w.client)
    ensures Ascending(LogOf(Exchange(w, maxAttempts, net, reactions).client, l))
            <==> Ascending(LogOf(w.client, l)) && CleanStep(w, Exchanges(net, reactions), l)
  {
    hide ClientOk, ReplyArrives, Settle, CleanNotification;
    var c, received := w.client, ReceivedFrom(w.server, w.client.mutations[0], net);
    if received.Replied? {
      ReplyLog(c, received.revision, reactions, l, w.server.revision);
    } else if !TriesAgain(c, maxAttempts, received) {
      SettleKeepsClient(c, w.server.revision);
    }
  }

  lemma StepLog(w: World, maxAttempts: nat, a: Action, l: nat)
    requires ClientOk(w.client, w.server.revision) && Possible(w, a)
    ensures Ascending(LogOf(Next(w, maxAttempts, a).client, l)) <==> Ascending(LogOf(w.client, l)) && CleanStep(w, a, l)
  {
    hide FlightsOk, QueueOk;
    var c := w.client;
    match a
    case Exchanges(net, reactions) => ExchangeLog(w, maxAttempts, net, reactions, l);
    case Drains(reactions) =>
      DequeuedKeepsClient(c, w.server.revision);
      NotifyKeeps(Dequeued(c), c.notifications[0], reactions, w.server.revision);
      NotificationLog(Dequeued(c), Drain(c, reactions), c.notifications[0], reactions, l);
    case Subscribes(subscribed, reaction) => SubscriptionLog(c, subscribed, reaction, l, w.server.revision);
    case Starts => if c.closed || AnsweredOnStart(c) { SettleKeepsClient(c, w.server.revision); }
    case Wakes => if c.closed { SettleKeepsClient(c, w.server.revision); }
    case _ =>
  }

  /** In every run the revisions a listener is called with strictly increase, exactly when it is never
      subscribed while it has been called with the current revision, and during a notification not at all
      if its own turn comes, and otherwise at most once. */
  lemma {:induction false} ListenersSeeIncreasingRevisions(s: Server, log: seq<Entry>, maxAttempts: nat, actions: seq<Action>, l: nat)
    requires Run(Opened(s, log), maxAttempts, actions)
    ensures Ascending(LogOf(After(Opened(s, log), maxAttempts, actions).client, l))
            <==> CleanRun(Opened(s, log), maxAttempts, actions, l)
    decreases |actions|
  {
    if actions != [] {
      var before := actions[..|actions| - 1];
      ListenersSeeIncreasingRevisions(s, log, maxAttempts, before, l);
      OpenedClientIsOk(s, log);
      EveryClientIsOk(Opened(s, log), maxAttempts, before);
      StepLog(After(Opened(s, log), maxAttempts, before), maxAttempts, actions[|actions| - 1], l);
    }
  }

  /** A run in which they do not: subscribing the same listener twice calls it twice with one revision. */
  lemma ResubscribedListenerSeesRevisionTwice(s: Server, log: seq<Entry>, maxAttempts: nat, l: nat) returns (actions: seq<Action>)
    ensures Run(Opened(s, log), maxAttempts, actions)
    ensures LogOf(After(Opened(s, log), maxAttempts, actions).client, l) == [s.revision, s.revision]
  {
    actions := OneMore(Opened(s, log), maxAttempts, [], Subscribes(l, Returns));
    actions := OneMore(Opened(s, log), maxAttempts, actions, Subscribes(l, Returns));
  }

  const OVERTAKEN := map[1 := Subscribing(2, Returns, Returns)]

  /** Calling two listeners, of which the first subscribes the other. */
  lemma OvertakenDelivery(c: Client)
    requires !c.closed && c.listeners == [1, 2]
    ensures LogOf(Delivered(c, c.listeners, 2, OVERTAKEN), 2) == LogOf(c, 2) + [c.snapshot, c.snapshot]
  {
    var first := CallOne(c, 1);
    assert Delivered(c, c.listeners, 0, OVERTAKEN) == c;
    assert React(first, 1, OVERTAKEN[1]) == Joined(first, 2);
    assert Delivered(c, c.listeners, 1, OVERTAKEN) == Joined(first, 2);
  }

  lemma OvertakenReply(c: Client)
    requires !c.closed && c.listeners == [1, 2] && c.snapshot == 0 && |c.mutations| == 1
    requires c.mutations[0].Submission? && c.mutations[0].phase == Fetching(1)
    ensures LogOf(Receive(c, 1, Replied(1), OVERTAKEN), 2) == LogOf(c, 2) + [1, 1]
  {
    OvertakenDelivery(Replying(c).(snapshot := 1));
  }

  lemma FirstCall(c: Client, l: nat)
    requires !c.closed && l !in c.listeners && l !in c.logs
    ensures Subscribe(c, l, Returns) == c.(listeners := c.listeners + [l], logs := c.logs[l := [c.snapshot]])
  {
    assert LogOf(c, l) + [c.snapshot] == [c.snapshot];
  }

  lemma TwoSubscribe() returns (actions: seq<Action>)
    ensures var w := Opened(Server([], -1, 0), []);
            && Run(w, 1, actions)
            && After(w, 1, actions) == w.(client := w.client.(listeners := [1, 2], logs := map[1 := [0], 2 := [0]]))
  {
    var w := Opened(Server([], -1, 0), []);
    actions := OneMore(w, 1, [], Subscribes(1, Returns));
    FirstCall(w.client, 1);
    var one := After(w, 1, actions).client;
    assert one.listeners == [1] && one.logs == map[1 := [0]];
    FirstCall(one, 2);
    actions := OneMore(w, 1, actions, Subscribes(2, Returns));
    var two := After(w, 1, actions).client;
    assert two.listeners == [1, 2] && two.logs == map[1 := [0], 2 := [0]];
  }

  /** Another: a listener is subscribed by one called before it in the same notification, with a revision
      that it has not been called with at that moment. */
  lemma OvertakenListenerSeesRevisionTwice() returns (actions: seq<Action>)
    ensures var w := Opened(Server([], -1, 0), []);
            && actions != [] && actions[|actions| - 1] == Exchanges(Arrives, OVERTAKEN)
            && Run(w, 1, actions) && LogOf(After(w, 1, actions[..|actions| - 1]).client, 2) == [0]
            && LogOf(After(w, 1, actions).client, 2) == [0, 1, 1]
  {
    var w := Opened(Server([], -1, 0), []);
    actions := TwoSubscribe();
    QuietCallIsSent(After(w, 1, actions), Submits("a", 0));
    actions := OneMore(w, 1, actions, Submits("a", 0));
    actions := OneMore(w, 1, actions, Starts);
    OvertakenReply(After(w, 1, actions).client);
    actions := OneMore(w, 1, actions, Exchanges(Arrives, OVERTAKEN));
  }
}
