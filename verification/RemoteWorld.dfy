/**
 A remote session and the server's session behind it, over a network that may lose requests or
 responses: what every run keeps.
 */
module RemoteWorld {
  import opened DuplicateWindow
  import opened Sequences
  import opened RemoteClient

  // ----- the server's session

  /** What the server's record holds: the remembered ids, the latest source revision, the revision. */
  datatype Server = Server(window: seq<string>, latest: int, revision: nat)

  /** A submission advances the server unless it is a remembered duplicate or stale. */
  predicate Advances(s: Server, id: string, sourceRevision: int) { id !in s.window && sourceRevision >= s.latest }

  function Submitted(s: Server, id: string, sourceRevision: int): Server {
    if Advances(s, id, sourceRevision)
    then Server(LastUpTo(s.window + [id], OBSERVATION_ID_LIMIT), sourceRevision, s.revision + 1) else s
  }

  predicate IsStale(s: Server, id: string, sourceRevision: int) { id !in s.window && sourceRevision < s.latest }

  function Served(s: Server, m: Mutation): Server {
    match m
    case Submission(id, sourceRevision, _, _) => Submitted(s, id, sourceRevision)
    case ResetRequest(known, _) => if known then Server([], -1, s.revision + 1) else s
  }

  predicate Rejects(s: Server, m: Mutation) {
    match m
    case Submission(id, sourceRevision, _, _) => IsStale(s, id, sourceRevision)
    case ResetRequest(known, _) => !known
  }

  // ----- the world

  /** What has happened to the server: an advance by a submission, or a reset, whose response reached the
      client or not. */
  datatype Entry = Accepted(id: string, sourceRevision: int) | WasReset(delivered: bool)

  /** When an acknowledgement arrived: how many resets had ended and what the server's log was long. */
  datatype Ack = Ack(ended: int, entries: nat)

  /** Besides client and server: the server's log; when each id was last acknowledged; which resets the
      client knows to have succeeded; and whether an earlier attempt of the running submission has
      already advanced the server. */
  datatype World = World(client: Client, server: Server, log: seq<Entry>, acks: map<string, Ack>, successes: set<int>, applied: bool)

  /** What may happen to a request: it or its response is lost, the server refuses it without serving it
      (an invalid observation, say), or it is served and answered. */
  datatype Net = RequestLost(retryable: bool) | ResponseLost(retryable: bool) | Refuses | Arrives

  predicate Reaches(net: Net) { net.ResponseLost? || net.Arrives? }

  datatype Action =
    | Submits(id: string, sourceRevision: int)
    | Resets(known: bool)
    | Starts
    | Exchanges(net: Net, reactions: map<nat, Reaction>)
    | Wakes
    | Messages(revision: nat)
    | Drains(reactions: map<nat, Reaction>)
    | Subscribes(l: nat, reaction: Reaction)
    | Unsubscribes(l: nat)
    | Closes

  const SESSION_START := Client(false, 0, {}, map[], [], 0, 0, 0, [], [], map[])

  /** A client that has just fetched the server's snapshot; `log` is what happened to the server before. */
  function Opened(s: Server, log: seq<Entry>): World { World(SESSION_START.(snapshot := s.revision), s, log, map[], {}, false) }

  /** The number of resets that have ended; they end in the order in which they were requested. */
  function Ended(c: Client): int { c.scheduledResetSequence - c.pendingResetCount }

  predicate Running(c: Client) { c.mutations != [] && c.mutations[0].phase.Fetching? }

  function ReceivedFrom(s: Server, m: Mutation, net: Net): Received {
    match net
    case RequestLost(retryable) => Lost(retryable)
    case ResponseLost(retryable) => Lost(retryable)
    case Refuses => Rejected
    case Arrives => if Rejects(s, m) then Rejected else Replied(Served(s, m).revision)
  }

  function Logged(log: seq<Entry>, s: Server, m: Mutation, net: Net): seq<Entry> {
    match m
    case Submission(id, sourceRevision, _, _) =>
      if Reaches(net) && Advances(s, id, sourceRevision) then log + [Accepted(id, sourceRevision)] else log
    case ResetRequest(known, _) => if Reaches(net) && known then log + [WasReset(net.Arrives?)] else log
  }

  /** One request and its outcome. */
  function Exchange(w: World, maxAttempts: nat, net: Net, reactions: map<nat, Reaction>): World
    requires Running(w.client)
  {
    var c, m := w.client, w.client.mutations[0];
    var received, log := ReceivedFrom(w.server, m, net), Logged(w.log, w.server, m, net);
    World(Receive(c, maxAttempts, received, reactions),
          if Reaches(net) then Served(w.server, m) else w.server,
          log,
          if received.Replied? && m.Submission? && !c.closed then w.acks[m.id := Ack(Ended(c), |log|)] else w.acks,
          if received.Replied? && m.ResetRequest? then w.successes + {Ended(c) + 1} else w.successes,
          TriesAgain(c, maxAttempts, received) &&
          (w.applied || (Reaches(net) && m.Submission? && Advances(w.server, m.id, m.sourceRevision))))
  }

  predicate Possible(w: World, a: Action) {
    match a
    case Starts => w.client.mutations != [] && w.client.mutations[0].phase.Waiting?
    case Exchanges(_, _) => Running(w.client)
    case Wakes => w.client.mutations != [] && w.client.mutations[0].phase.Sleeping?
    case Messages(revision) => revision <= w.server.revision
    case Drains(_) => w.client.notifications != []
    case _ => true
  }

  function Next(w: World, maxAttempts: nat, a: Action): World
    requires Possible(w, a)
  {
    match a
    case Submits(id, sourceRevision) => w.(client := CallSubmit(w.client, id, sourceRevision).0)
    case Resets(known) => w.(client := CallReset(w.client, known))
    case Starts => w.(client := Start(w.client), applied := false)
    case Exchanges(net, reactions) => Exchange(w, maxAttempts, net, reactions)
    case Wakes => w.(client := Wake(w.client), applied := w.applied && !w.client.closed)
    case Messages(revision) => w.(client := Message(w.client, revision))
    case Drains(reactions) => w.(client := Drain(w.client, reactions))
    case Subscribes(l, reaction) => w.(client := Subscribe(w.client, l, reaction))
    case Unsubscribes(l) => w.(client := Unsubscribe(w.client, l))
    case Closes => w.(client := Close(w.client))
  }

  predicate Run(w: World, maxAttempts: nat, actions: seq<Action>)
    decreases |actions|, 0
  {
    actions != [] ==>
      var before := actions[..|actions| - 1];
      Run(w, maxAttempts, before) && Possible(After(w, maxAttempts, before), actions[|actions| - 1])
  }

  function After(w: World, maxAttempts: nat, actions: seq<Action>): World
    requires Run(w, maxAttempts, actions)
    decreases |actions|, 1
  {
    if actions == [] then w
    else Next(After(w, maxAttempts, actions[..|actions| - 1]), maxAttempts, actions[|actions| - 1])
  }

  // ----- the server is determined by its log

  /** The ids accepted since the last reset. */
  function AcceptedSince(log: seq<Entry>): seq<string> {
    if log == [] || log[|log| - 1].WasReset? then [] else AcceptedSince(log[..|log| - 1]) + [log[|log| - 1].id]
  }

  function LatestSince(log: seq<Entry>): int {
    if log == [] || log[|log| - 1].WasReset? then -1 else log[|log| - 1].sourceRevision
  }

  /** The server is what its log has made of it. */
  predicate Matches(s: Server, log: seq<Entry>) {
    s.window == LastUpTo(AcceptedSince(log), OBSERVATION_ID_LIMIT) && s.latest == LatestSince(log)
  }

  lemma ServedIsLogged(s: Server, log: seq<Entry>, m: Mutation, net: Net)
    requires Matches(s, log)
    ensures Matches(if Reaches(net) then Served(s, m) else s, Logged(log, s, m, net))
  {
    var more := Logged(log, s, m, net);
    if more != log { assert more[..|log|] == log; }
  }

  // ----- resets are counted

  function ResetCount(mutations: seq<Mutation>): nat {
    if mutations == [] then 0 else (if mutations[0].ResetRequest? then 1 else 0) + ResetCount(mutations[1..])
  }

  lemma {:induction false} ResetCountAppend(mutations: seq<Mutation>, m: Mutation)
    ensures ResetCount(mutations + [m]) == ResetCount(mutations) + if m.ResetRequest? then 1 else 0
    decreases |mutations|
  {
    if mutations == [] {
      assert ([m])[1..] == [];
    } else {
      ResetCountAppend(mutations[1..], m);
      assert (mutations + [m])[1..] == mutations[1..] + [m];
    }
  }

  /** Submissions queued behind `ended` resets were called after those and the resets in front of them. */
  predicate SequencesOk(mutations: seq<Mutation>, ended: int) {
    mutations != [] ==>
      if mutations[0].ResetRequest? then SequencesOk(mutations[1..], ended + 1)
      else mutations[0].flight.resetSequence == ended && SequencesOk(mutations[1..], ended)
  }

  lemma {:induction false} SequencesAppend(mutations: seq<Mutation>, ended: int, m: Mutation)
    requires SequencesOk(mutations, ended)
    requires m.Submission? ==> m.flight.resetSequence == ended + ResetCount(mutations)
    ensures SequencesOk(mutations + [m], ended)
    decreases |mutations|
  {
    if mutations == [] {
      assert ([m])[1..] == [];
    } else {
      SequencesAppend(mutations[1..], if mutations[0].ResetRequest? then ended + 1 else ended, m);
      assert (mutations + [m])[1..] == mutations[1..] + [m];
    }
  }

  predicate OthersWait(mutations: seq<Mutation>) { forall i | 0 < i < |mutations| :: mutations[i].phase.Waiting? }

  predicate QueueOk(c: Client) {
    c.pendingResetCount == ResetCount(c.mutations) && SequencesOk(c.mutations, Ended(c)) && OthersWait(c.mutations)
  }

  lemma SettleKeepsQueue(c: Client)
    requires QueueOk(c) && c.mutations != []
    ensures QueueOk(Settle(c)) && Ended(Settle(c)) == Ended(c) + if c.mutations[0].ResetRequest? then 1 else 0
  {}

  lemma BecomeKeepsQueue(c: Client, phase: Phase)
    requires QueueOk(c) && c.mutations != []
    ensures QueueOk(Become(c, phase)) && Ended(Become(c, phase)) == Ended(c)
  {
    var d := Become(c, phase);
    assert d.mutations[1..] == c.mutations[1..];
  }

  lemma CallsKeepQueue(c: Client, id: string, sourceRevision: int, known: bool)
    requires QueueOk(c)
    ensures QueueOk(CallSubmit(c, id, sourceRevision).0) && Ended(CallSubmit(c, id, sourceRevision).0) == Ended(c)
    ensures QueueOk(CallReset(c, known)) && Ended(CallReset(c, known)) == Ended(c)
  {
    var flight := Flight(c.scheduledResetSequence, c.nextFlight);
    ResetCountAppend(c.mutations, Submission(id, sourceRevision, flight, Waiting));
    SequencesAppend(c.mutations, Ended(c), Submission(id, sourceRevision, flight, Waiting));
    ResetCountAppend(c.mutations, ResetRequest(known, Waiting));
    SequencesAppend(c.mutations, Ended(c), ResetRequest(known, Waiting));
  }

  // ----- submissions under way

  predicate IsFlight(m: Mutation, id: string, flight: Flight) { m.Submission? && m.id == id && m.flight == flight }

  ghost predicate IsQueued(mutations: seq<Mutation>, id: string, flight: Flight) {
    exists i | 0 <= i < |mutations| :: IsFlight(mutations[i], id, flight)
  }

  /** Submissions are numbered in the order of their calls. */
  predicate NumbersOk(mutations: seq<Mutation>, next: nat) {
    && (forall i | 0 <= i < |mutations| && mutations[i].Submission? :: mutations[i].flight.number < next)
    && (forall i, j | 0 <= i < j < |mutations| && mutations[i].Submission? && mutations[j].Submission? ::
          mutations[i].flight.number < mutations[j].flight.number)
  }

  /** Every submission that a later call may share is still queued. */
  ghost predicate FlightsOk(c: Client) {
    && (forall id <- c.submissions :: IsQueued(c.mutations, id, c.submissions[id]))
    && NumbersOk(c.mutations, c.nextFlight)
  }

  // ----- acknowledgements

  /** The id had been accepted when its acknowledgement arrived, `at` entries into the log; since then no
      reset is known to have succeeded and the id has not been accepted again. */
  predicate AckHolds(log: seq<Entry>, id: string, at: nat) {
    && at <= |log| && id in AcceptedSince(log[..at])
    && forall k | at <= k < |log| :: log[k] != WasReset(true) && !(log[k].Accepted? && log[k].id == id)
  }

  predicate IsSent(c: Client) { c.mutations != [] && c.mutations[0].Submission? && !c.mutations[0].phase.Waiting? }

  /** Every id counted as acknowledged was acknowledged after all resets known to have succeeded, and is
      not sent. */
  predicate AcksOk(w: World) {
    && (forall n <- w.successes :: n <= Ended(w.client))
    && (forall id <- w.client.acknowledged ::
          && id in w.acks && AckHolds(w.log, id, w.acks[id].entries)
          && forall n <- w.successes :: n <= w.acks[id].ended)
    && (IsSent(w.client) ==> w.client.mutations[0].id !in w.client.acknowledged)
  }

  // ----- listeners

  predicate AtMost(s: seq<nat>, bound: nat) { forall i | 0 <= i < |s| :: s[i] <= bound }

  predicate EndsWith(s: seq<nat>, x: nat) { s != [] && s[|s| - 1] == x }

  predicate UpToDate(c: Client, l: nat) { EndsWith(LogOf(c, l), c.snapshot) }

  predicate LogsAtMost(c: Client, bound: nat) { forall l <- c.logs :: AtMost(c.logs[l], bound) }

  // ----- the invariant

  /** Listeners are distinct, a closed session has none, and none has been called with a later snapshot
      than the current one. */
  predicate ListenersOk(c: Client) {
    Distinct(c.listeners) && (c.closed ==> c.listeners == []) && LogsAtMost(c, c.snapshot)
  }

  /** What holds of the client even while a listener is being called; no revision it has heard of exceeds
      the bound. */
  ghost predicate CallingOk(c: Client, bound: nat) {
    QueueOk(c) && FlightsOk(c) && ListenersOk(c) && c.snapshot <= bound && AtMost(c.notifications, bound)
  }

  /** What the client keeps on its own: besides, its listeners have been called with the current snapshot
      last. */
  ghost predicate ClientOk(c: Client, bound: nat) { CallingOk(c, bound) && forall l <- c.listeners :: UpToDate(c, l) }

  /** An earlier attempt of the running submission that advanced the server was the last thing to
      happen to it. */
  predicate AppliedOk(w: World) {
    w.applied ==>
      && w.client.mutations != [] && w.client.mutations[0].Submission? && !w.client.mutations[0].phase.Waiting?
      && w.log != [] && w.log[|w.log| - 1] == Accepted(w.client.mutations[0].id, w.client.mutations[0].sourceRevision)
  }

  ghost predicate WorldOk(w: World) {
    ClientOk(w.client, w.server.revision) && Matches(w.server, w.log) && AcksOk(w) && AppliedOk(w)
  }
}
