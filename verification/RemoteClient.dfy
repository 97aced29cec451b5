/**
 The remote session on the client: which state it keeps and what each call, reply and message does to
 it. Of snapshots only the revision matters here.

 Submissions and resets go through one queue and are sent one at a time. A submission is sent again
 when the transport fails; a reset is not.
 */
module RemoteClient {

  /** A submission under way: how many resets had been requested when it was called, and its identity. */
  datatype Flight = Flight(resetSequence: nat, number: nat)

  datatype Phase = Waiting | Fetching(attempt: nat) | Sleeping(attempt: nat)

  datatype Mutation =
    | Submission(id: string, sourceRevision: int, flight: Flight, phase: Phase)
    | ResetRequest(known: bool, phase: Phase)

  datatype Client = Client(
    closed: bool,
    snapshot: nat,
    acknowledged: set<string>,
    submissions: map<string, Flight>,
    mutations: seq<Mutation>,
    scheduledResetSequence: nat,
    pendingResetCount: int,
    nextFlight: nat,
    notifications: seq<nat>,
    listeners: seq<nat>,
    logs: map<nat, seq<nat>>)

  /** How a submission call is answered right away. */
  datatype Answer = Refused | Answered(revision: nat) | Shares(number: nat) | Queued(number: nat)

  /** What a sent request comes back with. */
  datatype Received = Lost(retryable: bool) | Rejected | Replied(revision: nat)

  /** What a listener does when called, until it returns or throws: subscribe a listener, which is called
      at once and reacts in its own way, unsubscribe one, close the session, submit, or reset. */
  datatype Reaction =
    | Returns
    | Throws
    | Subscribing(l: nat, reaction: Reaction, next: Reaction)
    | Unsubscribing(l: nat, next: Reaction)
    | Closing(next: Reaction)
    | Submitting(id: string, sourceRevision: int, next: Reaction)
    | Resetting(known: bool, next: Reaction)

  // ----- calls

  function CallSubmit(c: Client, id: string, sourceRevision: int): (Client, Answer) {
    if c.closed then (c, Refused)
    else if c.pendingResetCount == 0 && id in c.acknowledged then (c, Answered(c.snapshot))
    else if id in c.submissions && c.submissions[id].resetSequence == c.scheduledResetSequence then (c, Shares(c.submissions[id].number))
    else
      var flight := Flight(c.scheduledResetSequence, c.nextFlight);
      (c.(mutations := c.mutations + [Submission(id, sourceRevision, flight, Waiting)],
          submissions := c.submissions[id := flight], nextFlight := c.nextFlight + 1), Queued(flight.number))
  }

  /** `known` says whether the corpus contains the location to reset to. */
  function CallReset(c: Client, known: bool): Client {
    if c.closed then c
    else c.(scheduledResetSequence := c.scheduledResetSequence + 1, pendingResetCount := c.pendingResetCount + 1,
            mutations := c.mutations + [ResetRequest(known, Waiting)])
  }

  // ----- listeners

  function Without(listeners: seq<nat>, gone: nat): seq<nat> {
    if listeners == [] then []
    else
      var last := listeners[|listeners| - 1];
      Without(listeners[..|listeners| - 1], gone) + if last == gone then [] else [last]
  }

  lemma {:induction false} WithoutKeepsOthers(listeners: seq<nat>, gone: nat, l: nat)
    ensures l in Without(listeners, gone) <==> l in listeners && l != gone
    decreases |listeners|
  {
    if listeners != [] { WithoutKeepsOthers(listeners[..|listeners| - 1], gone, l); }
  }

  function LogOf(c: Client, l: nat): seq<nat> { if l in c.logs then c.logs[l] else [] }

  /** The listener is called with the current snapshot. */
  function CallOne(c: Client, l: nat): Client { c.(logs := c.logs[l := LogOf(c, l) + [c.snapshot]]) }

  function Close(c: Client): Client {
    if c.closed then c else c.(closed := true, acknowledged := {}, submissions := map[], notifications := [], listeners := [])
  }

  /** A new listener is called with the current snapshot. */
  function Joined(c: Client, l: nat): Client {
    CallOne(c.(listeners := if l in c.listeners then c.listeners else c.listeners + [l]), l)
  }

  function Unsubscribe(c: Client, l: nat): Client { c.(listeners := Without(c.listeners, l)) }

  /** The first thing that a called listener does. */
  function Act(c: Client, r: Reaction): Client
    requires !r.Returns? && !r.Throws?
    decreases r, 0
  {
    match r
    case Subscribing(l, reaction, _) => Subscribe(c, l, reaction)
    case Unsubscribing(l, _) => Unsubscribe(c, l)
    case Closing(_) => Close(c)
    case Submitting(id, sourceRevision, _) => CallSubmit(c, id, sourceRevision).0
    case Resetting(known, _) => CallReset(c, known)
  }

  /** A listener that has been called does one thing after the other; one that throws is dropped. */
  function React(c: Client, l: nat, r: Reaction): Client
    decreases r, 1
  {
    if r.Returns? then c
    else if r.Throws? then Unsubscribe(c, l)
    else React(Act(c, r), l, r.next)
  }

  function Subscribe(c: Client, l: nat, r: Reaction): Client
    decreases r, 2
  {
    if c.closed then c else React(Joined(c, l), l, r)
  }

  function ReactionOf(reactions: map<nat, Reaction>, l: nat): Reaction { if l in reactions then reactions[l] else Returns }

  predicate EndsInThrow(r: Reaction) { r.Throws? || (!r.Returns? && EndsInThrow(r.next)) }

  predicate IsCalled(c: Client, l: nat) { !c.closed && l in c.listeners }

  /** The first n listeners of a copy have been called, except those gone by then. */
  function Delivered(c: Client, copy: seq<nat>, n: nat, reactions: map<nat, Reaction>): Client
    requires n <= |copy|
  {
    if n == 0 then c
    else
      var d, l := Delivered(c, copy, n - 1, reactions), copy[n - 1];
      if IsCalled(d, l) then React(CallOne(d, l), l, ReactionOf(reactions, l)) else d
  }

  /** A newer snapshot replaces the current one and is passed to the listeners; others are ignored. */
  function Notify(c: Client, revision: nat, reactions: map<nat, Reaction>): Client {
    if c.closed || revision <= c.snapshot then c
    else Delivered(c.(snapshot := revision), c.listeners, |c.listeners|, reactions)
  }

  // ----- messages of the stream

  function Message(c: Client, revision: nat): Client {
    if c.closed || revision <= c.snapshot then c else c.(notifications := c.notifications + [revision])
  }

  function Dequeued(c: Client): Client
    requires c.notifications != []
  {
    c.(notifications := c.notifications[1..])
  }

  function Drain(c: Client, reactions: map<nat, Reaction>): Client
    requires c.notifications != []
  {
    Notify(Dequeued(c), c.notifications[0], reactions)
  }

  // ----- the running mutation

  /** The running mutation ends, with or without success. */
  function Settle(c: Client): Client
    requires c.mutations != []
  {
    var d := c.(mutations := c.mutations[1..]);
    match c.mutations[0]
    case ResetRequest(_, _) => d.(pendingResetCount := c.pendingResetCount - 1)
    case Submission(id, _, flight, _) =>
      if id in c.submissions && c.submissions[id] == flight then d.(submissions := c.submissions - {id}) else d
  }

  function WithPhase(m: Mutation, phase: Phase): Mutation {
    match m
    case Submission(id, sourceRevision, flight, _) => Submission(id, sourceRevision, flight, phase)
    case ResetRequest(known, _) => ResetRequest(known, phase)
  }

  function Become(c: Client, phase: Phase): Client
    requires c.mutations != []
  {
    c.(mutations := [WithPhase(c.mutations[0], phase)] + c.mutations[1..])
  }

  predicate AnsweredOnStart(c: Client) {
    && c.mutations != [] && !c.closed && c.mutations[0].Submission? && c.mutations[0].id in c.acknowledged
  }

  /** A mutation fails when the session is closed by now; a submission acknowledged by now needs no
      request; otherwise the first request is sent. */
  function Start(c: Client): Client
    requires c.mutations != []
  {
    if c.closed || AnsweredOnStart(c) then Settle(c) else Become(c, Fetching(1))
  }

  /** After the pause the request is sent again, unless the session has been closed. */
  function Wake(c: Client): Client
    requires c.mutations != [] && c.mutations[0].phase.Sleeping?
  {
    if c.closed then Settle(c) else Become(c, Fetching(c.mutations[0].phase.attempt + 1))
  }

  function Acknowledge(c: Client, id: string): Client { if c.closed then c else c.(acknowledged := c.acknowledged + {id}) }

  predicate TriesAgain(c: Client, maxAttempts: nat, received: Received)
    requires c.mutations != [] && c.mutations[0].phase.Fetching?
  {
    received.Lost? && received.retryable && c.mutations[0].Submission? && c.mutations[0].phase.attempt < maxAttempts
  }

  /** A reply acknowledges the submission; after a reset no acknowledgement counts any more. */
  function Replying(c: Client): Client
    requires c.mutations != []
  {
    if c.mutations[0].Submission? then Acknowledge(c, c.mutations[0].id) else c.(acknowledged := {})
  }

  /** The reply is passed on to the listeners before the mutation ends. */
  function ReplyArrives(c: Client, revision: nat, reactions: map<nat, Reaction>): Client
    requires c.mutations != []
  {
    var notified := Notify(Replying(c), revision, reactions);
    if notified.mutations != [] then Settle(notified) else notified
  }

  function Receive(c: Client, maxAttempts: nat, received: Received, reactions: map<nat, Reaction>): Client
    requires c.mutations != [] && c.mutations[0].phase.Fetching?
  {
    if TriesAgain(c, maxAttempts, received) then Become(c, Sleeping(c.mutations[0].phase.attempt))
    else if !received.Replied? then Settle(c)
    else ReplyArrives(c, received.revision, reactions)
  }
}
