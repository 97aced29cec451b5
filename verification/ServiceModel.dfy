/**
 All sessions of the service together: which transitions there are, and what every run keeps.

 A transition is a call, one step of a session's running operation, or the end of a subscription.
 Any interleaving of transitions of different sessions is possible.
 */
module ServiceModel {
  import opened Wrappers
  import opened Alignments
  import opened Corpus
  import opened Observations
  import opened WordProgress
  import opened Entries
  import opened SessionProtocol
  import opened SessionTheorems

  datatype Service = Service(
    sessions: map<string, Runtime>,
    records: map<string, Record>,
    queues: map<string, seq<Job>>,
    subscribers: map<string, map<nat, Stream>>,
    reservedSessions: int,
    subscriberCount: int,
    nextSubscriber: nat)

  datatype Limits = Limits(maxSessions: nat, maxSubscribers: nat)

  const EMPTY := Service(map[], map[], map[], map[], 0, 0, 0)

  // ----- one session among all

  function QueueOf(g: Service, s: string): seq<Job> { if s in g.queues then g.queues[s] else [] }

  function SubscribersOf(g: Service, s: string): map<nat, Stream> { if s in g.subscribers then g.subscribers[s] else map[] }

  function ViewOf(g: Service, s: string): View {
    View(Find(g.records, s), Find(g.sessions, s), QueueOf(g, s), SubscribersOf(g, s))
  }

  function Kept(queue: seq<Job>): Option<seq<Job>> { if queue == [] then None else Some(queue) }

  function PutView(g: Service, s: string, v: View): Service {
    g.(sessions := Store(g.sessions, s, v.runtime), records := Store(g.records, s, v.record),
       queues := Store(g.queues, s, Kept(v.queue)), subscribers := Store(g.subscribers, s, KeptStreams(v.subscribers)))
  }

  lemma PutThenView(g: Service, s: string, v: View, t: string)
    ensures ViewOf(PutView(g, s, v), t) == if t == s then v else ViewOf(g, t)
  {}

  // ----- counting

  /** The number of creations in a queue. */
  function Creates(queue: seq<Job>): nat {
    if queue == [] then 0 else (if queue[0].Creating? then 1 else 0) + Creates(queue[1..])
  }

  lemma {:induction false} CreatesAppend(queue: seq<Job>, j: Job)
    ensures Creates(queue + [j]) == Creates(queue) + if j.Creating? then 1 else 0
    decreases |queue|
  {
    if queue == [] {
      assert Creates([j]) == (if j.Creating? then 1 else 0) + Creates([j][1..]);
    } else {
      CreatesAppend(queue[1..], j);
      assert (queue + [j])[1..] == queue[1..] + [j];
    }
  }

  function Size(subscribers: map<nat, Stream>): nat { |subscribers| }

  ghost function Total<T>(m: map<string, T>, weight: T -> nat): nat
    decreases |m|
  {
    if m == map[] then 0
    else
      var k :| k in m;
      weight(m[k]) + Total(m - {k}, weight)
  }

  lemma TotalUnfolds<T>(m: map<string, T>, weight: T -> nat) returns (k: string)
    requires m != map[]
    ensures k in m && Total(m, weight) == weight(m[k]) + Total(m - {k}, weight)
  {
    k :| k in m && Total(m, weight) == weight(m[k]) + Total(m - {k}, weight);
  }

  lemma {:induction false} TotalWithout<T>(m: map<string, T>, s: string, weight: T -> nat)
    requires s in m
    ensures Total(m, weight) == weight(m[s]) + Total(m - {s}, weight)
    decreases |m|
  {
    var k := TotalUnfolds(m, weight);
    if k != s {
      TotalWithout(m - {k}, s, weight);
      TotalWithout(m - {s}, k, weight);
      assert (m - {k}) - {s} == (m - {s}) - {k};
    }
  }

  function WeightAt<T>(m: map<string, T>, s: string, weight: T -> nat): nat { if s in m then weight(m[s]) else 0 }

  /** Replacing one entry changes the total by the difference of its weights. */
  lemma TotalStore<T>(m: map<string, T>, s: string, x: Option<T>, weight: T -> nat)
    ensures Total(Store(m, s, x), weight) + WeightAt(m, s, weight) == Total(m, weight) + if x.Some? then weight(x.value) else 0
  {
    var n := Store(m, s, x);
    assert n - {s} == m - {s};
    if s in m { TotalWithout(m, s, weight); } else { assert m - {s} == m; }
    if x.Some? { TotalWithout(n, s, weight); } else { assert n - {s} == n; }
  }

  function Present<T>(x: Option<T>): int { if x.Some? then 1 else 0 }

  lemma StoreCount<T>(m: map<string, T>, s: string, x: Option<T>)
    ensures |Store(m, s, x)| == |m| - Present(Find(m, s)) + Present(x)
  {
    var n := Store(m, s, x);
    assert n.Keys == if x.Some? then m.Keys + {s} else m.Keys - {s};
    assert |n| == |n.Keys| && |m| == |m.Keys|;
  }

  // ----- transitions

  datatype Action =
    | Call(job: Job)
    | Step(input: Input)
    | Unsubscribing(id: nat)

  /** The session changes to v; reservations and subscriptions are counted along. */
  function Settle(g: Service, s: string, v: View): Service {
    var before := ViewOf(g, s);
    PutView(g, s, v).(reservedSessions := g.reservedSessions + Creates(v.queue) - Creates(before.queue),
                      subscriberCount := g.subscriberCount + |v.subscribers| - |before.subscribers|)
  }

  /** A call is refused when its session or observation is not acceptable right away. */
  predicate Admits(g: Service, limits: Limits, j: Job) {
    && IsWaiting(j)
    && (j.Creating? ==> |g.sessions| + g.reservedSessions < limits.maxSessions)
    && (j.Submitting? ==> ValidObservation(j.o))
  }

  predicate HasRoom(g: Service, limits: Limits) { g.subscriberCount < limits.maxSubscribers }

  /** Each step in which a subscription is registered uses up one identity. */
  predicate Registers(v: View) { v.queue != [] && v.queue[0].Subscribing? && v.queue[0].reading.HaveRecord? }

  ghost predicate Enabled(g: Service, s: string, a: Action) {
    a.Step? ==> ViewOk(ViewOf(g, s)) && LegalInput(ViewOf(g, s), a.input)
  }

  ghost function Next(g: Service, limits: Limits, s: string, a: Action): Service
    requires Enabled(g, s, a)
  {
    var v := ViewOf(g, s);
    match a
    case Call(j) => if Admits(g, limits, j) then Settle(g, s, Enqueue(v, j)) else g
    case Step(input) =>
      if v.queue == [] then g
      else Settle(g, s, Advance(v, input, g.nextSubscriber, HasRoom(g, limits)).view).(
             nextSubscriber := g.nextSubscriber + if Registers(v) then 1 else 0)
    case Unsubscribing(id) => Settle(g, s, Unsubscribe(v, id))
  }

  // ----- the invariant of the service

  ghost predicate SessionsOk(g: Service) { forall s :: ViewOk(ViewOf(g, s)) }

  predicate NoEmptyEntries(g: Service) {
    (forall s <- g.queues :: g.queues[s] != []) && (forall s <- g.subscribers :: g.subscribers[s] != map[])
  }

  ghost predicate IdsUsed(g: Service) { forall s: string :: BelowAll(SubscribersOf(g, s), g.nextSubscriber) }

  predicate BelowAll(subscribers: map<nat, Stream>, bound: nat) { forall id <- subscribers :: id < bound }

  /** Live sessions and reservations stay within the limit, reservations are exactly the creations that
      have not finished, and the subscriber count is the number of all subscribers, within its limit. */
  ghost predicate CountsOk(g: Service, limits: Limits) {
    && |g.sessions| + g.reservedSessions <= limits.maxSessions
    && g.reservedSessions == Total(g.queues, Creates)
    && g.subscriberCount == Total(g.subscribers, Size) <= limits.maxSubscribers
  }

  ghost predicate ServiceOk(g: Service, limits: Limits) {
    SessionsOk(g) && NoEmptyEntries(g) && IdsUsed(g) && CountsOk(g, limits)
  }

  lemma EmptyIsOk(limits: Limits)
    ensures ServiceOk(EMPTY, limits)
  {
    forall s ensures ViewOk(ViewOf(EMPTY, s)) {}
  }

  lemma SettledView(g: Service, s: string, v: View, next: nat, t: string)
    ensures ViewOf(Settle(g, s, v).(nextSubscriber := next), t) == if t == s then v else ViewOf(g, t)
  {
    PutThenView(g, s, v, t);
  }

  lemma SettleKeepsEntries(g: Service, s: string, v: View)
    requires NoEmptyEntries(g)
    ensures NoEmptyEntries(Settle(g, s, v))
  {}

  lemma SettleKeepsSessions(g: Service, s: string, v: View, next: nat)
    requires SessionsOk(g) && NoEmptyEntries(g) && IdsUsed(g)
    requires ViewOk(v) && BelowAll(v.subscribers, next) && g.nextSubscriber <= next
    ensures var h := Settle(g, s, v).(nextSubscriber := next); SessionsOk(h) && NoEmptyEntries(h) && IdsUsed(h)
  {
    hide ViewOk;
    var h := Settle(g, s, v).(nextSubscriber := next);
    SettleKeepsEntries(g, s, v);
    forall t ensures ViewOk(ViewOf(h, t)) {
      SettledView(g, s, v, next, t);
      if t != s { assert ViewOk(ViewOf(g, t)); }
    }
    forall t: string ensures BelowAll(SubscribersOf(h, t), next) {
      SettledView(g, s, v, next, t);
      assert SubscribersOf(h, t) == ViewOf(h, t).subscribers;
      if t != s { assert BelowAll(SubscribersOf(g, t), g.nextSubscriber); }
    }
  }

  /** The session as it counts against the session limit: live, and once per creation in its queue. */
  function Claims(v: View): int { Present(v.runtime) + Creates(v.queue) }

  lemma QueueTotal(g: Service, s: string, queue: seq<Job>)
    ensures Total(Store(g.queues, s, Kept(queue)), Creates) == Total(g.queues, Creates) + Creates(queue) - Creates(QueueOf(g, s))
  {
    TotalStore(g.queues, s, Kept(queue), Creates);
  }

  lemma SubscriberTotal(g: Service, s: string, subscribers: map<nat, Stream>)
    ensures Total(Store(g.subscribers, s, KeptStreams(subscribers)), Size)
         == Total(g.subscribers, Size) + |subscribers| - |SubscribersOf(g, s)|
  {
    TotalStore(g.subscribers, s, KeptStreams(subscribers), Size);
  }

  lemma SettleKeepsCounts(g: Service, limits: Limits, s: string, v: View)
    requires CountsOk(g, limits)
    requires |g.sessions| + g.reservedSessions + Claims(v) - Claims(ViewOf(g, s)) <= limits.maxSessions
    requires g.subscriberCount + |v.subscribers| - |SubscribersOf(g, s)| <= limits.maxSubscribers
    ensures CountsOk(Settle(g, s, v), limits)
  {
    StoreCount(g.sessions, s, v.runtime);
    QueueTotal(g, s, v.queue);
    SubscriberTotal(g, s, v.subscribers);
    var h := Settle(g, s, v);
    assert h.queues == Store(g.queues, s, Kept(v.queue)) && h.subscribers == Store(g.subscribers, s, KeptStreams(v.subscribers));
  }

  // ----- what a step claims

  /** The running operation has ended or has entered its next phase, and no session went live. */
  predicate Reshaped(v: View, w: View)
    requires v.queue != []
  {
    && (w.queue == v.queue[1..]
        || (w.queue != [] && w.queue[1..] == v.queue[1..] && (w.queue[0].Creating? ==> v.queue[0].Creating?)))
    && Present(w.runtime) <= Present(v.runtime)
  }

  lemma ReshapedClaims(v: View, w: View)
    requires v.queue != [] && Reshaped(v, w)
    ensures Claims(w) <= Claims(v)
  {}

  lemma CreateClaims(v: View, corpus: Option<QuranCorpus>)
    requires v.queue != [] && v.queue[0].Creating?
    ensures Claims(AdvanceCreate(v, corpus).view) <= Claims(v)
  {
    var after := AdvanceCreate(v, corpus);
    if !v.queue[0].creating.Created? { ReshapedClaims(v, after.view); }
  }

  lemma ResetReshapes(v: View, reactions: map<nat, Reaction>)
    requires v.queue != [] && v.queue[0].Resetting?
    requires v.runtime.Some? ==> v.runtime.value.defaultStart < |v.runtime.value.symbols|
    ensures Reshaped(v, AdvanceReset(v, reactions).view)
  {}

  lemma SubmitReshapes(v: View, o: Observation, located: Located)
    requires v.queue != []
    requires v.runtime.Some? ==> Words(v.runtime.value.words, |v.runtime.value.symbols|) && v.runtime.value.symbols != []
    ensures Reshaped(v, UpdateForSubmit(v, o, located).view)
  {}

  lemma SubscribeReshapes(v: View, id: nat, room: bool, reactions: map<nat, Reaction>)
    requires v.queue != [] && v.queue[0].Subscribing?
    ensures Reshaped(v, AdvanceSubscribe(v, id, room, reactions).view)
  {}

  /** A step never claims more sessions than before: a session goes live only with the end of its
      creation. */
  lemma StepClaims(v: View, input: Input, id: nat, room: bool)
    requires ViewOk(v) && v.queue != []
    ensures Claims(Advance(v, input, id, room).view) <= Claims(v)
  {
    match v.queue[0]
    case Creating(_, _, _, _) => CreateClaims(v, input.corpus);
    case Getting => ReshapedClaims(v, Done(v));
    case Resuming(_) => ReshapedClaims(v, Done(v));
    case Resetting(_, _) =>
      ResetReshapes(v, input.reactions);
      ReshapedClaims(v, AdvanceReset(v, input.reactions).view);
    case Submitting(o, updating) =>
      if updating.Updated? {
        ReshapedClaims(v, Announce(v, input.reactions).view);
      } else {
        SubmitReshapes(v, o, input.located);
        ReshapedClaims(v, UpdateForSubmit(v, o, input.located).view);
      }
    case Subscribing(_, _) =>
      SubscribeReshapes(v, id, room, input.reactions);
      ReshapedClaims(v, AdvanceSubscribe(v, id, room, input.reactions).view);
    case Deleting(_) => ReshapedClaims(v, AdvanceDelete(v).view);
  }

  lemma SubscribersAdded(before: map<nat, Stream>, after: map<nat, Stream>, id: nat, room: bool)
    requires after.Keys <= before.Keys + (if room then {id} else {})
    ensures |after| <= |before| + if room then 1 else 0
  {
    var keys := before.Keys + if room then {id} else {};
    SubsetSize(after.Keys, keys);
    assert |keys| <= |before.Keys| + if room then 1 else 0;
  }

  lemma {:induction false} SubsetSize(a: set<nat>, b: set<nat>)
    requires a <= b
    ensures |a| <= |b|
    decreases |a|
  {
    if a != {} {
      var x :| x in a;
      SubsetSize(a - {x}, b - {x});
    }
  }

  lemma SettleKeeps(g: Service, limits: Limits, s: string, v: View, next: nat)
    requires ServiceOk(g, limits) && ViewOk(v) && BelowAll(v.subscribers, next) && g.nextSubscriber <= next
    requires |g.sessions| + g.reservedSessions + Claims(v) - Claims(ViewOf(g, s)) <= limits.maxSessions
    requires g.subscriberCount + |v.subscribers| - |SubscribersOf(g, s)| <= limits.maxSubscribers
    ensures ServiceOk(Settle(g, s, v).(nextSubscriber := next), limits)
  {
    SettleKeepsCounts(g, limits, s, v);
    SettleKeepsSessions(g, s, v, next);
  }

  lemma CallKeeps(g: Service, limits: Limits, s: string, j: Job)
    requires ServiceOk(g, limits) && Admits(g, limits, j)
    ensures ServiceOk(Settle(g, s, Enqueue(ViewOf(g, s), j)), limits)
  {
    var v := ViewOf(g, s);
    assert ViewOk(v) && BelowAll(SubscribersOf(g, s), g.nextSubscriber);
    EnqueueKeeps(v, j);
    CreatesAppend(v.queue, j);
    SettleKeeps(g, limits, s, Enqueue(v, j), g.nextSubscriber);
  }

  lemma StepKeeps(g: Service, limits: Limits, s: string, v: View, input: Input, id: nat, room: bool, h: Service)
    requires ServiceOk(g, limits) && v == ViewOf(g, s) && id == g.nextSubscriber && (room <==> HasRoom(g, limits))
    requires ViewOk(v) && LegalInput(v, input) && v.queue != [] && BelowAll(v.subscribers, id)
    requires h == Settle(g, s, Advance(v, input, id, room).view).(nextSubscriber := id + if Registers(v) then 1 else 0)
    ensures ServiceOk(h, limits)
  {
    hide Advance;
    StepResult(v, input, id, room);
    SettleStep(g, limits, s, v, Advance(v, input, id, room).view, room, id + if Registers(v) then 1 else 0);
  }

  lemma SettleStep(g: Service, limits: Limits, s: string, v: View, after: View, room: bool, next: nat)
    requires ServiceOk(g, limits) && v == ViewOf(g, s) && (room <==> HasRoom(g, limits))
    requires ViewOk(after) && BelowAll(after.subscribers, next) && g.nextSubscriber <= next
    requires Claims(after) <= Claims(v) && |after.subscribers| <= |v.subscribers| + if room then 1 else 0
    ensures ServiceOk(Settle(g, s, after).(nextSubscriber := next), limits)
  {
    SettleKeeps(g, limits, s, after, next);
  }

  lemma OnlyRegistrationAdds(v: View, input: Input, id: nat, room: bool)
    requires ViewOk(v) && v.queue != [] && LegalInput(v, input) && id !in v.subscribers
    ensures !Registers(v) ==> Advance(v, input, id, room).view.subscribers.Keys <= v.subscribers.Keys
  {
    AdvanceKeeps(v, input, id, false);
    if !Registers(v) { assert Advance(v, input, id, room) == Advance(v, input, id, false); }
  }

  lemma StepResult(v: View, input: Input, id: nat, room: bool)
    requires ViewOk(v) && v.queue != [] && LegalInput(v, input) && BelowAll(v.subscribers, id)
    ensures var after := Advance(v, input, id, room).view;
            && ViewOk(after) && BelowAll(after.subscribers, id + if Registers(v) then 1 else 0)
            && Claims(after) <= Claims(v) && |after.subscribers| <= |v.subscribers| + if room then 1 else 0
  {
    hide Advance;
    var after := Advance(v, input, id, room).view;
    AdvanceKeeps(v, input, id, room);
    OnlyRegistrationAdds(v, input, id, room);
    StepClaims(v, input, id, room);
    SubscribersAdded(v.subscribers, after.subscribers, id, room);
    KeysBelow(v.subscribers, after.subscribers, id, Registers(v));
  }

  lemma KeysBelow(before: map<nat, Stream>, after: map<nat, Stream>, id: nat, added: bool)
    requires BelowAll(before, id) && after.Keys <= before.Keys + if added then {id} else {}
    ensures BelowAll(after, id + if added then 1 else 0)
  {
    forall x | x in after ensures x < id + if added then 1 else 0 { assert x in after.Keys; }
  }

  lemma EndKeeps(g: Service, limits: Limits, s: string, id: nat)
    requires ServiceOk(g, limits)
    ensures ServiceOk(Settle(g, s, Unsubscribe(ViewOf(g, s), id)), limits)
  {
    var v := ViewOf(g, s);
    assert ViewOk(v) && BelowAll(SubscribersOf(g, s), g.nextSubscriber);
    UnsubscribeKeeps(v, id);
    SubscribersAdded(v.subscribers, Unsubscribe(v, id).subscribers, id, false);
    SettleKeeps(g, limits, s, Unsubscribe(v, id), g.nextSubscriber);
  }

  lemma SubscribersBelow(g: Service, s: string)
    requires IdsUsed(g)
    ensures BelowAll(ViewOf(g, s).subscribers, g.nextSubscriber)
  {
    assert BelowAll(SubscribersOf(g, s), g.nextSubscriber);
  }

  lemma StepIsSettled(g: Service, limits: Limits, s: string, input: Input)
    requires Enabled(g, s, Step(input)) && QueueOf(g, s) != []
    ensures Next(g, limits, s, Step(input)) ==
            Settle(g, s, Advance(ViewOf(g, s), input, g.nextSubscriber, HasRoom(g, limits)).view).(
              nextSubscriber := g.nextSubscriber + if Registers(ViewOf(g, s)) then 1 else 0)
  {
    hide Enabled, Advance;
  }

  lemma SessionIsOk(g: Service, limits: Limits, s: string)
    requires ServiceOk(g, limits)
    ensures ViewOk(ViewOf(g, s)) && BelowAll(ViewOf(g, s).subscribers, g.nextSubscriber)
  {
    hide ViewOk, CountsOk;
    SubscribersBelow(g, s);
  }

  /** Every transition keeps the service's invariant. */
  lemma NextKeeps(g: Service, limits: Limits, s: string, a: Action)
    requires ServiceOk(g, limits) && Enabled(g, s, a)
    ensures ServiceOk(Next(g, limits, s, a), limits)
  {
    hide Advance, ServiceOk, ViewOk, LegalInput;
    match a
    case Call(j) => if Admits(g, limits, j) { CallKeeps(g, limits, s, j); }
    case Step(input) =>
      if QueueOf(g, s) != [] {
        SessionIsOk(g, limits, s);
        StepIsSettled(g, limits, s, input);
        StepKeeps(g, limits, s, ViewOf(g, s), input, g.nextSubscriber, HasRoom(g, limits), Next(g, limits, s, a));
      }
    case Unsubscribing(id) => EndKeeps(g, limits, s, id);
  }

  // ----- whole runs

  datatype Event = Event(session: string, action: Action)

  ghost predicate Possible(limits: Limits, events: seq<Event>)
    decreases |events|, 0
  {
    events != [] ==>
      var before, e := events[..|events| - 1], events[|events| - 1];
      Possible(limits, before) && Enabled(After(limits, before), e.session, e.action)
  }

  /** The service after a run from its start. */
  ghost function After(limits: Limits, events: seq<Event>): Service
    requires Possible(limits, events)
    decreases |events|, 1
  {
    if events == [] then EMPTY
    else
      var before, e := events[..|events| - 1], events[|events| - 1];
      Next(After(limits, before), limits, e.session, e.action)
  }

  /** At every point of every interleaving the limits hold, reservations equal the unfinished creations,
      the subscriber count is the number of live subscribers, and each session's record, tracker and
      streams agree. */
  lemma {:induction false} EveryRunIsOk(limits: Limits, events: seq<Event>)
    requires Possible(limits, events)
    ensures ServiceOk(After(limits, events), limits)
    decreases |events|
  {
    EmptyIsOk(limits);
    if events != [] {
      var before, e := events[..|events| - 1], events[|events| - 1];
      EveryRunIsOk(limits, before);
      NextKeeps(After(limits, before), limits, e.session, e.action);
    }
  }

  /** After any run, in a session with no operation under way, the record mirrors the tracker and every
      live subscriber has all revisions from its first one to the current one. */
  lemma IdleSessionsAgree(limits: Limits, events: seq<Event>, s: string)
    requires Possible(limits, events)
    requires var g := After(limits, events); s in g.records && s !in g.queues
    ensures var g := After(limits, events);
            && s in g.sessions && Mirrors(g.records[s], g.sessions[s])
            && forall id <- SubscribersOf(g, s) ::
                 var stream := SubscribersOf(g, s)[id];
                 && Consecutive(stream.received, stream.first)
                 && stream.first + |stream.received| == g.records[s].snapshot.revision + 1
  {
    hide After, HeadOk;
    EveryRunIsOk(limits, events);
    var g := After(limits, events);
    assert ViewOk(ViewOf(g, s));
    StreamsHaveNoGaps(ViewOf(g, s));
  }

  // ----- runs are determined

  /** The same transition, except for where an observation is said to be located. */
  predicate SameButLocated(a: Action, b: Action) {
    a == b || (a.Step? && b.Step? && a.input.corpus == b.input.corpus && a.input.reactions == b.input.reactions)
  }

  lemma NextIsDetermined(g: Service, limits: Limits, s: string, a: Action, b: Action)
    requires Enabled(g, s, a) && Enabled(g, s, b) && SameButLocated(a, b)
    ensures Next(g, limits, s, a) == Next(g, limits, s, b)
  {
    hide Advance, ViewOk, LegalInput;
    if a.Step? && QueueOf(g, s) != [] {
      StepIsDetermined(ViewOf(g, s), a.input, b.input, g.nextSubscriber, HasRoom(g, limits));
    }
  }

  ghost predicate SameRun(events: seq<Event>, others: seq<Event>) {
    && |events| == |others|
    && forall i | 0 <= i < |events| :: events[i].session == others[i].session && SameButLocated(events[i].action, others[i].action)
  }

  /** What a run makes of the service depends on the calls, the order of the transitions, the resolved
      corpora and what listeners do, and on nothing else. */
  lemma {:induction false} RunIsDetermined(limits: Limits, events: seq<Event>, others: seq<Event>)
    requires Possible(limits, events) && Possible(limits, others) && SameRun(events, others)
    ensures After(limits, events) == After(limits, others)
    decreases |events|
  {
    hide Next, Enabled;
    if events != [] {
      var n := |events| - 1;
      RunIsDetermined(limits, events[..n], others[..n]);
      NextIsDetermined(After(limits, events[..n]), limits, events[n].session, events[n].action, others[n].action);
    }
  }

  // ----- one stream over a run

  /** A transition neither brings back an ended subscription nor touches what a live one has received,
      except for appending to it. */
  lemma NextKeepsStream(g: Service, limits: Limits, s: string, a: Action, t: string, id: nat)
    requires ServiceOk(g, limits) && Enabled(g, s, a) && id < g.nextSubscriber
    requires id in SubscribersOf(Next(g, limits, s, a), t)
    ensures id in SubscribersOf(g, t) && g.nextSubscriber <= Next(g, limits, s, a).nextSubscriber
    ensures SubscribersOf(g, t)[id].first == SubscribersOf(Next(g, limits, s, a), t)[id].first
    ensures SubscribersOf(g, t)[id].received <= SubscribersOf(Next(g, limits, s, a), t)[id].received
  {
    hide Advance, Registers, ServiceOk, ViewOk, LegalInput;
    match a
    case Call(j) => SettledStreams(g, s, Enqueue(ViewOf(g, s), j), g.nextSubscriber, t);
    case Step(input) =>
      if QueueOf(g, s) != [] {
        SessionIsOk(g, limits, s);
        StepIsSettled(g, limits, s, input);
        StepStreams(ViewOf(g, s), input, g.nextSubscriber, HasRoom(g, limits));
        SettledStreams(g, s, Advance(ViewOf(g, s), input, g.nextSubscriber, HasRoom(g, limits)).view,
                       g.nextSubscriber + if Registers(ViewOf(g, s)) then 1 else 0, t);
      }
    case Unsubscribing(ended) => SettledStreams(g, s, Unsubscribe(ViewOf(g, s), ended), g.nextSubscriber, t);
  }

  lemma SettledStreams(g: Service, s: string, v: View, next: nat, t: string)
    ensures SubscribersOf(Settle(g, s, v).(nextSubscriber := next), t) == if t == s then v.subscribers else SubscribersOf(g, t)
  {
    SettledView(g, s, v, next, t);
    assert ViewOf(Settle(g, s, v).(nextSubscriber := next), t).subscribers == SubscribersOf(Settle(g, s, v).(nextSubscriber := next), t);
  }

  lemma StepStreams(v: View, input: Input, id: nat, room: bool)
    requires ViewOk(v) && v.queue != [] && LegalInput(v, input) && BelowAll(v.subscribers, id)
    ensures var after := Advance(v, input, id, room).view;
            StreamsExtend(v.subscribers, after.subscribers) && after.subscribers.Keys <= v.subscribers.Keys + {id}
  {
    AdvanceKeeps(v, input, id, room);
  }

  lemma AfterOneMore(limits: Limits, events: seq<Event>, e: Event)
    requires Possible(limits, events + [e])
    ensures Possible(limits, events) && Enabled(After(limits, events), e.session, e.action)
    ensures After(limits, events + [e]) == Next(After(limits, events), limits, e.session, e.action)
  {
    assert (events + [e])[..|events|] == events;
  }

  /** However a run goes on, a subscriber that is still live has been live all along, still starts at
      the same revision, and has kept everything it had received. */
  lemma {:induction false} StreamsPersist(limits: Limits, events: seq<Event>, more: seq<Event>, s: string, id: nat)
    requires Possible(limits, events) && Possible(limits, events + more)
    requires id < After(limits, events).nextSubscriber && id in SubscribersOf(After(limits, events + more), s)
    ensures id in SubscribersOf(After(limits, events), s)
    ensures var before, after := SubscribersOf(After(limits, events), s)[id], SubscribersOf(After(limits, events + more), s)[id];
            before.first == after.first && before.received <= after.received
    ensures After(limits, events).nextSubscriber <= After(limits, events + more).nextSubscriber
    decreases |more|
  {
    hide Next, ViewOk;
    if more == [] {
      assert events + more == events;
    } else {
      var front, e := more[..|more| - 1], more[|more| - 1];
      assert events + more == (events + front) + [e];
      AfterOneMore(limits, events + front, e);
      EveryRunIsOk(limits, events + front);
      IdentitiesGrow(limits, events, front);
      NextKeepsStream(After(limits, events + front), limits, e.session, e.action, s, id);
      StreamsPersist(limits, events, front, s, id);
    }
  }

  lemma {:induction false} IdentitiesGrow(limits: Limits, events: seq<Event>, more: seq<Event>)
    requires Possible(limits, events) && Possible(limits, events + more)
    ensures After(limits, events).nextSubscriber <= After(limits, events + more).nextSubscriber
    decreases |more|
  {
    hide After, Possible, Advance, ViewOk;
    if more == [] {
      assert events + more == events;
    } else {
      var front, e := more[..|more| - 1], more[|more| - 1];
      assert events + more == (events + front) + [e];
      AfterOneMore(limits, events + front, e);
      IdentitiesGrow(limits, events, front);
    }
  }
}
