/** What calling the listeners of a remote session does, while they call back into the session. */
module RemoteListeners {
  import opened Sequences
  import opened RemoteClient
  import opened RemoteWorld

  // ----- submissions under way

  /** Fewer or other mutations behind the same submissions. */
  lemma FlightsStay(c: Client, d: Client)
    requires FlightsOk(c) && d.mutations == c.mutations && d.nextFlight == c.nextFlight
    requires d.submissions == c.submissions || d.submissions == map[]
    ensures FlightsOk(d)
  {}

  lemma QueuedStays(mutations: seq<Mutation>, m: Mutation, id: string, flight: Flight)
    requires IsQueued(mutations, id, flight)
    ensures IsQueued(mutations + [m], id, flight)
  {
    var i :| 0 <= i < |mutations| && IsFlight(mutations[i], id, flight);
    assert (mutations + [m])[i] == mutations[i];
  }

  lemma OneMoreFlight(c: Client, id: string, sourceRevision: int)
    requires FlightsOk(c)
    ensures FlightsOk(CallSubmit(c, id, sourceRevision).0)
  {
    var m := Submission(id, sourceRevision, Flight(c.scheduledResetSequence, c.nextFlight), Waiting);
    forall x | x in c.submissions ensures IsQueued(c.mutations + [m], x, c.submissions[x]) {
      QueuedStays(c.mutations, m, x, c.submissions[x]);
    }
    assert IsFlight((c.mutations + [m])[|c.mutations|], id, m.flight);
  }

  lemma ResetKeepsFlights(c: Client, known: bool)
    requires FlightsOk(c)
    ensures FlightsOk(CallReset(c, known))
  {
    forall x | x in c.submissions ensures IsQueued(c.mutations + [ResetRequest(known, Waiting)], x, c.submissions[x]) {
      QueuedStays(c.mutations, ResetRequest(known, Waiting), x, c.submissions[x]);
    }
  }

  // ----- what listeners may do while they are called

  lemma {:induction false} WithoutKeepsDistinct(listeners: seq<nat>, gone: nat)
    requires Distinct(listeners)
    ensures Distinct(Without(listeners, gone))
    decreases |listeners|
  {
    if listeners != [] {
      var front, last := listeners[..|listeners| - 1], listeners[|listeners| - 1];
      WithoutKeepsDistinct(front, gone);
      WithoutKeepsOthers(front, gone, last);
      forall i | 0 <= i < |front| ensures front[i] != last {}
    }
  }

  /** A mutation called after those of c. */
  predicate IsNewer(c: Client, m: Mutation) { m.phase.Waiting? && (m.Submission? ==> c.nextFlight <= m.flight.number) }

  /** While a listener is called, mutations are only queued, none ends, and nothing is acknowledged. */
  predicate Continues(c: Client, d: Client) {
    && c.mutations <= d.mutations && (forall i | |c.mutations| <= i < |d.mutations| :: IsNewer(c, d.mutations[i]))
    && c.nextFlight <= d.nextFlight && Ended(d) == Ended(c) && c.scheduledResetSequence <= d.scheduledResetSequence
    && d.acknowledged <= c.acknowledged
    && d.snapshot == c.snapshot && (c.closed ==> d.closed)
    && (d.notifications == c.notifications || d.notifications == [])
  }

  lemma ContinuesOn(c: Client, d: Client, e: Client)
    requires Continues(c, d) && Continues(d, e)
    ensures Continues(c, e)
  {}

  lemma LogsBounded(c: Client, l: nat)
    requires LogsAtMost(c, c.snapshot)
    ensures LogsAtMost(CallOne(c, l), c.snapshot)
  {
    assert AtMost(LogOf(c, l), c.snapshot);
  }

  lemma JoinedKeeps(c: Client, l: nat, bound: nat)
    requires CallingOk(c, bound) && !c.closed
    ensures CallingOk(Joined(c, l), bound) && Continues(c, Joined(c, l))
  {
    var added := c.(listeners := if l in c.listeners then c.listeners else c.listeners + [l]);
    if l !in c.listeners { DistinctGrows(c.listeners, l); }
    LogsBounded(added, l);
    FlightsStay(c, Joined(c, l));
  }

  lemma UnsubscribeKeeps(c: Client, l: nat, bound: nat)
    requires CallingOk(c, bound)
    ensures CallingOk(Unsubscribe(c, l), bound) && Continues(c, Unsubscribe(c, l))
  {
    WithoutKeepsDistinct(c.listeners, l);
    FlightsStay(c, Unsubscribe(c, l));
  }

  lemma CallsKeep(c: Client, id: string, sourceRevision: int, known: bool, bound: nat)
    requires CallingOk(c, bound)
    ensures CallingOk(CallSubmit(c, id, sourceRevision).0, bound) && Continues(c, CallSubmit(c, id, sourceRevision).0)
    ensures CallingOk(CallReset(c, known), bound) && Continues(c, CallReset(c, known))
  {
    CallsKeepQueue(c, id, sourceRevision, known);
    OneMoreFlight(c, id, sourceRevision);
    ResetKeepsFlights(c, known);
  }

  lemma CloseKeeps(c: Client, bound: nat)
    requires CallingOk(c, bound)
    ensures CallingOk(Close(c), bound) && Continues(c, Close(c))
  {
    FlightsStay(c, Close(c));
  }

  lemma {:induction false} ActKeeps(c: Client, r: Reaction, bound: nat)
    requires CallingOk(c, bound) && !r.Returns? && !r.Throws?
    ensures CallingOk(Act(c, r), bound) && Continues(c, Act(c, r))
    decreases r, 0
  {
    match r
    case Subscribing(l, reaction, _) => SubscribeKeeps(c, l, reaction, bound);
    case Unsubscribing(l, _) => UnsubscribeKeeps(c, l, bound);
    case Closing(_) => CloseKeeps(c, bound);
    case Submitting(id, sourceRevision, _) => CallsKeep(c, id, sourceRevision, true, bound);
    case Resetting(known, _) => CallsKeep(c, "", 0, known, bound);
  }

  /** Whatever a called listener does, invariants stay and mutations are at most queued. */
  lemma {:induction false} ReactKeeps(c: Client, l: nat, r: Reaction, bound: nat)
    requires CallingOk(c, bound)
    ensures CallingOk(React(c, l, r), bound) && Continues(c, React(c, l, r))
    decreases r, 1
  {
    if r.Throws? {
      UnsubscribeKeeps(c, l, bound);
    } else if !r.Returns? {
      ActKeeps(c, r, bound);
      ReactKeeps(Act(c, r), l, r.next, bound);
      ContinuesOn(c, Act(c, r), React(c, l, r));
    }
  }

  lemma {:induction false} SubscribeKeeps(c: Client, l: nat, r: Reaction, bound: nat)
    requires CallingOk(c, bound)
    ensures CallingOk(Subscribe(c, l, r), bound) && Continues(c, Subscribe(c, l, r))
    decreases r, 2
  {
    if !c.closed {
      JoinedKeeps(c, l, bound);
      ReactKeeps(Joined(c, l), l, r, bound);
      ContinuesOn(c, Joined(c, l), Subscribe(c, l, r));
    }
  }

  // ----- how often a listener is called

  /** How often x is subscribed, on an open session, in the course of what a called listener does. */
  function SubscriptionsIn(c: Client, l: nat, r: Reaction, x: nat): nat
    decreases r, 1
  {
    if r.Returns? || r.Throws? then 0
    else (if r.Subscribing? then SubscriptionsBy(c, r.l, r.reaction, x) else 0) + SubscriptionsIn(Act(c, r), l, r.next, x)
  }

  /** Likewise in the course of subscribing l, which counts itself. */
  function SubscriptionsBy(c: Client, l: nat, r: Reaction, x: nat): nat
    decreases r, 2
  {
    if c.closed then 0 else (if l == x then 1 else 0) + SubscriptionsIn(Joined(c, l), l, r, x)
  }

  function Repeat(x: nat, k: nat): seq<nat> { seq(k, _ => x) }

  /** x has been called k times with the current snapshot. */
  predicate CalledTimes(c: Client, d: Client, x: nat, k: nat) { LogOf(d, x) == LogOf(c, x) + Repeat(c.snapshot, k) }

  lemma CalledMore(c: Client, d: Client, e: Client, x: nat, j: nat, k: nat)
    requires CalledTimes(c, d, x, j) && CalledTimes(d, e, x, k) && d.snapshot == c.snapshot
    ensures CalledTimes(c, e, x, j + k)
  {
    assert Repeat(c.snapshot, j) + Repeat(c.snapshot, k) == Repeat(c.snapshot, j + k);
  }

  /** A listener called since the current snapshot came, or not called and with the same log. */
  lemma CalledIsUpToDate(c: Client, d: Client, x: nat, k: nat)
    requires CalledTimes(c, d, x, k) && d.snapshot == c.snapshot
    ensures k > 0 || UpToDate(c, x) ==> UpToDate(d, x)
  {}

  /** x is live after what has been done, because it was so before or has been subscribed. */
  predicate IsAccounted(c: Client, d: Client, x: nat, k: nat) { CalledTimes(c, d, x, k) && (x in d.listeners ==> x in c.listeners || k > 0) }

  lemma AccountedMore(c: Client, d: Client, e: Client, x: nat, j: nat, k: nat)
    requires IsAccounted(c, d, x, j) && IsAccounted(d, e, x, k) && d.snapshot == c.snapshot
    ensures IsAccounted(c, e, x, j + k)
  {
    CalledMore(c, d, e, x, j, k);
  }

  lemma NotCalled(c: Client, d: Client, x: nat)
    requires d.logs == c.logs && (x in d.listeners ==> x in c.listeners)
    ensures IsAccounted(c, d, x, 0)
  {}

  lemma CallOneCalls(c: Client, l: nat, x: nat)
    ensures IsAccounted(c, CallOne(c, l), x, if l == x then 1 else 0)
  {}

  lemma JoinedCalls(c: Client, l: nat, x: nat)
    ensures IsAccounted(c, Joined(c, l), x, if l == x then 1 else 0)
  {
    CallOneCalls(c.(listeners := if l in c.listeners then c.listeners else c.listeners + [l]), l, x);
  }

  lemma {:induction false} ActCalls(c: Client, r: Reaction, x: nat, bound: nat)
    requires CallingOk(c, bound) && !r.Returns? && !r.Throws?
    ensures IsAccounted(c, Act(c, r), x, if r.Subscribing? then SubscriptionsBy(c, r.l, r.reaction, x) else 0)
    decreases r, 0
  {
    match r
    case Subscribing(l, reaction, _) => SubscribeCalls(c, l, reaction, x, bound);
    case Unsubscribing(l, _) => WithoutKeepsOthers(c.listeners, l, x);
    case _ =>
  }

  /** A listener's log grows by the current snapshot, once for every time that it is subscribed. */
  lemma {:induction false} ReactCalls(c: Client, l: nat, r: Reaction, x: nat, bound: nat)
    requires CallingOk(c, bound)
    ensures IsAccounted(c, React(c, l, r), x, SubscriptionsIn(c, l, r, x))
    decreases r, 1
  {
    hide CallingOk, CalledTimes, Act;
    if r.Throws? {
      WithoutKeepsOthers(c.listeners, l, x);
      NotCalled(c, Unsubscribe(c, l), x);
    } else if !r.Returns? {
      ActKeeps(c, r, bound);
      ActCalls(c, r, x, bound);
      ReactCalls(Act(c, r), l, r.next, x, bound);
      AccountedMore(c, Act(c, r), React(c, l, r), x, if r.Subscribing? then SubscriptionsBy(c, r.l, r.reaction, x) else 0,
                    SubscriptionsIn(Act(c, r), l, r.next, x));
    } else {
      NotCalled(c, c, x);
    }
  }

  lemma {:induction false} SubscribeCalls(c: Client, l: nat, r: Reaction, x: nat, bound: nat)
    requires CallingOk(c, bound)
    ensures IsAccounted(c, Subscribe(c, l, r), x, SubscriptionsBy(c, l, r, x))
    decreases r, 2
  {
    hide CallingOk, CalledTimes, Joined;
    if !c.closed {
      JoinedKeeps(c, l, bound);
      JoinedCalls(c, l, x);
      ReactCalls(Joined(c, l), l, r, x, bound);
      AccountedMore(c, Joined(c, l), Subscribe(c, l, r), x, if l == x then 1 else 0, SubscriptionsIn(Joined(c, l), l, r, x));
    } else {
      NotCalled(c, c, x);
    }
  }

  // ----- notifications

  /** How often x is subscribed while the first n listeners of a copy are called. */
  function Subscriptions(c: Client, copy: seq<nat>, n: nat, reactions: map<nat, Reaction>, x: nat): nat
    requires n <= |copy|
  {
    if n == 0 then 0
    else
      var d, l := Delivered(c, copy, n - 1, reactions), copy[n - 1];
      Subscriptions(c, copy, n - 1, reactions, x)
      + if IsCalled(d, l) then SubscriptionsIn(CallOne(d, l), l, ReactionOf(reactions, l), x) else 0
  }

  /** x is among the first n listeners of the copy and is still there when its turn comes. */
  predicate Reached(c: Client, copy: seq<nat>, n: nat, reactions: map<nat, Reaction>, x: nat)
    requires n <= |copy|
  {
    exists k | 0 <= k < n :: copy[k] == x && IsCalled(Delivered(c, copy, k, reactions), x)
  }

  function Calls(c: Client, copy: seq<nat>, n: nat, reactions: map<nat, Reaction>, x: nat): nat
    requires n <= |copy|
  {
    Subscriptions(c, copy, n, reactions, x) + if Reached(c, copy, n, reactions, x) then 1 else 0
  }

  lemma {:induction false} DeliveredKeeps(c: Client, copy: seq<nat>, n: nat, reactions: map<nat, Reaction>, bound: nat)
    requires CallingOk(c, bound) && n <= |copy|
    ensures CallingOk(Delivered(c, copy, n, reactions), bound) && Continues(c, Delivered(c, copy, n, reactions))
    decreases n
  {
    if n > 0 {
      DeliveredKeeps(c, copy, n - 1, reactions, bound);
      var d, l := Delivered(c, copy, n - 1, reactions), copy[n - 1];
      if IsCalled(d, l) {
        LogsBounded(d, l);
        FlightsStay(d, CallOne(d, l));
        ReactKeeps(CallOne(d, l), l, ReactionOf(reactions, l), bound);
        ContinuesOn(d, CallOne(d, l), Delivered(c, copy, n, reactions));
        ContinuesOn(c, d, Delivered(c, copy, n, reactions));
      }
    }
  }

  lemma ReachedNext(c: Client, copy: seq<nat>, n: nat, reactions: map<nat, Reaction>, x: nat)
    requires Distinct(copy) && 0 < n <= |copy|
    ensures var now := copy[n - 1] == x && IsCalled(Delivered(c, copy, n - 1, reactions), x);
            && (Reached(c, copy, n, reactions, x) <==> Reached(c, copy, n - 1, reactions, x) || now)
            && !(now && Reached(c, copy, n - 1, reactions, x))
  {}

  lemma OneMoreCalls(c: Client, d: Client, l: nat, r: Reaction, x: nat, k: nat, bound: nat)
    requires CallingOk(d, bound) && IsAccounted(c, d, x, k) && d.snapshot == c.snapshot
    ensures var more := (if l == x then 1 else 0) + SubscriptionsIn(CallOne(d, l), l, r, x);
            IsAccounted(c, React(CallOne(d, l), l, r), x, k + more) && IsAccounted(d, React(CallOne(d, l), l, r), x, more)
  {
    hide CalledTimes, SubscriptionsIn, React;
    CallOneCalls(d, l, x);
    LogsBounded(d, l);
    FlightsStay(d, CallOne(d, l));
    ReactCalls(CallOne(d, l), l, r, x, bound);
    var more := (if l == x then 1 else 0) + SubscriptionsIn(CallOne(d, l), l, r, x);
    AccountedMore(d, CallOne(d, l), React(CallOne(d, l), l, r), x, if l == x then 1 else 0, SubscriptionsIn(CallOne(d, l), l, r, x));
    AccountedMore(c, d, React(CallOne(d, l), l, r), x, k, more);
  }

  lemma NoneYet(c: Client, copy: seq<nat>, reactions: map<nat, Reaction>, x: nat)
    ensures Calls(c, copy, 0, reactions, x) == 0
  {}

  /** After n calls a listener's log has grown by the current snapshot, once for its own turn and once for
      every time it has been subscribed meanwhile; who is live has been called or its turn is yet to come. */
  lemma {:induction false} DeliveredCalls(c: Client, copy: seq<nat>, n: nat, reactions: map<nat, Reaction>, x: nat, bound: nat)
    requires CallingOk(c, bound) && Distinct(copy) && n <= |copy|
    ensures IsAccounted(c, Delivered(c, copy, n, reactions), x, Calls(c, copy, n, reactions, x))
    ensures IsCalled(Delivered(c, copy, n, reactions), x) && x in copy[..n] ==> Calls(c, copy, n, reactions, x) > 0
    decreases n
  {
    hide CallingOk, React, SubscriptionsIn, CalledTimes, Reached;
    if n > 0 {
      DeliveredCalls(c, copy, n - 1, reactions, x, bound);
      DeliveredKeeps(c, copy, n - 1, reactions, bound);
      ReachedNext(c, copy, n, reactions, x);
      assert copy[..n] == copy[..n - 1] + [copy[n - 1]];
      var d, l := Delivered(c, copy, n - 1, reactions), copy[n - 1];
      if IsCalled(d, l) {
        OneMoreCalls(c, d, l, ReactionOf(reactions, l), x, Calls(c, copy, n - 1, reactions, x), bound);
      }
    } else {
      NoneYet(c, copy, reactions, x);
      NotCalled(c, c, x);
    }
  }

  /** How often x is called in a notification: not at all when the snapshot is not newer. */
  function NotifyCalls(c: Client, revision: nat, reactions: map<nat, Reaction>, x: nat): nat {
    if c.closed || revision <= c.snapshot then 0
    else Calls(c.(snapshot := revision), c.listeners, |c.listeners|, reactions, x)
  }

  /** Whatever the listeners do meanwhile: a notification passes a newer snapshot to every listener that is
      there when its turn comes, once, and besides to those subscribed meanwhile, once for each time; all
      that are live at the end have been called with it; and mutations are at most queued. */
  lemma NotifyKeeps(c: Client, revision: nat, reactions: map<nat, Reaction>, bound: nat)
    requires ClientOk(c, bound) && revision <= bound
    ensures var d := Notify(c, revision, reactions);
            && ClientOk(d, bound) && d.snapshot == (if c.closed || revision <= c.snapshot then c.snapshot else revision)
            && Continues(c.(snapshot := d.snapshot), d)
            && forall x: nat :: LogOf(d, x) == LogOf(c, x) + Repeat(d.snapshot, NotifyCalls(c, revision, reactions, x))
  {
    var d := Notify(c, revision, reactions);
    if !c.closed && revision > c.snapshot {
      var e, n := c.(snapshot := revision), |c.listeners|;
      FlightsStay(c, e);
      DeliveredKeeps(e, c.listeners, n, reactions, bound);
      assert c.listeners[..n] == c.listeners;
      forall x: nat
        ensures LogOf(d, x) == LogOf(c, x) + Repeat(d.snapshot, NotifyCalls(c, revision, reactions, x))
        ensures x in d.listeners ==> UpToDate(d, x)
      {
        DeliveredCalls(e, c.listeners, n, reactions, x, bound);
        CalledIsUpToDate(e, d, x, NotifyCalls(c, revision, reactions, x));
      }
    }
  }
}
