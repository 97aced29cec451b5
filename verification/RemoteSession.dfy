/**
 The remote session as the program has it: closures over variables that they update in place. Each
 method is the stretch between two suspension points and is proved against `RemoteClient`.
 */
module RemoteSession {
  import opened RemoteClient
  import opened RemoteWorld

  class RemoteSession {
    const maxAttempts: nat

    var closed: bool
    var snapshot: nat
    var acknowledged: set<string>
    var submissions: map<string, Flight>
    var mutations: seq<Mutation>
    var scheduledResetSequence: nat
    var pendingResetCount: int
    var nextFlight: nat
    var notifications: seq<nat>
    var listeners: seq<nat>
    var logs: map<nat, seq<nat>>

    function Now(): Client
      reads this
    {
      Client(closed, snapshot, acknowledged, submissions, mutations, scheduledResetSequence, pendingResetCount, nextFlight,
             notifications, listeners, logs)
    }

    /** The session after the first snapshot has been fetched. */
    constructor (maxAttempts: nat, revision: nat)
      ensures this.maxAttempts == maxAttempts && Now() == SESSION_START.(snapshot := revision)
    {
      this.maxAttempts := maxAttempts;
      closed, snapshot, acknowledged, submissions, mutations := false, revision, {}, map[], [];
      scheduledResetSequence, pendingResetCount, nextFlight := 0, 0, 0;
      notifications, listeners, logs := [], [], map[];
    }

    // ----- calls

    /** Answered from an acknowledgement only when no reset is under way; otherwise shared with a
        submission of the same id called after the same resets, or queued. */
    method Submit(id: string, sourceRevision: int) returns (answer: Answer)
      modifies this
      ensures (Now(), answer) == CallSubmit(old(Now()), id, sourceRevision)
    {
      if closed { return Refused; }
      var resetSequence := scheduledResetSequence;
      if pendingResetCount == 0 && id in acknowledged { return Answered(snapshot); }
      if id in submissions && submissions[id].resetSequence == resetSequence { return Shares(submissions[id].number); }
      var inFlight := Flight(resetSequence, nextFlight);
      nextFlight := nextFlight + 1;
      mutations := mutations + [Submission(id, sourceRevision, inFlight, Waiting)];
      submissions := submissions[id := inFlight];
      return Queued(inFlight.number);
    }

    /** A reset on a closed session is refused. */
    method Reset(known: bool) returns (accepted: bool)
      modifies this
      ensures Now() == CallReset(old(Now()), known) && (accepted <==> !old(closed))
    {
      if closed { return false; }
      scheduledResetSequence := scheduledResetSequence + 1;
      pendingResetCount := pendingResetCount + 1;
      mutations := mutations + [ResetRequest(known, Waiting)];
      return true;
    }

    method CloseSession()
      modifies this
      ensures Now() == Close(old(Now()))
    {
      if closed { return; }
      closed := true;
      listeners, acknowledged, submissions, notifications := [], {}, map[], [];
    }

    // ----- listeners

    /** Calls the listeners of a copy, skipping those gone by then, and drops those that throw. */
    method NotifyListeners(next: nat, reactions: map<nat, Reaction>)
      modifies this
      ensures Now() == Notify(old(Now()), next, reactions)
    {
      if closed || next <= snapshot { return; }
      snapshot := next;
      var copy := listeners;
      ghost var start := Now();
      for k := 0 to |copy|
        invariant Now() == Delivered(start, copy, k, reactions)
      {
        if !closed && copy[k] in listeners { CallListener(copy[k], ReactionOf(reactions, copy[k])); }
      }
    }

    method CallListener(l: nat, reaction: Reaction)
      modifies this
      ensures Now() == React(CallOne(old(Now()), l), l, reaction)
      decreases reaction, 1
    {
      logs := logs[l := (if l in logs then logs[l] else []) + [snapshot]];
      var _ := RunListener(l, reaction);
    }

    /** What the called listener does, some of which calls back into this session. */
    method RunListener(l: nat, reaction: Reaction) returns (threw: bool)
      modifies this
      ensures Now() == React(old(Now()), l, reaction) && (threw <==> EndsInThrow(reaction))
      decreases reaction, 0
    {
      match reaction
      case Returns => return false;
      case Throws => UnsubscribeListener(l); return true;
      case Subscribing(other, inner, next) => var _ := SubscribeListener(other, inner); threw := RunListener(l, next);
      case Unsubscribing(other, next) => UnsubscribeListener(other); threw := RunListener(l, next);
      case Closing(next) => CloseSession(); threw := RunListener(l, next);
      case Submitting(id, sourceRevision, next) => var _ := Submit(id, sourceRevision); threw := RunListener(l, next);
      case Resetting(known, next) => var _ := Reset(known); threw := RunListener(l, next);
    }

    /** Refused on a closed session; a listener that throws is dropped and its error passed on. */
    method SubscribeListener(l: nat, reaction: Reaction) returns (subscribed: bool)
      modifies this
      ensures Now() == Subscribe(old(Now()), l, reaction)
      ensures subscribed <==> !old(closed) && !EndsInThrow(reaction)
      decreases reaction, 2
    {
      if closed { return false; }
      if l !in listeners { listeners := listeners + [l]; }
      logs := logs[l := (if l in logs then logs[l] else []) + [snapshot]];
      var threw := RunListener(l, reaction);
      return !threw;
    }

    method UnsubscribeListener(l: nat)
      modifies this
      ensures Now() == Unsubscribe(old(Now()), l)
    {
      listeners := Without(listeners, l);
    }

    // ----- messages

    method HandleMessage(revision: nat)
      modifies this
      ensures Now() == Message(old(Now()), revision)
    {
      if closed || revision <= snapshot { return; }
      notifications := notifications + [revision];
    }

    method DrainNotification(reactions: map<nat, Reaction>)
      requires notifications != []
      modifies this
      ensures Now() == Drain(old(Now()), reactions)
    {
      var queued := notifications[0];
      notifications := notifications[1..];
      if closed || queued <= snapshot { return; }
      NotifyListeners(queued, reactions);
    }

    // ----- the running mutation

    method SettleMutation()
      requires mutations != []
      modifies this
      ensures Now() == Settle(old(Now()))
    {
      var m := mutations[0];
      mutations := mutations[1..];
      if m.ResetRequest? {
        pendingResetCount := pendingResetCount - 1;
      } else if m.id in submissions && submissions[m.id] == m.flight {
        submissions := submissions - {m.id};
      }
    }

    method EnterPhase(phase: Phase)
      requires mutations != []
      modifies `mutations
      ensures Now() == Become(old(Now()), phase)
    {
      mutations := [WithPhase(mutations[0], phase)] + mutations[1..];
    }

    method StartMutation()
      requires mutations != []
      modifies this
      ensures Now() == Start(old(Now()))
    {
      if closed || (mutations[0].Submission? && mutations[0].id in acknowledged) { SettleMutation(); } else { EnterPhase(Fetching(1)); }
    }

    method WakeUp()
      requires mutations != [] && mutations[0].phase.Sleeping?
      modifies this
      ensures Now() == Wake(old(Now()))
    {
      if closed { SettleMutation(); } else { EnterPhase(Fetching(mutations[0].phase.attempt + 1)); }
    }

    /** A lost submission is retried up to the limit; a reply acknowledges the submission, or clears all
        acknowledgements after a reset, and is passed on to the listeners. */
    method ReceiveReply(received: Received, reactions: map<nat, Reaction>)
      requires mutations != [] && mutations[0].phase.Fetching?
      modifies this
      ensures Now() == Receive(old(Now()), maxAttempts, received, reactions)
    {
      var m := mutations[0];
      if received.Lost? && received.retryable && m.Submission? && m.phase.attempt < maxAttempts {
        EnterPhase(Sleeping(m.phase.attempt));
        return;
      }
      if received.Replied? {
        if m.ResetRequest? {
          acknowledged := {};
        } else if !closed {
          acknowledged := acknowledged + {m.id};
        }
        NotifyListeners(received.revision, reactions);
      }
      if mutations != [] { SettleMutation(); }
    }
  }
}
