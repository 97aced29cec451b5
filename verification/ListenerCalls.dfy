/** Calling the listeners of a session one by one, while calls add and release subscribers. */
module ListenerCalls {
  import opened Sequences
  import opened TrackerModel
  import opened SessionProtocol
  import opened Entries

  function StreamsAt(m: map<string, map<nat, Stream>>, s: string): map<nat, Stream> { if s in m then m[s] else map[] }

  lemma AddedOne(m: map<nat, Stream>, id: nat, x: Stream)
    requires id !in m
    ensures |m[id := x]| == |m| + 1
  {
    assert m[id := x].Keys == m.Keys + {id} && |m| == |m.Keys| && |m[id := x]| == |m[id := x].Keys|;
  }

  /** The stream of a live subscriber grows by the snapshot. */
  function Grown(live: map<nat, Stream>, id: nat, snapshot: Snapshot): map<nat, Stream> {
    if id in live then live[id := live[id].(received := live[id].received + [snapshot])] else live
  }

  lemma GrownSize(live: map<nat, Stream>, id: nat, snapshot: Snapshot)
    ensures Grown(live, id, snapshot).Keys == live.Keys && |Grown(live, id, snapshot)| == |live|
  {
    assert |live| == |live.Keys| && |Grown(live, id, snapshot)| == |Grown(live, id, snapshot).Keys|;
  }

  function Except(live: map<nat, Stream>, ids: set<nat>): map<nat, Stream> { map x | x in live && x !in ids :: live[x] }

  /** One map of subscribers per session, with no entry for an empty one. */
  lemma StoredStreams(all: map<string, map<nat, Stream>>, s: string, live: map<nat, Stream>)
    ensures StreamsAt(Store(all, s, KeptStreams(live)), s) == live
    ensures s in Store(all, s, KeptStreams(live)) ==> live != map[]
  {}

  lemma StoredTwice(all: map<string, map<nat, Stream>>, s: string, first: map<nat, Stream>, last: map<nat, Stream>)
    ensures Store(Store(all, s, KeptStreams(first)), s, KeptStreams(last)) == Store(all, s, KeptStreams(last))
  {}

  lemma StoredAsIs(all: map<string, map<nat, Stream>>, s: string)
    requires s in all ==> all[s] != map[]
    ensures Store(all, s, KeptStreams(StreamsAt(all, s))) == all
  {}

  lemma ExceptOneMore(live: map<nat, Stream>, ids: set<nat>, id: nat)
    ensures Without(Except(live, ids), id) == Except(live, ids + {id}) && Except(live, {}) == live
  {}

  /** What a called listener releases, one subscription after the other and last its own if it throws. */
  lemma ReleasesInTurn(live: map<nat, Stream>, id: nat, reactions: map<nat, Reaction>)
    ensures id !in reactions ==> Remaining(live, id, reactions) == live
    ensures id in reactions ==>
              var rest := Except(live, reactions[id].unsubscribes);
              Remaining(live, id, reactions) == if reactions[id].throws then Without(rest, id) else rest
  {}

  lemma ReplayReleases(added: map<nat, Stream>, id: nat, reaction: Reaction)
    ensures var rest := Except(added, reaction.unsubscribes - {id});
            AfterReplay(added, id, reaction) == if reaction.throws then Without(rest, id) else rest
  {}

  /** Those that calling the listener of `id` does not release. */
  function Remaining(live: map<nat, Stream>, id: nat, reactions: map<nat, Reaction>): map<nat, Stream> {
    map x | x in live && !Releases(id, x, reactions) :: live[x]
  }

  /** The live subscribers after the first n listed ones have been called in order. */
  function Called(before: map<nat, Stream>, ids: seq<nat>, n: nat, snapshot: Snapshot, reactions: map<nat, Reaction>): map<nat, Stream>
    requires n <= |ids|
  {
    if n == 0 then before
    else Remaining(Grown(Called(before, ids, n - 1, snapshot, reactions), ids[n - 1], snapshot), ids[n - 1], reactions)
  }

  function NumberSet(ids: seq<nat>): set<nat> { set id <- ids }

  lemma {:induction false} CalledInOrder(before: map<nat, Stream>, ids: seq<nat>, n: nat, snapshot: Snapshot, reactions: map<nat, Reaction>)
    requires Distinct(ids) && n <= |ids|
    ensures var after := Called(before, ids, n, snapshot, reactions);
            && (forall x :: x in after <==> x in before && forall i | 0 <= i < n :: !Releases(ids[i], x, reactions))
            && (forall x <- after :: after[x] ==
                 if x in ids[..n] then before[x].(received := before[x].received + [snapshot]) else before[x])
    decreases n
  {
    if n > 0 {
      CalledInOrder(before, ids, n - 1, snapshot, reactions);
      assert ids[..n] == ids[..n - 1] + [ids[n - 1]];
    }
  }

  /** Calling all subscribers, in whatever order, publishes the snapshot. */
  lemma CallingAllPublishes(before: map<nat, Stream>, ids: seq<nat>, snapshot: Snapshot, reactions: map<nat, Reaction>)
    requires Distinct(ids) && NumberSet(ids) == before.Keys
    ensures Called(before, ids, |ids|, snapshot, reactions) == PublishTo(before, snapshot, reactions)
  {
    assert ids[..|ids|] == ids;
    CalledInOrder(before, ids, |ids|, snapshot, reactions);
    forall x ensures (forall i | 0 <= i < |ids| :: !Releases(ids[i], x, reactions)) <==> Survives(before, x, reactions) {
      forall id | id in before ensures id in NumberSet(ids) {}
      forall i | 0 <= i < |ids| ensures ids[i] in before { assert ids[i] in NumberSet(ids); }
    }
  }

  lemma WithoutOne(m: map<nat, Stream>, id: nat)
    ensures |Without(m, id)| == |m| - if id in m then 1 else 0
    ensures id !in m ==> Without(m, id) == m
  {
    assert Without(m, id).Keys == m.Keys - {id} && |m| == |m.Keys|;
    assert |Without(m, id)| == |Without(m, id).Keys|;
  }

  lemma MissingId(all: set<nat>, ids: seq<nat>)
    requires Distinct(ids) && NumberSet(ids) <= all && NumberSet(ids) != all
    ensures exists id :: id in all && id !in NumberSet(ids)
  {
    var rest := all - NumberSet(ids);
    assert all == NumberSet(ids) + rest;
    if rest != {} { var id :| id in rest; }
  }

  lemma OneMoreId(all: set<nat>, ids: seq<nat>, id: nat)
    requires Distinct(ids) && NumberSet(ids) <= all && id in all && id !in NumberSet(ids)
    ensures Distinct(ids + [id]) && NumberSet(ids + [id]) == NumberSet(ids) + {id} <= all
    ensures |all - NumberSet(ids + [id])| < |all - NumberSet(ids)|
  {
    forall i | 0 <= i < |ids| ensures ids[i] != id { assert ids[i] in NumberSet(ids); }
    assert all - NumberSet(ids) == (all - NumberSet(ids + [id])) + {id};
  }

  method OtherThan(ids: set<nat>, done: set<nat>) returns (id: nat)
    requires done <= ids && done != ids
    ensures id in ids && id !in done && done + {id} <= ids && |ids - (done + {id})| < |ids - done|
  {
    assert ids == done + (ids - done);
    id :| id in ids && id !in done;
    assert ids - done == (ids - (done + {id})) + {id};
  }
}
