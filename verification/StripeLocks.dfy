/** What the stripe locks are for: not what a get answers, which is right without them too,
    but that a put inside its section finds its blob where it left it. */
module StripeLocks {
  import opened Ids
  import opened Catalog
  import opened Protocol
  import opened ProtocolSafety
  import opened Runs

  const SHARD := 1

  /** The put has renamed its file into place and has yet to size it, and time passes. */
  lemma PutLingers(w: World, now: int) returns (states: seq<State>, steps: seq<Step>)
    requires now >= 0
    ensures Going(w, states, steps) && LonePut(Last(states), Job(w, 0).(phase := Sizing(0, None)))
    ensures Last(states).now == now && Last(states).blobs == map[O := 0]
  {
    states, steps := LonePutInstalls(w);
    states, steps := Take(w, states, steps, Other(Tick(now)));
  }

  /** A collection has the file for an orphan. */
  lemma CollectionQueries(w: World) returns (states: seq<State>, steps: seq<Step>)
    requires w.orphanGrace >= 0
    ensures Going(w, states, steps)
    ensures var s := Last(states);
      && s.puts == map[0 := Job(w, 0).(phase := Sizing(0, None))]
      && s.collections == map[0 := Collection(SHARD, {O}, 1, Requeried({}, w.orphanGrace + 1))]
      && s.blobs == map[O := 0] && s.inodes.Keys == {0} && s.inodes[0].mtime == 0
  {
    states, steps := PutLingers(w, w.orphanGrace + 1);
    ShardRangesPartition(SHARD, O);
    var found := {O};
    assert ShardKeys(Last(states).tables.outputs.Keys, SHARD) == {};
    states, steps := Take(w, states, steps, CollectBy(0, ScanShard(SHARD, w.orphanGrace + 1, found)));
    states, steps := Take(w, states, steps, CollectBy(0, Requery));
  }

  /** With the stripe excluding nobody, it takes the file from under the put. */
  lemma CollectionIntrudes(w: World) returns (states: seq<State>, steps: seq<Step>)
    requires !w.stripes && w.orphanGrace >= 0
    ensures Going(w, states, steps)
    ensures Last(states).puts == map[0 := Job(w, 0).(phase := Sizing(0, None))] && O !in Last(states).blobs
  {
    states, steps := CollectionQueries(w);
    states, steps := Take(w, states, steps, CollectBy(0, LockShard));
    states, steps := Take(w, states, steps, CollectBy(0, RemoveOrphan(O)));
  }

  /** The put's next step inside its section fails it. */
  predicate LosesItsBlob(s: State, t: Tid) {
    t in s.puts && s.puts[t].phase.Sizing? && ApplyReadSize(s, t).puts[t].phase.Failed?
  }

  /** No put fails for finding its blob gone when it sizes it, in every run, exactly when the
      stripes exclude. */
  lemma SectionsHoldIffStripes(w: World)
    requires Sound(w) && w.orphanGrace >= 0
    ensures w.stripes <==>
      forall states: seq<State>, steps: seq<Step>, n: nat, t: Tid | IsRun(w, states, steps) && n < |states| ::
        !LosesItsBlob(states[n], t)
  {
    if w.stripes {
      forall states: seq<State>, steps: seq<Step>, n: nat, t: Tid | IsRun(w, states, steps) && n < |states|
        ensures !LosesItsBlob(states[n], t)
      {
        if t in states[n].puts {
          InstallCannotFail(w, states, steps, n, t);
        }
      }
    } else {
      var states, steps := CollectionIntrudes(w);
      var n: nat := |states| - 1;
      assert LosesItsBlob(states[n], 0);
    }
  }
}
