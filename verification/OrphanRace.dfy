/** The run that shows half of orphanGrace is needed. Two puts of one output: the slow
    one's pending file waits for the stripe while the other renames its own into place
    and commits, without hearing so. Eviction deletes that row and unlinks the blob; the
    slow put renames its older file into place and dies; a collection queries its
    references; and only then does the other put's retry record the row again. The blob
    under it is now two gaps old. */
module OrphanRace {
  import opened Ids
  import opened Catalog
  import opened Protocol
  import opened ProtocolSafety
  import opened OrphanGrace
  import opened Runs

  const SLOW: Tid := 1
  const OTHER: Tid := 2

  ghost predicate Going(w: World, states: seq<State>, steps: seq<Step>, gap: int) {
    gap > 0 && states != [] && TimelyRun(w, states, steps, gap)
  }

  lemma Take(w: World, states: seq<State>, steps: seq<Step>, gap: int, step: Step)
      returns (states': seq<State>, steps': seq<Step>)
    requires Going(w, states, steps, gap)
    requires Enabled(w, Last(states), step) && Timely(Apply(w, Last(states), step), gap)
    ensures Going(w, states', steps', gap)
    ensures Last(states') == Apply(w, Last(states), step)
    ensures |steps'| == |steps| + 1 && steps'[|steps|] == step && states'[|steps|] == Last(states)
  {
    states', steps' := states + [Apply(w, Last(states), step)], steps + [step];
  }

  lemma TakePut(w: World, states: seq<State>, steps: seq<Step>, gap: int, t: Tid, step: PutStep, next: State)
      returns (states': seq<State>, steps': seq<Step>)
    requires Going(w, states, steps, gap)
    requires PutEnabled(w, Last(states), t, step) && ApplyPut(w, Last(states), t, step) == next && Timely(next, gap)
    ensures Going(w, states', steps', gap) && Last(states') == next
  {
    states', steps' := Take(w, states, steps, gap, PutBy(t, step));
  }

  lemma Begin(w: World, states: seq<State>, steps: seq<Step>, gap: int, t: Tid)
      returns (states': seq<State>, steps': seq<Step>)
    requires Going(w, states, steps, gap)
    requires t !in Last(states).puts && t !in Last(states).pendings &&
             t !in Last(states).doomed && t !in Last(states).reaped
    requires Job(w, t).live !in Last(states).live
    ensures Going(w, states', steps', gap)
    ensures Last(states') == Begun(w, Last(states), t)
  {
    states', steps' := TakePut(w, states, steps, gap, t, StartPut(Job(w, t)), Begun(w, Last(states), t));
  }

  function Begun(w: World, s: State, t: Tid): State {
    s.(puts := s.puts[t := Job(w, t)], pendings := s.pendings[t := s.now])
  }

  /** A put starts and finishes compressing at once. */
  lemma Write(w: World, states: seq<State>, steps: seq<Step>, gap: int, t: Tid)
      returns (states': seq<State>, steps': seq<Step>)
    requires Going(w, states, steps, gap)
    requires t !in Last(states).puts && t !in Last(states).pendings &&
             t !in Last(states).doomed && t !in Last(states).reaped
    requires t !in Last(states).inodes && Job(w, t).live !in Last(states).live
    ensures Going(w, states', steps', gap)
    ensures Last(states') == Written(w, Last(states), t)
  {
    states', steps' := Begin(w, states, steps, gap, t);
    BegunThenWritten(w, Last(states), t);
    states', steps' := TakePut(w, states', steps', gap, t, FinishWriting(t), Written(w, Last(states), t));
  }

  lemma BegunThenWritten(w: World, s: State, t: Tid)
    ensures ApplyFinish(w, Begun(w, s, t), t, t) == Written(w, s, t)
  {
    assert Begun(w, s, t).pendings[t := s.now] == Begun(w, s, t).pendings;
    assert Begun(w, s, t).puts[t := Job(w, t).(phase := Waiting(t))] == Written(w, s, t).puts;
  }

  function Written(w: World, s: State, t: Tid): State {
    var p := Job(w, t);
    s.(puts := s.puts[t := p.(phase := Waiting(t))],
       pendings := s.pendings[t := s.now],
       inodes := s.inodes[t := Blob(O, w.encode(p.body), s.now)],
       live := s.live[p.live := p.body])
  }

  /** A put takes its stripe and finds no blob, */
  lemma Checks(w: World, states: seq<State>, steps: seq<Step>, gap: int, t: Tid)
      returns (states': seq<State>, steps': seq<Step>)
    requires Going(w, states, steps, gap)
    requires var s := Last(states);
      && t in s.puts && s.puts[t] == Job(w, t).(phase := Waiting(t))
      && StripeFree(s, StripeName(O)) && O !in s.blobs
    ensures Going(w, states', steps', gap)
    ensures Last(states') == var s := Last(states); s.(puts := s.puts[t := Job(w, t).(phase := Renaming(t))])
  {
    var s := Last(states);
    var p := Job(w, t);
    var locked := s.(puts := s.puts[t := p.(phase := Locked(t))]);
    states', steps' := TakePut(w, states, steps, gap, t, LockPut, locked);
    var checked := s.(puts := s.puts[t := p.(phase := Renaming(t))]);
    assert locked.puts[t := p.(phase := Renaming(t))] == checked.puts;
    states', steps' := TakePut(w, states', steps', gap, t, CheckBlob, checked);
  }

  /** and renames its pending file into place. */
  lemma Install(w: World, states: seq<State>, steps: seq<Step>, gap: int, t: Tid)
      returns (states': seq<State>, steps': seq<Step>)
    requires Going(w, states, steps, gap)
    requires var s := Last(states);
      && t in s.puts && s.puts[t] == Job(w, t).(phase := Waiting(t))
      && StripeFree(s, StripeName(O)) && O !in s.blobs
      && t in s.pendings && t in s.inodes && s.inodes[t].mtime >= s.now - gap
    ensures Going(w, states', steps', gap)
    ensures Last(states') == Renamed(w, Last(states), t)
  {
    var s := Last(states);
    states', steps' := Checks(w, states, steps, gap, t);
    assert Last(states').puts[t := Job(w, t).(phase := Sizing(s.inodes[t].mtime, None))] == Renamed(w, s, t).puts;
    states', steps' := TakePut(w, states', steps', gap, t, Rename, Renamed(w, s, t));
  }

  function Renamed(w: World, s: State, t: Tid): State
    requires t in s.inodes
  {
    s.(puts := s.puts[t := Job(w, t).(phase := Sizing(s.inodes[t].mtime, None))],
       pendings := s.pendings - {t},
       blobs := s.blobs[O := t])
  }

  /** At time 0 the slow put's file is written; a gap later the other put's is written and
      renamed into place. */
  lemma OtherInstalls(w: World, gap: int) returns (ss: seq<State>, steps: seq<Step>)
    requires gap > 0
    ensures Going(w, ss, steps, gap)
    ensures Last(ss) == Renamed(w, Written(w, Written(w, Empty(0), SLOW).(now := gap), OTHER), OTHER)
  {
    var s1 := Written(w, Empty(0), SLOW);
    var s2 := s1.(now := gap);
    ss, steps := Write(w, [Empty(0)], [], gap, SLOW);
    ss, steps := Take(w, ss, steps, gap, Other(Tick(gap)));
    assert forall path :: path in s2.live ==> path.suffix == SLOW;
    ss, steps := Write(w, ss, steps, gap, OTHER);
    ss, steps := Install(w, ss, steps, gap, OTHER);
  }

  /** What the rest of the race needs to know of where it stands. */
  ghost predicate Scene(w: World, s: State, now: int, slow: PutPhase, other: PutPhase) {
    && s.now == now
    && s.puts == map[SLOW := Job(w, SLOW).(phase := slow), OTHER := Job(w, OTHER).(phase := other)]
    && s.gets == map[] && s.collections == map[]
    && s.inodes.Keys == {SLOW, OTHER} && s.inodes[SLOW].mtime == 0
    && SLOW in s.pendings
  }

  lemma OtherSized(w: World, gap: int) returns (ss: seq<State>, steps: seq<Step>, size: int)
    requires gap > 0
    ensures Going(w, ss, steps, gap)
    ensures Scene(w, Last(ss), gap, Waiting(SLOW), Installed(gap, size, gap, 0))
    ensures Last(ss).evictions == map[] && Last(ss).blobs == map[O := OTHER]
    ensures Last(ss).tables == Tables(map[], map[], 0)
  {
    ss, steps := OtherInstalls(w, gap);
    var next := ApplyReadSize(Last(ss), OTHER);
    size := next.puts[OTHER].phase.compressedSize;
    assert next.puts == map[SLOW := Job(w, SLOW).(phase := Waiting(SLOW)),
                            OTHER := Job(w, OTHER).(phase := Installed(gap, size, gap, 0))];
    ss, steps := TakePut(w, ss, steps, gap, OTHER, ReadSize, next);
  }

  /** Its commit takes effect unheard. */
  lemma CommitsUnheard(w: World, gap: int) returns (ss: seq<State>, steps: seq<Step>, size: int)
    requires gap > 0
    ensures Going(w, ss, steps, gap)
    ensures Scene(w, Last(ss), gap, Waiting(SLOW), Installed(gap, size, gap, 1))
    ensures Last(ss).evictions == map[] && Last(ss).blobs == map[O := OTHER]
    ensures Last(ss).tables.outputs.Keys == {O} && Last(ss).tables.outputs[O].accessedAt == gap
  {
    ss, steps, size := OtherSized(w, gap);
    ss, steps := TakePut(w, ss, steps, gap, OTHER, CommitPut(false), ApplyCommit(Last(ss), OTHER, false));
  }

  lemma TakeEvict(w: World, states: seq<State>, steps: seq<Step>, gap: int, step: EvictStep)
      returns (states': seq<State>, steps': seq<Step>)
    requires Going(w, states, steps, gap) && EvictEnabled(w, Last(states), 0, step)
    ensures Going(w, states', steps', gap) && Last(states') == ApplyEvict(Last(states), 0, step)
  {
    EvictStepFrame(w, Last(states), 0, step);
    states', steps' := Take(w, states, steps, gap, EvictBy(0, step));
  }

  /** Eviction deletes the row and unlinks the blob. */
  lemma EvictionUnlinks(w: World, gap: int) returns (ss: seq<State>, steps: seq<Step>, size: int)
    requires gap > 0
    ensures Going(w, ss, steps, gap)
    ensures Scene(w, Last(ss), gap, Waiting(SLOW), Installed(gap, size, gap, 1))
    ensures Last(ss).evictions == map[] && Last(ss).blobs == map[]
    ensures Last(ss).tables.outputs == map[]
  {
    ss, steps, size := CommitsUnheard(w, gap);
    ss, steps := TakeEvict(w, ss, steps, gap, EvictRow(O, gap));
    ss, steps := TakeEvict(w, ss, steps, gap, LockEvict);
    ss, steps := TakeEvict(w, ss, steps, gap, EvictUnlink);
  }

  /** The slow put renames its older file into place, */
  lemma SlowRenames(w: World, gap: int) returns (ss: seq<State>, steps: seq<Step>, size: int)
    requires gap > 0
    ensures Going(w, ss, steps, gap)
    ensures var s := Last(ss);
      && s.now == gap && SLOW in s.puts
      && s.puts - {SLOW} == map[OTHER := Job(w, OTHER).(phase := Installed(gap, size, gap, 1))]
      && s.gets == map[] && s.collections == map[] && s.evictions == map[]
      && s.blobs == map[O := SLOW] && SLOW in s.inodes && s.inodes[SLOW].mtime == 0
      && s.tables.outputs == map[]
  {
    ss, steps, size := EvictionUnlinks(w, gap);
    ss, steps := Install(w, ss, steps, gap, SLOW);
  }

  /** and dies. */
  lemma SlowInstalls(w: World, gap: int) returns (ss: seq<State>, steps: seq<Step>, size: int)
    requires gap > 0
    ensures Going(w, ss, steps, gap)
    ensures var s := Last(ss);
      && s.now == gap && s.puts == map[OTHER := Job(w, OTHER).(phase := Installed(gap, size, gap, 1))]
      && s.gets == map[] && s.collections == map[] && s.evictions == map[]
      && s.blobs == map[O := SLOW] && SLOW in s.inodes && s.inodes[SLOW].mtime == 0
      && s.tables.outputs == map[]
  {
    ss, steps, size := SlowRenames(w, gap);
    var next := Last(ss).(puts := Last(ss).puts - {SLOW});
    ss, steps := TakePut(w, ss, steps, gap, SLOW, CrashPut, next);
  }

  lemma TakeCollect(w: World, states: seq<State>, steps: seq<Step>, gap: int, step: CollectStep)
      returns (states': seq<State>, steps': seq<Step>)
    requires Going(w, states, steps, gap) && CollectEnabled(w, Last(states), 0, step)
    ensures Going(w, states', steps', gap) && Last(states') == ApplyCollect(w, Last(states), 0, step)
  {
    CollectStepFrame(w, Last(states), 0, step);
    states', steps' := Take(w, states, steps, gap, CollectBy(0, step));
  }

  lemma RaceOrphan(s: State)
    requires s.blobs == map[O := SLOW] && s.tables.outputs == map[]
    ensures O in ShardBlobs(s, 1) && ShardKeys(s.tables.outputs.Keys, 1) == {}
    ensures StripeName(O) == ShardPrefix(1)
  {
    ShardRangesPartition(1, O);
  }

  /** A gap later a collection finds the file unreferenced, and queries again. */
  lemma CollectionQueries(w: World, gap: int) returns (ss: seq<State>, steps: seq<Step>, size: int)
    requires gap > 0
    ensures Going(w, ss, steps, gap)
    ensures var s := Last(ss);
      && s.now == 2 * gap && s.puts == map[OTHER := Job(w, OTHER).(phase := Installed(gap, size, gap, 1))]
      && s.gets == map[] && s.evictions == map[]
      && s.collections == map[0 := Collection(1, {O}, 2 * gap - w.orphanGrace, Requeried({}, 2 * gap))]
      && s.blobs == map[O := SLOW] && SLOW in s.inodes && s.inodes[SLOW].mtime == 0
  {
    ss, steps, size := SlowInstalls(w, gap);
    ss, steps := Take(w, ss, steps, gap, Other(Tick(2 * gap)));
    RaceOrphan(Last(ss));
    ss, steps := TakeCollect(w, ss, steps, gap, ScanShard(1, 2 * gap, {O}));
    ss, steps := TakeCollect(w, ss, steps, gap, Requery);
  }

  /** Then the other put's retry records its row. */
  lemma RetryRecords(w: World, gap: int) returns (ss: seq<State>, steps: seq<Step>)
    requires gap > 0
    ensures Going(w, ss, steps, gap)
    ensures var s := Last(ss);
      && s.puts == map[OTHER := Job(w, OTHER).(phase := Committed)] && s.gets == map[] && s.evictions == map[]
      && O in s.tables.outputs
      && s.collections == map[0 := Collection(1, {O}, 2 * gap - w.orphanGrace, Requeried({}, 2 * gap))]
      && s.blobs == map[O := SLOW] && SLOW in s.inodes && s.inodes[SLOW].mtime == 0
  {
    var size;
    ss, steps, size := CollectionQueries(w, gap);
    ss, steps := TakePut(w, ss, steps, gap, OTHER, CommitPut(true), ApplyCommit(Last(ss), OTHER, true));
  }

  /** And the collection takes the stripe. */
  lemma CollectionArrives(w: World, gap: int) returns (ss: seq<State>, steps: seq<Step>)
    requires gap > 0
    ensures Going(w, ss, steps, gap)
    ensures var s := Last(ss);
      && s.puts == map[OTHER := Job(w, OTHER).(phase := Committed)] && O in s.tables.outputs
      && s.collections == map[0 := Collection(1, {O}, 2 * gap - w.orphanGrace, ShardLocked({}, 2 * gap))]
      && s.blobs == map[O := SLOW] && SLOW in s.inodes && s.inodes[SLOW].mtime == 0
  {
    ss, steps := RetryRecords(w, gap);
    ss, steps := TakeCollect(w, ss, steps, gap, LockShard);
  }

  /** With any larger gap allowed, a run whose puts are all that timely has orphan
      collection unlink the blob of an output that has a row. */
  lemma MoreThanHalfGraceIsTooLong(w: World, gap: int) returns (states: seq<State>, steps: seq<Step>, n: nat)
    requires 0 <= w.orphanGrace < 2 * gap
    ensures TimelyRun(w, states, steps, gap) && n < |steps| && TakesLiveBlob(states[n], steps[n])
  {
    states, steps := CollectionArrives(w, gap);
    n := |steps|;
    states, steps := Take(w, states, steps, gap, CollectBy(0, RemoveOrphan(O)));
  }

  /** The exact bound: every timely run spares every live blob if and only if two gaps fit
      in orphanGrace. */
  lemma SparesLiveBlobsIffHalfGrace(w: World, gap: int)
    requires Sound(w) && gap >= 0 && w.orphanGrace >= 0
    ensures 2 * gap <= w.orphanGrace <==>
      forall states, steps, n: nat | TimelyRun(w, states, steps, gap) && n < |steps| ::
        !TakesLiveBlob(states[n], steps[n])
  {
    if 2 * gap <= w.orphanGrace {
      forall states, steps, n: nat | TimelyRun(w, states, steps, gap) && n < |steps|
        ensures !TakesLiveBlob(states[n], steps[n])
      {
        HalfGraceSuffices(w, states, steps, n, gap);
      }
    } else {
      var states, steps, n := MoreThanHalfGraceIsTooLong(w, gap);
    }
  }
}
