/** What puts leave behind, and what the other processes of the protocol come to when nothing
    disturbs them: eviction, upkeep of pending files, and orphan collection. */
module Chores {
  import opened Ids
  import opened Catalog
  import opened Protocol
  import opened ProtocolSafety
  import opened PutThenGet

  lemma Goes(w: World, from: State, steps: seq<Step>, mid: State, step: Step)
      returns (steps': seq<Step>, next: State)
    requires Leads(w, from, steps, mid) && Enabled(w, mid, step)
    ensures next == Apply(w, mid, step) && Leads(w, from, steps', next)
  {
    steps', next := steps + [step], Apply(w, mid, step);
    Extend(w, from, steps, mid, step);
  }

  /******* What a put leaves behind *******/

  predicate IsOver(phase: PutPhase) {
    phase.Done? || phase.Failed?
  }

  /** A put goes past writing only with a body of the announced size, tries its transaction
      at most three times, and has no pending file once it is over, nor where it has no
      other file to fall back on. */
  predicate IsTidy(s: State, t: Tid, p: Put) {
    && (!p.phase.Writing? && !p.phase.Failed? ==> |p.body| == p.bodySize)
    && (p.phase.Installed? ==> 0 <= p.phase.attempts <= 3)
    && (IsOver(p.phase) || IsLastResort(p.phase) ==> t !in s.pendings)
  }

  /** The put's own file is in place already, or was gone when it should have been put there. */
  predicate IsLastResort(phase: PutPhase) {
    (phase.Adopting? && phase.last) || (phase.Sizing? && phase.spare.None?)
  }

  ghost predicate PutsTidy(s: State) {
    forall t :: t in s.puts ==> IsTidy(s, t, s.puts[t])
  }

  lemma SectionTidiesItself(w: World, s: State, t: Tid, step: PutStep)
    requires PutEnabled(w, s, t, step) && InSection(step) && IsTidy(s, t, s.puts[t])
    ensures var s' := ApplyPut(w, s, t, step); t in s'.puts && IsTidy(s', t, s'.puts[t])
  {
  }

  lemma RestTidiesItself(w: World, s: State, t: Tid, step: PutStep)
    requires PutEnabled(w, s, t, step) && !InSection(step) && (t in s.puts ==> IsTidy(s, t, s.puts[t]))
    ensures var s' := ApplyPut(w, s, t, step); t in s'.puts ==> IsTidy(s', t, s'.puts[t])
  {
  }

  lemma PutTidiesItself(w: World, s: State, t: Tid, step: PutStep)
    requires PutEnabled(w, s, t, step) && (t in s.puts ==> IsTidy(s, t, s.puts[t]))
    ensures var s' := ApplyPut(w, s, t, step); t in s'.puts ==> IsTidy(s', t, s'.puts[t])
  {
    if InSection(step) {
      SectionTidiesItself(w, s, t, step);
    } else {
      RestTidiesItself(w, s, t, step);
    }
  }

  lemma PutTouchesOwnPending(w: World, s: State, t: Tid, step: PutStep)
    requires PutEnabled(w, s, t, step)
    ensures forall u :: u != t ==> (u in ApplyPut(w, s, t, step).pendings <==> u in s.pendings)
  {
  }

  lemma OthersStayTidy(s: State, s': State, t: Tid)
    requires PutsTidy(s) && PutFrame(s, s', t)
    requires forall u :: u != t ==> (u in s'.pendings <==> u in s.pendings)
    requires t in s'.puts ==> IsTidy(s', t, s'.puts[t])
    ensures PutsTidy(s')
  {
  }

  lemma NoMorePendings(s: State, s': State)
    requires PutsTidy(s) && s'.puts == s.puts && s'.pendings.Keys <= s.pendings.Keys
    ensures PutsTidy(s')
  {
  }

  lemma PutStepStaysTidy(w: World, s: State, t: Tid, step: PutStep)
    requires PutsTidy(s) && PutEnabled(w, s, t, step)
    ensures PutsTidy(ApplyPut(w, s, t, step))
  {
    PutTidiesItself(w, s, t, step);
    PutTouchesOwnPending(w, s, t, step);
    PutStepFrame(w, s, t, step);
    OthersStayTidy(s, ApplyPut(w, s, t, step), t);
  }

  lemma OtherStepStaysTidy(w: World, s: State, step: OtherStep)
    requires PutsTidy(s) && OtherEnabled(w, s, step)
    ensures PutsTidy(ApplyOther(s, step))
  {
    OtherStepFrame(w, s, step);
    NoMorePendings(s, ApplyOther(s, step));
  }

  lemma GetStepStaysTidy(w: World, s: State, t: Tid, step: GetStep)
    requires PutsTidy(s) && GetEnabled(w, s, t, step)
    ensures PutsTidy(ApplyGet(w, s, t, step))
  {
    GetStepFrame(w, s, t, step);
    NoMorePendings(s, ApplyGet(w, s, t, step));
  }

  lemma StepStaysTidy(w: World, s: State, step: Step)
    requires PutsTidy(s) && Enabled(w, s, step)
    ensures PutsTidy(Apply(w, s, step))
  {
    match step
    case PutBy(t, p) => PutStepStaysTidy(w, s, t, p);
    case GetBy(t, g) => GetStepStaysTidy(w, s, t, g);
    case EvictBy(t, e) => EvictStepFrame(w, s, t, e);
    case CollectBy(t, c) => CollectStepFrame(w, s, t, c);
    case Other(o) => OtherStepStaysTidy(w, s, o);
  }

  /** In every run: a put that is over has no pending file, one that is past writing had a
      body of the announced size, and the transaction is tried three times at most, and
      again as long as it was tried fewer. */
  lemma {:induction false} PutsStayTidy(w: World, states: seq<State>, steps: seq<Step>, n: nat, t: Tid)
    requires IsRun(w, states, steps) && n < |states| && t in states[n].puts
    ensures
      var s, p := states[n], states[n].puts[t];
      && (p.phase.Done? || p.phase.Failed? ==> t !in s.pendings)
      && (p.phase.Committed? || p.phase.Done? ==> |p.body| == p.bodySize)
      && (p.phase.Installed? ==> 0 <= p.phase.attempts <= 3)
      && (p.phase.Installed? ==> (PutEnabled(w, s, t, BusyPut) <==> p.phase.attempts < 3))
      && (forall ok :: p.phase.Installed? ==> (PutEnabled(w, s, t, CommitPut(ok)) <==> p.phase.attempts < 3))
  {
    RunStaysTidy(w, states, steps, n);
  }

  lemma {:induction false} RunStaysTidy(w: World, states: seq<State>, steps: seq<Step>, n: nat)
    requires IsRun(w, states, steps) && n < |states|
    ensures PutsTidy(states[n])
  {
    if n > 0 {
      var m: nat := n - 1;
      RunStaysTidy(w, states, steps, m);
      StepStaysTidy(w, states[m], steps[m]);
    }
  }

  /** Inside its stripe a put fails only with nothing to install or adopt: no blob is there,
      and its own file is gone. */
  lemma InstallFailsOnlyBare(w: World, states: seq<State>, steps: seq<Step>, n: nat, t: Tid, step: PutStep)
    requires IsRun(w, states, steps) && n < |steps| && steps[n] == PutBy(t, step) && InSection(step)
    requires states[n + 1].puts[t].phase.Failed?
    ensures !HasBlob(states[n], states[n].puts[t].output) && t !in states[n].pendings
  {
    RunStaysTidy(w, states, steps, n);
    InstallFailsBare(w, states[n], t, step);
  }

  lemma InstallFailsBare(w: World, s: State, t: Tid, step: PutStep)
    requires PutsTidy(s) && PutEnabled(w, s, t, step) && InSection(step)
    requires ApplyPut(w, s, t, step).puts[t].phase.Failed?
    ensures !HasBlob(s, s.puts[t].output) && t !in s.pendings
  {
    assert IsTidy(s, t, s.puts[t]);
  }

  /** How many more steps a put can take inside its stripe. */
  function SectionLeft(phase: PutPhase): nat {
    match phase
    case Locked(_) => 6
    case Adopting(_, last) => if last then 2 else 5
    case Sizing(_, spare) => if spare.Some? then 4 else 1
    case Renaming(_) => 3
    case _ => 0
  }

  /** So it leaves its stripe within six of its own steps. */
  lemma SectionEnds(w: World, s: State, t: Tid, step: PutStep)
    requires PutEnabled(w, s, t, step) && (step.CheckBlob? || InSection(step))
    ensures SectionLeft(ApplyPut(w, s, t, step).puts[t].phase) < SectionLeft(s.puts[t].phase) <= 6
    ensures SectionLeft(ApplyPut(w, s, t, step).puts[t].phase) == 0 ==>
      ApplyPut(w, s, t, step).puts[t].phase.Installed? || ApplyPut(w, s, t, step).puts[t].phase.Failed?
  {
  }

  /** And every try of its transaction that it does not hear the success of counts. */
  lemma EveryTryCounts(w: World, s: State, t: Tid, step: PutStep)
    requires PutEnabled(w, s, t, step) && (step.BusyPut? || step == CommitPut(false))
    ensures
      var before, after := s.puts[t].phase, ApplyPut(w, s, t, step).puts[t].phase;
      before.Installed? && after == before.(attempts := before.attempts + 1)
  {
  }

  /** A put may fail wherever it is until it hears that its record is in the catalog, */
  lemma MayFailUntilRecorded(w: World, s: State, t: Tid)
    requires t in s.puts
    ensures PutEnabled(w, s, t, FailPut) <==>
      !s.puts[t].phase.Committed? && !s.puts[t].phase.Done? && !s.puts[t].phase.Failed?
    ensures PutEnabled(w, s, t, FailPut) ==> ApplyPut(w, s, t, FailPut).puts[t].phase.Failed?
  {
  }

  /** and wherever it fails, its pending file and its live file go, and catalog, blobs and
      materialized files are as they were. */
  lemma FailureCleansUp(w: World, s: State, t: Tid, step: PutStep)
    requires PutEnabled(w, s, t, step) && t in s.puts && !s.puts[t].phase.Failed?
    requires t in ApplyPut(w, s, t, step).puts && ApplyPut(w, s, t, step).puts[t].phase.Failed?
    ensures
      var s' := ApplyPut(w, s, t, step);
      && s'.pendings == s.pendings - {t} && s'.live == s.live - {s.puts[t].live}
      && s'.tables == s.tables && s'.blobs == s.blobs && s'.materialized == s.materialized
  {
  }

  /** Whenever a put writes its pending file, upkeep lets it be for as long as the mtime
      interval, and no longer. */
  lemma WritingKeepsFresh(w: World, s: State, t: Tid, step: PutStep, later: int)
    requires PutEnabled(w, s, t, step) && (step.StartPut? || step.WritePending? || step.FinishWriting?)
    requires t in ApplyPut(w, s, t, step).pendings
    ensures OtherEnabled(w, ApplyPut(w, s, t, step).(now := later), JudgePending(t)) <==>
      later > s.now + w.mtimeInterval
  {
  }

  /** A pending file whose put is gone is removed by upkeep once it is old enough, and
      nothing else is. */
  lemma UpkeepReaps(w: World, s: State, t: Tid) returns (steps: seq<Step>, next: State)
    requires t in s.pendings && s.pendings[t] < s.now - w.mtimeInterval
    ensures Leads(w, s, steps, next)
    ensures next == s.(pendings := s.pendings - {t}, doomed := s.doomed + {t}, reaped := s.reaped + {t})
  {
    steps, next := Goes(w, s, [], s, Other(JudgePending(t)));
    steps, next := Goes(w, s, steps, next, Other(ReapPending(t)));
  }

  /** Whatever a process is at, it may crash, and nothing but itself goes with it. */
  lemma AnyoneMayCrash(w: World, s: State, t: Tid)
    ensures t in s.puts ==> PutEnabled(w, s, t, CrashPut) && ApplyPut(w, s, t, CrashPut) == s.(puts := s.puts - {t})
    ensures t in s.gets ==> GetEnabled(w, s, t, CrashGet) && ApplyGet(w, s, t, CrashGet) == s.(gets := s.gets - {t})
    ensures t in s.evictions ==>
      EvictEnabled(w, s, t, CrashEvict) && ApplyEvict(s, t, CrashEvict) == s.(evictions := s.evictions - {t})
    ensures t in s.collections ==>
      CollectEnabled(w, s, t, CollectStep.LeaveShard) &&
      ApplyCollect(w, s, t, CollectStep.LeaveShard) == s.(collections := s.collections - {t})
  {
  }

  /** Whoever opens, takes over, installs, sizes or unlinks a blob is inside its stripe. */
  lemma BlobsOnlyInStripe(w: World, s: State, t: Tid)
    requires ProcessesFit(w, s)
    ensures forall step: PutStep :: PutEnabled(w, s, t, step) && (step.CheckBlob? || InSection(step)) ==>
      PutHolds(s.puts[t], StripeName(s.puts[t].output))
    ensures forall step: GetStep :: GetEnabled(w, s, t, step) && (step.OpenBlob? || step.DropUnlink?) ==>
      GetHolds(s.gets[t], StripeName(s.gets[t].output))
    ensures EvictEnabled(w, s, t, EvictUnlink) ==>
      EvictionHolds(s.evictions[t], StripeName(s.evictions[t].output))
    ensures forall o :: CollectEnabled(w, s, t, RemoveOrphan(o)) ==> CollectionHolds(s.collections[t], StripeName(o))
  {
    forall o | CollectEnabled(w, s, t, RemoveOrphan(o))
      ensures CollectionHolds(s.collections[t], StripeName(o))
    {
      CollectionHoldsItsOutputs(s.collections[t], o);
    }
  }

  /** Age expiry can take exactly the rows older than its cutoff, and takes those it names. */
  lemma ExpiryTakesOld(w: World, s: State, outputs: set<Bytes>, entries: set<Bytes>, cutoff: int)
    ensures OtherEnabled(w, s, ExpireRows(outputs, entries, cutoff)) <==>
      && (forall o :: o in outputs ==> o in s.tables.outputs && s.tables.outputs[o].accessedAt < cutoff)
      && (forall a :: a in entries ==> a in s.tables.entries && s.tables.entries[a].accessedAt < cutoff)
    ensures ApplyOther(s, ExpireRows(outputs, entries, cutoff)) == s.(tables := Tables(
      s.tables.outputs - outputs, s.tables.entries - entries, s.tables.sequence))
  {
  }

  /** A flush of access times touches the rows it names, and nothing else. */
  lemma FlushTouches(w: World, s: State, entries: map<Bytes, int>, outputs: map<Bytes, int>)
    ensures OtherEnabled(w, s, TouchRows(entries, outputs))
    ensures
      var s' := ApplyOther(s, TouchRows(entries, outputs));
      s' == s.(tables := s'.tables) && Touched(s.tables, s'.tables, entries, outputs)
  {
  }

  /******* An eviction left alone *******/

  /** Eviction can delete a row exactly when nothing read the output after it was planned. */
  lemma PlanIsRechecked(w: World, s: State, t: Tid, o: Bytes, plannedAt: int)
    requires t !in s.evictions
    ensures EvictEnabled(w, s, t, EvictRow(o, plannedAt)) <==>
      o in s.tables.outputs && s.tables.outputs[o].accessedAt <= plannedAt
  {
  }

  lemma SetThenDrop<V>(m: map<Tid, V>, t: Tid, v: V)
    requires t !in m
    ensures m[t := v] - {t} == m
  {
  }

  lemma EvictionStaysFree(s: State, now: State, t: Tid, o: Bytes, name: string)
    requires now.puts == s.puts && now.gets == s.gets && now.collections == s.collections
    requires now.evictions == s.evictions[t := Eviction(o, false)] && StripeFree(s, name)
    ensures StripeFree(now, name)
  {
  }

  /** Then its row goes, and its blob, and nothing else does. */
  lemma EvictionEvicts(w: World, s: State, t: Tid, o: Bytes, plannedAt: int)
      returns (steps: seq<Step>, next: State)
    requires t !in s.evictions && o in s.tables.outputs && s.tables.outputs[o].accessedAt <= plannedAt
    requires StripeFree(s, StripeName(o))
    ensures Leads(w, s, steps, next)
    ensures next == s.(tables := s.tables.(outputs := s.tables.outputs - {o}), blobs := s.blobs - {o})
  {
    steps, next := Goes(w, s, [], s, EvictBy(t, EvictRow(o, plannedAt)));
    EvictionStaysFree(s, next, t, o, StripeName(o));
    steps, next := Goes(w, s, steps, next, EvictBy(t, LockEvict));
    SetTwice(s.evictions, t, Eviction(o, false), Eviction(o, true));
    steps, next := Goes(w, s, steps, next, EvictBy(t, EvictUnlink));
    SetThenDrop(s.evictions, t, Eviction(o, true));
  }

  /******* A collection left alone *******/

  /** Where the collection stands: these blobs are gone and everything else is as it was. */
  ghost predicate CollectAt(s: State, now: State, t: Tid, c: Collection, gone: set<Bytes>) {
    && now == s.(collections := now.collections, blobs := now.blobs)
    && now.collections == s.collections[t := c] && now.blobs == s.blobs - gone
  }

  /** The blob is there, no row named it when the shard was queried again, and it is old. */
  predicate IsDue(s: State, c: Collection, o: Bytes) {
    && o in s.blobs && s.blobs[o] in s.inodes && s.inodes[s.blobs[o]].mtime < c.cutoff
    && c.phase.ShardLocked? && o !in c.phase.referenced
  }

  lemma RemovesOne(w: World, s: State, now: State, t: Tid, c: Collection, gone: set<Bytes>, o: Bytes)
    requires t !in s.collections && CollectAt(s, now, t, c, gone)
    requires IsDue(s, c, o) && o in c.candidates && o !in gone
    ensures CollectEnabled(w, now, t, RemoveOrphan(o))
    ensures CollectAt(s, ApplyCollect(w, now, t, RemoveOrphan(o)), t, c.(candidates := c.candidates - {o}), gone + {o})
  {
    SetTwice(s.collections, t, c, c.(candidates := c.candidates - {o}));
    assert s.blobs - gone - {o} == s.blobs - (gone + {o});
  }

  ghost predicate AllDue(s: State, c: Collection, todo: set<Bytes>) {
    todo <= c.candidates && forall o :: o in todo ==> IsDue(s, c, o)
  }

  lemma DueWithout(s: State, c: Collection, todo: set<Bytes>, o: Bytes)
    requires AllDue(s, c, todo)
    ensures AllDue(s, c.(candidates := c.candidates - {o}), todo - {o})
  {
  }

  /** Where removing stands: these are gone, and those are due. */
  ghost predicate Removing(w: World, s: State, steps: seq<Step>, now: State, t: Tid, c: Collection, gone: set<Bytes>,
                           todo: set<Bytes>)
  {
    && Leads(w, s, steps, now) && t !in s.collections && CollectAt(s, now, t, c, gone)
    && AllDue(s, c, todo) && todo !! gone
  }

  lemma RemovesNext(w: World, s: State, before: seq<Step>, now: State, t: Tid, c: Collection, gone: set<Bytes>,
                    todo: set<Bytes>, o: Bytes)
      returns (steps: seq<Step>, next: State, c': Collection)
    requires Removing(w, s, before, now, t, c, gone, todo) && o in todo
    ensures Removing(w, s, steps, next, t, c', gone + {o}, todo - {o})
  {
    c' := c.(candidates := c.candidates - {o});
    DueWithout(s, c, todo, o);
    RemovesOne(w, s, now, t, c, gone, o);
    steps, next := Goes(w, s, before, now, CollectBy(t, RemoveOrphan(o)));
  }

  lemma {:induction false} RemovesAll(
      w: World, s: State, before: seq<Step>, now: State, t: Tid, c: Collection, gone: set<Bytes>, todo: set<Bytes>,
      all: set<Bytes>)
      returns (steps: seq<Step>, next: State, c': Collection)
    requires Removing(w, s, before, now, t, c, gone, todo) && all == gone + todo
    ensures Removing(w, s, steps, next, t, c', all, {})
    decreases |todo|
  {
    if todo == {} {
      steps, next, c' := before, now, c;
      assert all == gone;
    } else {
      var o :| o in todo;
      steps, next, c' := RemovesNext(w, s, before, now, t, c, gone, todo, o);
      assert gone + {o} + (todo - {o}) == gone + todo;
      steps, next, c' := RemovesAll(w, s, steps, next, t, c', gone + {o}, todo - {o}, all);
    }
  }

  /** The shard's blobs that no row names and that were last written before the grace. */
  function DueInShard(w: World, s: State, shard: int): set<Bytes> {
    set o | o in s.blobs && o != [] && o[0] as int == shard && o !in s.tables.outputs &&
            s.blobs[o] in s.inodes && s.inodes[s.blobs[o]].mtime < s.now - w.orphanGrace
  }

  /** The collection of a shard that has listed these files, and has these rows named. */
  function Listing(w: World, s: State, shard: int, found: set<Bytes>, phase: CollectPhase): Collection {
    Collection(shard, found, s.now - w.orphanGrace, phase)
  }

  lemma DueAre(w: World, s: State, shard: int, found: set<Bytes>, named: set<Bytes>)
    requires 0 <= shard < 256 && found == ShardBlobs(s, shard) && named == ShardKeys(s.tables.outputs.Keys, shard)
    ensures AllDue(s, Listing(w, s, shard, found, ShardLocked(named, s.now)), DueInShard(w, s, shard))
  {
    forall o | o in DueInShard(w, s, shard)
      ensures o in found && IsDue(s, Listing(w, s, shard, found, ShardLocked(named, s.now)), o)
    {
      ShardRangesPartition(shard, o);
    }
  }

  lemma CollectionStaysFree(s: State, now: State, t: Tid, c: Collection, name: string)
    requires CollectAt(s, now, t, c, {}) && !c.phase.ShardLocked? && StripeFree(s, name)
    ensures StripeFree(now, name)
  {
  }

  lemma Scans(w: World, s: State, t: Tid, shard: int, found: set<Bytes>)
    requires CollectEnabled(w, s, t, ScanShard(shard, s.now, found))
    ensures CollectAt(s, ApplyCollect(w, s, t, ScanShard(shard, s.now, found)), t,
                      Listing(w, s, shard, found, Scanned), {})
  {
    assert s.blobs - {} == s.blobs;
  }

  lemma Requeries(w: World, s: State, now: State, t: Tid, shard: int, found: set<Bytes>, named: set<Bytes>)
    requires t !in s.collections && 0 <= shard < 256 && CollectAt(s, now, t, Listing(w, s, shard, found, Scanned), {})
    requires named == ShardKeys(s.tables.outputs.Keys, shard)
    ensures CollectEnabled(w, now, t, Requery)
    ensures CollectAt(s, ApplyCollect(w, now, t, Requery), t, Listing(w, s, shard, found, Requeried(named, s.now)), {})
  {
    SetTwice(s.collections, t, Listing(w, s, shard, found, Scanned),
                 Listing(w, s, shard, found, Requeried(named, s.now)));
  }

  lemma Locks(w: World, s: State, now: State, t: Tid, shard: int, found: set<Bytes>, named: set<Bytes>)
    requires t !in s.collections && 0 <= shard < 256 && StripeFree(s, OutputShard(ShardPrefix(shard)))
    requires CollectAt(s, now, t, Listing(w, s, shard, found, Requeried(named, s.now)), {})
    ensures CollectEnabled(w, now, t, CollectStep.LockShard)
    ensures CollectAt(s, ApplyCollect(w, now, t, CollectStep.LockShard), t,
                      Listing(w, s, shard, found, ShardLocked(named, s.now)), {})
  {
    CollectionStaysFree(s, now, t, Listing(w, s, shard, found, Requeried(named, s.now)),
                        OutputShard(ShardPrefix(shard)));
    SetTwice(s.collections, t, Listing(w, s, shard, found, Requeried(named, s.now)),
                 Listing(w, s, shard, found, ShardLocked(named, s.now)));
  }

  lemma CollectionLocks(w: World, s: State, t: Tid, shard: int, found: set<Bytes>, named: set<Bytes>)
      returns (steps: seq<Step>, next: State)
    requires CollectEnabled(w, s, t, ScanShard(shard, s.now, found)) && named == ShardKeys(s.tables.outputs.Keys, shard)
    requires StripeFree(s, OutputShard(ShardPrefix(shard)))
    ensures Leads(w, s, steps, next)
    ensures CollectAt(s, next, t, Listing(w, s, shard, found, ShardLocked(named, s.now)), {})
  {
    Scans(w, s, t, shard, found);
    steps, next := Goes(w, s, [], s, CollectBy(t, ScanShard(shard, s.now, found)));
    Requeries(w, s, next, t, shard, found, named);
    steps, next := Goes(w, s, steps, next, CollectBy(t, Requery));
    Locks(w, s, next, t, shard, found, named);
    steps, next := Goes(w, s, steps, next, CollectBy(t, CollectStep.LockShard));
  }

  lemma Leaves(w: World, s: State, now: State, t: Tid, c: Collection, gone: set<Bytes>)
    requires t !in s.collections && CollectAt(s, now, t, c, gone)
    ensures CollectEnabled(w, now, t, CollectStep.LeaveShard)
    ensures ApplyCollect(w, now, t, CollectStep.LeaveShard) == s.(blobs := s.blobs - gone)
  {
    SetThenDrop(s.collections, t, c);
  }

  /** A collection of a shard takes exactly its old blobs that no row names. */
  lemma CollectionCollects(w: World, s: State, t: Tid, shard: int) returns (steps: seq<Step>, next: State)
    requires t !in s.collections && 0 <= shard < 256 && StripeFree(s, OutputShard(ShardPrefix(shard)))
    ensures Leads(w, s, steps, next) && next == s.(blobs := s.blobs - DueInShard(w, s, shard))
  {
    var found, named, due := ShardBlobs(s, shard), ShardKeys(s.tables.outputs.Keys, shard), DueInShard(w, s, shard);
    DueAre(w, s, shard, found, named);
    steps, next := CollectionLocks(w, s, t, shard, found, named);
    var c := Listing(w, s, shard, found, ShardLocked(named, s.now));
    var c';
    steps, next, c' := RemovesAll(w, s, steps, next, t, c, {}, due, due);
    Leaves(w, s, next, t, c', due);
    steps, next := Goes(w, s, steps, next, CollectBy(t, CollectStep.LeaveShard));
  }
}
