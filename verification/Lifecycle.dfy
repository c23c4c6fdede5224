/** Runs of the cache as processes: opening a store, closing it and adopting its retained
    files, and everything that removes run directories, run rows or retained files. Four
    mechanisms cooperate: the lifecycle lock, each run's run.lock, its row, and the
    stripes. Who holds a lock is read off the processes; a crash ends the holder, and with
    it the lock. */
module Lifecycle {
  import opened Ids

  type RunId = nat
  type Tid = nat

  /** One run. `kept` is whether closing found, or could not rule out, a retained file. */
  datatype Owner = Owner(phase: OwnerPhase, kept: bool)
  datatype OwnerPhase =
    // Opening, under the lifecycle lock.
    | Opening
    | DirMade
    | LockCreated
    | LockHeld
    | Registered
    | Running
    // Closing: adopting retained files one at a time, each under its output's stripe.
    | Closing
    | Adopting(output: Bytes)
    | Placed(output: Bytes)
    | Linked(output: Bytes)
    // The row is gone, then the lock.
    | Unregistered
    | Stamped
    | Released
    | Ended
    | Dead

  datatype Reclaimer = Reclaimer(todo: set<RunId>, phase: ReclaimPhase)
  datatype ReclaimPhase =
    | Between
    | DirSeen(run: RunId)
    | DirMissing(run: RunId)
    | RunLocked(run: RunId)
    | RowDeleted(run: RunId)
    | RunUnlocked(run: RunId)

  datatype Sweeper = Sweeper(cutoff: int, phase: SweepPhase)
  datatype SweepPhase = Looking | Judging(run: RunId) | Expired(run: RunId)

  datatype Expirer = Walked(cutoff: int) | Counting(cutoff: int) | Removing(cutoff: int)

  datatype Cleaner = Cleaner(todo: set<RunId>, active: bool, phase: CleanPhase)
  datatype CleanPhase = Visiting | Trying(run: RunId) | Unused(run: RunId) | Wiping

  /** Orphan collection, or the follow-up of an eviction, inside one stripe. */
  datatype Collector = Collector(stripe: string)

  datatype State = State(
    now: int,
    dirs: set<RunId>,
    lockFiles: map<RunId, int>,
    rows: set<RunId>,
    retained: map<Bytes, int>,
    owners: map<RunId, Owner>,
    reclaimers: map<Tid, Reclaimer>,
    sweepers: map<Tid, Sweeper>,
    expirers: map<Tid, Expirer>,
    cleaners: map<Tid, Cleaner>,
    collectors: map<Tid, Collector>)

  /** `slack` is the retention age plus the mtime interval: how far a sweep's cutoff lies
      before its start. */
  datatype Config = Config(slack: int, mtimeInterval: int)

  datatype OwnerStep =
    | Open
    | MakeDir
    | CreateLock
    | TakeRunLock
    | Register
    | FinishOpen
    | FailOpen
    | BeginClose
    | TakeStripe(output: Bytes)
    | Place(written: int)
    | Link
    | FailAdoption
    | LeaveStripe
    | DeleteRow(deleted: bool)
    | Stamp
    | ReleaseRun
    | RemoveOwnDir
    | CrashOwner

  datatype ReclaimStep =
    | ListRuns(except: set<RunId>)
    | LookForDir(run: RunId)
    | DeleteMissing
    | TryRunLock
    | SkipRun
    | DeleteFound
    | UnlockFound
    | RemoveFound
    | CrashReclaim

  datatype SweepStep =
    | StartSweep
    | TrySweepLock(run: RunId)
    | Judge
    | RemoveExpired
    | CrashSweep

  datatype ExpireStep =
    | StartExpiry(cutoff: int)
    | TakeLifecycle
    | CountRuns
    | RemoveRetained(output: Bytes)
    | EndExpiry

  datatype CleanStep =
    | StartClean
    | TryUnused(run: RunId)
    | UnlockUnused
    | RemoveUnused
    | CountActive
    | WipeLive
    | WipeRetained
    | WipeCatalog
    | EndClean

  datatype CollectStep =
    | TakeShard(stripe: string)
    | UnlinkRetained(output: Bytes)
    | LeaveShard

  datatype Step =
    | OwnerBy(run: RunId, ownerStep: OwnerStep)
    | ReclaimBy(t: Tid, reclaimStep: ReclaimStep)
    | SweepBy(t: Tid, sweepStep: SweepStep)
    | ExpireBy(t: Tid, expireStep: ExpireStep)
    | CleanBy(t: Tid, cleanStep: CleanStep)
    | CollectBy(t: Tid, collectStep: CollectStep)
    | Tick(to: int)

  /******* Locks *******/

  predicate IsOpening(phase: OwnerPhase) {
    phase.Opening? || phase.DirMade? || phase.LockCreated? || phase.LockHeld? || phase.Registered?
  }

  /** From registration to the deletion of its own row. */
  predicate IsRegistered(phase: OwnerPhase) {
    phase.Registered? || phase.Running? || phase.Closing? || InStripe(phase)
  }

  predicate InStripe(phase: OwnerPhase) {
    phase.Adopting? || phase.Placed? || phase.Linked?
  }

  predicate HoldsRunLock(phase: OwnerPhase) {
    phase.LockHeld? || IsRegistered(phase) || phase.Unregistered? || phase.Stamped?
  }

  /** Done with its directory: nothing it does depends on it any more. */
  predicate IsPast(phase: OwnerPhase) {
    phase.Released? || phase.Ended? || phase.Dead?
  }

  ghost predicate LifecycleFree(s: State) {
    && (forall r :: r in s.owners ==> !IsOpening(s.owners[r].phase))
    && (forall t :: t in s.expirers ==> s.expirers[t].Walked?)
    && s.cleaners == map[]
  }

  ghost predicate RunLockFree(s: State, run: RunId) {
    && (run in s.owners ==> !HoldsRunLock(s.owners[run].phase))
    && (forall t :: t in s.reclaimers ==>
          s.reclaimers[t].phase != RunLocked(run) && s.reclaimers[t].phase != RowDeleted(run))
    && (forall t :: t in s.sweepers ==> s.sweepers[t].phase != Judging(run))
    && (forall t :: t in s.cleaners ==> s.cleaners[t].phase != Trying(run))
  }

  ghost predicate StripeFree(s: State, name: string) {
    && (forall r :: r in s.owners && InStripe(s.owners[r].phase) ==>
          StripeName(PlacedOutput(s.owners[r].phase)) != name)
    && (forall t :: t in s.collectors ==> s.collectors[t].stripe != name)
  }

  /******* Owners *******/

  ghost predicate OwnerEnabled(s: State, r: RunId, step: OwnerStep) {
    if step.Open? then r !in s.owners && LifecycleFree(s)
    else r in s.owners && Ready(s, r, s.owners[r].phase, step)
  }

  ghost predicate Ready(s: State, r: RunId, phase: OwnerPhase, step: OwnerStep) {
    match step
    case Open => false
    case MakeDir => phase.Opening? && r !in s.dirs
    case CreateLock => phase.DirMade?
    case TakeRunLock => phase.LockCreated? && RunLockFree(s, r)
    case Register => phase.LockHeld?
    case FinishOpen => phase.Registered?
    case FailOpen => IsOpening(phase) && !phase.Registered?
    case BeginClose => phase.Running?
    case TakeStripe(o) => phase.Closing? && StripeFree(s, StripeName(o))
    case Place(written) => phase.Adopting? && written <= s.now
    case Link => phase.Placed? && PlacedOutput(phase) in s.retained
    case FailAdoption => phase.Adopting? || phase.Placed?
    case LeaveStripe => phase.Linked?
    case DeleteRow(_) => phase.Closing?
    case Stamp => phase.Unregistered?
    case ReleaseRun => phase.Stamped?
    case RemoveOwnDir => phase.Released?
    case CrashOwner => !IsPast(phase)
  }

  function PlacedOutput(phase: OwnerPhase): Bytes {
    match phase
    case Adopting(o) => o
    case Placed(o) => o
    case Linked(o) => o
    case _ => []
  }

  function Phase(s: State, r: RunId, phase: OwnerPhase): map<RunId, Owner>
    requires r in s.owners
  {
    s.owners[r := s.owners[r].(phase := phase)]
  }

  /** The retained file of an adopted output: one already there is marked used, at most
      once per interval; otherwise this run's copy takes its place, with the time it was
      written. */
  function PlacedAt(c: Config, s: State, o: Bytes, written: int): int {
    if o !in s.retained then written
    else if s.now - s.retained[o] < c.mtimeInterval then s.retained[o]
    else s.now
  }

  function ApplyOwner(c: Config, s: State, r: RunId, step: OwnerStep): State
    requires !step.Open? ==> r in s.owners
  {
    match step
    case Open => s.(owners := s.owners[r := Owner(Opening, false)])
    case MakeDir => s.(owners := Phase(s, r, DirMade), dirs := s.dirs + {r})
    case CreateLock => s.(owners := Phase(s, r, LockCreated), lockFiles := s.lockFiles[r := s.now])
    case TakeRunLock => s.(owners := Phase(s, r, LockHeld))
    case Register => s.(owners := Phase(s, r, Registered), rows := s.rows + {r})
    case FinishOpen => s.(owners := Phase(s, r, Running))
    case FailOpen => s.(owners := Phase(s, r, Ended), dirs := s.dirs - {r}, lockFiles := s.lockFiles - {r})
    case BeginClose => s.(owners := Phase(s, r, Closing))
    case TakeStripe(o) => s.(owners := Phase(s, r, Adopting(o)))
    case Place(written) =>
      var o := PlacedOutput(s.owners[r].phase);
      s.(owners := Phase(s, r, Placed(o)), retained := s.retained[o := PlacedAt(c, s, o, written)])
    case Link => s.(owners := s.owners[r := Owner(Linked(PlacedOutput(s.owners[r].phase)), true)])
    case FailAdoption => s.(owners := s.owners[r := Owner(Closing, true)])
    case LeaveStripe => s.(owners := Phase(s, r, Closing))
    case DeleteRow(deleted) =>
      s.(owners := Phase(s, r, Unregistered), rows := if deleted then s.rows - {r} else s.rows)
    case Stamp =>
      s.(owners := Phase(s, r, Stamped),
         lockFiles := if s.owners[r].kept then s.lockFiles[r := s.now] else s.lockFiles)
    case ReleaseRun => s.(owners := Phase(s, r, Released))
    case RemoveOwnDir =>
      s.(owners := Phase(s, r, Ended),
         dirs := if s.owners[r].kept then s.dirs else s.dirs - {r},
         lockFiles := if s.owners[r].kept then s.lockFiles else s.lockFiles - {r})
    case CrashOwner => s.(owners := Phase(s, r, Dead))
  }

  /******* Reclaimers *******/

  ghost predicate ReclaimEnabled(s: State, t: Tid, step: ReclaimStep) {
    match step
    case ListRuns(_) => t !in s.reclaimers
    case LookForDir(r) => t in s.reclaimers && s.reclaimers[t].phase.Between? && r in s.reclaimers[t].todo
    case DeleteMissing => t in s.reclaimers && s.reclaimers[t].phase.DirMissing?
    case TryRunLock =>
      && t in s.reclaimers && s.reclaimers[t].phase.DirSeen?
      && s.reclaimers[t].phase.run in s.dirs && RunLockFree(s, s.reclaimers[t].phase.run)
    case SkipRun => t in s.reclaimers && (s.reclaimers[t].phase.DirSeen? || s.reclaimers[t].phase.RunLocked?)
    case DeleteFound => t in s.reclaimers && s.reclaimers[t].phase.RunLocked?
    case UnlockFound => t in s.reclaimers && s.reclaimers[t].phase.RowDeleted?
    case RemoveFound => t in s.reclaimers && s.reclaimers[t].phase.RunUnlocked?
    case CrashReclaim => t in s.reclaimers
  }

  /** Locking run.lock creates the file if it is not there. */
  function Touched(lockFiles: map<RunId, int>, r: RunId, now: int): map<RunId, int> {
    if r in lockFiles then lockFiles else lockFiles[r := now]
  }

  ghost function ApplyReclaim(s: State, t: Tid, step: ReclaimStep): State
    requires ReclaimEnabled(s, t, step)
  {
    match step
    case ListRuns(except) => s.(reclaimers := s.reclaimers[t := Reclaimer(s.rows - except, Between)])
    case LookForDir(r) =>
      s.(reclaimers := s.reclaimers[t :=
        Reclaimer(s.reclaimers[t].todo - {r}, if r in s.dirs then DirSeen(r) else DirMissing(r))])
    case DeleteMissing =>
      s.(rows := s.rows - {s.reclaimers[t].phase.run},
         reclaimers := s.reclaimers[t := s.reclaimers[t].(phase := Between)])
    case TryRunLock =>
      var r := s.reclaimers[t].phase.run;
      s.(reclaimers := s.reclaimers[t := s.reclaimers[t].(phase := RunLocked(r))],
         lockFiles := Touched(s.lockFiles, r, s.now))
    case SkipRun => s.(reclaimers := s.reclaimers[t := s.reclaimers[t].(phase := Between)])
    case DeleteFound =>
      var r := s.reclaimers[t].phase.run;
      s.(rows := s.rows - {r}, reclaimers := s.reclaimers[t := s.reclaimers[t].(phase := RowDeleted(r))])
    case UnlockFound =>
      s.(reclaimers := s.reclaimers[t := s.reclaimers[t].(phase := RunUnlocked(s.reclaimers[t].phase.run))])
    case RemoveFound =>
      var r := s.reclaimers[t].phase.run;
      s.(dirs := s.dirs - {r}, lockFiles := s.lockFiles - {r},
         reclaimers := s.reclaimers[t := s.reclaimers[t].(phase := Between)])
    case CrashReclaim => s.(reclaimers := s.reclaimers - {t})
  }

  /******* Sweepers *******/

  /** The sweep opens run.lock without creating it, so a directory without one is skipped. */
  ghost predicate SweepEnabled(s: State, t: Tid, step: SweepStep) {
    match step
    case StartSweep => t !in s.sweepers
    case TrySweepLock(r) =>
      t in s.sweepers && s.sweepers[t].phase.Looking? && r in s.dirs && r in s.lockFiles && RunLockFree(s, r)
    case Judge => t in s.sweepers && s.sweepers[t].phase.Judging?
    case RemoveExpired => t in s.sweepers && s.sweepers[t].phase.Expired?
    case CrashSweep => t in s.sweepers
  }

  predicate IsExpired(s: State, r: RunId, cutoff: int) {
    r in s.lockFiles && s.lockFiles[r] < cutoff
  }

  ghost function ApplySweep(c: Config, s: State, t: Tid, step: SweepStep): State
    requires SweepEnabled(s, t, step)
  {
    match step
    case StartSweep => s.(sweepers := s.sweepers[t := Sweeper(s.now - c.slack, Looking)])
    case TrySweepLock(r) => s.(sweepers := s.sweepers[t := s.sweepers[t].(phase := Judging(r))])
    case Judge =>
      var r := s.sweepers[t].phase.run;
      s.(sweepers := s.sweepers[t := s.sweepers[t].(phase :=
        if IsExpired(s, r, s.sweepers[t].cutoff) then Expired(r) else Looking)])
    case RemoveExpired =>
      var r := s.sweepers[t].phase.run;
      s.(dirs := s.dirs - {r}, lockFiles := s.lockFiles - {r},
         sweepers := s.sweepers[t := s.sweepers[t].(phase := Looking)])
    case CrashSweep => s.(sweepers := s.sweepers - {t})
  }

  /******* Retained expiry *******/

  ghost predicate ExpireEnabled(s: State, t: Tid, step: ExpireStep) {
    match step
    case StartExpiry(_) => t !in s.expirers
    case TakeLifecycle => t in s.expirers && s.expirers[t].Walked? && LifecycleFree(s)
    case CountRuns => t in s.expirers && s.expirers[t].Counting?
    case RemoveRetained(o) =>
      t in s.expirers && s.expirers[t].Removing? && o in s.retained && s.retained[o] < s.expirers[t].cutoff
    case EndExpiry => t in s.expirers
  }

  /** A count above zero leaves without removing anything. */
  ghost function ApplyExpire(s: State, t: Tid, step: ExpireStep): State
    requires ExpireEnabled(s, t, step)
  {
    match step
    case StartExpiry(cutoff) => s.(expirers := s.expirers[t := Walked(cutoff)])
    case TakeLifecycle => s.(expirers := s.expirers[t := Counting(s.expirers[t].cutoff)])
    case CountRuns =>
      s.(expirers := s.expirers[t :=
        if s.rows == {} then Removing(s.expirers[t].cutoff) else Walked(s.expirers[t].cutoff)])
    case RemoveRetained(o) => s.(retained := s.retained - {o})
    case EndExpiry => s.(expirers := s.expirers - {t})
  }

  /******* Clean *******/

  ghost predicate CleanEnabled(s: State, t: Tid, step: CleanStep) {
    match step
    case StartClean => t !in s.cleaners && LifecycleFree(s)
    case TryUnused(r) => t in s.cleaners && s.cleaners[t].phase.Visiting? && r in s.cleaners[t].todo && r in s.dirs
    case UnlockUnused => t in s.cleaners && s.cleaners[t].phase.Trying?
    case RemoveUnused => t in s.cleaners && s.cleaners[t].phase.Unused?
    case CountActive =>
      && t in s.cleaners && s.cleaners[t].phase.Visiting? && s.cleaners[t].todo == {}
      && !s.cleaners[t].active && s.rows == {}
    case WipeLive => t in s.cleaners && s.cleaners[t].phase.Wiping?
    case WipeRetained => t in s.cleaners && s.cleaners[t].phase.Wiping?
    case WipeCatalog => t in s.cleaners && s.cleaners[t].phase.Wiping?
    case EndClean => t in s.cleaners
  }

  ghost function ApplyClean(s: State, t: Tid, step: CleanStep): State
    requires CleanEnabled(s, t, step)
  {
    match step
    case StartClean => s.(cleaners := s.cleaners[t := Cleaner(s.dirs, false, Visiting)])
    case TryUnused(r) =>
      s.(cleaners := s.cleaners[t := Cleaner(
           s.cleaners[t].todo - {r},
           s.cleaners[t].active || !RunLockFree(s, r),
           if RunLockFree(s, r) then Trying(r) else Visiting)],
         lockFiles := Touched(s.lockFiles, r, s.now))
    case UnlockUnused =>
      s.(cleaners := s.cleaners[t := s.cleaners[t].(phase := Unused(s.cleaners[t].phase.run))])
    case RemoveUnused =>
      var r := s.cleaners[t].phase.run;
      s.(dirs := s.dirs - {r}, lockFiles := s.lockFiles - {r},
         cleaners := s.cleaners[t := s.cleaners[t].(phase := Visiting)])
    case CountActive => s.(cleaners := s.cleaners[t := s.cleaners[t].(phase := Wiping)])
    case WipeLive => s.(dirs := {}, lockFiles := map[])
    case WipeRetained => s.(retained := map[])
    case WipeCatalog => s.(rows := {})
    case EndClean => s.(cleaners := s.cleaners - {t})
  }

  /******* Collectors *******/

  ghost predicate CollectEnabled(s: State, t: Tid, step: CollectStep) {
    match step
    case TakeShard(name) => t !in s.collectors && StripeFree(s, name)
    case UnlinkRetained(o) => t in s.collectors && s.collectors[t].stripe == StripeName(o)
    case LeaveShard => t in s.collectors
  }

  function ApplyCollect(s: State, t: Tid, step: CollectStep): State {
    match step
    case TakeShard(name) => s.(collectors := s.collectors[t := Collector(name)])
    case UnlinkRetained(o) => s.(retained := s.retained - {o})
    case LeaveShard => s.(collectors := s.collectors - {t})
  }

  /******* Runs *******/

  ghost predicate Enabled(s: State, step: Step) {
    match step
    case OwnerBy(r, o) => OwnerEnabled(s, r, o)
    case ReclaimBy(t, o) => ReclaimEnabled(s, t, o)
    case SweepBy(t, o) => SweepEnabled(s, t, o)
    case ExpireBy(t, o) => ExpireEnabled(s, t, o)
    case CleanBy(t, o) => CleanEnabled(s, t, o)
    case CollectBy(t, o) => CollectEnabled(s, t, o)
    case Tick(to) => s.now <= to
  }

  ghost function Apply(c: Config, s: State, step: Step): State
    requires Enabled(s, step)
  {
    match step
    case OwnerBy(r, o) => ApplyOwner(c, s, r, o)
    case ReclaimBy(t, o) => ApplyReclaim(s, t, o)
    case SweepBy(t, o) => ApplySweep(c, s, t, o)
    case ExpireBy(t, o) => ApplyExpire(s, t, o)
    case CleanBy(t, o) => ApplyClean(s, t, o)
    case CollectBy(t, o) => ApplyCollect(s, t, o)
    case Tick(to) => s.(now := to)
  }

  function Empty(now: int): State {
    State(now, {}, map[], {}, map[], map[], map[], map[], map[], map[], map[])
  }

  ghost predicate IsRun(c: Config, states: seq<State>, steps: seq<Step>) {
    && |states| == |steps| + 1
    && states[0] == Empty(states[0].now)
    && forall i {:trigger steps[i]} :: 0 <= i < |steps| ==>
         Enabled(states[i], steps[i]) && states[i + 1] == Apply(c, states[i], steps[i])
  }

  /** No opener has stalled between creating its run.lock and locking it for longer than
      `stall`. */
  ghost predicate Prompt(s: State, stall: int) {
    forall r :: r in s.owners && s.owners[r].phase.LockCreated? && r in s.lockFiles ==> s.now - s.lockFiles[r] <= stall
  }

  ghost predicate PromptRun(c: Config, states: seq<State>, steps: seq<Step>, stall: int) {
    IsRun(c, states, steps) && forall i :: 0 <= i < |states| ==> Prompt(states[i], stall)
  }
}
