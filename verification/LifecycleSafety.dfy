/** What every run of the lifecycle keeps: a run that holds its run.lock keeps its directory
    and its row, retained expiry runs only while nothing is registered, and a retained
    file being adopted stays where it is. */
module LifecycleSafety {
  import opened Ids
  import opened Lifecycle

  /******* The invariant *******/

  /** While a store opens, nobody else holds the lifecycle lock. */
  ghost predicate OpeningExcludes(s: State) {
    forall r :: r in s.owners && IsOpening(s.owners[r].phase) ==>
      && (forall q :: q in s.owners && q != r ==> !IsOpening(s.owners[q].phase))
      && (forall t :: t in s.expirers ==> s.expirers[t].Walked?)
      && s.cleaners == map[]
  }

  ghost predicate OwnerSound(s: State, r: RunId, phase: OwnerPhase) {
    && (phase.Opening? ==> r !in s.dirs)
    && (phase.Opening? || phase.DirMade? ==> r !in s.lockFiles)
    && (phase.DirMade? || phase.LockCreated? || HoldsRunLock(phase) ==> r in s.dirs)
    && (phase.LockCreated? || HoldsRunLock(phase) ==> r in s.lockFiles)
    && (IsRegistered(phase) ==> r in s.rows)
    && (phase.Placed? ==> PlacedOutput(phase) in s.retained)
  }

  ghost predicate OwnersSound(s: State) {
    && (forall r :: r in s.owners ==> OwnerSound(s, r, s.owners[r].phase))
    && (forall r :: r in s.dirs || r in s.lockFiles ==> r in s.owners)
    && (forall r :: r in s.rows ==> Known(s, r))
  }

  ghost predicate Past(s: State, r: RunId) {
    r in s.owners && IsPast(s.owners[r].phase)
  }

  /** The run got as far as registering, at some time. */
  ghost predicate Known(s: State, r: RunId) {
    r in s.owners && (!IsOpening(s.owners[r].phase) || s.owners[r].phase.Registered?)
  }

  ghost predicate ReclaimerFits(s: State, m: Reclaimer) {
    && (forall r :: r in m.todo ==> Known(s, r))
    && (m.phase.DirSeen? ==> Known(s, m.phase.run))
    && (!m.phase.Between? && !m.phase.DirSeen? ==> Past(s, m.phase.run))
  }

  ghost predicate SweeperFits(c: Config, s: State, m: Sweeper) {
    && m.cutoff <= s.now - c.slack
    && (m.phase.Judging? ==>
          m.phase.run in s.owners &&
          (Past(s, m.phase.run) || s.owners[m.phase.run].phase.LockCreated?))
    && (m.phase.Expired? ==> Past(s, m.phase.run))
  }

  /** A clean that has found no run in use has every holder of a run.lock still to visit;
      once it wipes, there is none, and none on record. */
  ghost predicate CleanerFits(s: State, m: Cleaner) {
    && (m.phase.Trying? || m.phase.Unused? ==> Past(s, m.phase.run))
    && (!m.active ==> forall r :: r in s.owners && HoldsRunLock(s.owners[r].phase) ==> r in m.todo)
    && (m.phase.Wiping? ==> !m.active && m.todo == {} && s.rows == {})
  }

  ghost predicate WorkersFit(c: Config, s: State) {
    && (forall t :: t in s.reclaimers ==> ReclaimerFits(s, s.reclaimers[t]))
    && (forall t :: t in s.sweepers ==> SweeperFits(c, s, s.sweepers[t]))
    && (forall t :: t in s.cleaners ==> CleanerFits(s, s.cleaners[t]))
    && (forall t :: t in s.expirers && s.expirers[t].Removing? ==> s.rows == {})
  }

  ghost predicate StripesExclusive(s: State) {
    forall r :: r in s.owners && InStripe(s.owners[r].phase) ==>
      && (forall q :: q in s.owners && q != r && InStripe(s.owners[q].phase) ==>
            StripeName(PlacedOutput(s.owners[q].phase)) != StripeName(PlacedOutput(s.owners[r].phase)))
      && (forall t :: t in s.collectors ==> s.collectors[t].stripe != StripeName(PlacedOutput(s.owners[r].phase)))
  }

  ghost predicate Inv(c: Config, s: State) {
    OpeningExcludes(s) && OwnersSound(s) && WorkersFit(c, s) && StripesExclusive(s)
  }

  /******* Preservation by owners *******/

  /** An owner's step is about its own run only. */
  ghost predicate OwnerFrame(s: State, s': State, r: RunId) {
    && s'.now == s.now && s'.reclaimers == s.reclaimers && s'.sweepers == s.sweepers && s'.expirers == s.expirers
    && s'.cleaners == s.cleaners && s'.collectors == s.collectors
    && r in s'.owners
    && (forall q :: q != r ==> (q in s'.owners <==> q in s.owners))
    && (forall q :: q != r && q in s.owners ==> s'.owners[q] == s.owners[q])
    && s'.dirs - {r} == s.dirs - {r} && s'.rows - {r} == s.rows - {r} && s'.lockFiles - {r} == s.lockFiles - {r}
    && s.retained.Keys <= s'.retained.Keys
  }

  predicate Opens(step: OwnerStep) {
    step.Open? || step.MakeDir? || step.CreateLock? || step.TakeRunLock? || step.Register? || step.FinishOpen? ||
    step.FailOpen?
  }

  predicate Adopts(step: OwnerStep) {
    step.TakeStripe? || step.Place? || step.Link? || step.FailAdoption? || step.LeaveStripe?
  }

  lemma OpeningStepFrame(c: Config, s: State, r: RunId, step: OwnerStep)
    requires OwnerEnabled(s, r, step) && Opens(step)
    ensures OwnerFrame(s, ApplyOwner(c, s, r, step), r)
  {
  }

  lemma ClosingStepFrame(c: Config, s: State, r: RunId, step: OwnerStep)
    requires OwnerEnabled(s, r, step) && !Opens(step)
    ensures OwnerFrame(s, ApplyOwner(c, s, r, step), r)
  {
  }

  lemma OwnerStepFrame(c: Config, s: State, r: RunId, step: OwnerStep)
    requires OwnerEnabled(s, r, step)
    ensures OwnerFrame(s, ApplyOwner(c, s, r, step), r)
  {
    if Opens(step) {
      OpeningStepFrame(c, s, r, step);
    } else {
      ClosingStepFrame(c, s, r, step);
    }
  }

  /** What a step may do to its owner's phase. */
  ghost predicate PhaseStep(s: State, s': State, r: RunId)
    requires r in s'.owners
  {
    var after := s'.owners[r].phase;
    && (IsOpening(after) ==> LifecycleFree(s) || (r in s.owners && IsOpening(s.owners[r].phase)))
    && (InStripe(after) ==>
         || StripeFree(s, StripeName(PlacedOutput(after)))
         || (r in s.owners && InStripe(s.owners[r].phase) && PlacedOutput(s.owners[r].phase) == PlacedOutput(after)))
    && (r in s.owners ==>
         && (IsPast(s.owners[r].phase) ==> IsPast(after))
         && (Known(s, r) ==> Known(s', r))
         && (s.owners[r].phase.LockCreated? && !after.LockCreated? && !IsPast(after) ==> RunLockFree(s, r))
         && (HoldsRunLock(after) ==> IsOpening(s.owners[r].phase) || HoldsRunLock(s.owners[r].phase)))
    && (r !in s.owners ==> IsOpening(after) && !HoldsRunLock(after))
    && (r in s'.rows ==> r in s.rows || LifecycleFree(s) || (r in s.owners && IsOpening(s.owners[r].phase)))
  }

  lemma OpeningPhaseStep(c: Config, s: State, r: RunId, step: OwnerStep)
    requires OwnerEnabled(s, r, step) && Opens(step)
    ensures r in ApplyOwner(c, s, r, step).owners && PhaseStep(s, ApplyOwner(c, s, r, step), r)
  {
  }

  lemma AdoptingPhaseStep(c: Config, s: State, r: RunId, step: OwnerStep)
    requires OwnerEnabled(s, r, step) && Adopts(step)
    ensures r in ApplyOwner(c, s, r, step).owners && PhaseStep(s, ApplyOwner(c, s, r, step), r)
  {
  }

  lemma EndingPhaseStep(c: Config, s: State, r: RunId, step: OwnerStep)
    requires OwnerEnabled(s, r, step) && !Opens(step) && !Adopts(step)
    ensures r in ApplyOwner(c, s, r, step).owners && PhaseStep(s, ApplyOwner(c, s, r, step), r)
  {
  }

  lemma OwnerPhaseStep(c: Config, s: State, r: RunId, step: OwnerStep)
    requires OwnerEnabled(s, r, step)
    ensures r in ApplyOwner(c, s, r, step).owners && PhaseStep(s, ApplyOwner(c, s, r, step), r)
  {
    if Opens(step) {
      OpeningPhaseStep(c, s, r, step);
    } else if Adopts(step) {
      AdoptingPhaseStep(c, s, r, step);
    } else {
      EndingPhaseStep(c, s, r, step);
    }
  }

  ghost predicate SoundItself(s: State, r: RunId) {
    && r in s.owners && OwnerSound(s, r, s.owners[r].phase)
    && (r in s.rows ==> Known(s, r))
  }

  lemma OpeningSoundItself(c: Config, s: State, r: RunId, step: OwnerStep)
    requires OwnersSound(s) && OwnerEnabled(s, r, step) && Opens(step)
    ensures SoundItself(ApplyOwner(c, s, r, step), r)
  {
  }

  lemma AdoptingSoundItself(c: Config, s: State, r: RunId, step: OwnerStep)
    requires OwnersSound(s) && OwnerEnabled(s, r, step) && Adopts(step)
    ensures SoundItself(ApplyOwner(c, s, r, step), r)
  {
  }

  lemma EndingSoundItself(c: Config, s: State, r: RunId, step: OwnerStep)
    requires OwnersSound(s) && OwnerEnabled(s, r, step) && !Opens(step) && !Adopts(step)
    ensures SoundItself(ApplyOwner(c, s, r, step), r)
  {
  }

  lemma OwnerSoundItself(c: Config, s: State, r: RunId, step: OwnerStep)
    requires OwnersSound(s) && OwnerEnabled(s, r, step)
    ensures SoundItself(ApplyOwner(c, s, r, step), r)
  {
    if Opens(step) {
      OpeningSoundItself(c, s, r, step);
    } else if Adopts(step) {
      AdoptingSoundItself(c, s, r, step);
    } else {
      EndingSoundItself(c, s, r, step);
    }
  }

  lemma OwnerKeeps(c: Config, s: State, r: RunId, step: OwnerStep)
    requires Inv(c, s) && OwnerEnabled(s, r, step)
    ensures Inv(c, ApplyOwner(c, s, r, step))
  {
    var s' := ApplyOwner(c, s, r, step);
    OwnerStepFrame(c, s, r, step);
    OwnerPhaseStep(c, s, r, step);
    OwnerSoundItself(c, s, r, step);
    ExclusionFromFrame(s, s', r);
    OwnersFromFrame(s, s', r);
    WorkersFromFrame(c, s, s', r);
  }

  lemma ExclusionFromFrame(s: State, s': State, r: RunId)
    requires OpeningExcludes(s) && StripesExclusive(s) && OwnerFrame(s, s', r) && PhaseStep(s, s', r)
    ensures OpeningExcludes(s') && StripesExclusive(s')
  {
  }

  lemma OwnersFromFrame(s: State, s': State, r: RunId)
    requires OwnersSound(s) && OwnerFrame(s, s', r)
    requires OwnerSound(s', r, s'.owners[r].phase) && (r in s'.rows ==> Known(s', r))
    ensures OwnersSound(s')
  {
    forall q | q in s'.owners && q != r
      ensures OwnerSound(s', q, s'.owners[q].phase)
    {
      assert q in s.dirs - {r} <==> q in s'.dirs - {r};
      assert q in s.rows - {r} <==> q in s'.rows - {r};
      assert q in s.lockFiles - {r} <==> q in s'.lockFiles - {r};
    }
    forall q | q in s'.dirs || q in s'.lockFiles
      ensures q in s'.owners
    {
      assert q == r || q in s'.dirs - {r} || q in s'.lockFiles - {r};
    }
    forall q | q in s'.rows
      ensures Known(s', q)
    {
      assert q == r || q in s'.rows - {r};
    }
  }

  lemma WorkersFromFrame(c: Config, s: State, s': State, r: RunId)
    requires Inv(c, s) && OwnerFrame(s, s', r) && PhaseStep(s, s', r)
    ensures WorkersFit(c, s')
  {
    forall t | t in s'.reclaimers
      ensures ReclaimerFits(s', s'.reclaimers[t])
    {
      assert ReclaimerFits(s, s.reclaimers[t]);
    }
    forall t | t in s'.sweepers
      ensures SweeperFits(c, s', s'.sweepers[t])
    {
      assert SweeperFits(c, s, s.sweepers[t]);
    }
    forall t | t in s'.cleaners
      ensures CleanerFits(s', s'.cleaners[t])
    {
      assert CleanerFits(s, s.cleaners[t]);
      assert s.rows == {} ==> s'.rows - {r} == {};
    }
    forall t | t in s'.expirers && s'.expirers[t].Removing?
      ensures s'.rows == {}
    {
      assert s'.rows - {r} == {};
    }
  }

  /******* Preservation by the rest *******/

  /** Steps that leave the owners alone take directories, locks and rows only of runs that
      are past, and retained files only of outputs nobody has placed. */
  ghost predicate OwnersSpared(s: State, s': State) {
    && s'.owners == s.owners && s'.now >= s.now
    && (forall r :: r in s.dirs && r !in s'.dirs ==> Past(s, r))
    && (forall r :: r in s.lockFiles && r !in s'.lockFiles ==> Past(s, r))
    && (forall r :: r in s.rows && r !in s'.rows ==> Past(s, r))
    && s'.dirs <= s.dirs && s'.rows <= s.rows
    && (forall r :: r in s'.lockFiles && r !in s.lockFiles ==> Past(s, r))
    && (forall r :: r in s'.lockFiles && r in s.lockFiles ==> s'.lockFiles[r] == s.lockFiles[r])
    && (forall r :: r in s.owners && s.owners[r].phase.Placed? ==> PlacedOutput(s.owners[r].phase) in s'.retained)
  }

  /** A worker's step: what changed fits, and locks were taken only while free. */
  ghost predicate WorkersStep(c: Config, s: State, s': State) {
    && (forall t :: t in s'.reclaimers ==>
          (t in s.reclaimers && s'.reclaimers[t] == s.reclaimers[t]) || ReclaimerFits(s', s'.reclaimers[t]))
    && (forall t :: t in s'.sweepers ==>
          (t in s.sweepers && s'.sweepers[t] == s.sweepers[t]) || SweeperFits(c, s', s'.sweepers[t]))
    && (forall t :: t in s'.cleaners ==>
          (t in s.cleaners && s'.cleaners[t] == s.cleaners[t]) || CleanerFits(s', s'.cleaners[t]))
    && (forall t :: t in s'.expirers && s'.expirers[t].Removing? ==>
          (t in s.expirers && s.expirers[t].Removing?) || s'.rows == {})
    && (forall t :: t in s'.expirers && !s'.expirers[t].Walked? ==>
          (t in s.expirers && !s.expirers[t].Walked?) || LifecycleFree(s))
    && (s'.cleaners != map[] && s.cleaners == map[] ==> LifecycleFree(s))
    && (forall t :: t in s'.collectors ==>
          (t in s.collectors && s'.collectors[t] == s.collectors[t]) || StripeFree(s, s'.collectors[t].stripe))
  }

  lemma LocksStayExclusive(c: Config, s: State, s': State)
    requires OpeningExcludes(s) && StripesExclusive(s) && OwnersSpared(s, s') && WorkersStep(c, s, s')
    ensures OpeningExcludes(s') && StripesExclusive(s')
  {
  }

  lemma WorkersKeep(c: Config, s: State, s': State)
    requires Inv(c, s) && OwnersSpared(s, s') && WorkersStep(c, s, s')
    ensures Inv(c, s')
  {
    LocksStayExclusive(c, s, s');
    SparedStaySound(s, s');
    forall t | t in s'.reclaimers ensures ReclaimerFits(s', s'.reclaimers[t]) {
      assert t in s.reclaimers ==> ReclaimerFits(s, s.reclaimers[t]);
    }
    forall t | t in s'.sweepers ensures SweeperFits(c, s', s'.sweepers[t]) {
      assert t in s.sweepers ==> SweeperFits(c, s, s.sweepers[t]);
    }
    forall t | t in s'.cleaners ensures CleanerFits(s', s'.cleaners[t]) {
      assert t in s.cleaners ==> CleanerFits(s, s.cleaners[t]);
    }
  }

  lemma SparedStaySound(s: State, s': State)
    requires OwnersSound(s) && OwnersSpared(s, s')
    ensures OwnersSound(s')
  {
  }

  lemma ReclaimSpares(c: Config, s: State, t: Tid, step: ReclaimStep)
    requires Inv(c, s) && ReclaimEnabled(s, t, step)
    ensures OwnersSpared(s, ApplyReclaim(s, t, step))
  {
    assert t in s.reclaimers ==> ReclaimerFits(s, s.reclaimers[t]);
  }

  lemma ReclaimFits(c: Config, s: State, t: Tid, step: ReclaimStep)
    requires OwnersSound(s) && ReclaimEnabled(s, t, step)
    requires t in s.reclaimers ==> ReclaimerFits(s, s.reclaimers[t])
    ensures WorkersStep(c, s, ApplyReclaim(s, t, step))
  {
  }

  lemma SweepSpares(c: Config, s: State, t: Tid, step: SweepStep)
    requires Inv(c, s) && SweepEnabled(s, t, step)
    ensures OwnersSpared(s, ApplySweep(c, s, t, step))
  {
  }

  /** A directory judged expired is past: a live run holds its lock, and an opening one
      created the file too recently. */
  lemma SweepFits(c: Config, s: State, t: Tid, step: SweepStep)
    requires OwnersSound(s) && Prompt(s, c.slack) && SweepEnabled(s, t, step)
    requires t in s.sweepers ==> SweeperFits(c, s, s.sweepers[t])
    ensures WorkersStep(c, s, ApplySweep(c, s, t, step))
  {
  }

  lemma ExpireSpares(c: Config, s: State, t: Tid, step: ExpireStep)
    requires Inv(c, s) && ExpireEnabled(s, t, step)
    ensures OwnersSpared(s, ApplyExpire(s, t, step)) && WorkersStep(c, s, ApplyExpire(s, t, step))
  {
  }

  lemma CleanSpares(c: Config, s: State, t: Tid, step: CleanStep)
    requires Inv(c, s) && CleanEnabled(s, t, step)
    ensures OwnersSpared(s, ApplyClean(s, t, step))
  {
    assert t in s.cleaners ==> CleanerFits(s, s.cleaners[t]);
  }

  /** A directory whose run.lock a clean could take is past: nobody is opening a store while
      it holds the lifecycle lock. */
  lemma CleanFits(c: Config, s: State, t: Tid, step: CleanStep)
    requires OpeningExcludes(s) && OwnersSound(s) && CleanEnabled(s, t, step)
    requires t in s.cleaners ==> CleanerFits(s, s.cleaners[t])
    ensures WorkersStep(c, s, ApplyClean(s, t, step))
  {
    CleanLeavesWorkers(s, t, step);
    CleanerFitsItself(s, t, step);
  }

  lemma CleanLeavesWorkers(s: State, t: Tid, step: CleanStep)
    requires CleanEnabled(s, t, step)
    ensures var s' := ApplyClean(s, t, step);
      && s'.reclaimers == s.reclaimers && s'.sweepers == s.sweepers && s'.expirers == s.expirers
      && s'.collectors == s.collectors && s'.owners == s.owners && s'.rows <= s.rows
      && (forall u :: u != t && u in s'.cleaners ==> u in s.cleaners && s'.cleaners[u] == s.cleaners[u])
      && (s.cleaners == map[] && s'.cleaners != map[] ==> LifecycleFree(s))
  {
  }

  lemma CleanerFitsItself(s: State, t: Tid, step: CleanStep)
    requires OpeningExcludes(s) && OwnersSound(s) && CleanEnabled(s, t, step)
    requires t in s.cleaners ==> CleanerFits(s, s.cleaners[t])
    ensures var s' := ApplyClean(s, t, step); t in s'.cleaners ==> CleanerFits(s', s'.cleaners[t])
  {
  }

  /** A collector inside a stripe finds no run adopting one of its outputs. */
  lemma CollectSpares(c: Config, s: State, t: Tid, step: CollectStep)
    requires Inv(c, s) && CollectEnabled(s, t, step)
    ensures OwnersSpared(s, ApplyCollect(s, t, step)) && WorkersStep(c, s, ApplyCollect(s, t, step))
  {
  }

  /** Whatever is not an owner's step spares the owners. */
  lemma StepSpares(c: Config, s: State, step: Step)
    requires Inv(c, s) && Enabled(s, step) && !step.OwnerBy?
    ensures OwnersSpared(s, Apply(c, s, step))
  {
    match step
    case ReclaimBy(t, o) => ReclaimSpares(c, s, t, o);
    case SweepBy(t, o) => SweepSpares(c, s, t, o);
    case ExpireBy(t, o) => ExpireSpares(c, s, t, o);
    case CleanBy(t, o) => CleanSpares(c, s, t, o);
    case CollectBy(t, o) => CollectSpares(c, s, t, o);
    case Tick(_) =>
  }

  lemma StepKeeps(c: Config, s: State, step: Step)
    requires Inv(c, s) && Prompt(s, c.slack) && Enabled(s, step)
    ensures Inv(c, Apply(c, s, step))
  {
    match step
    case OwnerBy(r, o) => OwnerKeeps(c, s, r, o);
    case ReclaimBy(t, o) =>
      ReclaimSpares(c, s, t, o);
      ReclaimFits(c, s, t, o);
      WorkersKeep(c, s, ApplyReclaim(s, t, o));
    case SweepBy(t, o) =>
      SweepSpares(c, s, t, o);
      SweepFits(c, s, t, o);
      WorkersKeep(c, s, ApplySweep(c, s, t, o));
    case ExpireBy(t, o) =>
      ExpireSpares(c, s, t, o);
      WorkersKeep(c, s, ApplyExpire(s, t, o));
    case CleanBy(t, o) =>
      CleanSpares(c, s, t, o);
      CleanFits(c, s, t, o);
      WorkersKeep(c, s, ApplyClean(s, t, o));
    case CollectBy(t, o) =>
      CollectSpares(c, s, t, o);
      WorkersKeep(c, s, ApplyCollect(s, t, o));
    case Tick(to) => WorkersKeep(c, s, s.(now := to));
  }

  lemma RunStepKeeps(c: Config, states: seq<State>, steps: seq<Step>, stall: int, m: nat, n: nat)
    requires PromptRun(c, states, steps, stall) && stall <= c.slack && m < |steps| && n == m + 1
    requires Inv(c, states[m])
    ensures Inv(c, states[n])
  {
    StepKeeps(c, states[m], steps[m]);
  }

  lemma {:induction false} RunKeeps(c: Config, states: seq<State>, steps: seq<Step>, stall: int, n: nat)
    requires PromptRun(c, states, steps, stall) && stall <= c.slack && n < |states|
    ensures Inv(c, states[n])
  {
    if n == 0 {
      EmptyFits(c, states[0].now);
    } else {
      var m: nat := n - 1;
      RunKeeps(c, states, steps, stall, m);
      RunStepKeeps(c, states, steps, stall, m, n);
    }
  }

  lemma EmptyFits(c: Config, now: int)
    ensures Inv(c, Empty(now))
  {
  }

  /******* A run and its directory *******/

  /** Another process holds the run's lock, or has judged its directory ready to go. */
  ghost predicate Threatened(s: State, r: RunId) {
    || (exists t :: t in s.reclaimers && !s.reclaimers[t].phase.Between? && !s.reclaimers[t].phase.DirSeen? &&
                    s.reclaimers[t].phase.run == r)
    || (exists t :: t in s.sweepers && !s.sweepers[t].phase.Looking? && s.sweepers[t].phase.run == r)
    || (exists t :: t in s.cleaners && (s.cleaners[t].phase == Trying(r) || s.cleaners[t].phase == Unused(r) ||
                                        s.cleaners[t].phase.Wiping?))
  }

  /** Whatever crashes, and however many reclaimers, sweeps and cleans run beside it: a run
      that holds its run.lock has its directory, its row is there from registration until
      its own close deletes it, and nobody else holds its lock or is about to remove its
      directory. */
  lemma HeldRunIsSafe(c: Config, states: seq<State>, steps: seq<Step>, stall: int, n: nat, r: RunId)
    requires PromptRun(c, states, steps, stall) && stall <= c.slack && n < |states|
    requires r in states[n].owners && HoldsRunLock(states[n].owners[r].phase)
    ensures r in states[n].dirs && r in states[n].lockFiles
    ensures IsRegistered(states[n].owners[r].phase) ==> r in states[n].rows
    ensures !Threatened(states[n], r)
  {
    RunKeeps(c, states, steps, stall, n);
    var s := states[n];
    assert forall t :: t in s.reclaimers ==> ReclaimerFits(s, s.reclaimers[t]);
    assert forall t :: t in s.sweepers ==> SweeperFits(c, s, s.sweepers[t]);
    assert forall t :: t in s.cleaners ==> CleanerFits(s, s.cleaners[t]);
  }

  /** Retained expiry that counted zero runs sees none registered, and none opening, until
      it finishes. */
  lemma ExpirySeesNoRun(c: Config, states: seq<State>, steps: seq<Step>, stall: int, n: nat, t: Tid)
    requires PromptRun(c, states, steps, stall) && stall <= c.slack && n < |states|
    requires t in states[n].expirers && states[n].expirers[t].Removing?
    ensures states[n].rows == {}
    ensures forall r :: r in states[n].owners ==>
      !IsOpening(states[n].owners[r].phase) && !IsRegistered(states[n].owners[r].phase)
  {
    RunKeeps(c, states, steps, stall, n);
  }

  /** And so does a clean that wipes: no run is on record, and none opens or is in use. */
  lemma WipeSeesNoRun(c: Config, states: seq<State>, steps: seq<Step>, stall: int, n: nat, t: Tid)
    requires PromptRun(c, states, steps, stall) && stall <= c.slack && n < |states|
    requires t in states[n].cleaners && states[n].cleaners[t].phase.Wiping?
    ensures states[n].rows == {}
    ensures forall r :: r in states[n].owners ==>
      !IsOpening(states[n].owners[r].phase) && !HoldsRunLock(states[n].owners[r].phase)
  {
    RunKeeps(c, states, steps, stall, n);
    assert CleanerFits(states[n], states[n].cleaners[t]);
  }

  /******* Adoption *******/

  /** From the moment a closing run's retained file is in place until it is linked into the
      run, no step of any other process unlinks it, and the link finds it: stripes keep
      out collection and eviction, the run's row keeps out expiry, its run.lock keeps out
      clean. */
  lemma AdoptionIsUninterrupted(
      c: Config, states: seq<State>, steps: seq<Step>, stall: int, n: nat, r: RunId, step: Step)
    requires PromptRun(c, states, steps, stall) && stall <= c.slack && n < |states|
    requires r in states[n].owners && states[n].owners[r].phase.Placed?
    requires Enabled(states[n], step) && !(step.OwnerBy? && step.run == r)
    ensures OwnerEnabled(states[n], r, Link)
    ensures var s' := Apply(c, states[n], step);
      && r in s'.owners && s'.owners[r] == states[n].owners[r]
      && PlacedOutput(states[n].owners[r].phase) in s'.retained
  {
    var s := states[n];
    RunKeeps(c, states, steps, stall, n);
    if step.OwnerBy? {
      OwnerStepFrame(c, s, step.run, step.ownerStep);
    } else {
      StepSpares(c, s, step);
    }
  }

  /******* A kept directory *******/

  /** A run that closed, kept its directory and got its row deleted. */
  ghost predicate KeptAt(s: State, r: RunId, stamp: int) {
    && r in s.owners && s.owners[r].kept && (s.owners[r].phase.Released? || s.owners[r].phase.Ended?)
    && r in s.dirs && r in s.lockFiles && s.lockFiles[r] == stamp && r !in s.rows
  }

  /** No listing taken before the row was deleted is still being worked through, and no
      sweep has judged the directory. */
  ghost predicate Unlisted(s: State, r: RunId) {
    && (forall t :: t in s.reclaimers ==> r !in s.reclaimers[t].todo)
    && (forall t :: t in s.reclaimers && !s.reclaimers[t].phase.Between? ==> s.reclaimers[t].phase.run != r)
    && (forall t :: t in s.sweepers ==> s.sweepers[t].phase != Expired(r))
  }

  lemma KeptStepSurvives(c: Config, s: State, step: Step, r: RunId, stamp: int)
    requires Inv(c, s) && Enabled(s, step) && !step.CleanBy?
    requires KeptAt(s, r, stamp) && Unlisted(s, r) && s.now - stamp <= c.slack
    ensures KeptAt(Apply(c, s, step), r, stamp) && Unlisted(Apply(c, s, step), r)
  {
    match step
    case OwnerBy(q, o) => KeptSurvivesOwner(c, s, q, o, r, stamp);
    case ReclaimBy(t, o) => KeptSurvivesReclaim(s, t, o, r, stamp);
    case SweepBy(t, o) => KeptSurvivesSweep(c, s, t, o, r, stamp);
    case ExpireBy(t, o) => ExpireTouchesNoRun(s, t, o);
    case CollectBy(t, o) => CollectTouchesNoRun(s, t, o);
    case Tick(_) =>
  }

  ghost predicate SameRuns(s: State, s': State) {
    && s'.owners == s.owners && s'.dirs == s.dirs && s'.rows == s.rows && s'.lockFiles == s.lockFiles
    && s'.reclaimers == s.reclaimers && s'.sweepers == s.sweepers && s'.now == s.now
  }

  lemma ExpireTouchesNoRun(s: State, t: Tid, step: ExpireStep)
    requires ExpireEnabled(s, t, step)
    ensures SameRuns(s, ApplyExpire(s, t, step))
  {
  }

  lemma CollectTouchesNoRun(s: State, t: Tid, step: CollectStep)
    ensures SameRuns(s, ApplyCollect(s, t, step))
  {
  }

  lemma KeptSurvivesOwner(c: Config, s: State, q: RunId, step: OwnerStep, r: RunId, stamp: int)
    requires OwnerEnabled(s, q, step) && KeptAt(s, r, stamp) && Unlisted(s, r)
    ensures KeptAt(ApplyOwner(c, s, q, step), r, stamp) && Unlisted(ApplyOwner(c, s, q, step), r)
  {
    var s' := ApplyOwner(c, s, q, step);
    OwnerStepFrame(c, s, q, step);
    if q != r {
      assert r in s'.dirs - {q} && r !in s'.rows - {q} && r in s'.lockFiles - {q};
      assert (s'.lockFiles - {q})[r] == (s.lockFiles - {q})[r];
    }
  }

  lemma KeptSurvivesReclaim(s: State, t: Tid, step: ReclaimStep, r: RunId, stamp: int)
    requires ReclaimEnabled(s, t, step) && KeptAt(s, r, stamp) && Unlisted(s, r)
    ensures KeptAt(ApplyReclaim(s, t, step), r, stamp) && Unlisted(ApplyReclaim(s, t, step), r)
  {
  }

  lemma KeptSurvivesSweep(c: Config, s: State, t: Tid, step: SweepStep, r: RunId, stamp: int)
    requires Inv(c, s) && SweepEnabled(s, t, step)
    requires KeptAt(s, r, stamp) && Unlisted(s, r) && s.now - stamp <= c.slack
    ensures KeptAt(ApplySweep(c, s, t, step), r, stamp) && Unlisted(ApplySweep(c, s, t, step), r)
  {
    assert t in s.sweepers ==> SweeperFits(c, s, s.sweepers[t]);
  }

  lemma KeptAtNext(c: Config, states: seq<State>, steps: seq<Step>, stall: int, m: nat, n: nat, r: RunId, stamp: int)
    requires PromptRun(c, states, steps, stall) && stall <= c.slack && m < |steps| && n == m + 1 && !steps[m].CleanBy?
    requires Inv(c, states[m]) && KeptAt(states[m], r, stamp) && Unlisted(states[m], r)
    requires states[m].now - stamp <= c.slack
    ensures KeptAt(states[n], r, stamp) && Unlisted(states[n], r)
  {
    KeptStepSurvives(c, states[m], steps[m], r, stamp);
  }

  /** From state i to state n nobody cleans, and the stamp stays within the slack. */
  ghost predicate Undisturbed(c: Config, states: seq<State>, steps: seq<Step>, i: nat, n: nat, stamp: int)
    requires n <= |steps| < |states|
  {
    n <= i ||
    (Undisturbed(c, states, steps, i, n - 1, stamp) && !steps[n - 1].CleanBy? && states[n - 1].now - stamp <= c.slack)
  }

  /** The directory of a cleanly closed run stands until it ages out, as long as nobody
      cleans: every listing of runs taken after the row's deletion passes it by, and a
      sweep spares it while the stamp of its closing is within the slack. */
  lemma {:induction false} KeptDirSurvives(
      c: Config, states: seq<State>, steps: seq<Step>, stall: int, i: nat, n: nat, r: RunId, stamp: int)
    requires PromptRun(c, states, steps, stall) && stall <= c.slack && i <= n < |states|
    requires KeptAt(states[i], r, stamp) && Unlisted(states[i], r) && Undisturbed(c, states, steps, i, n, stamp)
    ensures KeptAt(states[n], r, stamp) && Unlisted(states[n], r)
  {
    if i < n {
      var m: nat := n - 1;
      KeptDirSurvives(c, states, steps, stall, i, m, r, stamp);
      RunKeeps(c, states, steps, stall, m);
      KeptAtNext(c, states, steps, stall, m, n, r, stamp);
    }
  }

  /******* A clean close *******/

  /** Steps of others leave a run that holds its run.lock the time of its lock, and do not
      bring its row back. */
  lemma HeldRunUntouched(c: Config, s: State, step: Step, r: RunId)
    requires Inv(c, s) && Enabled(s, step) && !(step.OwnerBy? && step.run == r)
    requires r in s.owners && HoldsRunLock(s.owners[r].phase) && r !in s.rows
    ensures HeldAlike(s, Apply(c, s, step), r)
  {
    assert OwnerSound(s, r, s.owners[r].phase);
    if step.OwnerBy? {
      OwnerStepFrame(c, s, step.run, step.ownerStep);
      HeldAlikeFromFrame(s, Apply(c, s, step), step.run, r);
    } else {
      StepSpares(c, s, step);
    }
  }

  ghost predicate HeldAlike(s: State, s': State, r: RunId) {
    && r in s.owners && r in s'.owners && s'.owners[r] == s.owners[r] && r !in s'.rows
    && r in s.lockFiles && r in s'.lockFiles && s'.lockFiles[r] == s.lockFiles[r]
  }

  lemma HeldAlikeFromFrame(s: State, s': State, q: RunId, r: RunId)
    requires OwnerFrame(s, s', q) && q != r && r in s.owners && r !in s.rows && r in s.lockFiles
    ensures HeldAlike(s, s', r)
  {
    assert r in s.lockFiles - {q} && r !in s.rows - {q};
  }

  /** Once the row is deleted no new listing has it, and while the run holds its run.lock no
      sweep judges its directory. */
  lemma StaysUnlisted(c: Config, s: State, step: Step, r: RunId)
    requires Inv(c, s) && Enabled(s, step) && r !in s.rows && Unlisted(s, r)
    requires r in s.owners && HoldsRunLock(s.owners[r].phase)
    ensures Unlisted(Apply(c, s, step), r)
  {
    match step
    case OwnerBy(q, o) =>
      OwnerStepFrame(c, s, q, o);
      UnlistedAlike(s, ApplyOwner(c, s, q, o), r);
    case ReclaimBy(t, o) => ReclaimStaysUnlisted(s, t, o, r);
    case SweepBy(t, o) =>
      assert t in s.sweepers ==> SweeperFits(c, s, s.sweepers[t]);
      SweepStaysUnlisted(c, s, t, o, r);
    case ExpireBy(t, o) =>
      ExpireTouchesNoRun(s, t, o);
      UnlistedAlike(s, ApplyExpire(s, t, o), r);
    case CleanBy(t, o) =>
      CleanLeavesWorkers(s, t, o);
      UnlistedAlike(s, ApplyClean(s, t, o), r);
    case CollectBy(t, o) =>
      CollectTouchesNoRun(s, t, o);
      UnlistedAlike(s, ApplyCollect(s, t, o), r);
    case Tick(to) => UnlistedAlike(s, s.(now := to), r);
  }

  lemma UnlistedAlike(s: State, s': State, r: RunId)
    requires Unlisted(s, r) && s'.reclaimers == s.reclaimers && s'.sweepers == s.sweepers
    ensures Unlisted(s', r)
  {
  }

  lemma ReclaimStaysUnlisted(s: State, t: Tid, step: ReclaimStep, r: RunId)
    requires ReclaimEnabled(s, t, step) && Unlisted(s, r) && r !in s.rows
    ensures Unlisted(ApplyReclaim(s, t, step), r)
  {
  }

  lemma SweepStaysUnlisted(c: Config, s: State, t: Tid, step: SweepStep, r: RunId)
    requires SweepEnabled(s, t, step) && Unlisted(s, r)
    requires t in s.sweepers ==> s.sweepers[t].phase != Judging(r)
    ensures Unlisted(ApplySweep(c, s, t, step), r)
  {
  }

  /** The run stamped its run.lock at step j, and the file still has that time. */
  ghost predicate StampedBy(states: seq<State>, steps: seq<Step>, j: nat, m: nat, r: RunId)
    requires j < |states| && j < |steps| && m < |states|
  {
    steps[j] == OwnerBy(r, Stamp) && r in states[m].lockFiles && states[m].lockFiles[r] == states[j].now
  }

  /** Where a run that kept its directory can be after its row went at step d, before it
      lets go of its run.lock or ends. */
  ghost predicate ClosingAt(states: seq<State>, steps: seq<Step>, d: nat, m: nat, r: RunId)
    requires m < |states| && |states| == |steps| + 1
  {
    var s := states[m];
    && r in s.owners && s.owners[r].kept && r !in s.rows && Unlisted(s, r)
    && (s.owners[r].phase.Unregistered? || s.owners[r].phase.Stamped?)
    && (s.owners[r].phase.Stamped? ==> exists j: nat :: d < j < m && StampedBy(states, steps, j, m, r))
  }

  lemma ClosingNext(c: Config, states: seq<State>, steps: seq<Step>, stall: int, d: nat, m: nat, n: nat, r: RunId)
    requires PromptRun(c, states, steps, stall) && stall <= c.slack && d < m < |steps| && n == m + 1
    requires ClosingAt(states, steps, d, m, r)
    ensures ClosingAt(states, steps, d, n, r) || Past(states[n], r)
  {
    var s, step := states[m], steps[m];
    RunKeeps(c, states, steps, stall, m);
    StaysUnlisted(c, s, step, r);
    if step.OwnerBy? && step.run == r {
      if step.ownerStep.Stamp? {
        assert StampedBy(states, steps, m, n, r);
      }
    } else {
      HeldRunUntouched(c, s, step, r);
      if s.owners[r].phase.Stamped? {
        var j: nat :| d < j < m && StampedBy(states, steps, j, m, r);
        assert StampedBy(states, steps, j, n, r);
      }
    }
  }

  lemma PastStaysPast(c: Config, s: State, step: Step, r: RunId)
    requires Inv(c, s) && Enabled(s, step) && Past(s, r)
    ensures Past(Apply(c, s, step), r)
  {
    if step.OwnerBy? {
      OwnerStepFrame(c, s, step.run, step.ownerStep);
      OwnerPhaseStep(c, s, step.run, step.ownerStep);
    } else {
      StepSpares(c, s, step);
    }
  }

  lemma {:induction false} ClosingUntil(
      c: Config, states: seq<State>, steps: seq<Step>, stall: int, d: nat, m: nat, r: RunId)
    requires PromptRun(c, states, steps, stall) && stall <= c.slack && d < m < |states|
    requires steps[d] == OwnerBy(r, DeleteRow(true)) && states[d].owners[r].kept && Unlisted(states[d], r)
    ensures ClosingAt(states, steps, d, m, r) || Past(states[m], r)
  {
    var before: nat := m - 1;
    if before > d {
      ClosingUntil(c, states, steps, stall, d, before, r);
      if Past(states[before], r) {
        RunKeeps(c, states, steps, stall, before);
        PastStaysPast(c, states[before], steps[before], r);
      } else {
        ClosingNext(c, states, steps, stall, d, before, m, r);
      }
    }
  }

  lemma ReleasedIsKept(c: Config, s: State, r: RunId)
    requires OwnerEnabled(s, r, ReleaseRun) && s.owners[r].kept && r in s.dirs && r in s.lockFiles && r !in s.rows
    requires Unlisted(s, r)
    ensures KeptAt(ApplyOwner(c, s, r, ReleaseRun), r, s.lockFiles[r])
    ensures Unlisted(ApplyOwner(c, s, r, ReleaseRun), r)
  {
  }

  lemma ReleaseAt(c: Config, states: seq<State>, steps: seq<Step>, e: nat, n: nat, r: RunId)
    requires IsRun(c, states, steps) && e < |steps| && n == e + 1 && steps[e] == OwnerBy(r, ReleaseRun)
    ensures OwnerEnabled(states[e], r, ReleaseRun) && states[e].owners[r].phase.Stamped?
    ensures states[n] == ApplyOwner(c, states[e], r, ReleaseRun)
  {
  }

  /** A clean close that kept something keeps the directory: from the row's deletion to the
      release of run.lock it stamps the lock, and ends with that stamp on it. */
  lemma CleanCloseKeeps(
      c: Config, states: seq<State>, steps: seq<Step>, stall: int, d: nat, e: nat, n: nat, r: RunId)
      returns (j: nat)
    requires PromptRun(c, states, steps, stall) && stall <= c.slack && d < e < |steps| && n == e + 1
    requires steps[d] == OwnerBy(r, DeleteRow(true)) && states[d].owners[r].kept && Unlisted(states[d], r)
    requires steps[e] == OwnerBy(r, ReleaseRun)
    ensures d < j < e && steps[j] == OwnerBy(r, Stamp)
    ensures KeptAt(states[n], r, states[j].now) && Unlisted(states[n], r)
  {
    ClosingUntil(c, states, steps, stall, d, e, r);
    ReleaseAt(c, states, steps, e, n, r);
    j :| d < j < e && StampedBy(states, steps, j, e, r);
    HeldRunIsSafe(c, states, steps, stall, e, r);
    ReleasedIsKept(c, states[e], r);
  }

  /** And then it stands until it ages out: until the slack has passed since that stamp,
      unless someone cleans. */
  lemma CleanCloseKeepsDir(
      c: Config, states: seq<State>, steps: seq<Step>, stall: int, d: nat, e: nat, released: nat, n: nat, r: RunId)
      returns (j: nat)
    requires PromptRun(c, states, steps, stall) && stall <= c.slack && d < e < |steps| && released == e + 1
    requires released <= n < |states|
    requires steps[d] == OwnerBy(r, DeleteRow(true)) && states[d].owners[r].kept && Unlisted(states[d], r)
    requires steps[e] == OwnerBy(r, ReleaseRun)
    ensures d < j < e && steps[j] == OwnerBy(r, Stamp) && KeptAt(states[released], r, states[j].now)
    ensures Undisturbed(c, states, steps, released, n, states[j].now) ==> KeptAt(states[n], r, states[j].now)
  {
    j := CleanCloseKeeps(c, states, steps, stall, d, e, released, r);
    if Undisturbed(c, states, steps, released, n, states[j].now) {
      KeptDirSurvives(c, states, steps, stall, released, n, r, states[j].now);
    }
  }

  /******* The bound on a stalled opener *******/

  lemma Take(c: Config, states: seq<State>, steps: seq<Step>, stall: int, step: Step)
      returns (states': seq<State>, steps': seq<Step>)
    requires states != [] && PromptRun(c, states, steps, stall) && Enabled(states[|steps|], step)
    requires Prompt(Apply(c, states[|steps|], step), stall)
    ensures states' != [] && PromptRun(c, states', steps', stall)
    ensures states'[|steps'|] == Apply(c, states[|steps|], step)
  {
    states', steps' := states + [Apply(c, states[|steps|], step)], steps + [step];
  }

  ghost predicate HoldsWithoutDir(s: State) {
    exists r :: r in s.owners && HoldsRunLock(s.owners[r].phase) && r !in s.dirs
  }

  lemma OpenerStalls(c: Config, stall: int) returns (states: seq<State>, steps: seq<Step>)
    requires 0 <= c.slack < stall
    ensures states != [] && PromptRun(c, states, steps, stall)
    ensures states[|steps|] == Empty(c.slack + 1).(
      owners := map[0 := Owner(LockCreated, false)], dirs := {0}, lockFiles := map[0 := 0])
  {
    states, steps := [Empty(0)], [];
    states, steps := Take(c, states, steps, stall, OwnerBy(0, Open));
    states, steps := Take(c, states, steps, stall, OwnerBy(0, MakeDir));
    states, steps := Take(c, states, steps, stall, OwnerBy(0, CreateLock));
    states, steps := Take(c, states, steps, stall, Tick(c.slack + 1));
    assert states[|steps|].dirs == {0} && states[|steps|].owners == map[0 := Owner(LockCreated, false)];
  }

  /** A sweep takes the lock of a run that created the file and stalled, finds it old, and
      removes the directory after the run has locked it and gone on. */
  lemma StalledOpenerJudged(c: Config, stall: int) returns (states: seq<State>, steps: seq<Step>)
    requires 0 <= c.slack < stall
    ensures states != [] && PromptRun(c, states, steps, stall)
    ensures var s := states[|steps|];
      && s.owners == map[0 := Owner(LockCreated, false)] && s.reclaimers == map[] && s.cleaners == map[]
      && s.sweepers == map[0 := Sweeper(1, Expired(0))]
  {
    states, steps := OpenerStalls(c, stall);
    states, steps := Take(c, states, steps, stall, SweepBy(0, StartSweep));
    states, steps := Take(c, states, steps, stall, SweepBy(0, TrySweepLock(0)));
    states, steps := Take(c, states, steps, stall, SweepBy(0, Judge));
  }

  /** A run that holds its run.lock has its directory in every prompt run exactly when
      openers may stall no longer than the slack of a sweep. */
  lemma HeldRunsHaveDirsIffPrompt(c: Config, stall: int)
    requires c.slack >= 0 && stall >= 0
    ensures stall <= c.slack <==>
      forall states, steps, n: nat | PromptRun(c, states, steps, stall) && n < |states| :: !HoldsWithoutDir(states[n])
  {
    if stall <= c.slack {
      forall states, steps, n: nat | PromptRun(c, states, steps, stall) && n < |states|
        ensures !HoldsWithoutDir(states[n])
      {
        RunKeeps(c, states, steps, stall, n);
      }
    } else {
      var states, steps := StalledOpenerJudged(c, stall);
      states, steps := Take(c, states, steps, stall, OwnerBy(0, TakeRunLock));
      states, steps := Take(c, states, steps, stall, SweepBy(0, RemoveExpired));
      assert HoldsWithoutDir(states[|steps|]);
    }
  }
}
