/** Who waits for whom over the lifecycle lock, the run locks and the stripes: nobody who is
    waited for inside a stripe or over a run lock waits in turn, so there is no cycle. */
module LockOrder {
  import opened Ids
  import opened Lifecycle
  import opened LifecycleSafety

  datatype Process =
    | RunOf(run: RunId)
    | ReclaimerOf(t: Tid)
    | SweeperOf(t: Tid)
    | ExpirerOf(t: Tid)
    | CleanerOf(t: Tid)
    | CollectorOf(t: Tid)

  /******* Who has what *******/

  ghost predicate HasLifecycle(s: State, p: Process) {
    match p
    case RunOf(r) => r in s.owners && IsOpening(s.owners[r].phase)
    case ExpirerOf(t) => t in s.expirers && !s.expirers[t].Walked?
    case CleanerOf(t) => t in s.cleaners
    case _ => false
  }

  ghost predicate HasRunLock(s: State, run: RunId, p: Process) {
    match p
    case RunOf(r) => r == run && r in s.owners && HoldsRunLock(s.owners[r].phase)
    case ReclaimerOf(t) =>
      t in s.reclaimers && (s.reclaimers[t].phase == RunLocked(run) || s.reclaimers[t].phase == RowDeleted(run))
    case SweeperOf(t) => t in s.sweepers && s.sweepers[t].phase == Judging(run)
    case CleanerOf(t) => t in s.cleaners && s.cleaners[t].phase == Trying(run)
    case _ => false
  }

  ghost predicate HasStripe(s: State, name: string, p: Process) {
    match p
    case RunOf(r) =>
      r in s.owners && InStripe(s.owners[r].phase) && StripeName(PlacedOutput(s.owners[r].phase)) == name
    case CollectorOf(t) => t in s.collectors && s.collectors[t].stripe == name
    case _ => false
  }

  /** A lock is free exactly when nobody has it. */
  lemma LifecycleFreeIffUnheld(s: State)
    ensures LifecycleFree(s) <==> forall p :: !HasLifecycle(s, p)
  {
    if !LifecycleFree(s) {
      if r :| r in s.owners && IsOpening(s.owners[r].phase) {
        assert HasLifecycle(s, RunOf(r));
      } else if t :| t in s.expirers && !s.expirers[t].Walked? {
        assert HasLifecycle(s, ExpirerOf(t));
      } else {
        var t :| t in s.cleaners;
        assert HasLifecycle(s, CleanerOf(t));
      }
    }
  }

  lemma RunLockFreeIffUnheld(s: State, run: RunId)
    ensures RunLockFree(s, run) <==> forall p :: !HasRunLock(s, run, p)
  {
    if !RunLockFree(s, run) {
      if t :| t in s.reclaimers &&
              (s.reclaimers[t].phase == RunLocked(run) || s.reclaimers[t].phase == RowDeleted(run)) {
        assert HasRunLock(s, run, ReclaimerOf(t));
      } else if t :| t in s.sweepers && s.sweepers[t].phase == Judging(run) {
        assert HasRunLock(s, run, SweeperOf(t));
      } else if t :| t in s.cleaners && s.cleaners[t].phase == Trying(run) {
        assert HasRunLock(s, run, CleanerOf(t));
      } else {
        assert HasRunLock(s, run, RunOf(run));
      }
    }
  }

  lemma StripeFreeIffUnheld(s: State, name: string)
    ensures StripeFree(s, name) <==> forall p :: !HasStripe(s, name, p)
  {
    if !StripeFree(s, name) {
      if t :| t in s.collectors && s.collectors[t].stripe == name {
        assert HasStripe(s, name, CollectorOf(t));
      } else {
        var r :| r in s.owners && InStripe(s.owners[r].phase) && StripeName(PlacedOutput(s.owners[r].phase)) == name;
        assert HasStripe(s, name, RunOf(r));
      }
    }
  }

  /******* Who waits, and who can go on *******/

  /** An opening run waits for its run.lock; a closing one, which has its own, for a stripe;
      and so does a clean, which has the lifecycle lock. Every other lock that is taken
      with one in hand is only tried, and a process with none in hand holds up nobody. */
  ghost predicate Waits(s: State, p: Process, q: Process) {
    match p
    case RunOf(r) =>
      r in s.owners && p != q &&
      ((s.owners[r].phase.LockCreated? && HasRunLock(s, r, q)) ||
       (s.owners[r].phase.Closing? && exists name :: HasStripe(s, name, q)))
    case CleanerOf(t) => t in s.cleaners && s.cleaners[t].phase.Visiting? && exists name :: HasStripe(s, name, q)
    case _ => false
  }

  /** The process has a step to take that is no failure and takes no lock. */
  ghost predicate GoesOn(s: State, p: Process) {
    match p
    case RunOf(r) =>
      exists step: OwnerStep :: OwnerEnabled(s, r, step) && !step.FailOpen? && !step.FailAdoption? &&
        !step.CrashOwner? && !step.Open? && !step.TakeRunLock? && !step.TakeStripe?
    case ReclaimerOf(t) => ReclaimEnabled(s, t, DeleteFound) || ReclaimEnabled(s, t, UnlockFound)
    case SweeperOf(t) => SweepEnabled(s, t, Judge)
    case ExpirerOf(t) => ExpireEnabled(s, t, CountRuns) || ExpireEnabled(s, t, EndExpiry)
    case CleanerOf(t) => CleanEnabled(s, t, UnlockUnused) || CleanEnabled(s, t, EndClean)
    case CollectorOf(t) => CollectEnabled(s, t, LeaveShard)
  }

  /** Inside a stripe nothing else is taken. */
  lemma StripeHolderGoesOn(c: Config, s: State, name: string, p: Process)
    requires Inv(c, s) && HasStripe(s, name, p)
    ensures GoesOn(s, p) && forall q :: !Waits(s, p, q)
  {
    if p.RunOf? {
      match s.owners[p.run].phase
      case Adopting(_) => assert OwnerEnabled(s, p.run, Place(s.now));
      case Placed(_) => assert OwnerEnabled(s, p.run, Link);
      case Linked(_) => assert OwnerEnabled(s, p.run, LeaveStripe);
    } else {
      assert CollectEnabled(s, p.t, LeaveShard);
    }
  }

  /** Whoever has the run.lock of a run that is still to take it has only tried it, and
      takes nothing more. */
  lemma RunLockHolderGoesOn(c: Config, s: State, r: RunId, p: Process)
    requires Inv(c, s) && r in s.owners && s.owners[r].phase.LockCreated? && HasRunLock(s, r, p)
    ensures GoesOn(s, p) && forall q :: !Waits(s, p, q)
  {
    assert !p.RunOf? && !p.CleanerOf?;
  }

  /** Nobody who is waited for waits. */
  lemma NoChain(c: Config, s: State, p: Process, q: Process)
    requires Inv(c, s) && Waits(s, p, q)
    ensures GoesOn(s, q) && forall x :: !Waits(s, q, x)
  {
    if p.RunOf? && s.owners[p.run].phase.LockCreated? {
      RunLockHolderGoesOn(c, s, p.run, q);
    } else {
      var name :| HasStripe(s, name, q);
      StripeHolderGoesOn(c, s, name, q);
    }
  }

  /** Whoever has the lifecycle lock can go on, or take the run.lock it opened with, or waits
      for one that can go on. */
  lemma LifecycleHolderGoesOn(c: Config, s: State, p: Process)
    requires Inv(c, s) && HasLifecycle(s, p)
    ensures GoesOn(s, p) || (p.RunOf? && OwnerEnabled(s, p.run, TakeRunLock)) ||
            exists q :: Waits(s, p, q) && GoesOn(s, q)
  {
    if p.RunOf? {
      match s.owners[p.run].phase
      case Opening => assert OwnerEnabled(s, p.run, MakeDir);
      case DirMade => assert OwnerEnabled(s, p.run, CreateLock);
      case LockCreated =>
        RunLockFreeIffUnheld(s, p.run);
        if !RunLockFree(s, p.run) {
          var q :| HasRunLock(s, p.run, q);
          RunLockHolderGoesOn(c, s, p.run, q);
          assert Waits(s, p, q);
        }
      case LockHeld => assert OwnerEnabled(s, p.run, Register);
      case Registered => assert OwnerEnabled(s, p.run, FinishOpen);
    }
  }

  /** In every reachable state: no cycle of waiters, of any length. */
  lemma NoWaitCycle(c: Config, states: seq<State>, steps: seq<Step>, stall: int, n: nat, chain: seq<Process>)
    requires PromptRun(c, states, steps, stall) && stall <= c.slack && n < |states|
    requires |chain| >= 2 && forall i :: 0 <= i < |chain| - 1 ==> Waits(states[n], chain[i], chain[i + 1])
    ensures |chain| == 2 && chain[0] != chain[1]
  {
    RunKeeps(c, states, steps, stall, n);
    assert Waits(states[n], chain[0], chain[0 + 1]);
    assert |chain| > 2 ==> Waits(states[n], chain[1], chain[1 + 1]);
    NoChain(c, states[n], chain[0], chain[1]);
  }
}
