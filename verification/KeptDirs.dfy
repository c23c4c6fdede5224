/** Exactly when a clean close keeps its directory: when no listing of runs that another
    process is still working through has it as its row is deleted. */
module KeptDirs {
  import opened Lifecycle
  import opened LifecycleSafety

  /** The run goes on from where it was. */
  ghost predicate Continues(states: seq<State>, steps: seq<Step>, states': seq<State>, steps': seq<Step>) {
    states <= states' && steps <= steps'
  }

  /** From here the run r closes cleanly: its row is deleted next, and later its run.lock is
      released, which leads to state n; nobody cleans after that, and no more time passes
      since its closing stamp than the slack. */
  ghost predicate ClosesFrom(
      c: Config, states: seq<State>, steps: seq<Step>, states': seq<State>, steps': seq<Step>, r: RunId, n: nat)
  {
    && Continues(states, steps, states', steps') && |states'| == |steps'| + 1 && |steps| + 1 < n <= |steps'|
    && steps'[|steps|] == OwnerBy(r, DeleteRow(true)) && steps'[n - 1] == OwnerBy(r, ReleaseRun)
    && r in states'[n].lockFiles && Undisturbed(c, states', steps', n, |steps'|, states'[n].lockFiles[r])
  }

  /** The directory is there whenever the run has closed so. */
  ghost predicate AlwaysKept(c: Config, states: seq<State>, steps: seq<Step>, stall: int, r: RunId) {
    forall states': seq<State>, steps': seq<Step>, n: nat ::
      PromptRun(c, states', steps', stall) && ClosesFrom(c, states, steps, states', steps', r, n) ==>
        r in states'[|steps'|].dirs
  }

  /** What such a continuation is, step by step. */
  lemma ClosingSteps(c: Config, states: seq<State>, steps: seq<Step>, states': seq<State>, steps': seq<Step>, r: RunId,
                     n: nat)
      returns (d: nat, e: nat, last: nat)
    requires |states| == |steps| + 1 && ClosesFrom(c, states, steps, states', steps', r, n)
    ensures d == |steps| && d < e < |steps'| && n == e + 1 && n <= last == |steps'|
    ensures states'[d] == states[d]
    ensures steps'[d] == OwnerBy(r, DeleteRow(true)) && steps'[e] == OwnerBy(r, ReleaseRun)
    ensures r in states'[n].lockFiles && Undisturbed(c, states', steps', n, last, states'[n].lockFiles[r])
  {
    d, e, last := |steps|, n - 1, |steps'|;
  }

  lemma KeptInRun(
      c: Config, states: seq<State>, steps: seq<Step>, stall: int, d: nat, e: nat, n: nat, last: nat, r: RunId)
    requires PromptRun(c, states, steps, stall) && stall <= c.slack
    requires d < e < |steps| && n == e + 1 && n <= last < |states|
    requires steps[d] == OwnerBy(r, DeleteRow(true)) && states[d].owners[r].kept && Unlisted(states[d], r)
    requires steps[e] == OwnerBy(r, ReleaseRun)
    requires r in states[n].lockFiles && Undisturbed(c, states, steps, n, last, states[n].lockFiles[r])
    ensures r in states[last].dirs
  {
    var j := CleanCloseKeepsDir(c, states, steps, stall, d, e, n, last, r);
  }

  lemma KeptIfUnlisted(c: Config, states: seq<State>, steps: seq<Step>, stall: int, r: RunId,
                       states': seq<State>, steps': seq<Step>, n: nat)
    requires |states| == |steps| + 1 && stall <= c.slack
    requires r in states[|steps|].owners && states[|steps|].owners[r].kept && Unlisted(states[|steps|], r)
    requires PromptRun(c, states', steps', stall) && ClosesFrom(c, states, steps, states', steps', r, n)
    ensures r in states'[|steps'|].dirs
  {
    var d, e, last := ClosingSteps(c, states, steps, states', steps', r, n);
    KeptInRun(c, states', steps', stall, d, e, n, last, r);
  }

  /******* A reclaimer that has it listed *******/

  /** The run has closed in three steps, and no time has passed since its stamp. */
  ghost predicate Closed(
      c: Config, states: seq<State>, steps: seq<Step>, states': seq<State>, steps': seq<Step>, r: RunId)
  {
    var d := |steps|;
    && Continues(states, steps, states', steps') && |steps'| >= d + 3 && |states'| == |steps'| + 1
    && steps'[d] == OwnerBy(r, DeleteRow(true)) && steps'[d + 2] == OwnerBy(r, ReleaseRun)
    && r in states'[d + 3].lockFiles && states'[|steps'|].now == states'[d + 3].lockFiles[r]
    && Undisturbed(c, states', steps', d + 3, |steps'|, states'[d + 3].lockFiles[r])
  }

  ghost predicate Trail(
      c: Config, states: seq<State>, steps: seq<Step>, states': seq<State>, steps': seq<Step>, stall: int, r: RunId)
  {
    PromptRun(c, states', steps', stall) && Closed(c, states, steps, states', steps', r)
  }

  lemma Go(c: Config, states: seq<State>, steps: seq<Step>, stall: int, step: Step)
      returns (states': seq<State>, steps': seq<Step>)
    requires PromptRun(c, states, steps, stall) && Enabled(states[|steps|], step)
    requires Prompt(Apply(c, states[|steps|], step), stall)
    ensures Continues(states, steps, states', steps') && PromptRun(c, states', steps', stall)
    ensures |steps'| == |steps| + 1 && steps'[|steps|] == step && states'[|steps'|] == Apply(c, states[|steps|], step)
  {
    states', steps' := states + [Apply(c, states[|steps|], step)], steps + [step];
  }

  lemma {:induction false} UndisturbedContinues(
      c: Config, states: seq<State>, steps: seq<Step>, states': seq<State>, steps': seq<Step>,
      i: nat, n: nat, stamp: int)
    requires Continues(states, steps, states', steps') && n <= |steps| < |states| && |steps'| < |states'|
    requires Undisturbed(c, states, steps, i, n, stamp)
    ensures Undisturbed(c, states', steps', i, n, stamp)
  {
    if n > i {
      var m: nat := n - 1;
      UndisturbedContinues(c, states, steps, states', steps', i, m, stamp);
    }
  }

  lemma ClosedContinues(
      c: Config, states: seq<State>, steps: seq<Step>, before: seq<State>, stepsBefore: seq<Step>,
      states': seq<State>, steps': seq<Step>, r: RunId)
    requires Closed(c, states, steps, before, stepsBefore, r) && Continues(before, stepsBefore, states', steps')
    requires |steps'| == |stepsBefore| + 1 && |states'| == |steps'| + 1 && steps'[|stepsBefore|].ReclaimBy?
    requires states'[|steps'|].now == before[|stepsBefore|].now && c.slack >= 0
    ensures Closed(c, states, steps, states', steps', r)
  {
    var i, n: nat := |steps| + 3, |stepsBefore|;
    UndisturbedContinues(c, before, stepsBefore, states', steps', i, n, before[i].lockFiles[r]);
  }

  lemma TrailGoes(
      c: Config, states: seq<State>, steps: seq<Step>, before: seq<State>, stepsBefore: seq<Step>, stall: int, r: RunId,
      t: Tid, step: ReclaimStep)
      returns (states': seq<State>, steps': seq<Step>)
    requires Trail(c, states, steps, before, stepsBefore, stall, r) && c.slack >= 0
    requires ReclaimEnabled(before[|stepsBefore|], t, step) && ReclaimKeepsPrompt(before[|stepsBefore|], t, step)
    ensures Trail(c, states, steps, states', steps', stall, r)
    ensures states'[|steps'|] == ApplyReclaim(before[|stepsBefore|], t, step)
  {
    var s := before[|stepsBefore|];
    assert Prompt(s, stall);
    assert Prompt(ApplyReclaim(s, t, step), stall);
    states', steps' := Go(c, before, stepsBefore, stall, ReclaimBy(t, step));
    ClosedContinues(c, states, steps, before, stepsBefore, states', steps', r);
  }

  /** The step touches no lock file that is not there. */
  ghost predicate ReclaimKeepsPrompt(s: State, t: Tid, step: ReclaimStep)
    requires ReclaimEnabled(s, t, step)
  {
    var s' := ApplyReclaim(s, t, step);
    && s'.now == s.now && s'.owners == s.owners
    && forall q :: q in s'.lockFiles ==> q in s.lockFiles && s'.lockFiles[q] == s.lockFiles[q]
  }

  /** The run has let go of its run.lock and nobody else has it; its directory is there. */
  ghost predicate UpForReclaim(s: State, r: RunId) {
    r in s.dirs && r in s.lockFiles && RunLockFree(s, r)
  }

  /** The run as its row is deleted, stamped, and let go of. */
  function RowGone(c: Config, s: State, r: RunId): State
    requires r in s.owners
  {
    ApplyOwner(c, s, r, DeleteRow(true))
  }

  function Let(c: Config, s: State, r: RunId): State
    requires r in s.owners
  {
    ApplyOwner(c, ApplyOwner(c, s, r, Stamp), r, ReleaseRun)
  }

  ghost predicate ClosingKept(s: State, r: RunId) {
    r in s.owners && s.owners[r].kept && s.owners[r].phase.Closing?
  }

  lemma RowGoes(c: Config, s: State, stall: int, r: RunId)
    requires ClosingKept(s, r) && Prompt(s, stall)
    ensures OwnerEnabled(s, r, DeleteRow(true)) && Prompt(RowGone(c, s, r), stall)
    ensures OwnerEnabled(RowGone(c, s, r), r, Stamp)
  {
  }

  lemma LetsGo(c: Config, s: State, stall: int, r: RunId)
    requires r in s.owners && s.owners[r] == Owner(Unregistered, true) && Prompt(s, stall)
    ensures OwnerEnabled(s, r, Stamp) && Prompt(ApplyOwner(c, s, r, Stamp), stall)
    ensures OwnerEnabled(ApplyOwner(c, s, r, Stamp), r, ReleaseRun) && Prompt(Let(c, s, r), stall)
  {
  }

  /** After that it is up for reclaim, and the others stand as they did. */
  lemma UpAfterClose(c: Config, s: State, r: RunId)
    requires ClosingKept(s, r) && r in s.dirs && r in s.lockFiles && !Threatened(s, r)
    ensures var s' := Let(c, RowGone(c, s, r), r);
      && UpForReclaim(s', r) && s'.reclaimers == s.reclaimers && s'.now == s.now && s'.lockFiles[r] == s.now
  {
  }

  lemma Releases(c: Config, states: seq<State>, steps: seq<Step>, stall: int, r: RunId)
      returns (states': seq<State>, steps': seq<Step>)
    requires PromptRun(c, states, steps, stall) && stall <= c.slack && ClosingKept(states[|steps|], r)
    ensures Trail(c, states, steps, states', steps', stall, r)
    ensures states'[|steps'|] == Let(c, RowGone(c, states[|steps|], r), r)
  {
    var d: nat := |steps|;
    var s := states[d];
    HeldRunIsSafe(c, states, steps, stall, d, r);
    RowGoes(c, s, stall, r);
    states', steps' := Go(c, states, steps, stall, OwnerBy(r, DeleteRow(true)));
    LetsGo(c, RowGone(c, s, r), stall, r);
    states', steps' := Go(c, states', steps', stall, OwnerBy(r, Stamp));
    states', steps' := Go(c, states', steps', stall, OwnerBy(r, ReleaseRun));
    UpAfterClose(c, s, r);
  }

  /** A reclaimer still has the run to come to. */
  ghost predicate Lists(s: State, t: Tid, r: RunId) {
    && UpForReclaim(s, r) && t in s.reclaimers && r in s.reclaimers[t].todo
    && (!s.reclaimers[t].phase.Between? ==> s.reclaimers[t].phase.run != r)
  }

  /** How it goes on from the run it is at, */
  function RoundStep(phase: ReclaimPhase): ReclaimStep {
    match phase
    case DirMissing(_) => DeleteMissing
    case RowDeleted(_) => UnlockFound
    case RunUnlocked(_) => RemoveFound
    case _ => SkipRun
  }

  /** and how far that is from its end. */
  function RoundLeft(phase: ReclaimPhase): nat {
    match phase
    case Between => 0
    case RowDeleted(_) => 2
    case _ => 1
  }

  ghost predicate RoundGoesOn(s: State, t: Tid, r: RunId)
    requires t in s.reclaimers
  {
    var step := RoundStep(s.reclaimers[t].phase);
    && ReclaimEnabled(s, t, step) && ReclaimKeepsPrompt(s, t, step) && Lists(ApplyReclaim(s, t, step), t, r)
    && RoundLeft(ApplyReclaim(s, t, step).reclaimers[t].phase) < RoundLeft(s.reclaimers[t].phase)
  }

  lemma RemovalGoesOn(s: State, t: Tid, r: RunId)
    requires Lists(s, t, r) && s.reclaimers[t].phase.RunUnlocked?
    ensures RoundGoesOn(s, t, r)
  {
  }

  lemma SkipGoesOn(s: State, t: Tid, r: RunId)
    requires Lists(s, t, r) && (s.reclaimers[t].phase.DirSeen? || s.reclaimers[t].phase.RunLocked?)
    ensures RoundGoesOn(s, t, r)
  {
  }

  lemma MissingGoesOn(s: State, t: Tid, r: RunId)
    requires Lists(s, t, r) && s.reclaimers[t].phase.DirMissing?
    ensures RoundGoesOn(s, t, r)
  {
  }

  lemma UnlockGoesOn(s: State, t: Tid, r: RunId)
    requires Lists(s, t, r) && s.reclaimers[t].phase.RowDeleted?
    ensures RoundGoesOn(s, t, r)
  {
  }

  lemma RoundGoes(s: State, t: Tid, r: RunId)
    requires Lists(s, t, r) && !s.reclaimers[t].phase.Between?
    ensures RoundGoesOn(s, t, r)
  {
    match s.reclaimers[t].phase
    case DirMissing(_) => MissingGoesOn(s, t, r);
    case RowDeleted(_) => UnlockGoesOn(s, t, r);
    case RunUnlocked(_) => RemovalGoesOn(s, t, r);
    case _ => SkipGoesOn(s, t, r);
  }

  lemma LooksNext(s: State, t: Tid, r: RunId)
    requires Lists(s, t, r) && s.reclaimers[t].phase.Between?
    ensures ReclaimEnabled(s, t, LookForDir(r)) && ReclaimKeepsPrompt(s, t, LookForDir(r))
    ensures Sees(ApplyReclaim(s, t, LookForDir(r)), t, r)
  {
  }

  lemma {:induction false} Settles(
      c: Config, states: seq<State>, steps: seq<Step>, before: seq<State>, stepsBefore: seq<Step>, stall: int, r: RunId,
      t: Tid)
      returns (states': seq<State>, steps': seq<Step>)
    requires Trail(c, states, steps, before, stepsBefore, stall, r) && c.slack >= 0
    requires Lists(before[|stepsBefore|], t, r)
    ensures Trail(c, states, steps, states', steps', stall, r)
    ensures Lists(states'[|steps'|], t, r) && states'[|steps'|].reclaimers[t].phase.Between?
    decreases RoundLeft(before[|stepsBefore|].reclaimers[t].phase)
  {
    var phase := before[|stepsBefore|].reclaimers[t].phase;
    if phase.Between? {
      states', steps' := before, stepsBefore;
    } else {
      RoundGoes(before[|stepsBefore|], t, r);
      states', steps' := TrailGoes(c, states, steps, before, stepsBefore, stall, r, t, RoundStep(phase));
      states', steps' := Settles(c, states, steps, states', steps', stall, r, t);
    }
  }

  /** A reclaimer that has the run listed comes to see its directory. */
  lemma Arrives(
      c: Config, states: seq<State>, steps: seq<Step>, before: seq<State>, stepsBefore: seq<Step>, stall: int, r: RunId,
      t: Tid)
      returns (states': seq<State>, steps': seq<Step>)
    requires Trail(c, states, steps, before, stepsBefore, stall, r) && c.slack >= 0
    requires Lists(before[|stepsBefore|], t, r)
    ensures Trail(c, states, steps, states', steps', stall, r) && Sees(states'[|steps'|], t, r)
  {
    states', steps' := Settles(c, states, steps, before, stepsBefore, stall, r, t);
    LooksNext(states'[|steps'|], t, r);
    states', steps' := TrailGoes(c, states, steps, states', steps', stall, r, t, LookForDir(r));
  }

  ghost predicate Sees(s: State, t: Tid, r: RunId) {
    UpForReclaim(s, r) && t in s.reclaimers && s.reclaimers[t].phase == DirSeen(r)
  }

  /** A reclaimer that has seen the directory takes it. */
  lemma Reclaims(
      c: Config, states: seq<State>, steps: seq<Step>, before: seq<State>, stepsBefore: seq<Step>, stall: int, r: RunId,
      t: Tid)
      returns (states': seq<State>, steps': seq<Step>)
    requires Trail(c, states, steps, before, stepsBefore, stall, r) && c.slack >= 0
    requires Sees(before[|stepsBefore|], t, r)
    ensures Trail(c, states, steps, states', steps', stall, r) && r !in states'[|steps'|].dirs
  {
    states', steps' := TrailGoes(c, states, steps, before, stepsBefore, stall, r, t, TryRunLock);
    states', steps' := TrailGoes(c, states, steps, states', steps', stall, r, t, DeleteFound);
    states', steps' := TrailGoes(c, states, steps, states', steps', stall, r, t, UnlockFound);
    states', steps' := TrailGoes(c, states, steps, states', steps', stall, r, t, RemoveFound);
  }

  /** Who has the run listed, while it holds its run.lock. */
  lemma ListedBy(c: Config, s: State, r: RunId) returns (t: Tid)
    requires Inv(c, s) && !Unlisted(s, r) && r in s.owners && HoldsRunLock(s.owners[r].phase)
    ensures t in s.reclaimers
    ensures s.reclaimers[t].phase == DirSeen(r) || r in s.reclaimers[t].todo
    ensures !s.reclaimers[t].phase.Between? && s.reclaimers[t].phase.run == r ==> s.reclaimers[t].phase == DirSeen(r)
  {
    assert forall u :: u in s.sweepers ==> SweeperFits(c, s, s.sweepers[u]);
    t :| t in s.reclaimers &&
         (r in s.reclaimers[t].todo || (!s.reclaimers[t].phase.Between? && s.reclaimers[t].phase.run == r));
    assert ReclaimerFits(s, s.reclaimers[t]);
  }

  /** Whichever it is, it takes the directory. */
  lemma ListedIsTaken(
      c: Config, states: seq<State>, steps: seq<Step>, before: seq<State>, stepsBefore: seq<Step>, stall: int, r: RunId,
      t: Tid)
      returns (states': seq<State>, steps': seq<Step>)
    requires Trail(c, states, steps, before, stepsBefore, stall, r) && c.slack >= 0
    requires Lists(before[|stepsBefore|], t, r) || Sees(before[|stepsBefore|], t, r)
    ensures Trail(c, states, steps, states', steps', stall, r) && r !in states'[|steps'|].dirs
  {
    states', steps' := before, stepsBefore;
    if !Sees(before[|stepsBefore|], t, r) {
      states', steps' := Arrives(c, states, steps, before, stepsBefore, stall, r, t);
    }
    states', steps' := Reclaims(c, states, steps, states', steps', stall, r, t);
  }

  lemma TakenIfListed(c: Config, states: seq<State>, steps: seq<Step>, stall: int, r: RunId)
      returns (states': seq<State>, steps': seq<Step>, n: nat)
    requires PromptRun(c, states, steps, stall) && stall <= c.slack && c.slack >= 0
    requires ClosingKept(states[|steps|], r) && !Unlisted(states[|steps|], r)
    ensures PromptRun(c, states', steps', stall) && ClosesFrom(c, states, steps, states', steps', r, n)
    ensures r !in states'[|steps'|].dirs
  {
    var d: nat := |steps|;
    RunKeeps(c, states, steps, stall, d);
    HeldRunIsSafe(c, states, steps, stall, d, r);
    var t := ListedBy(c, states[d], r);
    UpAfterClose(c, states[d], r);
    states', steps' := Releases(c, states, steps, stall, r);
    states', steps' := ListedIsTaken(c, states, steps, states', steps', stall, r, t);
    n := ClosedCloses(c, states, steps, states', steps', r);
  }

  lemma ClosedCloses(
      c: Config, states: seq<State>, steps: seq<Step>, states': seq<State>, steps': seq<Step>, r: RunId)
      returns (n: nat)
    requires Closed(c, states, steps, states', steps', r)
    ensures ClosesFrom(c, states, steps, states', steps', r, n)
  {
    n := |steps| + 3;
  }

  /** A run that closes with something kept has its directory until it ages out, however the
      rest of the cache goes on short of a clean, exactly when nobody has it listed as its
      row is deleted. */
  lemma KeptIffUnlisted(c: Config, states: seq<State>, steps: seq<Step>, stall: int, r: RunId)
    requires PromptRun(c, states, steps, stall) && stall <= c.slack && c.slack >= 0
    requires ClosingKept(states[|steps|], r)
    ensures Unlisted(states[|steps|], r) <==> AlwaysKept(c, states, steps, stall, r)
  {
    if Unlisted(states[|steps|], r) {
      forall states': seq<State>, steps': seq<Step>, n: nat |
        PromptRun(c, states', steps', stall) && ClosesFrom(c, states, steps, states', steps', r, n)
        ensures r in states'[|steps'|].dirs
      {
        KeptIfUnlisted(c, states, steps, stall, r, states', steps', n);
      }
    } else {
      var states', steps', n := TakenIfListed(c, states, steps, stall, r);
    }
  }
}
