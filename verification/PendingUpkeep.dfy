/** Upkeep of pending files: when it spares the file of a put in progress. A put's file is
    written again and again while it compresses, and then waits for the stripe; upkeep
    looks at a file's time and removes it in two steps. */
module PendingUpkeep {
  import opened Ids
  import opened Catalog
  import opened Protocol
  import opened ProtocolSafety
  import opened Runs

  /** Every put in progress has written its pending file within the last `beat`. */
  ghost predicate Beats(s: State, beat: int) {
    forall t :: t in s.puts && InProgress(s.puts[t].phase) && t in s.pendings ==> s.now - s.pendings[t] <= beat
  }

  ghost predicate BeatingRun(w: World, states: seq<State>, steps: seq<Step>, beat: int) {
    IsRun(w, states, steps) && forall i :: 0 <= i < |states| ==> Beats(states[i], beat)
  }

  /** The step removes the pending file of a put in progress. */
  predicate TakesFromPut(s: State, step: Step) {
    step.Other? && step.step.ReapPending? && step.step.put in s.puts && InProgress(s.puts[step.step.put].phase)
  }

  /******* Beating fast enough *******/

  /** No file upkeep found stale, or removed, is of a put in progress. */
  ghost predicate DoomedAreIdle(s: State) {
    forall t :: (t in s.doomed || t in s.reaped) && t in s.puts ==> !InProgress(s.puts[t].phase)
  }

  /** A put that has stopped needing its pending file never needs it again. */
  lemma ProgressEnds(w: World, s: State, t: Tid, step: PutStep)
    requires PutEnabled(w, s, t, step) && !step.StartPut?
    requires t in ApplyPut(w, s, t, step).puts && InProgress(ApplyPut(w, s, t, step).puts[t].phase)
    ensures t in s.puts && InProgress(s.puts[t].phase)
  {
  }

  lemma PutKeepsDoomedIdle(w: World, s: State, t: Tid, step: PutStep)
    requires DoomedAreIdle(s) && PutEnabled(w, s, t, step)
    ensures DoomedAreIdle(ApplyPut(w, s, t, step))
  {
    var s' := ApplyPut(w, s, t, step);
    PutStepFrame(w, s, t, step);
    if !step.StartPut? && t in s'.puts && InProgress(s'.puts[t].phase) {
      ProgressEnds(w, s, t, step);
    }
  }

  lemma UpkeepKeepsDoomedIdle(w: World, s: State, step: OtherStep, beat: int)
    requires DoomedAreIdle(s) && Beats(s, beat) && beat <= w.mtimeInterval && OtherEnabled(w, s, step)
    ensures DoomedAreIdle(ApplyOther(s, step))
  {
    OtherStepFrame(w, s, step);
  }

  lemma StepKeepsDoomedIdle(w: World, s: State, step: Step, beat: int)
    requires DoomedAreIdle(s) && Beats(s, beat) && beat <= w.mtimeInterval && Enabled(w, s, step)
    ensures DoomedAreIdle(Apply(w, s, step))
  {
    match step
    case PutBy(t, p) => PutKeepsDoomedIdle(w, s, t, p);
    case GetBy(t, g) => GetStepFrame(w, s, t, g);
    case EvictBy(t, e) => EvictStepFrame(w, s, t, e);
    case CollectBy(t, c) => CollectStepFrame(w, s, t, c);
    case Other(o) => UpkeepKeepsDoomedIdle(w, s, o, beat);
  }

  lemma {:induction false} RunKeepsDoomedIdle(w: World, states: seq<State>, steps: seq<Step>, beat: int, n: nat)
    requires BeatingRun(w, states, steps, beat) && beat <= w.mtimeInterval && n < |states|
    ensures DoomedAreIdle(states[n])
  {
    if n > 0 {
      var m: nat := n - 1;
      RunKeepsDoomedIdle(w, states, steps, beat, m);
      StepKeepsDoomedIdle(w, states[m], steps[m], beat);
    }
  }

  /** With puts that beat at least that fast, a put's pending file is there for as long as
      the put needs it, and renaming it into place cannot fail. */
  lemma PendingStays(w: World, states: seq<State>, steps: seq<Step>, beat: int, n: nat, t: Tid)
    requires Sound(w) && BeatingRun(w, states, steps, beat) && beat <= w.mtimeInterval
    requires n < |states| && t in states[n].puts && InProgress(states[n].puts[t].phase)
    ensures t in states[n].pendings
    ensures states[n].puts[t].phase.Renaming? ==> ApplyRename(states[n], t).puts[t].phase.Sizing?
  {
    RunKeeps(w, states, steps, n);
    RunKeepsDoomedIdle(w, states, steps, beat, n);
  }

  /******* Beating too slowly *******/

  lemma Take(w: World, states: seq<State>, steps: seq<Step>, beat: int, step: Step)
      returns (states': seq<State>, steps': seq<Step>)
    requires states != [] && BeatingRun(w, states, steps, beat)
    requires Enabled(w, Last(states), step) && Beats(Apply(w, Last(states), step), beat)
    ensures states' != [] && BeatingRun(w, states', steps', beat) && Last(states') == Apply(w, Last(states), step)
    ensures |steps'| == |steps| + 1 && steps'[|steps|] == step && states'[|steps|] == Last(states)
  {
    states', steps' := states + [Apply(w, Last(states), step)], steps + [step];
  }

  /** One put, and its pending file, and nobody else. */
  ghost predicate OnlyPut(s: State, p: Put, pendings: map<Tid, int>) {
    && s.puts == map[0 := p] && s.pendings == pendings && s.doomed == {0}
    && s.gets == map[] && s.evictions == map[] && s.collections == map[] && s.blobs == map[] && s.inodes == map[]
  }

  /** A put pauses for longer than the interval while it compresses, and upkeep looks. */
  lemma PutPauses(w: World, beat: int) returns (states: seq<State>, steps: seq<Step>)
    requires 0 <= w.mtimeInterval < beat
    ensures states != [] && BeatingRun(w, states, steps, beat)
    ensures OnlyPut(Last(states), Job(w, 0), map[0 := 0]) && Last(states).now == w.mtimeInterval + 1
  {
    states, steps := [Empty(0)], [];
    states, steps := Take(w, states, steps, beat, PutBy(0, StartPut(Job(w, 0))));
    states, steps := Take(w, states, steps, beat, Other(Tick(w.mtimeInterval + 1)));
    states, steps := Take(w, states, steps, beat, Other(JudgePending(0)));
  }

  /** The put writes again, and upkeep removes what it has just written. */
  lemma FreshFileIsLost(w: World, beat: int) returns (states: seq<State>, steps: seq<Step>, n: nat)
    requires 0 <= w.mtimeInterval < beat
    ensures states != [] && BeatingRun(w, states, steps, beat) && n < |steps|
    ensures TakesFromPut(states[n], steps[n])
    ensures var t := steps[n].step.put; t in states[n].pendings && states[n].pendings[t] == states[n].now
    ensures OnlyPut(Last(states), Job(w, 0), map[])
  {
    states, steps := PutPauses(w, beat);
    states, steps := Take(w, states, steps, beat, PutBy(0, WritePending));
    n := |steps|;
    states, steps := Take(w, states, steps, beat, Other(ReapPending(0)));
  }

  /** The put finishes writing without its file, */
  lemma WritesWithoutIt(w: World, beat: int) returns (states: seq<State>, steps: seq<Step>)
    requires 0 <= w.mtimeInterval < beat
    ensures states != [] && BeatingRun(w, states, steps, beat)
    ensures var s := Last(states);
      && s.puts == map[0 := Job(w, 0).(phase := Waiting(0))] && s.pendings == map[] && s.blobs == map[]
      && s.gets == map[] && s.evictions == map[] && s.collections == map[]
  {
    var n;
    states, steps, n := FreshFileIsLost(w, beat);
    states, steps := Take(w, states, steps, beat, PutBy(0, FinishWriting(0)));
  }

  /** takes its stripe, */
  lemma LocksWithoutIt(w: World, beat: int) returns (states: seq<State>, steps: seq<Step>)
    requires 0 <= w.mtimeInterval < beat
    ensures states != [] && BeatingRun(w, states, steps, beat)
    ensures var s := Last(states);
      s.puts == map[0 := Job(w, 0).(phase := Locked(0))] && s.pendings == map[] && s.blobs == map[]
  {
    states, steps := WritesWithoutIt(w, beat);
    states, steps := Take(w, states, steps, beat, PutBy(0, LockPut));
  }

  /** and, with nothing else disturbing it, fails when it gets to rename it. */
  lemma LosingItFailsThePut(w: World, beat: int) returns (states: seq<State>, steps: seq<Step>)
    requires 0 <= w.mtimeInterval < beat
    ensures states != [] && BeatingRun(w, states, steps, beat)
    ensures 0 in Last(states).puts && Last(states).puts[0] == Job(w, 0).(phase := Failed)
  {
    states, steps := LocksWithoutIt(w, beat);
    states, steps := Take(w, states, steps, beat, PutBy(0, CheckBlob));
    states, steps := Take(w, states, steps, beat, PutBy(0, Rename));
  }

  /** Age tells a dead put's pending file from one in progress, in every run, exactly when
      no put goes longer without writing than the mtime interval. */
  lemma SparesPutsIffBeating(w: World, beat: int)
    requires w.mtimeInterval >= 0
    ensures beat <= w.mtimeInterval <==>
      forall states, steps, n: nat | BeatingRun(w, states, steps, beat) && n < |steps| ::
        !TakesFromPut(states[n], steps[n])
  {
    if beat <= w.mtimeInterval {
      forall states, steps, n: nat | BeatingRun(w, states, steps, beat) && n < |steps|
        ensures !TakesFromPut(states[n], steps[n])
      {
        RunKeepsDoomedIdle(w, states, steps, beat, n);
      }
    } else {
      var states, steps, n := FreshFileIsLost(w, beat);
    }
  }
}
