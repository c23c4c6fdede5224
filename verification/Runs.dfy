/** Building a run of the protocol one step at a time, and a put to build it with. */
module Runs {
  import opened Ids
  import opened Protocol

  const O: Bytes := [1]

  function Job(w: World, t: Tid): Put {
    Put([1], O, w.content(O), |w.content(O)|, LivePath(0, O, t), Writing)
  }

  function Last(states: seq<State>): State
    requires states != []
  {
    states[|states| - 1]
  }

  ghost predicate Going(w: World, states: seq<State>, steps: seq<Step>) {
    states != [] && IsRun(w, states, steps)
  }

  lemma Take(w: World, states: seq<State>, steps: seq<Step>, step: Step)
      returns (states': seq<State>, steps': seq<Step>)
    requires Going(w, states, steps) && Enabled(w, Last(states), step)
    ensures Going(w, states', steps') && Last(states') == Apply(w, Last(states), step)
  {
    states', steps' := states + [Apply(w, Last(states), step)], steps + [step];
  }

  /** Only this put has ever been made, and nobody else is about. */
  ghost predicate LonePut(s: State, p: Put) {
    && s.puts == map[0 := p] && s.gets == map[] && s.evictions == map[] && s.collections == map[]
    && s.tables.outputs == map[] && s.doomed == {} && s.reaped == {}
    && s.live.Keys == {p.live} && s.materialized == map[]
    && s.inodes.Keys == {0} && s.inodes[0].output == O && s.inodes[0].mtime == 0
  }

  lemma LonePutWaits(w: World) returns (states: seq<State>, steps: seq<Step>)
    ensures Going(w, states, steps) && LonePut(Last(states), Job(w, 0).(phase := Waiting(0)))
    ensures Last(states).now == 0 && Last(states).blobs == map[] && Last(states).pendings == map[0 := 0]
  {
    states, steps := [Empty(0)], [];
    states, steps := Take(w, states, steps, PutBy(0, StartPut(Job(w, 0))));
    states, steps := Take(w, states, steps, PutBy(0, FinishWriting(0)));
  }

  lemma LonePutEnters(w: World) returns (states: seq<State>, steps: seq<Step>)
    ensures Going(w, states, steps) && LonePut(Last(states), Job(w, 0).(phase := Renaming(0)))
    ensures Last(states).now == 0 && Last(states).blobs == map[] && Last(states).pendings == map[0 := 0]
  {
    states, steps := LonePutWaits(w);
    states, steps := Take(w, states, steps, PutBy(0, LockPut));
    states, steps := Take(w, states, steps, PutBy(0, CheckBlob));
  }

  lemma LonePutInstalls(w: World) returns (states: seq<State>, steps: seq<Step>)
    ensures Going(w, states, steps) && LonePut(Last(states), Job(w, 0).(phase := Sizing(0, None)))
    ensures Last(states).now == 0 && Last(states).blobs == map[O := 0] && Last(states).pendings == map[]
  {
    states, steps := LonePutEnters(w);
    states, steps := Take(w, states, steps, PutBy(0, Rename));
  }
}
