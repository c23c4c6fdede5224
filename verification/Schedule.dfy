/** What other processes do around the statements of one pass: one turn before each. */
module Schedule {
  /** The changes others make before a statement, and whether it then fails. */
  datatype Turn<C> = Turn(changes: seq<C>, fails: bool)

  function Changes<C>(turns: seq<Turn<C>>): seq<C> {
    if turns == [] then [] else Changes(turns[..|turns| - 1]) + turns[|turns| - 1].changes
  }

  /** `turns` is what is left of the schedule, and what others did is exactly what the turns
      taken hold, in order. */
  ghost predicate OnSchedule<C>(others: seq<C>, schedule: seq<Turn<C>>, turns: seq<Turn<C>>) {
    && |turns| <= |schedule| && turns == schedule[|schedule| - |turns|..]
    && others == Changes(schedule[..|schedule| - |turns|])
  }

  /** No statement that took its turn failed. */
  ghost predicate NoneFailed<C>(schedule: seq<Turn<C>>, turns: seq<Turn<C>>) {
    |turns| <= |schedule| && forall k :: 0 <= k < |schedule| - |turns| ==> !schedule[k].fails
  }

  lemma OnScheduleAfter<C>(others: seq<C>, schedule: seq<Turn<C>>, turns: seq<Turn<C>>)
    requires OnSchedule(others, schedule, turns) && turns != []
    ensures OnSchedule(others + turns[0].changes, schedule, turns[1..])
    ensures NoneFailed(schedule, turns[1..]) <==> NoneFailed(schedule, turns) && !turns[0].fails
  {
    var k := |schedule| - |turns|;
    assert schedule[..k + 1][..k] == schedule[..k] && schedule[k] == turns[0];
  }

  lemma TakesOneMore<C>(others: seq<C>, changes: seq<C>, i: nat)
    requires i < |changes|
    ensures others + changes[..i + 1] == others + changes[..i] + [changes[i]]
  {
  }
}
