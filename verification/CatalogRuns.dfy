/** The life of a catalog: puts, deletions, touches, and the sequence of row ids being set
    back, as when it is reset or restored apart from the rest. */
module CatalogRuns {
  import opened Ids
  import opened Catalog

  /** A sequence that is set back still stays at or above the ids that are live. */
  datatype Step =
    | Records(record: PutRecord)
    | Deletes(outputs: set<Bytes>, entries: set<Bytes>)
    | Touches(entryStamps: map<Bytes, int>, outputStamps: map<Bytes, int>)
    | Resets(sequence: int)

  /** The tables, what each row id was last handed out for, and the output each action's
      latest put recorded. */
  datatype History = History(tables: Tables, wrote: map<int, Bytes>, named: map<Bytes, Bytes>)

  const EMPTY := History(Tables(map[], map[], 0), map[], map[])

  predicate Enabled(h: History, step: Step, resets: bool) {
    step.Resets? ==> resets && forall o :: o in h.tables.outputs ==> h.tables.outputs[o].id <= step.sequence
  }

  function Next(h: History, step: Step): History {
    match step
    case Records(p) => History(Upsert(h.tables, p), Wrote(h.tables, p, h.wrote), h.named[p.action := p.output])
    case Deletes(os, es) => h.(tables := DeleteRows(h.tables, os, es))
    case Touches(es, os) => h.(tables := Touch(h.tables, es, os))
    case Resets(n) => h.(tables := h.tables.(sequence := n))
  }

  /** Where the steps lead from an empty catalog, if they can be taken. */
  function After(steps: seq<Step>, resets: bool): Option<History> {
    if steps == [] then Some(EMPTY) else
    var last := |steps| - 1;
    match After(steps[..last], resets)
    case None => None
    case Some(h) => if Enabled(h, steps[last], resets) then Some(Next(h, steps[last])) else None
  }

  lemma AfterOneMore(steps: seq<Step>, resets: bool, h: History, step: Step)
    requires After(steps, resets) == Some(h) && Enabled(h, step, resets)
    ensures After(steps + [step], resets) == Some(Next(h, step))
  {
    assert (steps + [step])[..|steps + [step]| - 1] == steps;
  }

  /******* With the sequence set back at will *******/

  /** The ids are keys, and every entry carries the tag of the output its action's latest
      put recorded. */
  ghost predicate Tagged(h: History) {
    && Keyed(h.tables)
    && forall a :: a in h.tables.entries ==> a in h.named && h.tables.entries[a].tag == OutputTag(h.named[a])
  }

  lemma StepKeepsTagged(h: History, step: Step, resets: bool)
    requires Tagged(h) && Enabled(h, step, resets)
    ensures Tagged(Next(h, step))
  {
  }

  lemma {:induction false} RunKeepsTagged(steps: seq<Step>, resets: bool)
    requires After(steps, resets).Some?
    ensures Tagged(After(steps, resets).value)
  {
    if steps != [] {
      var last := |steps| - 1;
      RunKeepsTagged(steps[..last], resets);
      StepKeepsTagged(After(steps[..last], resets).value, steps[last], resets);
    }
  }

  /** However often the sequence is set back: an action without an entry, or whose entry's id
      has no row, finds nothing. Otherwise it finds the output of that row if this agrees
      with the one its latest put recorded in the first four bytes, or altogether where
      one is shorter; and it reports a mismatch if they do not agree so. */
  lemma TagGuards(steps: seq<Step>, resets: bool, action: Bytes)
    requires After(steps, resets).Some?
    ensures
      var h := After(steps, resets).value;
      && Keyed(h.tables)
      && match Lookup(h.tables, action)
         case NoRows => action in h.tables.entries ==> NoRowHas(h.tables, h.tables.entries[action].output)
         case TagMismatch(o) =>
           RowOf(h.tables, action, o) && action in h.named && !AgreeOnTag(o, h.named[action])
         case Found(o, size, _) =>
           && RowOf(h.tables, action, o) && action in h.named && AgreeOnTag(o, h.named[action])
           && size == h.tables.outputs[o].size
  {
    RunKeepsTagged(steps, resets);
    var h := After(steps, resets).value;
    if action in h.tables.entries {
      match Lookup(h.tables, action)
      case NoRows =>
      case TagMismatch(o) => TagIsFourBytes(o, h.named[action]);
      case Found(o, _, _) => TagIsFourBytes(o, h.named[action]);
    }
  }

  ghost predicate NoRowHas(t: Tables, id: int) {
    forall o :: o in t.outputs ==> t.outputs[o].id != id
  }

  /** The action's entry references the output's row. */
  predicate RowOf(t: Tables, action: Bytes, o: Bytes) {
    action in t.entries && o in t.outputs && t.outputs[o].id == t.entries[action].output
  }

  /** Forgetting a mismatched entry takes that entry and nothing else. */
  lemma ForgettingTakesOne(t: Tables, action: Bytes)
    requires Keyed(t)
    ensures var t' := DeleteAction(t, action);
      && Keyed(t') && t'.outputs == t.outputs && Lookup(t', action) == NoRows
      && forall a :: a != action ==> Lookup(t', a) == Lookup(t, a)
  {
    var t' := DeleteAction(t, action);
    forall a | a != action && a in t.entries ensures Lookup(t', a) == Lookup(t, a) {
      assert t'.entries[a] == t.entries[a];
    }
  }

  /******* When the very output is found *******/

  lemma StepKeepsInterned(h: History, step: Step)
    requires Interned(h.tables, h.wrote, h.named) && Enabled(h, step, false)
    ensures Interned(Next(h, step).tables, Next(h, step).wrote, Next(h, step).named)
  {
    match step
    case Records(p) => UpsertKeepsInterned(h.tables, p, h.wrote, h.named);
    case Deletes(os, es) => DeleteRowsKeepsInterned(h.tables, os, es, h.wrote, h.named);
    case Touches(es, os) => TouchKeepsInterned(h.tables, es, os, h.wrote, h.named);
  }

  lemma {:induction false} RunKeepsInterned(steps: seq<Step>)
    requires After(steps, false).Some?
    ensures
      var h := After(steps, false).value;
      Interned(h.tables, h.wrote, h.named)
  {
    if steps != [] {
      var last := |steps| - 1;
      RunKeepsInterned(steps[..last]);
      StepKeepsInterned(After(steps[..last], false).value, steps[last]);
    }
  }

  /** The lookup finds another output than the one the action's latest put recorded. */
  predicate Misleads(h: History, action: Bytes)
    requires Keyed(h.tables)
  {
    Lookup(h.tables, action).Found? &&
    !(action in h.named && Lookup(h.tables, action).output == h.named[action])
  }

  ghost predicate SomeRunMisleads(resets: bool) {
    exists steps, action ::
      && After(steps, resets).Some? && Keyed(After(steps, resets).value.tables)
      && Misleads(After(steps, resets).value, action)
  }

  /** A put, the eviction of its output, the sequence set back, and a put of an output that
      shares the first one's leading bytes. */
  lemma ResetMisleads()
    ensures SomeRunMisleads(true)
  {
    var p := PutRecord([1], [9, 9, 9, 9, 1], 10, 5, 0, 0);
    var q := PutRecord([2], [9, 9, 9, 9, 2], 20, 6, 0, 0);
    ReusedIdCanMislead();
    AfterOneMore([], true, EMPTY, Records(p));
    var h1 := Next(EMPTY, Records(p));
    AfterOneMore([Records(p)], true, h1, Deletes({p.output}, {}));
    var h2 := Next(h1, Deletes({p.output}, {}));
    AfterOneMore([Records(p)] + [Deletes({p.output}, {})], true, h2, Resets(0));
    var h3 := Next(h2, Resets(0));
    var steps := [Records(p)] + [Deletes({p.output}, {})] + [Resets(0)];
    AfterOneMore(steps, true, h3, Records(q));
    var h4 := Next(h3, Records(q));
    assert h2.tables == DeleteOutput(h1.tables, p.output);
    assert After(steps + [Records(q)], true) == Some(h4) && Misleads(h4, p.action);
  }

  /** Lookups are faithful in every run exactly when the sequence is never set back. */
  lemma FaithfulIffNeverReset(resets: bool)
    ensures !SomeRunMisleads(resets) <==> !resets
  {
    if resets {
      ResetMisleads();
    } else {
      forall steps, action | After(steps, false).Some? && Keyed(After(steps, false).value.tables)
        ensures !Misleads(After(steps, false).value, action)
      {
        RunKeepsInterned(steps);
        var h := After(steps, false).value;
        LookupFaithful(h.tables, h.wrote, h.named, action);
      }
    }
  }
}
