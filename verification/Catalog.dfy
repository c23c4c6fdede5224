/** The SQL catalog: outputs (the inventory of blobs), entries (actions mapped onto
    them through an interned row id), and the statements that change them. Every
    statement or transaction is one atomic step on the tables. */
module Catalog {
  import opened Ids

  datatype Output = Output(id: int, size: int, compressedSize: int, accessedAt: int)
  datatype Entry = Entry(output: int, tag: Bytes, createdAt: int, accessedAt: int)

  /** `sequence` is what AUTOINCREMENT counts from: the larger of the sqlite_sequence
      row and the largest live id. */
  datatype Tables = Tables(outputs: map<Bytes, Output>, entries: map<Bytes, Entry>, sequence: int)

  datatype PutRecord = PutRecord(
    action: Bytes, output: Bytes, size: int, compressedSize: int, createdAt: int, accessedAt: int)

  datatype LookupResult =
    | NoRows
    | TagMismatch(resolved: Bytes)
    | Found(output: Bytes, size: int, createdAt: int)

  const OUTPUT_TAG_LEN := 4

  /** The ids are a primary key, and the sequence is at or above all of them. */
  ghost predicate Keyed(t: Tables) {
    && (forall o :: o in t.outputs ==> t.outputs[o].id <= t.sequence)
    && (forall o, p :: o in t.outputs && p in t.outputs && t.outputs[o].id == t.outputs[p].id ==> o == p)
  }

  function OutputTag(key: Bytes): Bytes {
    key[..if OUTPUT_TAG_LEN < |key| then OUTPUT_TAG_LEN else |key|]
  }

  /** The row id an upsert of this output returns: its own if the inventory knows it,
      the next of the sequence otherwise. */
  function InternedId(t: Tables, output: Bytes): int {
    if output in t.outputs then t.outputs[output].id else t.sequence + 1
  }

  function RecordOutput(t: Tables, p: PutRecord): Tables {
    var id := InternedId(t, p.output);
    t.(outputs := t.outputs[p.output := Output(id, p.size, p.compressedSize, p.accessedAt)],
       sequence := if p.output in t.outputs then t.sequence else id)
  }

  function RecordEntry(t: Tables, p: PutRecord, ref: int): Tables {
    t.(entries := t.entries[p.action := Entry(ref, OutputTag(p.output), p.createdAt, p.accessedAt)])
  }

  /** The put transaction: the output first, then the entry that references it. */
  function Upsert(t: Tables, p: PutRecord): Tables {
    RecordEntry(RecordOutput(t, p), p, InternedId(t, p.output))
  }

  /** The output a row id belongs to, if its row is there. */
  function Resolve(t: Tables, ref: int): Option<Bytes>
    requires Keyed(t)
  {
    if exists o :: o in t.outputs && t.outputs[o].id == ref then
      var o :| o in t.outputs && t.outputs[o].id == ref;
      Some(o)
    else None
  }

  function Lookup(t: Tables, action: Bytes): LookupResult
    requires Keyed(t)
  {
    if action !in t.entries then NoRows else
    var e := t.entries[action];
    match Resolve(t, e.output)
    case None => NoRows
    case Some(o) =>
      if e.tag != OutputTag(o) then TagMismatch(o)
      else Found(o, t.outputs[o].size, e.createdAt)
  }

  function DeleteAction(t: Tables, action: Bytes): Tables {
    t.(entries := t.entries - {action})
  }

  function DeleteOutput(t: Tables, output: Bytes): Tables {
    t.(outputs := t.outputs - {output})
  }

  /** Rows below a cutoff deleted by any number of age-expiry transactions. */
  function DeleteRows(t: Tables, outputs: set<Bytes>, entries: set<Bytes>): Tables {
    t.(outputs := t.outputs - outputs, entries := t.entries - entries)
  }

  /** The delete re-asserts the access time the output was chosen at. */
  predicate EvictsOutput(outputs: map<Bytes, Output>, output: Bytes, accessedAt: int) {
    output in outputs && outputs[output].accessedAt <= accessedAt
  }

  /** UPDATE ... WHERE key = ?: rows that are gone stay gone, and the new time is taken
      whether or not it is later. */
  function TouchOutputs(outputs: map<Bytes, Output>, stamps: map<Bytes, int>): map<Bytes, Output> {
    map o | o in outputs :: if o in stamps then outputs[o].(accessedAt := stamps[o]) else outputs[o]
  }

  function TouchEntries(entries: map<Bytes, Entry>, stamps: map<Bytes, int>): map<Bytes, Entry> {
    map a | a in entries :: if a in stamps then entries[a].(accessedAt := stamps[a]) else entries[a]
  }

  function Touch(t: Tables, entries: map<Bytes, int>, outputs: map<Bytes, int>): Tables {
    t.(entries := TouchEntries(t.entries, entries), outputs := TouchOutputs(t.outputs, outputs))
  }

  /** The rows named have the times given, and nothing else has changed. */
  ghost predicate Touched(t: Tables, t': Tables, entries: map<Bytes, int>, outputs: map<Bytes, int>) {
    && t'.sequence == t.sequence && t'.entries.Keys == t.entries.Keys && t'.outputs.Keys == t.outputs.Keys
    && (forall a :: a in t.entries ==>
          t'.entries[a] == if a in entries then t.entries[a].(accessedAt := entries[a]) else t.entries[a])
    && (forall o :: o in t.outputs ==>
          t'.outputs[o] == if o in outputs then t.outputs[o].(accessedAt := outputs[o]) else t.outputs[o])
  }

  /******* A put, and what it leaves alone *******/

  lemma ResolveExact(t: Tables, ref: int, o: Bytes)
    requires Keyed(t)
    ensures Resolve(t, ref) == Some(o) <==> o in t.outputs && t.outputs[o].id == ref
  {
  }

  /** After a put: the output's row and the action's entry are the put's own, and the entry
      references the row; no other row or entry has changed. */
  predicate HoldsRecord(t: Tables, t': Tables, p: PutRecord) {
    && p.output in t'.outputs && p.action in t'.entries
    && t'.outputs[p.output].size == p.size && t'.outputs[p.output].compressedSize == p.compressedSize
    && t'.outputs[p.output].accessedAt == p.accessedAt
    && t'.entries[p.action].createdAt == p.createdAt && t'.entries[p.action].accessedAt == p.accessedAt
    && t'.entries[p.action].output == t'.outputs[p.output].id
    && t'.outputs - {p.output} == t.outputs - {p.output} && t'.entries - {p.action} == t.entries - {p.action}
  }

  /** The ids agree as far as a tag goes: on four bytes, or altogether if one is shorter. */
  predicate AgreeOnTag(a: Bytes, b: Bytes) {
    if |a| < 4 || |b| < 4 then a == b else a[..4] == b[..4]
  }

  lemma TagIsFourBytes(a: Bytes, b: Bytes)
    ensures OutputTag(a) == OutputTag(b) <==> AgreeOnTag(a, b)
  {
  }

  /** A put is found by its own action, for its own output. Another action still finds
      what it found before, except that an entry sharing the output sees its new size;
      and one that found nothing finds nothing, as long as no entry references an id the
      sequence has yet to hand out. */
  lemma UpsertThenLookup(t: Tables, p: PutRecord, other: Bytes)
    requires Keyed(t)
    requires forall a :: a in t.entries ==> t.entries[a].output <= t.sequence
    ensures Keyed(Upsert(t, p)) && HoldsRecord(t, Upsert(t, p), p)
    ensures Lookup(Upsert(t, p), p.action) == Found(p.output, p.size, p.createdAt)
    ensures other != p.action ==>
      Lookup(Upsert(t, p), other) ==
        match Lookup(t, other)
        case Found(o, size, createdAt) => Found(o, if o == p.output then p.size else size, createdAt)
        case same => same
  {
    var t' := Upsert(t, p);
    ResolveExact(t', InternedId(t, p.output), p.output);
    if other != p.action && other in t.entries {
      var ref := t.entries[other].output;
      forall o ensures Resolve(t', ref) == Some(o) <==> Resolve(t, ref) == Some(o) {
        ResolveExact(t, ref, o);
        ResolveExact(t', ref, o);
      }
      assert Resolve(t', ref) == Resolve(t, ref) by {
        if Resolve(t, ref).Some? { assert Resolve(t', ref) == Some(Resolve(t, ref).value); }
        if Resolve(t', ref).Some? { assert Resolve(t, ref) == Some(Resolve(t', ref).value); }
      }
    }
  }

  /** Both statements are upserts, so repeating the transaction after a disputed commit
      changes nothing. */
  lemma UpsertIdempotent(t: Tables, p: PutRecord)
    ensures Upsert(Upsert(t, p), p) == Upsert(t, p)
  {
    var once := Upsert(t, p);
    assert Upsert(once, p).outputs == once.outputs;
    assert Upsert(once, p).entries == once.entries;
  }

  /******* Interned ids stay faithful *******/

  /** `wrote` records the output each row id was handed out for, over the life of the
      catalog, and `named` the output each action's latest put recorded. */
  ghost predicate Interned(t: Tables, wrote: map<int, Bytes>, named: map<Bytes, Bytes>) {
    && (forall id :: id in wrote ==> id <= t.sequence)
    && (forall o :: o in t.outputs ==> t.outputs[o].id in wrote && wrote[t.outputs[o].id] == o)
    && (forall a :: a in t.entries ==>
          && a in named
          && t.entries[a].output in wrote
          && wrote[t.entries[a].output] == named[a]
          && t.entries[a].tag == OutputTag(named[a]))
  }

  function Wrote(t: Tables, p: PutRecord, wrote: map<int, Bytes>): map<int, Bytes> {
    wrote[InternedId(t, p.output) := p.output]
  }

  /** A lookup resolves an entry to nothing or to the output its action's latest put
      recorded: never to another output, and never to a tag mismatch. */
  lemma LookupFaithful(t: Tables, wrote: map<int, Bytes>, named: map<Bytes, Bytes>, action: Bytes)
    requires Interned(t, wrote, named)
    ensures Keyed(t)
    ensures Lookup(t, action).NoRows? ||
            (Lookup(t, action).Found? && action in named && Lookup(t, action).output == named[action])
  {
  }

  /** Puts keep ids faithful: a new output takes an id no entry can still be holding,
      however many outputs were deleted in between. */
  lemma UpsertKeepsInterned(t: Tables, p: PutRecord, wrote: map<int, Bytes>, named: map<Bytes, Bytes>)
    requires Interned(t, wrote, named)
    ensures Interned(Upsert(t, p), Wrote(t, p, wrote), named[p.action := p.output])
  {
  }

  /** Evictions, drops and age expiry keep ids faithful: whatever rows are deleted, the
      sequence does not go back. */
  lemma DeleteRowsKeepsInterned(t: Tables, outputs: set<Bytes>, entries: set<Bytes>,
                                wrote: map<int, Bytes>, named: map<Bytes, Bytes>)
    requires Interned(t, wrote, named)
    ensures Interned(DeleteRows(t, outputs, entries), wrote, named)
  {
  }

  lemma TouchKeepsInterned(t: Tables, es: map<Bytes, int>, os: map<Bytes, int>,
                           wrote: map<int, Bytes>, named: map<Bytes, Bytes>)
    requires Interned(t, wrote, named)
    ensures Interned(Touch(t, es, os), wrote, named)
  {
  }

  /** Why the id must not be reused: with the sequence set back, a put of a second output
      sharing the first one's leading bytes is found by the first one's action. */
  lemma ReusedIdCanMislead()
    ensures
      var p := PutRecord([1], [9, 9, 9, 9, 1], 10, 5, 0, 0);
      var q := PutRecord([2], [9, 9, 9, 9, 2], 20, 6, 0, 0);
      var evicted := DeleteOutput(Upsert(Tables(map[], map[], 0), p), p.output);
      Keyed(evicted.(sequence := 0)) &&
      Keyed(Upsert(evicted.(sequence := 0), q)) &&
      Lookup(Upsert(evicted.(sequence := 0), q), p.action) == Found(q.output, q.size, 0)
  {
    var p := PutRecord([1], [9, 9, 9, 9, 1], 10, 5, 0, 0);
    var q := PutRecord([2], [9, 9, 9, 9, 2], 20, 6, 0, 0);
    var evicted := DeleteOutput(Upsert(Tables(map[], map[], 0), p), p.output);
    var t := Upsert(evicted.(sequence := 0), q);
    assert OutputTag(p.output) == [9, 9, 9, 9] == OutputTag(q.output);
    ResolveExact(t, 1, q.output);
  }

  /******* The statements, as one connection runs them *******/

  /** How one attempt at a put transaction ends: committed, refused as busy before or
      after it took effect, or failed for good. */
  datatype Attempt = Commits | Busy | BusyAfterCommit | Fails

  const CATALOG_PUT_ATTEMPTS := 3

  predicate Retried(a: Attempt) {
    a.Busy? || a.BusyAfterCommit?
  }

  class Db {
    var tables: Tables

    constructor ()
      ensures tables == Tables(map[], map[], 0)
    {
      tables := Tables(map[], map[], 0);
    }

    /** One put transaction: RETURNING hands the interned id to the second statement. */
    method UpsertEntryOnce(p: PutRecord, attempt: Attempt) returns (ok: bool)
      modifies this
      ensures ok <==> attempt.Commits?
      ensures tables == if attempt.Commits? || attempt.BusyAfterCommit? then Upsert(old(tables), p) else old(tables)
    {
      if attempt.Busy? || attempt.Fails? {
        return false;
      }
      var tx := tables;
      var ref: int;
      if p.output in tx.outputs {
        ref := tx.outputs[p.output].id;
      } else {
        ref := tx.sequence + 1;
        tx := tx.(sequence := ref);
      }
      tx := tx.(outputs := tx.outputs[p.output := Output(ref, p.size, p.compressedSize, p.accessedAt)]);
      tx := tx.(entries := tx.entries[p.action := Entry(ref, OutputTag(p.output), p.createdAt, p.accessedAt)]);
      tables := tx;
      ok := attempt.Commits?;
    }

    /** The whole upsert, retried while busy, at most three times. A success leaves the
        tables as one put would, however many attempts took effect before it, and a
        failure leaves them as one put would or untouched. */
    method UpsertEntry(p: PutRecord, attempts: seq<Attempt>) returns (ok: bool)
      requires |attempts| >= 3
      modifies this
      ensures ok <==> exists k :: 0 <= k < 3 && attempts[k].Commits? &&
                                  forall j :: 0 <= j < k ==> attempts[j].Busy? || attempts[j].BusyAfterCommit?
      ensures ok ==> tables == Upsert(old(tables), p)
      ensures tables == Upsert(old(tables), p) || tables == old(tables)
    {
      UpsertIdempotent(tables, p);
      var attempt := 1;
      while true
        invariant 1 <= attempt <= CATALOG_PUT_ATTEMPTS
        invariant forall j :: 0 <= j < attempt - 1 ==> Retried(attempts[j])
        invariant tables == Upsert(old(tables), p) || tables == old(tables)
        decreases CATALOG_PUT_ATTEMPTS - attempt
      {
        ok := UpsertEntryOnce(p, attempts[attempt - 1]);
        if !Retried(attempts[attempt - 1]) || attempt == CATALOG_PUT_ATTEMPTS {
          return;
        }
        attempt := attempt + 1;
      }
    }

    /** Two statements, not one transaction: the inventory row first, so the blob stops
        being referenced even if the second never runs. */
    method DropAction(action: Bytes, output: Bytes, secondRuns: bool)
      modifies this
      ensures tables.outputs == old(tables).outputs - {output} && tables.sequence == old(tables).sequence
      ensures tables.entries == old(tables).entries - if secondRuns then {action} else {}
    {
      tables := DeleteOutput(tables, output);
      if secondRuns {
        tables := DeleteAction(tables, action);
      }
      assert tables.entries == old(tables).entries - if secondRuns then {action} else {};
    }

    /** Reports whether the row was deleted: only if nothing read the output after the
        access time it was chosen at. */
    method EvictOutput(output: Bytes, accessedAt: int) returns (removed: bool)
      modifies this
      ensures removed <==> output in old(tables).outputs && old(tables).outputs[output].accessedAt <= accessedAt
      ensures tables.outputs == (if removed then old(tables).outputs - {output} else old(tables).outputs)
      ensures tables.entries == old(tables).entries && tables.sequence == old(tables).sequence
    {
      removed := output in tables.outputs && tables.outputs[output].accessedAt <= accessedAt;
      if removed {
        tables := DeleteOutput(tables, output);
      }
    }

    /** One UPDATE per stamped id, in whatever order the maps are walked. */
    method TouchAccessed(entries: map<Bytes, int>, outputs: map<Bytes, int>)
      modifies this
      ensures tables == Touch(old(tables), entries, outputs) && Touched(old(tables), tables, entries, outputs)
    {
      var todo := entries.Keys;
      while todo != {}
        invariant todo <= entries.Keys
        invariant tables.outputs == old(tables).outputs && tables.sequence == old(tables).sequence
        invariant tables.entries.Keys == old(tables).entries.Keys
        invariant forall a :: a in tables.entries ==>
          tables.entries[a] == if a in entries && a !in todo
                               then old(tables).entries[a].(accessedAt := entries[a])
                               else old(tables).entries[a]
      {
        var a :| a in todo;
        if a in tables.entries {
          tables := tables.(entries := tables.entries[a := tables.entries[a].(accessedAt := entries[a])]);
        }
        todo := todo - {a};
      }
      assert tables.entries == TouchEntries(old(tables).entries, entries);
      todo := outputs.Keys;
      while todo != {}
        invariant todo <= outputs.Keys
        invariant tables.entries == TouchEntries(old(tables).entries, entries)
        invariant tables.sequence == old(tables).sequence
        invariant tables.outputs.Keys == old(tables).outputs.Keys
        invariant forall o :: o in tables.outputs ==>
          tables.outputs[o] == if o in outputs && o !in todo
                               then old(tables).outputs[o].(accessedAt := outputs[o])
                               else old(tables).outputs[o]
      {
        var o :| o in todo;
        if o in tables.outputs {
          tables := tables.(outputs := tables.outputs[o := tables.outputs[o].(accessedAt := outputs[o])]);
        }
        todo := todo - {o};
      }
      assert tables.outputs == TouchOutputs(old(tables).outputs, outputs);
    }
  }
}
