/** The eviction pass: re-reads the size, deletes the planned rows that nothing has read
    since, and unlinks each blob after its row. Other processes may change both tables and
    files before any statement. */
module EvictionPass {
  import opened Ids
  import opened Catalog
  import opened Eviction
  import opened Schedule

  /** The catalog, and the outputs whose blob file exists. */
  datatype State = State(tables: Tables, blobs: set<Bytes>)

  /** What another process does to one row or file. */
  datatype Change =
    | Recorded(record: PutRecord)
    | Touched(output: Bytes, at: int)
    | RowGone(output: Bytes)
    | BlobMade(output: Bytes)
    | BlobGone(output: Bytes)

  datatype Event =
    | Others(change: Change)
    | TotalRead
    | RowDeleted(candidate: Candidate) // the re-asserted delete removed the row
    | Spared(candidate: Candidate)     // the delete removed nothing
    | Unlinked(output: Bytes)

  function Changed(s: State, c: Change): State {
    match c
    case Recorded(p) => s.(tables := Upsert(s.tables, p))
    case Touched(o, at) => s.(tables := Touch(s.tables, map[], map[o := at]))
    case RowGone(o) => s.(tables := DeleteOutput(s.tables, o))
    case BlobMade(o) => s.(blobs := s.blobs + {o})
    case BlobGone(o) => s.(blobs := s.blobs - {o})
  }

  /** The total the size query computes. */
  function TotalSize(outputs: map<Bytes, Output>): int
    requires DistinctIds(Candidates(outputs))
  {
    SumSizes(Ranked(Candidates(outputs)))
  }

  /******* What a pass did, read off its log *******/

  /** The state now; what others did; the candidates whose row was deleted, and those tried;
      the output whose row was deleted and whose blob has yet to be unlinked; and whether
      the total has been read. */
  datatype Facts = Facts(
    now: State, others: seq<Change>, deleted: seq<Candidate>, tried: seq<Candidate>,
    owed: Option<Bytes>, sized: bool)

  function Extended(f: Facts, e: Event): Facts {
    match e
    case Others(c) => f.(now := Changed(f.now, c), others := f.others + [c])
    case TotalRead => f.(sized := true)
    case RowDeleted(c) =>
      f.(now := f.now.(tables := DeleteOutput(f.now.tables, c.outputId)),
         deleted := f.deleted + [c], tried := f.tried + [c], owed := Some(c.outputId))
    case Spared(c) => f.(tried := f.tried + [c])
    case Unlinked(o) => f.(now := f.now.(blobs := f.now.blobs - {o}), owed := None)
  }

  function Outcome(s: State, log: seq<Event>): Facts {
    if log == [] then Facts(s, [], [], [], None, false)
    else Extended(Outcome(s, log[..|log| - 1]), log[|log| - 1])
  }

  function Names(cs: seq<Candidate>): (ids: seq<Bytes>)
    ensures |ids| == |cs|
  {
    if cs == [] then [] else Names(cs[..|cs| - 1]) + [cs[|cs| - 1].outputId]
  }

  /** One event is in order after the ones before it: a row is deleted only while the
      total read, less the sizes deleted, is over budget, and only if nothing read the
      output since it was planned; a row is spared only if it is gone or was read; a
      blob is unlinked only after its own row was deleted, and before the next is tried. */
  ghost predicate InOrder(f: Facts, e: Event, total: int, maxSize: int) {
    match e
    case TotalRead =>
      var outputs := f.now.tables.outputs;
      !f.sized && f.owed == None && f.tried == [] && DistinctIds(Candidates(outputs)) && total == TotalSize(outputs)
    case RowDeleted(c) =>
      && f.sized && f.owed == None
      && EvictsOutput(f.now.tables.outputs, c.outputId, c.accessedAt)
      && total - SumSizes(f.deleted) > maxSize
    case Spared(c) => f.sized && f.owed == None && !EvictsOutput(f.now.tables.outputs, c.outputId, c.accessedAt)
    case Unlinked(o) => f.owed == Some(o)
    case Others(_) => true
  }

  ghost predicate LegalPass(s: State, log: seq<Event>, total: int, maxSize: int) {
    log == [] ||
    (LegalPass(s, log[..|log| - 1], total, maxSize) &&
     InOrder(Outcome(s, log[..|log| - 1]), log[|log| - 1], total, maxSize))
  }

  /** Every event of a legal pass is in order. */
  lemma {:induction false} LegalAt(s: State, log: seq<Event>, k: nat, total: int, maxSize: int)
    requires LegalPass(s, log, total, maxSize) && k < |log|
    ensures InOrder(Outcome(s, log[..k]), log[k], total, maxSize)
  {
    if k < |log| - 1 {
      LegalAt(s, log[..|log| - 1], k, total, maxSize);
      assert log[..|log| - 1][..k] == log[..k];
    }
  }

  lemma {:induction false} OwedFrom(s: State, log: seq<Event>, o: Bytes, total: int, maxSize: int) returns (j: nat)
    requires LegalPass(s, log, total, maxSize) && Outcome(s, log).owed == Some(o)
    ensures j < |log| && log[j].RowDeleted? && log[j].candidate.outputId == o
    ensures forall i :: j < i < |log| ==> log[i].Others?
  {
    var last := |log| - 1;
    if log[last].RowDeleted? {
      j := last;
    } else {
      j := OwedFrom(s, log[..last], o, total, maxSize);
      assert log[j] == log[..last][j];
      forall i | j < i < last ensures log[i].Others? {
        assert log[i] == log[..last][i];
      }
    }
  }

  /** A blob is unlinked only after this pass deleted its row, at a moment when nothing had
      read the output since it was planned; between the two, only other processes ran. */
  lemma UnlinkFollowsDelete(s: State, log: seq<Event>, k: nat, total: int, maxSize: int)
    requires LegalPass(s, log, total, maxSize) && k < |log| && log[k].Unlinked?
    ensures exists j :: 0 <= j < k && log[j].RowDeleted? && log[j].candidate.outputId == log[k].output &&
                        InOrder(Outcome(s, log[..j]), log[j], total, maxSize) &&
                        forall i :: j < i < k ==> log[i].Others?
  {
    LegalAt(s, log, k, total, maxSize);
    LegalPrefix(s, log, k, total, maxSize);
    var j := OwedFrom(s, log[..k], log[k].output, total, maxSize);
    LegalAt(s, log, j, total, maxSize);
    assert log[j] == log[..k][j];
    forall i | j < i < k ensures log[i].Others? {
      assert log[i] == log[..k][i];
    }
  }

  lemma {:induction false} LegalPrefix(s: State, log: seq<Event>, k: nat, total: int, maxSize: int)
    requires LegalPass(s, log, total, maxSize) && k <= |log|
    ensures LegalPass(s, log[..k], total, maxSize)
  {
    if k == |log| {
      assert log[..k] == log;
    } else {
      LegalPrefix(s, log[..|log| - 1], k, total, maxSize);
      assert log[..|log| - 1][..k] == log[..k];
    }
  }

  lemma LogTakesOne(s: State, log: seq<Event>, e: Event, total: int, maxSize: int)
    requires LegalPass(s, log, total, maxSize) && InOrder(Outcome(s, log), e, total, maxSize)
    ensures LegalPass(s, log + [e], total, maxSize) && Outcome(s, log + [e]) == Extended(Outcome(s, log), e)
  {
    assert (log + [e])[..|log + [e]| - 1] == log;
  }

  lemma {:induction false} UnsizedIsLegal(s: State, log: seq<Event>, total: int, other: int, maxSize: int)
    requires LegalPass(s, log, total, maxSize) && !Outcome(s, log).sized
    ensures LegalPass(s, log, other, maxSize)
  {
    if log != [] {
      UnsizedIsLegal(s, log[..|log| - 1], total, other, maxSize);
    }
  }

  /** Other processes leave this output's row, read later than `at`, and its blob. */
  predicate KeepsRead(c: Change, o: Bytes, at: int) {
    match c
    case Recorded(p) => p.output == o ==> p.accessedAt > at
    case Touched(q, t) => q == o ==> t > at
    case RowGone(q) => q != o
    case BlobMade(_) => true
    case BlobGone(q) => q != o
  }

  predicate ReadSince(t: Tables, o: Bytes, at: int) {
    o in t.outputs && t.outputs[o].accessedAt > at
  }

  ghost predicate StaysRead(f: Facts, o: Bytes, at: int) {
    && (forall i :: 0 <= i < |f.others| ==> KeepsRead(f.others[i], o, at))
    && (forall i :: 0 <= i < |f.tried| && f.tried[i].outputId == o ==> f.tried[i].accessedAt <= at)
  }

  lemma StaysReadBefore(f: Facts, e: Event, o: Bytes, at: int)
    requires StaysRead(Extended(f, e), o, at)
    ensures StaysRead(f, o, at)
    ensures e.Others? ==> KeepsRead(e.change, o, at)
    ensures e.RowDeleted? && e.candidate.outputId == o ==> e.candidate.accessedAt <= at
  {
    var g := Extended(f, e);
    forall i | 0 <= i < |f.others| ensures f.others[i] == g.others[i] {
    }
    forall i | 0 <= i < |f.tried| ensures f.tried[i] == g.tried[i] {
    }
    if e.Others? {
      assert g.others[|f.others|] == e.change;
    }
    if e.RowDeleted? {
      assert g.tried[|f.tried|] == e.candidate;
    }
  }

  /** An output read later than it was planned survives the pass, row and blob, unless
      another process takes it: the pass itself takes neither. */
  lemma {:induction false} ReadOutputStays(s: State, log: seq<Event>, o: Bytes, at: int, total: int, maxSize: int)
    requires LegalPass(s, log, total, maxSize) && ReadSince(s.tables, o, at) && StaysRead(Outcome(s, log), o, at)
    ensures ReadSince(Outcome(s, log).now.tables, o, at) && Outcome(s, log).owed != Some(o)
    ensures o in s.blobs ==> o in Outcome(s, log).now.blobs
  {
    if log != [] {
      var before, e := log[..|log| - 1], log[|log| - 1];
      StaysReadBefore(Outcome(s, before), e, o, at);
      ReadOutputStays(s, before, o, at, total, maxSize);
    }
  }

  lemma TriesNext(candidates: seq<Candidate>, i: nat)
    requires i < |candidates|
    ensures candidates[..i] + [candidates[i]] == candidates[..i + 1]
    ensures candidates[..i + 1] <= candidates
  {
  }

  /** What the loop has to show for the rows deleted. */
  ghost predicate Accounts(left: int, evicted: seq<Bytes>, total: int, deleted: seq<Candidate>) {
    left == total - SumSizes(deleted) && evicted == Names(deleted)
  }

  lemma AccountsForOne(left: int, evicted: seq<Bytes>, total: int, deleted: seq<Candidate>, c: Candidate)
    requires Accounts(left, evicted, total, deleted)
    ensures Accounts(left - c.size, evicted + [c.outputId], total, deleted + [c])
  {
    assert (deleted + [c])[..|deleted + [c]| - 1] == deleted;
  }

  /******* A pass nothing interferes with *******/

  lemma DistinctIdsAfterDelete(outputs: map<Bytes, Output>, gone: set<Bytes>)
    requires DistinctIds(Candidates(outputs))
    ensures DistinctIds(Candidates(outputs - gone))
  {
    forall o | o in outputs - gone
      ensures CandidateOf(outputs - gone, o) in Candidates(outputs)
    {
      assert CandidateOf(outputs - gone, o) == CandidateOf(outputs, o);
    }
  }

  lemma {:induction false} SumOfConcat(a: seq<Candidate>, b: seq<Candidate>)
    ensures SumSizes(a + b) == SumSizes(a) + SumSizes(b)
  {
    if b == [] {
      assert a + b == a;
    } else {
      SumOfConcat(a, b[..|b| - 1]);
      assert (a + b)[..|a + b| - 1] == a + b[..|b| - 1];
    }
  }

  lemma {:induction false} SumWithout(cs: set<Candidate>, c: Candidate)
    requires DistinctIds(cs) && c in cs
    ensures SumSizes(Ranked(cs - {c})) == SumSizes(Ranked(cs)) - c.size
  {
    var m := Ranked(cs)[0];
    assert IsLeast(m, cs) && Ranked(cs) == [m] + Ranked(cs - {m});
    SumOfConcat([m], Ranked(cs - {m}));
    if m != c {
      assert IsLeast(m, cs - {c});
      assert Ranked(cs - {c}) == [m] + Ranked(cs - {c} - {m});
      SumOfConcat([m], Ranked(cs - {c} - {m}));
      assert cs - {c} - {m} == cs - {m} - {c};
      SumWithout(cs - {m}, c);
    }
  }

  /** Deleting a row takes its size off the total. */
  lemma TotalAfterDelete(outputs: map<Bytes, Output>, o: Bytes)
    requires DistinctIds(Candidates(outputs)) && o in outputs
    ensures DistinctIds(Candidates(outputs - {o}))
    ensures TotalSize(outputs - {o}) == TotalSize(outputs) - outputs[o].compressedSize
    ensures TotalSize(map[]) == 0
  {
    assert Candidates(map[]) == {};
    DistinctIdsAfterDelete(outputs, {o});
    SumWithout(Candidates(outputs), CandidateOf(outputs, o));
    assert Candidates(outputs - {o}) == Candidates(outputs) - {CandidateOf(outputs, o)} by {
      forall p | p in outputs && p != o
        ensures CandidateOf(outputs, p) in Candidates(outputs - {o})
      {
        assert CandidateOf(outputs - {o}, p) == CandidateOf(outputs, p);
      }
    }
  }

  function OwedSet(f: Facts): set<Bytes> {
    match f.owed case Some(o) => {o} case None => {}
  }

  /** What a quiet pass leaves: every candidate tried is a row deleted, the running total
      is the real one, and blobs follow rows. */
  ghost predicate QuietOutcome(s: State, f: Facts, total: int) {
    && f.deleted == f.tried
    && f.now.tables.outputs == s.tables.outputs - OutputIds(f.tried)
    && f.now.blobs == s.blobs - (OutputIds(f.tried) - OwedSet(f))
    && OwedSet(f) <= OutputIds(f.tried)
    && DistinctIds(Candidates(f.now.tables.outputs))
    && (if f.sized then total - SumSizes(f.deleted) == TotalSize(f.now.tables.outputs) else f.tried == [])
  }

  lemma OutputIdsTakesOne(cs: seq<Candidate>, c: Candidate)
    ensures OutputIds(cs + [c]) == OutputIds(cs) + {c.outputId}
    ensures NoDuplicates(cs + [c]) ==> c.outputId !in OutputIds(cs)
  {
    assert (cs + [c])[|cs|] == c;
    forall i | 0 <= i < |cs| ensures cs[i].outputId in OutputIds(cs + [c]) {
      assert (cs + [c])[i] == cs[i];
    }
    if NoDuplicates(cs + [c]) {
      forall i | 0 <= i < |cs| ensures cs[i].outputId != c.outputId {
        assert (cs + [c])[i] == cs[i];
      }
    }
  }

  lemma QuietDelete(s: State, f: Facts, c: Candidate, total: int, maxSize: int)
    requires QuietOutcome(s, f, total) && InOrder(f, RowDeleted(c), total, maxSize)
    requires NoDuplicates(f.tried + [c]) && c in Candidates(s.tables.outputs)
    ensures QuietOutcome(s, Extended(f, RowDeleted(c)), total)
  {
    OutputIdsTakesOne(f.tried, c);
    var outputs := f.now.tables.outputs;
    TotalAfterDelete(outputs, c.outputId);
    SumOfConcat(f.deleted, [c]);
    assert [c][..0] == [];
    assert outputs - {c.outputId} == s.tables.outputs - OutputIds(f.tried + [c]);
  }

  lemma QuietSpares(s: State, f: Facts, c: Candidate, total: int, maxSize: int)
    requires QuietOutcome(s, f, total) && c in Candidates(s.tables.outputs)
    requires NoDuplicates(f.tried + [c])
    ensures !InOrder(f, Spared(c), total, maxSize)
  {
    OutputIdsTakesOne(f.tried, c);
  }

  lemma QuietStep(s: State, f: Facts, e: Event, total: int, maxSize: int)
    requires QuietOutcome(s, f, total) && InOrder(f, e, total, maxSize) && !e.Others?
    requires e.RowDeleted? || e.Spared? ==>
      NoDuplicates(f.tried + [e.candidate]) && e.candidate in Candidates(s.tables.outputs)
    ensures QuietOutcome(s, Extended(f, e), total)
  {
    match e
    case RowDeleted(c) => QuietDelete(s, f, c, total, maxSize);
    case Spared(c) => QuietSpares(s, f, c, total, maxSize);
    case TotalRead =>
    case Unlinked(o) =>
  }

  /** The candidates are rows as they were, each tried once. */
  ghost predicate TriesRows(s: State, tried: seq<Candidate>) {
    NoDuplicates(tried) && forall i :: 0 <= i < |tried| ==> tried[i] in Candidates(s.tables.outputs)
  }

  lemma TriesRowsBefore(s: State, f: Facts, e: Event)
    requires TriesRows(s, Extended(f, e).tried)
    ensures TriesRows(s, f.tried)
    ensures e.RowDeleted? || e.Spared? ==>
      NoDuplicates(f.tried + [e.candidate]) && e.candidate in Candidates(s.tables.outputs)
  {
    var tried, more := f.tried, Extended(f, e).tried;
    forall i | 0 <= i < |tried| ensures tried[i] == more[i] {
    }
    if e.RowDeleted? || e.Spared? {
      assert more[|tried|] == e.candidate;
    }
  }

  lemma {:induction false} QuietPass(s: State, log: seq<Event>, total: int, maxSize: int)
    requires DistinctIds(Candidates(s.tables.outputs)) && TriesRows(s, Outcome(s, log).tried)
    requires LegalPass(s, log, total, maxSize) && Outcome(s, log).others == []
    ensures QuietOutcome(s, Outcome(s, log), total)
  {
    if log == [] {
      assert s.tables.outputs - OutputIds([]) == s.tables.outputs;
    } else {
      var before, e := log[..|log| - 1], log[|log| - 1];
      TriesRowsBefore(s, Outcome(s, before), e);
      QuietPass(s, before, total, maxSize);
      QuietStep(s, Outcome(s, before), e, total, maxSize);
    }
  }

  lemma PlannedAreRows(outputs: map<Bytes, Output>, cutoff: int, chosen: seq<Candidate>, overshoot: int)
    requires DistinctIds(Candidates(outputs))
    requires Covers(chosen, FromCutoff(outputs, cutoff), overshoot)
    ensures forall c :: c in chosen ==> c in Candidates(outputs)
  {
    var rows := FromCutoff(outputs, cutoff);
    RankedSorts(After(Candidates(outputs), Cursor(cutoff, -1, -1)));
    forall c | c in chosen ensures c in Candidates(outputs) {
      var i :| 0 <= i < |chosen| && chosen[i] == c;
      assert rows[i] == c && rows[i] in rows;
    }
  }

  lemma {:induction false} TotalAfterAll(outputs: map<Bytes, Output>, gone: seq<Candidate>)
    requires DistinctIds(Candidates(outputs)) && NoDuplicates(gone)
    requires forall c :: c in gone ==> c in Candidates(outputs)
    ensures DistinctIds(Candidates(outputs - OutputIds(gone)))
    ensures TotalSize(outputs - OutputIds(gone)) == TotalSize(outputs) - SumSizes(gone)
  {
    if gone == [] {
      assert outputs - OutputIds([]) == outputs;
    } else {
      var before := gone[..|gone| - 1];
      var c := gone[|gone| - 1];
      assert gone == before + [c];
      TotalAfterAll(outputs, before);
      OutputIdsTakesOne(before, c);
      assert NoDuplicates(before + [c]) && c in gone && c in Candidates(outputs);
      TotalAfterDelete(outputs - OutputIds(before), c.outputId);
      assert outputs - OutputIds(before) - {c.outputId} == outputs - OutputIds(gone);
    }
  }

  /** Stopping once the total is within budget is stopping at the end of the plan. */
  lemma StopsAtCover(planned: seq<Candidate>, tried: seq<Candidate>, total: int, maxSize: int)
    requires tried <= planned && NoFurtherThanNeeded(planned, total - maxSize)
    requires total - SumSizes(tried) <= maxSize || tried == planned
    ensures tried == planned
  {
    assert tried == planned[..|tried|];
  }

  /** A quiet pass over a plan deletes and unlinks all of it. */
  lemma QuietPassTakesAll(s: State, log: seq<Event>, read: int, maxSize: int, planned: seq<Candidate>)
    requires DistinctIds(Candidates(s.tables.outputs)) && TriesRows(s, planned)
    requires NoFurtherThanNeeded(planned, TotalSize(s.tables.outputs) - maxSize)
    requires LegalPass(s, log, read, maxSize)
    requires
      var f := Outcome(s, log);
      && f.others == [] && f.tried <= planned && f.owed == None && (planned != [] ==> f.sized)
      && (read - SumSizes(f.deleted) <= maxSize || f.tried == planned)
    ensures
      var f := Outcome(s, log);
      && f.deleted == planned
      && f.now.tables.outputs == s.tables.outputs - OutputIds(planned)
      && f.now.blobs == s.blobs - OutputIds(planned)
  {
    var f := Outcome(s, log);
    assert forall i :: 0 <= i < |f.tried| ==> f.tried[i] == planned[i];
    QuietPass(s, log, read, maxSize);
    if planned != [] {
      TotalAfterAll(s.tables.outputs, f.tried);
      StopsAtCover(planned, f.tried, read, maxSize);
    }
  }

  /** With nothing interleaved, the pass ends within budget or with nothing left at or
      after the cutoff. */
  lemma EndsWithinBudget(outputs: map<Bytes, Output>, cutoff: int, chosen: seq<Candidate>, maxSize: int)
    requires DistinctIds(Candidates(outputs))
    requires forall o :: o in outputs ==> outputs[o].compressedSize >= 0
    requires Covers(chosen, FromCutoff(outputs, cutoff), TotalSize(outputs) - maxSize)
    ensures DistinctIds(Candidates(outputs - OutputIds(chosen)))
    ensures TotalSize(outputs - OutputIds(chosen)) <= maxSize ||
            forall o :: o in outputs - OutputIds(chosen) ==> outputs[o].accessedAt < cutoff
  {
    FromCutoffIsDistinct(outputs, cutoff);
    PlannedAreRows(outputs, cutoff, chosen, TotalSize(outputs) - maxSize);
    TotalAfterAll(outputs, chosen);
    if TotalSize(outputs - OutputIds(chosen)) > maxSize {
      forall o | o in outputs - OutputIds(chosen)
        ensures outputs[o].accessedAt < cutoff
      {
        FromCutoffIsExact(outputs, cutoff, o);
      }
    }
  }

  /** Every survivor at or after the cutoff sorts after every output evicted. */
  lemma SurvivorsSortAfter(outputs: map<Bytes, Output>, cutoff: int, chosen: seq<Candidate>, overshoot: int,
                           k: nat, o: Bytes)
    requires DistinctIds(Candidates(outputs))
    requires forall p :: p in outputs ==> outputs[p].compressedSize >= 0
    requires Covers(chosen, FromCutoff(outputs, cutoff), overshoot)
    requires k < |chosen| && o in outputs - OutputIds(chosen) && outputs[o].accessedAt >= cutoff
    ensures chosen[k].outputId in outputs
    ensures
      var gone, left := outputs[chosen[k].outputId], outputs[o];
      if gone.accessedAt != left.accessedAt then gone.accessedAt < left.accessedAt
      else if gone.compressedSize != left.compressedSize then gone.compressedSize < left.compressedSize
      else gone.id < left.id
  {
    var rows := FromCutoff(outputs, cutoff);
    RankedSorts(After(Candidates(outputs), Cursor(cutoff, -1, -1)));
    FromCutoffIsExact(outputs, cutoff, o);
    var j :| 0 <= j < |rows| && rows[j] == CandidateOf(outputs, o);
    assert chosen[k] == rows[k];
    assert rows[k] in Candidates(outputs);
    BeforeIs(outputs, chosen[k].outputId, o);
  }

  /** Each output evicted is at or after the cutoff, and went while what was left was
      still over budget. */
  lemma NothingGoesWithinBudget(outputs: map<Bytes, Output>, cutoff: int, chosen: seq<Candidate>, maxSize: int, k: nat)
    requires DistinctIds(Candidates(outputs))
    requires forall o :: o in outputs ==> outputs[o].compressedSize >= 0
    requires Covers(chosen, FromCutoff(outputs, cutoff), TotalSize(outputs) - maxSize) && k < |chosen|
    ensures DistinctIds(Candidates(outputs - OutputIds(chosen[..k])))
    ensures TotalSize(outputs - OutputIds(chosen[..k])) > maxSize
    ensures chosen[k].outputId in outputs && outputs[chosen[k].outputId].accessedAt >= cutoff
  {
    FromCutoffIsDistinct(outputs, cutoff);
    PlannedAreRows(outputs, cutoff, chosen, TotalSize(outputs) - maxSize);
    assert chosen[k] in chosen;
    FromCutoffIsExact(outputs, cutoff, chosen[k].outputId);
    TotalAfterAll(outputs, chosen[..k]);
  }

  /******* The pass *******/

  lemma ChangedKeepsKeyed(s: State, c: Change)
    requires Keyed(s.tables)
    ensures Keyed(Changed(s, c).tables)
  {
  }

  lemma KeyedIsDistinct(t: Tables)
    requires Keyed(t)
    ensures DistinctIds(Candidates(t.outputs))
  {
  }

  class Cache {
    var tables: Tables
    var blobs: set<Bytes>
    var turns: seq<Turn<Change>>          // one taken by each statement; afterwards nothing interferes
    ghost var schedule: seq<Turn<Change>> // the turns at the start of the pass
    ghost var start: State        // the state then
    ghost var log: seq<Event>
    ghost var facts: Facts        // what the log comes to

    constructor (s: State, turns: seq<Turn<Change>>)
      requires Keyed(s.tables)
      ensures Valid() && Now() == s && this.turns == turns && schedule == turns && log == [] && start == s
    {
      tables, blobs, this.turns := s.tables, s.blobs, turns;
      schedule, start, log, facts := turns, s, [], Outcome(s, []);
    }

    function Now(): State
      reads this
    {
      State(tables, blobs)
    }

    /** The state is what the log comes to, whatever else is known of the schedule. */
    ghost predicate Consistent(total: int, maxSize: int)
      reads this
    {
      && Keyed(tables) && facts == Outcome(start, log) && Now() == facts.now
      && LegalPass(start, log, total, maxSize)
    }

    ghost predicate InPass(total: int, maxSize: int)
      reads this
    {
      Consistent(total, maxSize) && OnSchedule(facts.others, schedule, turns)
    }

    ghost predicate Valid()
      reads this
    {
      Keyed(tables) && facts == Outcome(start, log) && Now() == facts.now && OnSchedule(facts.others, schedule, turns)
    }

    /** One change another process makes. */
    method Suffer(c: Change, ghost total: int, ghost maxSize: int)
      requires Consistent(total, maxSize)
      modifies this`tables, this`blobs, this`log, this`facts
      ensures Consistent(total, maxSize) && facts == Extended(old(facts), Others(c))
    {
      ChangedKeepsKeyed(Now(), c);
      var after := Changed(Now(), c);
      tables, blobs := after.tables, after.blobs;
      Record(Others(c), total, maxSize);
    }

    ghost method Record(e: Event, total: int, maxSize: int)
      requires facts == Outcome(start, log) && LegalPass(start, log, total, maxSize)
      requires InOrder(facts, e, total, maxSize)
      modifies this`log, this`facts
      ensures facts == Outcome(start, log) && LegalPass(start, log, total, maxSize)
      ensures facts == Extended(old(facts), e) && log == old(log) + [e]
    {
      LogTakesOne(start, log, e, total, maxSize);
      log, facts := log + [e], Extended(facts, e);
    }

    /** Other processes' turn, before one statement of this one. */
    method TakeTurn(ghost total: int, ghost maxSize: int) returns (fails: bool)
      requires InPass(total, maxSize) && NoneFailed(schedule, turns)
      modifies this
      ensures InPass(total, maxSize) && start == old(start) && schedule == old(schedule)
      ensures facts == old(facts).(now := Now(), others := facts.others)
      ensures fails <==> !NoneFailed(schedule, turns)
      ensures old(turns) == [] ==> turns == [] && log == old(log)
    {
      fails := false;
      if turns == [] {
        return;
      }
      var turn := turns[0];
      ghost var others := facts.others;
      OnScheduleAfter(others, schedule, turns);
      var i := 0;
      assert others + turn.changes[..0] == others;
      while i < |turn.changes|
        invariant 0 <= i <= |turn.changes|
        invariant start == old(start) && schedule == old(schedule) && turns == old(turns)
        invariant Consistent(total, maxSize)
        invariant facts == old(facts).(now := Now(), others := others + turn.changes[..i])
      {
        TakesOneMore(others, turn.changes, i);
        Suffer(turn.changes[i], total, maxSize);
        i := i + 1;
      }
      assert turn.changes[..i] == turn.changes;
      fails, turns := turn.fails, turns[1..];
    }

    method CompressedSize(ghost maxSize: int) returns (ok: bool, total: int)
      requires Valid() && log == [] && NoneFailed(schedule, turns)
      modifies this
      ensures InPass(total, maxSize) && start == old(start) && schedule == old(schedule)
      ensures facts == Facts(Now(), facts.others, [], [], None, ok)
      ensures ok <==> NoneFailed(schedule, turns)
    {
      var fails := TakeTurn(0, maxSize);
      KeyedIsDistinct(tables);
      total := TotalSize(tables.outputs);
      ok := !fails;
      UnsizedIsLegal(start, log, 0, total, maxSize);
      if ok {
        Record(TotalRead, total, maxSize);
      }
    }

    /** DELETE ... WHERE output_id = ? AND accessed_at <= ?, and whether a row went. */
    method EvictOutput(candidate: Candidate, ghost total: int, ghost maxSize: int) returns (ok: bool, removed: bool)
      requires InPass(total, maxSize) && NoneFailed(schedule, turns)
      requires facts.sized && facts.owed == None && total - SumSizes(facts.deleted) > maxSize
      modifies this
      ensures InPass(total, maxSize) && start == old(start) && schedule == old(schedule)
      ensures ok <==> NoneFailed(schedule, turns)
      ensures facts == Facts(Now(), facts.others,
                             old(facts).deleted + if ok && removed then [candidate] else [],
                             old(facts).tried + if ok then [candidate] else [],
                             if ok && removed then Some(candidate.outputId) else None, true)
    {
      var fails := TakeTurn(total, maxSize);
      ok := !fails;
      removed := ok && EvictsOutput(tables.outputs, candidate.outputId, candidate.accessedAt);
      if removed {
        tables := DeleteOutput(tables, candidate.outputId);
        Record(RowDeleted(candidate), total, maxSize);
      } else if ok {
        Record(Spared(candidate), total, maxSize);
      }
    }

    /** os.Remove under the stripe; a file that is not there is no error. */
    method UnlinkBlob(output: Bytes, ghost total: int, ghost maxSize: int) returns (ok: bool)
      requires InPass(total, maxSize) && NoneFailed(schedule, turns) && facts.owed == Some(output)
      modifies this
      ensures InPass(total, maxSize) && start == old(start) && schedule == old(schedule)
      ensures ok <==> NoneFailed(schedule, turns)
      ensures facts == old(facts).(now := Now(), others := facts.others, owed := if ok then None else Some(output))
    {
      var fails := TakeTurn(total, maxSize);
      ok := !fails;
      if ok {
        blobs := blobs - {output};
        Record(Unlinked(output), total, maxSize);
      }
    }

    /** One turn of the loop: the row, and only if it went the blob and the bytes. */
    method EvictOne(candidate: Candidate, left: int, evicted: seq<Bytes>, ghost total: int, maxSize: int)
        returns (ok: bool, left': int, evicted': seq<Bytes>)
      requires InPass(total, maxSize) && NoneFailed(schedule, turns) && facts.sized && facts.owed == None
      requires left > maxSize && Accounts(left, evicted, total, facts.deleted)
      modifies this
      ensures InPass(total, maxSize) && start == old(start) && schedule == old(schedule) && facts.sized
      ensures ok <==> NoneFailed(schedule, turns)
      ensures ok ==> Accounts(left', evicted', total, facts.deleted) && facts.owed == None
      ensures facts.tried == old(facts).tried || facts.tried == old(facts).tried + [candidate]
      ensures ok ==> facts.tried == old(facts).tried + [candidate]
    {
      left', evicted' := left, evicted;
      ghost var deleted := facts.deleted;
      var removed: bool;
      ok, removed := EvictOutput(candidate, total, maxSize);
      if ok && removed {
        ok := UnlinkBlob(candidate.outputId, total, maxSize);
        AccountsForOne(left, evicted, total, deleted, candidate);
        left' := left - candidate.size;
        evicted' := evicted + [candidate.outputId];
      } else {
        assert deleted + [] == deleted;
      }
    }

    /** Evicts planned outputs until the cache is within budget. The state it leaves is what
        its log comes to from the state it found, and the log holds what others did, exactly
        as scheduled, and this pass's own steps. Whatever others do: every step of its own
        is in order; the ids returned are of the rows it deleted, each with its blob
        unlinked; it ends once the total read, less their sizes, is within budget, or with
        every candidate tried; and it fails exactly when a statement does. */
    method EvictToMaxSize(candidates: seq<Candidate>, maxSize: int)
        returns (ok: bool, evicted: seq<Bytes>, ghost total: int)
      requires Keyed(tables)
      modifies this
      ensures InPass(total, maxSize) && start == old(Now()) && schedule == old(turns)
      ensures ok <==> NoneFailed(schedule, turns)
      ensures candidates == [] ==> log == []
      ensures facts.tried <= candidates
      ensures evicted == if ok then Names(facts.deleted) else []
      ensures ok ==> facts.owed == None && (candidates != [] ==> facts.sized)
      ensures ok ==> total - SumSizes(facts.deleted) <= maxSize || facts.tried == candidates
    {
      log, start, schedule, facts := [], Now(), turns, Outcome(Now(), []);
      evicted, total := [], 0;
      if candidates == [] {
        return true, [], 0;
      }
      var left: int;
      ok, left := CompressedSize(maxSize);
      total := left;
      if !ok {
        return false, [], total;
      }
      var i := 0;
      while i < |candidates|
        invariant 0 <= i <= |candidates| && ok && start == old(Now()) && schedule == old(turns)
        invariant InPass(total, maxSize) && NoneFailed(schedule, turns) && facts.sized && facts.owed == None
        invariant facts.tried == candidates[..i]
        invariant Accounts(left, evicted, total, facts.deleted)
      {
        if left <= maxSize {
          break;
        }
        TriesNext(candidates, i);
        ok, left, evicted := EvictOne(candidates[i], left, evicted, total, maxSize);
        if !ok {
          return false, [], total;
        }
        i := i + 1;
      }
    }

    /** Plans and evicts with nothing interleaved: what goes is exactly the covering
        prefix of the rows at or after the cutoff, rows and blobs both. */
    method PruneToMaxSize(maxSize: int, entryCutoff: int, pageSize: nat)
        returns (ok: bool, evicted: seq<Bytes>, ghost chosen: seq<Candidate>)
      requires Keyed(tables) && turns == [] && maxSize > 0 && pageSize >= 1
      modifies this
      ensures DistinctIds(Candidates(old(tables).outputs))
      ensures ok && evicted == Names(chosen)
      ensures Covers(chosen, FromCutoff(old(tables).outputs, entryCutoff), TotalSize(old(tables).outputs) - maxSize)
      ensures tables.outputs == old(tables).outputs - OutputIds(chosen)
      ensures blobs == old(blobs) - OutputIds(chosen)
    {
      KeyedIsDistinct(tables);
      ghost var outputs := tables.outputs;
      var pages := new PageSource([], tables.outputs);
      var total := TotalSize(tables.outputs);
      var candidates, listed := pages.PlanToMaxSize(maxSize, total, entryCutoff, pageSize);
      StablePlan(outputs, entryCutoff, pageSize, listed, candidates, total - maxSize);
      PlanNeverRepeats(candidates, listed, total - maxSize);
      PlannedAreRows(outputs, entryCutoff, candidates, total - maxSize);
      ghost var read;
      ok, evicted, read := EvictToMaxSize(candidates, maxSize);
      chosen := facts.deleted;
      QuietPassTakesAll(start, log, read, maxSize, candidates);
    }
  }
}
