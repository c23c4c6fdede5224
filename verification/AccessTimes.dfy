/** Access times: hits are buffered in memory and flushed in batches, and a batch whose
    transaction fails is put back. */
module AccessTimes {
  import opened Ids
  import opened Catalog

  /******* Putting a failed batch back *******/

  /** What restoring does to the pending hits. A missing id reads as zero, as in Go. */
  function Restore<K>(pending: map<K, int>, batch: map<K, int>): map<K, int> {
    map k | k in pending.Keys + batch.Keys && (k in pending || batch[k] > 0) ::
      if k in pending then (if k in batch && pending[k] < batch[k] then batch[k] else pending[k]) else batch[k]
  }

  function PointwiseMax<K>(a: map<K, int>, b: map<K, int>): map<K, int> {
    map k | k in a.Keys + b.Keys ::
      if k in a && (k in b ==> b[k] <= a[k]) then a[k] else b[k]
  }

  /** Restoring is the pointwise maximum of the batch and the hits that arrived meanwhile
      exactly when every restored id that nothing hit meanwhile has a positive stamp. */
  lemma RestoreIsMaxIffPositive<K>(pending: map<K, int>, batch: map<K, int>)
    ensures Restore(pending, batch) == PointwiseMax(pending, batch) <==>
            forall k :: k in batch ==> k in pending || batch[k] > 0
  {
    if Restore(pending, batch) == PointwiseMax(pending, batch) {
      forall k | k in batch ensures k in pending || batch[k] > 0 {
        assert k in PointwiseMax(pending, batch);
      }
    }
  }

  lemma RestoreTakesOne<K>(pending: map<K, int>, batch: map<K, int>, todo: set<K>, id: K)
    requires id in todo && todo <= batch.Keys
    ensures
      var before := Restore(pending, batch - todo);
      Restore(pending, batch - (todo - {id})) ==
        if (if id in before then before[id] else 0) < batch[id] then before[id := batch[id]] else before
  {
  }

  /******* The buffer *******/

  datatype Hit = Hit(action: Bytes, output: Bytes, at: int)

  function HitEntries(hits: seq<Hit>): map<Bytes, int> {
    if hits == [] then map[] else
    var last := hits[|hits| - 1];
    HitEntries(hits[..|hits| - 1])[last.action := last.at]
  }

  function HitOutputs(hits: seq<Hit>): map<Bytes, int> {
    if hits == [] then map[] else
    var last := hits[|hits| - 1];
    HitOutputs(hits[..|hits| - 1])[last.output := last.at]
  }

  const ACCESS_FLUSH_INTERVAL := 30000

  class AccessBuffer {
    var accessed: map<Bytes, int>
    var accessedOutputs: map<Bytes, int>
    var accessFlushed: int

    constructor (now: int)
      ensures accessed == map[] && accessedOutputs == map[] && accessFlushed == now
    {
      accessed, accessedOutputs, accessFlushed := map[], map[], now;
    }

    /** Records a hit, and claims the flush if one is due: the claim moves the time the
        next one is due from, so two claims are never closer than the interval. */
    method Mark(hit: Hit) returns (due: bool)
      modifies this
      ensures accessed == old(accessed)[hit.action := hit.at]
      ensures accessedOutputs == old(accessedOutputs)[hit.output := hit.at]
      ensures due <==> hit.at - old(accessFlushed) >= 30_000
      ensures accessFlushed == if due then hit.at else old(accessFlushed)
    {
      accessed := accessed[hit.action := hit.at];
      accessedOutputs := accessedOutputs[hit.output := hit.at];
      due := hit.at - accessFlushed >= ACCESS_FLUSH_INTERVAL;
      if due {
        accessFlushed := hit.at;
      }
    }

    method RestoreAccessed(entries: map<Bytes, int>, outputs: map<Bytes, int>)
      modifies this
      ensures accessed == Restore(old(accessed), entries)
      ensures accessedOutputs == Restore(old(accessedOutputs), outputs)
      ensures accessFlushed == old(accessFlushed)
    {
      var todo := entries.Keys;
      while todo != {}
        invariant todo <= entries.Keys
        invariant accessed == Restore(old(accessed), entries - todo)
        invariant accessedOutputs == old(accessedOutputs) && accessFlushed == old(accessFlushed)
      {
        var id :| id in todo;
        RestoreTakesOne(old(accessed), entries, todo, id);
        if (if id in accessed then accessed[id] else 0) < entries[id] {
          accessed := accessed[id := entries[id]];
        }
        todo := todo - {id};
      }
      assert entries - {} == entries;
      todo := outputs.Keys;
      while todo != {}
        invariant todo <= outputs.Keys
        invariant accessedOutputs == Restore(old(accessedOutputs), outputs - todo)
        invariant accessed == Restore(old(accessed), entries) && accessFlushed == old(accessFlushed)
      {
        var id :| id in todo;
        RestoreTakesOne(old(accessedOutputs), outputs, todo, id);
        if (if id in accessedOutputs then accessedOutputs[id] else 0) < outputs[id] {
          accessedOutputs := accessedOutputs[id := outputs[id]];
        }
        todo := todo - {id};
      }
      assert outputs - {} == outputs;
    }

    /** Swaps the maps out, writes the batch, and puts it back if that fails. `meanwhile`
        are the hits other gets record while the transaction runs. */
    method Flush(db: Db, commits: bool, meanwhile: seq<Hit>) returns (ok: bool)
      modifies this, db
      ensures ok <==> commits || (old(accessed) == map[] && old(accessedOutputs) == map[])
      ensures ok ==> db.tables == Touch(old(db.tables), old(accessed), old(accessedOutputs))
      ensures ok && !(old(accessed) == map[] && old(accessedOutputs) == map[]) ==>
        accessed == HitEntries(meanwhile) && accessedOutputs == HitOutputs(meanwhile)
      ensures !ok ==> db.tables == old(db.tables)
      ensures !ok ==> accessed == Restore(HitEntries(meanwhile), old(accessed))
      ensures !ok ==> accessedOutputs == Restore(HitOutputs(meanwhile), old(accessedOutputs))
    {
      var entries, outputs := accessed, accessedOutputs;
      accessed, accessedOutputs := map[], map[];
      if |entries| == 0 && |outputs| == 0 {
        TouchNothing(db.tables);
        return true;
      }
      var i := 0;
      while i < |meanwhile|
        invariant 0 <= i <= |meanwhile| && db.tables == old(db.tables)
        invariant accessed == HitEntries(meanwhile[..i])
        invariant accessedOutputs == HitOutputs(meanwhile[..i])
      {
        assert meanwhile[..i + 1][..i] == meanwhile[..i];
        var due := Mark(meanwhile[i]);
        i := i + 1;
      }
      assert meanwhile[..i] == meanwhile;
      if commits {
        db.TouchAccessed(entries, outputs);
        return true;
      }
      RestoreAccessed(entries, outputs);
      return false;
    }
  }

  lemma TouchNothing(t: Tables)
    ensures Touch(t, map[], map[]) == t
  {
    assert TouchEntries(t.entries, map[]) == t.entries;
    assert TouchOutputs(t.outputs, map[]) == t.outputs;
  }

  /******* No hit is lost *******/

  datatype Key = EntryKey(action: Bytes) | OutputKey(output: Bytes)

  function Keys(entries: map<Bytes, int>, outputs: map<Bytes, int>): set<Key> {
    (set a | a in entries :: EntryKey(a)) + (set o | o in outputs :: OutputKey(o))
  }

  predicate HasKey(entries: map<Bytes, int>, outputs: map<Bytes, int>, k: Key) {
    match k
    case EntryKey(a) => a in entries
    case OutputKey(o) => o in outputs
  }

  function Stamp(entries: map<Bytes, int>, outputs: map<Bytes, int>, k: Key): int
    requires HasKey(entries, outputs, k)
  {
    match k
    case EntryKey(a) => entries[a]
    case OutputKey(o) => outputs[o]
  }

  /** The two maps as one. */
  function ByKey(entries: map<Bytes, int>, outputs: map<Bytes, int>): (m: map<Key, int>)
    ensures forall k :: k in m <==> HasKey(entries, outputs, k)
    ensures forall k :: k in m ==> m[k] == Stamp(entries, outputs, k)
  {
    map k | k in Keys(entries, outputs) :: Stamp(entries, outputs, k)
  }

  /** The pending hits, the batches some flush has taken and not finished with, the last
      stamp written for each id, the latest hit there ever was, the time, when the store
      openedAt, when a flush was last claimed, and the claims nobody has acted on yet. */
  datatype State = State(
    pending: map<Key, int>, flights: seq<map<Key, int>>, written: map<Key, int>, latest: map<Key, int>,
    now: int, openedAt: int, flushedAt: int, claims: nat, closed: bool)

  /** A hit read the clock at `hit.at`, and had the lock at `now`. */
  datatype Step =
    | Hits(hit: Hit, now: int)
    | Takes
    | Commits(flight: nat)
    | Fails(flight: nat)
    | Closes

  function Start(openedAt: int): State {
    State(map[], [], map[], map[], openedAt, openedAt, openedAt, 0, false)
  }

  /** A flush follows a claim; closing the store claims one of its own. */
  predicate Enabled(s: State, step: Step) {
    match step
    case Hits(hit, now) => s.openedAt <= hit.at <= now && s.now <= now
    case Takes => s.claims > 0
    case Commits(i) => i < |s.flights|
    case Fails(i) => i < |s.flights|
    case Closes => !s.closed
  }

  function Without(flights: seq<map<Key, int>>, i: nat): seq<map<Key, int>>
    requires i < |flights|
  {
    flights[..i] + flights[i + 1..]
  }

  function Later(latest: map<Key, int>, k: Key, at: int): map<Key, int> {
    latest[k := if k in latest && latest[k] > at then latest[k] else at]
  }

  predicate Due(flushedAt: int, at: int) {
    at - flushedAt >= ACCESS_FLUSH_INTERVAL
  }

  function Next(s: State, step: Step): State
    requires Enabled(s, step)
  {
    match step
    case Hits(hit, now) =>
      s.(pending := s.pending[EntryKey(hit.action) := hit.at][OutputKey(hit.output) := hit.at],
         latest := Later(Later(s.latest, EntryKey(hit.action), hit.at), OutputKey(hit.output), hit.at),
         now := now,
         flushedAt := if Due(s.flushedAt, hit.at) then hit.at else s.flushedAt,
         claims := if Due(s.flushedAt, hit.at) then s.claims + 1 else s.claims)
    case Takes =>
      s.(pending := map[],
         flights := if s.pending == map[] then s.flights else s.flights + [s.pending],
         claims := s.claims - 1)
    case Commits(i) => s.(written := s.written + s.flights[i], flights := Without(s.flights, i))
    case Fails(i) => s.(pending := Restore(s.pending, s.flights[i]), flights := Without(s.flights, i))
    case Closes => s.(claims := s.claims + 1, closed := true)
  }

  /** At most so many flushes at once, and readings at most so far behind the clock when
      their hits get the lock. */
  predicate Within(s: State, step: Step, most: nat, lag: nat) {
    match step
    case Hits(hit, now) => now - hit.at <= lag
    case Takes => s.pending == map[] || |s.flights| < most
    case _ => true
  }

  /** Where the steps lead, if they can be taken within those bounds. */
  function After(s: State, steps: seq<Step>, most: nat, lag: nat): Option<State> {
    if steps == [] then Some(s) else
    match After(s, steps[..|steps| - 1], most, lag)
    case None => None
    case Some(t) =>
      var step := steps[|steps| - 1];
      if Enabled(t, step) && Within(t, step, most, lag) then Some(Next(t, step)) else None
  }

  lemma AfterOneMore(s: State, steps: seq<Step>, most: nat, lag: nat, t: State, step: Step)
    requires After(s, steps, most, lag) == Some(t) && Enabled(t, step) && Within(t, step, most, lag)
    ensures After(s, steps + [step], most, lag) == Some(Next(t, step))
  {
    assert (steps + [step])[..|steps + [step]| - 1] == steps;
  }

  /** What is recorded of an id's hits: the pending one if there is one, else the one in
      flight, else the one last written. */
  function Recorded(s: State, k: Key): Option<int> {
    if k in s.pending then Some(s.pending[k])
    else if |s.flights| > 0 && k in s.flights[0] then Some(s.flights[0][k])
    else if k in s.written then Some(s.written[k])
    else None
  }

  ghost predicate Positive(m: map<Key, int>) {
    forall k :: k in m ==> m[k] > 0
  }

  ghost predicate AllPositive(s: State) {
    s.openedAt > 0 && Positive(s.pending) && forall i :: 0 <= i < |s.flights| ==> Positive(s.flights[i])
  }

  ghost predicate Inv(s: State) {
    && AllPositive(s) && |s.flights| <= 1
    && (forall k :: k in s.latest ==> s.latest[k] <= s.now && Recorded(s, k) == Some(s.latest[k]))
    && (forall k :: k in s.pending ==> k in s.latest)
    && (|s.flights| > 0 ==> forall k :: k in s.flights[0] ==> k in s.latest && s.flights[0][k] <= s.latest[k])
  }

  lemma StepKeepsPositive(s: State, step: Step)
    requires AllPositive(s) && Enabled(s, step)
    ensures AllPositive(Next(s, step))
  {
  }

  lemma HitKeeps(s: State, hit: Hit)
    requires Inv(s) && Enabled(s, Hits(hit, hit.at))
    ensures Inv(Next(s, Hits(hit, hit.at)))
  {
    var t := Next(s, Hits(hit, hit.at));
    forall k | k in t.latest ensures t.latest[k] <= t.now && Recorded(t, k) == Some(t.latest[k]) {
      assert k in s.latest || k == EntryKey(hit.action) || k == OutputKey(hit.output);
    }
  }

  lemma StepKeeps(s: State, step: Step)
    requires Inv(s) && Enabled(s, step) && Within(s, step, 1, 0)
    ensures Inv(Next(s, step))
  {
    StepKeepsPositive(s, step);
    if step.Hits? {
      HitKeeps(s, step.hit);
    }
  }

  lemma {:induction false} RunKeepsPositive(openedAt: int, steps: seq<Step>, most: nat, lag: nat)
    requires openedAt > 0 && After(Start(openedAt), steps, most, lag).Some?
    ensures AllPositive(After(Start(openedAt), steps, most, lag).value)
  {
    if steps != [] {
      var before := steps[..|steps| - 1];
      RunKeepsPositive(openedAt, before, most, lag);
      StepKeepsPositive(After(Start(openedAt), before, most, lag).value, steps[|steps| - 1]);
    }
  }

  lemma {:induction false} RunKeeps(openedAt: int, steps: seq<Step>, most: nat)
    requires openedAt > 0 && most <= 1 && After(Start(openedAt), steps, most, 0).Some?
    ensures Inv(After(Start(openedAt), steps, most, 0).value)
  {
    if steps != [] {
      var before := steps[..|steps| - 1];
      RunKeeps(openedAt, before, most);
      StepKeeps(After(Start(openedAt), before, most, 0).value, steps[|steps| - 1]);
    }
  }

  /** With one flush at a time and readings in the order of the lock, however many flushes
      fail, each id's latest hit is pending, or else in flight, or else written; so once
      neither is left, what is written is the latest hit. */
  lemma NoHitLost(openedAt: int, steps: seq<Step>, most: nat, k: Key)
    requires openedAt > 0 && most <= 1 && After(Start(openedAt), steps, most, 0).Some?
    requires k in After(Start(openedAt), steps, most, 0).value.latest
    ensures
      var s := After(Start(openedAt), steps, most, 0).value;
      && Recorded(s, k) == Some(s.latest[k])
      && (s.pending == map[] && s.flights == [] ==> k in s.written && s.written[k] == s.latest[k])
  {
    RunKeeps(openedAt, steps, most);
  }

  /** A failed flush leaves exactly the pointwise maximum of its batch and what came
      meanwhile, in any run: readings follow the opening, so every stamp is positive. */
  lemma FailureRestoresMax(openedAt: int, steps: seq<Step>, most: nat, lag: nat, i: nat)
    requires openedAt > 0 && After(Start(openedAt), steps, most, lag).Some?
    requires i < |After(Start(openedAt), steps, most, lag).value.flights|
    ensures
      var s := After(Start(openedAt), steps, most, lag).value;
      Next(s, Step.Fails(i)).pending == PointwiseMax(s.pending, s.flights[i])
  {
    RunKeepsPositive(openedAt, steps, most, lag);
    var s := After(Start(openedAt), steps, most, lag).value;
    RestoreIsMaxIffPositive(s.pending, s.flights[i]);
  }

  predicate Holds(m: map<Key, int>, k: Key, at: int) {
    k in m && m[k] == at
  }

  /** The latest hit is neither pending nor in any flight nor written. */
  predicate Lost(s: State, k: Key) {
    && k in s.latest && !Holds(s.pending, k, s.latest[k]) && !Holds(s.written, k, s.latest[k])
    && forall i :: 0 <= i < |s.flights| ==> !Holds(s.flights[i], k, s.latest[k])
  }

  ghost predicate SomeRunLoses(most: nat, lag: nat) {
    exists openedAt: int, steps: seq<Step>, k: Key ::
      && openedAt > 0 && After(Start(openedAt), steps, most, lag).Some?
      && Lost(After(Start(openedAt), steps, most, lag).value, k)
  }

  /** A hit of one action and its output, so many intervals after the store opened. */
  function HitAfter(intervals: nat): Hit {
    Hit([1], [2], 1 + intervals * ACCESS_FLUSH_INTERVAL)
  }

  function Batch(at: int): map<Key, int> {
    map[EntryKey([1]) := at, OutputKey([2]) := at]
  }

  /** Nothing is pending and no claim is open, and a flush is due at this time. */
  ghost predicate ReadyFor(s: State, at: int) {
    && s.pending == map[] && s.claims == 0 && s.openedAt <= s.now <= at && Due(s.flushedAt, at)
    && forall k :: k in s.latest ==> s.latest[k] <= at
  }

  /** A hit an interval after the last claim, and the flush it claims. */
  lemma FlushGoesUp(s0: State, steps: seq<Step>, most: nat, lag: nat, s: State, hit: Hit) returns (t: State)
    requires After(s0, steps, most, lag) == Some(s) && |s.flights| < most
    requires hit == Hit([1], [2], hit.at) && ReadyFor(s, hit.at)
    ensures After(s0, steps + [Hits(hit, hit.at)] + [Takes], most, lag) == Some(t)
    ensures t.flights == s.flights + [Batch(hit.at)] && Holds(t.latest, EntryKey([1]), hit.at)
    ensures forall at :: at - hit.at >= ACCESS_FLUSH_INTERVAL ==> ReadyFor(t, at)
  {
    AfterOneMore(s0, steps, most, lag, s, Hits(hit, hit.at));
    var s1 := Next(s, Hits(hit, hit.at));
    assert s1.pending == Batch(hit.at) && EntryKey([1]) in s1.pending;
    AfterOneMore(s0, steps + [Hits(hit, hit.at)], most, lag, s1, Takes);
    t := Next(s1, Takes);
  }

  /** With two in flight the older batch can be written last: every flush succeeds, and an
      id is left with an older stamp than its latest hit. The hits are an interval apart,
      so both flushes are due. */
  lemma TwoFlushesCanLose(most: nat, lag: nat)
    requires most > 1
    ensures SomeRunLoses(most, lag)
  {
    var first, second := HitAfter(1), HitAfter(2);
    var s2 := FlushGoesUp(Start(1), [], most, lag, Start(1), first);
    var steps := [] + [Hits(first, first.at)] + [Takes];
    var s4 := FlushGoesUp(Start(1), steps, most, lag, s2, second);
    steps := steps + [Hits(second, second.at)] + [Takes];
    AfterOneMore(Start(1), steps, most, lag, s4, Step.Commits(1));
    var s5 := Next(s4, Step.Commits(1));
    assert s5.flights == [Batch(first.at)];
    steps := steps + [Step.Commits(1)];
    AfterOneMore(Start(1), steps, most, lag, s5, Step.Commits(0));
    var s6 := Next(s5, Step.Commits(0));
    steps := steps + [Step.Commits(0)];
    assert After(Start(1), steps, most, lag) == Some(s6) && Lost(s6, EntryKey([1]));
  }

  /** A reading taken before the lock and recorded after a later one overwrites it. */
  lemma LateReadingCanLose(most: nat, lag: nat)
    requires lag > 0
    ensures SomeRunLoses(most, lag)
  {
    var on, late := Hit([1], [2], 2), Hit([1], [2], 1);
    var s0 := Start(1);
    AfterOneMore(s0, [], most, lag, s0, Hits(on, 2));
    var s1 := Next(s0, Hits(on, 2));
    AfterOneMore(s0, [Hits(on, 2)], most, lag, s1, Hits(late, 2));
    var s2 := Next(s1, Hits(late, 2));
    assert After(Start(1), [Hits(on, 2)] + [Hits(late, 2)], most, lag) == Some(s2) && Lost(s2, EntryKey([1]));
  }

  /** A later access always wins, in every run, exactly when no two flushes overlap and no
      hit's reading is behind the clock once it has the lock. */
  lemma NothingLostIffOneFlush(most: nat, lag: nat)
    ensures !SomeRunLoses(most, lag) <==> most <= 1 && lag == 0
  {
    if most > 1 {
      TwoFlushesCanLose(most, lag);
    } else if lag > 0 {
      LateReadingCanLose(most, lag);
    } else {
      forall openedAt: int, steps: seq<Step>, k: Key | openedAt > 0 && After(Start(openedAt), steps, most, lag).Some?
        ensures !Lost(After(Start(openedAt), steps, most, lag).value, k)
      {
        RunKeeps(openedAt, steps, most);
      }
    }
  }

  /** Closing the store writes whatever is pending, however lately a flush was claimed. */
  lemma CloseWritesAll(s: State, most: nat, lag: nat)
    requires !s.closed && s.flights == [] && s.pending != map[] && most >= 1
    ensures
      var t := After(s, [Closes] + [Takes] + [Step.Commits(0)], most, lag);
      && t.Some? && t.value.closed && t.value.pending == map[] && t.value.flights == []
      && t.value.written == s.written + s.pending && t.value.claims == s.claims
  {
    AfterOneMore(s, [], most, lag, s, Closes);
    assert [] + [Closes] == [Closes];
    var s1 := Next(s, Closes);
    AfterOneMore(s, [Closes], most, lag, s1, Takes);
    var s2 := Next(s1, Takes);
    assert s2.flights == [s.pending];
    AfterOneMore(s, [Closes] + [Takes], most, lag, s2, Step.Commits(0));
  }

  /******* The buffer makes these runs *******/

  /** A hit the buffer records is a hit of the run. */
  lemma MarkIsHit(s: State, hit: Hit, now: int, entries: map<Bytes, int>, outputs: map<Bytes, int>)
    requires Enabled(s, Hits(hit, now)) && s.pending == ByKey(entries, outputs)
    ensures Next(s, Hits(hit, now)).pending ==
      ByKey(entries[hit.action := hit.at], outputs[hit.output := hit.at])
  {
    var m := ByKey(entries[hit.action := hit.at], outputs[hit.output := hit.at]);
    var t := Next(s, Hits(hit, now)).pending;
    forall k ensures (k in t <==> k in m) && (k in t ==> t[k] == m[k]) {
      match k
      case EntryKey(a) =>
      case OutputKey(o) =>
    }
    assert t == m;
  }

  lemma RestoreByKey(entries: map<Bytes, int>, outputs: map<Bytes, int>, e: map<Bytes, int>, o: map<Bytes, int>)
    ensures Restore(ByKey(entries, outputs), ByKey(e, o)) == ByKey(Restore(entries, e), Restore(outputs, o))
  {
    var m := ByKey(Restore(entries, e), Restore(outputs, o));
    var t := Restore(ByKey(entries, outputs), ByKey(e, o));
    forall k ensures (k in t <==> k in m) && (k in t ==> t[k] == m[k]) {
      RestoreAtKey(entries, outputs, e, o, k);
    }
    assert t == m;
  }

  lemma RestoreAtKey(entries: map<Bytes, int>, outputs: map<Bytes, int>, e: map<Bytes, int>, o: map<Bytes, int>, k: Key)
    ensures
      var m := ByKey(Restore(entries, e), Restore(outputs, o));
      var t := Restore(ByKey(entries, outputs), ByKey(e, o));
      (k in t <==> k in m) && (k in t ==> t[k] == m[k])
  {
    match k
    case EntryKey(a) =>
    case OutputKey(b) =>
  }

  /** The hits that get the lock, one after another, at these times. */
  function HitSteps(hits: seq<Hit>, times: seq<int>): seq<Step>
    requires |times| == |hits|
  {
    if hits == [] then [] else
    var n: nat := |hits| - 1;
    HitSteps(hits[..n], times[..n]) + [Hits(hits[n], times[n])]
  }

  function FlushSteps(s: State, commits: bool, meanwhile: seq<Hit>, times: seq<int>): seq<Step>
    requires |times| == |meanwhile|
  {
    var i := |s.flights|;
    [Takes] + HitSteps(meanwhile, times) + [if commits then Step.Commits(i) else Step.Fails(i)]
  }

  function LastTime(s: State, times: seq<int>): int {
    if times == [] then s.now else times[|times| - 1]
  }

  /** The hits came in the order of the lock, within the lag. */
  ghost predicate InOrder(s: State, hits: seq<Hit>, times: seq<int>, lag: nat)
    requires |times| == |hits|
  {
    hits == [] || (
      var n: nat := |hits| - 1;
      && InOrder(s, hits[..n], times[..n], lag)
      && s.openedAt <= hits[n].at <= times[n] <= hits[n].at + lag && LastTime(s, times[..n]) <= times[n])
  }

  lemma {:induction false} HitsGoOn(s: State, hits: seq<Hit>, times: seq<int>, most: nat, lag: nat)
    requires |times| == |hits| && InOrder(s, hits, times, lag)
    requires s.claims > 0 && s.pending != map[] && |s.flights| < most
    ensures
      var t := After(s, [Takes] + HitSteps(hits, times), most, lag);
      && t.Some? && t.value.pending == ByKey(HitEntries(hits), HitOutputs(hits))
      && t.value.flights == s.flights + [s.pending] && t.value.written == s.written
      && t.value.openedAt == s.openedAt && t.value.now == LastTime(s, times)
  {
    if hits == [] {
      AfterOneMore(s, [], most, lag, s, Takes);
      assert [Takes] + HitSteps(hits, times) == [] + [Takes];
      assert ByKey(map[], map[]) == map[];
    } else {
      var n: nat := |hits| - 1;
      HitsGoOn(s, hits[..n], times[..n], most, lag);
      var before, step := [Takes] + HitSteps(hits[..n], times[..n]), Hits(hits[n], times[n]);
      var t := After(s, before, most, lag).value;
      AfterOneMore(s, before, most, lag, t, step);
      MarkIsHit(t, hits[n], times[n], HitEntries(hits[..n]), HitOutputs(hits[..n]));
      assert [Takes] + (HitSteps(hits[..n], times[..n]) + [step]) == before + [step];
    }
  }

  /** A flush by a buffer that holds `entries` and `outputs`, with these hits meanwhile, is
      this run: what it leaves pending and what it writes are what `AccessBuffer.Flush`
      leaves and writes. */
  lemma FlushIsRun(s: State, entries: map<Bytes, int>, outputs: map<Bytes, int>, commits: bool,
                   meanwhile: seq<Hit>, times: seq<int>, most: nat, lag: nat)
    requires |times| == |meanwhile| && InOrder(s, meanwhile, times, lag)
    requires s.claims > 0 && |s.flights| < most
    requires s.pending == ByKey(entries, outputs) && !(entries == map[] && outputs == map[])
    ensures
      var t := After(s, FlushSteps(s, commits, meanwhile, times), most, lag);
      && t.Some? && t.value.flights == s.flights
      && t.value.written == (if commits then s.written + ByKey(entries, outputs) else s.written)
      && t.value.pending ==
         if commits then ByKey(HitEntries(meanwhile), HitOutputs(meanwhile))
         else ByKey(Restore(HitEntries(meanwhile), entries), Restore(HitOutputs(meanwhile), outputs))
  {
    ByKeyNotEmpty(entries, outputs);
    HitsGoOn(s, meanwhile, times, most, lag);
    var before := [Takes] + HitSteps(meanwhile, times);
    var t := After(s, before, most, lag).value;
    var step := if commits then Step.Commits(|s.flights|) else Step.Fails(|s.flights|);
    AfterOneMore(s, before, most, lag, t, step);
    assert Without(t.flights, |s.flights|) == s.flights;
    RestoreByKey(HitEntries(meanwhile), HitOutputs(meanwhile), entries, outputs);
  }

  lemma ByKeyNotEmpty(entries: map<Bytes, int>, outputs: map<Bytes, int>)
    requires !(entries == map[] && outputs == map[])
    ensures ByKey(entries, outputs) != map[]
  {
    if entries != map[] {
      var a :| a in entries;
      assert HasKey(entries, outputs, EntryKey(a));
    } else {
      var o :| o in outputs;
      assert HasKey(entries, outputs, OutputKey(o));
    }
  }
}
