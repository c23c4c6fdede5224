/** Expiring rows by age, a bounded batch at a time, while builds refresh and add rows:
    entries by a cursor over their keys, outputs by re-selecting the coldest. */
module AgeExpiry {
  import opened Ids
  import opened Schedule

  /** What another process does to one row of the table. */
  datatype Change =
    | Refresh(key: Bytes, at: int)  // UPDATE: only if the row is there
    | Insert(key: Bytes, at: int)   // an upsert
    | Delete(key: Bytes)

  datatype Event = Other(change: Change) | Expired(key: Bytes)

  type Rows = map<Bytes, int>

  function Changed(rows: Rows, c: Change): Rows {
    match c
    case Refresh(k, at) => if k in rows then rows[k := at] else rows
    case Insert(k, at) => rows[k := at]
    case Delete(k) => rows - {k}
  }

  function ChangedAll(rows: Rows, cs: seq<Change>): Rows {
    if cs == [] then rows else Changed(ChangedAll(rows, cs[..|cs| - 1]), cs[|cs| - 1])
  }

  lemma ChangedAllTakesOne(rows: Rows, cs: seq<Change>, i: nat)
    requires i < |cs|
    ensures ChangedAll(rows, cs[..i + 1]) == Changed(ChangedAll(rows, cs[..i]), cs[i])
  {
    assert cs[..i + 1][..i] == cs[..i];
  }

  /** The table once others have taken their turn. */
  function AfterTurn(rows: Rows, turns: seq<Turn<Change>>): Rows {
    if turns == [] then rows else ChangedAll(rows, turns[0].changes)
  }

  function LaterTurns(turns: seq<Turn<Change>>): seq<Turn<Change>> {
    if turns == [] then [] else turns[1..]
  }

  /** What a log comes to: the table, what others did, and how many rows expired. */
  datatype Facts = Facts(rows: Rows, others: seq<Change>, expired: nat)

  function Extended(f: Facts, e: Event): Facts {
    match e
    case Other(c) => f.(rows := Changed(f.rows, c), others := f.others + [c])
    case Expired(k) => f.(rows := f.rows - {k}, expired := f.expired + 1)
  }

  function Outcome(rows: Rows, log: seq<Event>): Facts {
    if log == [] then Facts(rows, [], 0) else Extended(Outcome(rows, log[..|log| - 1]), log[|log| - 1])
  }

  predicate IsStale(rows: Rows, key: Bytes, cutoff: int) {
    key in rows && rows[key] < cutoff
  }

  function Stale(rows: Rows, cutoff: int): set<Bytes> {
    set k | k in rows && rows[k] < cutoff
  }

  function Fresh(rows: Rows, cutoff: int): Rows {
    map k | k in rows && rows[k] >= cutoff :: rows[k]
  }

  function StaleOf(rows: Rows, keys: seq<Bytes>, cutoff: int): set<Bytes> {
    set k | k in keys && IsStale(rows, k, cutoff)
  }

  /** Deleting one more of the keys, where it is stale. */
  lemma BatchTakesOne(was: Rows, rows: Rows, keys: seq<Bytes>, i: nat, cutoff: int, removed: nat)
    requires i < |keys| && rows == was - StaleOf(was, keys[..i], cutoff) && Accounts(was, rows, cutoff, removed)
    ensures
      var stale := IsStale(rows, keys[i], cutoff);
      var rest := if stale then rows - {keys[i]} else rows;
      && rest == was - StaleOf(was, keys[..i + 1], cutoff)
      && Accounts(was, rest, cutoff, if stale then removed + 1 else removed)
  {
    assert keys[..i + 1] == keys[..i] + [keys[i]];
    StaleOfTakesOne(was, keys[..i], keys[i], cutoff);
    if IsStale(rows, keys[i], cutoff) {
      ExpireOne(rows, keys[i], cutoff);
    }
  }

  lemma StaleOfTakesOne(rows: Rows, keys: seq<Bytes>, key: Bytes, cutoff: int)
    ensures StaleOf(rows, keys + [key], cutoff) ==
      StaleOf(rows, keys, cutoff) + if IsStale(rows, key, cutoff) then {key} else {}
  {
  }

  /** From one table to the next, this many stale rows went and nothing else did. */
  ghost predicate Accounts(was: Rows, rows: Rows, cutoff: int, removed: nat) {
    && |Stale(rows, cutoff)| + removed == |Stale(was, cutoff)|
    && Fresh(rows, cutoff) == Fresh(was, cutoff)
  }

  lemma ExpireOne(rows: Rows, key: Bytes, cutoff: int)
    requires IsStale(rows, key, cutoff)
    ensures |Stale(rows - {key}, cutoff)| == |Stale(rows, cutoff)| - 1
    ensures Fresh(rows - {key}, cutoff) == Fresh(rows, cutoff)
  {
    assert Stale(rows - {key}, cutoff) == Stale(rows, cutoff) - {key};
  }

  /** Every row expired was there, and stale, at that moment. */
  ghost predicate OnlyStale(rows: Rows, log: seq<Event>, cutoff: int) {
    log == [] ||
    (OnlyStale(rows, log[..|log| - 1], cutoff) &&
     (log[|log| - 1].Expired? ==> IsStale(Outcome(rows, log[..|log| - 1]).rows, log[|log| - 1].key, cutoff)))
  }

  lemma {:induction false} OnlyStaleAt(rows: Rows, log: seq<Event>, cutoff: int, k: nat)
    requires OnlyStale(rows, log, cutoff) && k < |log| && log[k].Expired?
    ensures IsStale(Outcome(rows, log[..k]).rows, log[k].key, cutoff)
  {
    if k < |log| - 1 {
      OnlyStaleAt(rows, log[..|log| - 1], cutoff, k);
      assert log[..|log| - 1][..k] == log[..k];
    }
  }

  lemma LogTakesOne(rows: Rows, log: seq<Event>, e: Event, cutoff: int)
    requires OnlyStale(rows, log, cutoff) && (e.Expired? ==> IsStale(Outcome(rows, log).rows, e.key, cutoff))
    ensures OnlyStale(rows, log + [e], cutoff) && Outcome(rows, log + [e]) == Extended(Outcome(rows, log), e)
  {
    assert (log + [e])[..|log + [e]| - 1] == log;
  }

  /** Others neither remove the row nor let its time fall below the cutoff. */
  predicate KeepsFresh(c: Change, key: Bytes, cutoff: int) {
    match c
    case Refresh(k, at) => k == key ==> at >= cutoff
    case Insert(k, at) => k == key ==> at >= cutoff
    case Delete(k) => k != key
  }

  /** A fresh row survives the pass unless another process takes it or makes it stale. */
  lemma {:induction false} FreshRowStays(rows: Rows, log: seq<Event>, cutoff: int, key: Bytes)
    requires OnlyStale(rows, log, cutoff) && key in rows && rows[key] >= cutoff
    requires forall i :: 0 <= i < |Outcome(rows, log).others| ==> KeepsFresh(Outcome(rows, log).others[i], key, cutoff)
    ensures key in Outcome(rows, log).rows && Outcome(rows, log).rows[key] >= cutoff
  {
    if log != [] {
      var before, e := log[..|log| - 1], log[|log| - 1];
      var others, more := Outcome(rows, before).others, Outcome(rows, log).others;
      forall i | 0 <= i < |others| ensures others[i] == more[i] {
      }
      if e.Other? {
        assert more[|others|] == e.change;
      }
      FreshRowStays(rows, before, cutoff, key);
    }
  }

  /** Nothing another process does makes this row fresh, removes it, or puts it back. */
  predicate KeepsStale(c: Change, key: Bytes, cutoff: int) {
    match c
    case Refresh(k, at) => k == key ==> at < cutoff
    case Insert(k, _) => k != key
    case Delete(k) => k != key
  }

  predicate StaleOrGone(rows: Rows, key: Bytes, cutoff: int) {
    key in rows ==> rows[key] < cutoff
  }

  predicate StaysStale(turns: seq<Turn<Change>>, key: Bytes, cutoff: int) {
    forall t :: t in turns ==> forall c :: c in t.changes ==> KeepsStale(c, key, cutoff)
  }

  /** A statement that removed `gone`, and others' turn before it, leave every row that
      stays stale as it was, or gone. */
  ghost predicate CarriesOn(was: Rows, turnsWere: seq<Turn<Change>>, rows: Rows, turns: seq<Turn<Change>>,
                            gone: seq<Bytes>, cutoff: int)
  {
    forall k :: StaysStale(turnsWere, k, cutoff) && StaleOrGone(was, k, cutoff) ==>
      StaysStale(turns, k, cutoff) && StaleOrGone(rows, k, cutoff) && (k in rows <==> k in was && k !in gone)
  }

  lemma {:induction false} ChangesCarryOn(rows: Rows, cs: seq<Change>, k: Bytes, cutoff: int)
    requires StaleOrGone(rows, k, cutoff) && forall c :: c in cs ==> KeepsStale(c, k, cutoff)
    ensures StaleOrGone(ChangedAll(rows, cs), k, cutoff) && (k in ChangedAll(rows, cs) <==> k in rows)
  {
    if cs != [] {
      var before, c := cs[..|cs| - 1], cs[|cs| - 1];
      assert c in cs && forall b :: b in before ==> b in cs;
      ChangesCarryOn(rows, before, k, cutoff);
    }
  }

  /** Others' turn before a statement leaves every row that stays stale as it was, or gone. */
  lemma TurnCarriesOn(rows: Rows, turns: seq<Turn<Change>>, cutoff: int)
    ensures CarriesOn(rows, turns, AfterTurn(rows, turns), LaterTurns(turns), [], cutoff)
  {
    forall k | StaysStale(turns, k, cutoff) && StaleOrGone(rows, k, cutoff)
      ensures StaysStale(LaterTurns(turns), k, cutoff)
      ensures StaleOrGone(AfterTurn(rows, turns), k, cutoff) && (k in AfterTurn(rows, turns) <==> k in rows)
    {
      if turns != [] {
        assert turns[0] in turns;
        ChangesCarryOn(rows, turns[0].changes, k, cutoff);
      }
    }
  }

  /** And so does the batch that is deleted then, but for what it takes. */
  lemma BatchCarriesOn(rows: Rows, turns: seq<Turn<Change>>, keys: seq<Bytes>, cutoff: int)
    ensures
      var after := AfterTurn(rows, turns);
      CarriesOn(rows, turns, after - StaleOf(after, keys, cutoff), LaterTurns(turns), keys, cutoff)
  {
    TurnCarriesOn(rows, turns, cutoff);
  }

  /******* Keys in BLOB order *******/

  predicate IsLowest(m: Bytes, keys: set<Bytes>) {
    m in keys && forall k :: k in keys && k != m ==> BlobLess(m, k)
  }

  lemma {:induction false} LowestExists(keys: set<Bytes>)
    requires keys != {}
    ensures exists m :: IsLowest(m, keys)
  {
    var k :| k in keys;
    if keys == {k} {
      assert IsLowest(k, keys);
    } else {
      LowestExists(keys - {k});
      var m :| IsLowest(m, keys - {k});
      BlobLessTrichotomy(k, m);
      if BlobLess(k, m) {
        forall j | j in keys && j != k ensures BlobLess(k, j) {
          if j != m { BlobLessTransitive(k, m, j); }
        }
        assert IsLowest(k, keys);
      } else {
        assert IsLowest(m, keys);
      }
    }
  }

  /******* The table, as one connection sees it *******/

  /** The stale keys a cursor has yet to pass. */
  function Ahead(rows: Rows, cutoff: int, cursor: Bytes): set<Bytes> {
    set k | k in rows && rows[k] < cutoff && BlobLess(cursor, k)
  }

  /** The first keys of a set in BLOB order, at most `limit` of them. */
  ghost predicate IsFirst(ids: seq<Bytes>, keys: set<Bytes>, limit: nat) {
    && (forall i :: 0 <= i < |ids| ==> ids[i] in keys)
    && (forall i, j :: 0 <= i < j < |ids| ==> BlobLess(ids[i], ids[j]))
    && |ids| <= limit
    && (forall k {:trigger AllBelow(ids, k)} :: k in keys && k !in ids ==> |ids| == limit && AllBelow(ids, k))
  }

  predicate AllBelow(ids: seq<Bytes>, key: Bytes) {
    forall i :: 0 <= i < |ids| ==> BlobLess(ids[i], key)
  }

  /** As many as there are up to `limit`, and none left out is colder than one taken. */
  ghost predicate IsColdest(ids: seq<Bytes>, rows: Rows, keys: set<Bytes>, limit: nat)
    requires keys <= rows.Keys
  {
    && (forall i :: 0 <= i < |ids| ==> ids[i] in keys)
    && (forall i, j :: 0 <= i < j < |ids| ==> ids[i] != ids[j])
    && |ids| == (if |keys| < limit then |keys| else limit)
    && (forall k {:trigger TakenUpTo(ids, rows, rows[k])} :: k in keys && k !in ids ==> TakenUpTo(ids, rows, rows[k]))
  }

  /** Of these rows none is later than this. */
  ghost predicate TakenUpTo(ids: seq<Bytes>, rows: Rows, at: int) {
    forall i :: 0 <= i < |ids| ==> ids[i] in rows && rows[ids[i]] <= at
  }

  /** The cursor moves past what it deletes, and skips nothing. */
  lemma CursorAdvances(rows: Rows, cutoff: int, cursor: Bytes, ids: seq<Bytes>, limit: nat)
    requires IsFirst(ids, Ahead(rows, cutoff, cursor), limit) && ids != []
    ensures
      var next := ids[|ids| - 1];
      var rest := rows - StaleOf(rows, ids, cutoff);
      && BlobLess(cursor, next)
      && Ahead(rest, cutoff, next) == Ahead(rows, cutoff, cursor) - StaleOf(rows, ids, cutoff)
      && |Ahead(rest, cutoff, next)| < |Ahead(rows, cutoff, cursor)|
    ensures forall k :: BlobLess(cursor, k) && IsStale(rows, k, cutoff) && k !in ids ==> BlobLess(ids[|ids| - 1], k)
    ensures NoneBehind(rows, cutoff, cursor) ==> NoneBehind(rows - StaleOf(rows, ids, cutoff), cutoff, ids[|ids| - 1])
  {
    var next := ids[|ids| - 1];
    var rest := rows - StaleOf(rows, ids, cutoff);
    forall k | k in Ahead(rows, cutoff, cursor) && k !in ids ensures BlobLess(next, k) {
      assert AllBelow(ids, k);
    }
    forall k | BlobLess(next, k) ensures BlobLess(cursor, k) && k !in ids {
      BlobLessTransitive(cursor, next, k);
      forall i | 0 <= i < |ids| ensures ids[i] != k {
        BlobLessTrichotomy(ids[i], next);
        BlobLessTrichotomy(next, k);
      }
    }
    assert Ahead(rest, cutoff, next) == Ahead(rows, cutoff, cursor) - StaleOf(rows, ids, cutoff);
    assert next in Ahead(rows, cutoff, cursor) && next in StaleOf(rows, ids, cutoff);
    assert Ahead(rest, cutoff, next) < Ahead(rows, cutoff, cursor);
    SmallerSet(Ahead(rest, cutoff, next), Ahead(rows, cutoff, cursor));
  }

  lemma NothingAhead(rows: Rows, cutoff: int, cursor: Bytes, limit: nat)
    requires IsFirst([], Ahead(rows, cutoff, cursor), limit) && limit > 0
    ensures forall k :: BlobLess(cursor, k) ==> !IsStale(rows, k, cutoff)
    ensures NoneBehind(rows, cutoff, cursor) ==> Stale(rows, cutoff) == {} && Fresh(rows, cutoff) == rows
  {
    forall k | BlobLess(cursor, k) ensures !IsStale(rows, k, cutoff) {
      assert IsStale(rows, k, cutoff) <==> k in Ahead(rows, cutoff, cursor);
      assert AllBelow([], k);
    }
    if NoneBehind(rows, cutoff, cursor) {
      assert forall k :: k in rows ==> !IsStale(rows, k, cutoff);
    }
  }

  /** Every row stale at the start and undisturbed since is gone or ahead of the cursor. */
  ghost predicate StillAhead(was: Rows, turnsWere: seq<Turn<Change>>, rows: Rows, turns: seq<Turn<Change>>,
                             cutoff: int, cursor: Bytes)
  {
    forall k :: k != [] && IsStale(was, k, cutoff) && StaysStale(turnsWere, k, cutoff) ==>
      StaysStale(turns, k, cutoff) && StaleOrGone(rows, k, cutoff) && (k in rows ==> BlobLess(cursor, k))
  }

  /** One select and one delete, with other processes before each. */
  lemma StillAheadAfterBatch(was: Rows, turnsWere: seq<Turn<Change>>, rows0: Rows, turns0: seq<Turn<Change>>,
                             rows1: Rows, turns1: seq<Turn<Change>>, rows2: Rows, turns2: seq<Turn<Change>>,
                             cutoff: int, cursor: Bytes, ids: seq<Bytes>)
    requires StillAhead(was, turnsWere, rows0, turns0, cutoff, cursor)
    requires CarriesOn(rows0, turns0, rows1, turns1, [], cutoff)
    requires ids != [] && IsFirst(ids, Ahead(rows1, cutoff, cursor), AGE_BATCH)
    requires CarriesOn(rows1, turns1, rows2, turns2, ids, cutoff)
    ensures StillAhead(was, turnsWere, rows2, turns2, cutoff, ids[|ids| - 1])
  {
    CursorAdvances(rows1, cutoff, cursor, ids, AGE_BATCH);
  }

  /** Every row stale at the start and undisturbed since is gone. */
  ghost predicate NothingLeft(was: Rows, turnsWere: seq<Turn<Change>>, rows: Rows, cutoff: int) {
    forall k :: k != [] && IsStale(was, k, cutoff) && StaysStale(turnsWere, k, cutoff) ==> k !in rows
  }

  /** With no interference: the cursor has passed every stale row that is left, and so
      many went. */
  ghost predicate Going(was: Rows, turnsWere: seq<Turn<Change>>, rows: Rows, cutoff: int, cursor: Bytes, total: nat) {
    turnsWere == [] && [] !in was ==> NoneBehind(rows, cutoff, cursor) && Accounts(was, rows, cutoff, total)
  }

  /** The first stale keys after the cursor went. */
  ghost predicate TookBatch(before: Rows, rows: Rows, cutoff: int, cursor: Bytes, ids: seq<Bytes>, removed: nat) {
    && IsFirst(ids, Ahead(before, cutoff, cursor), AGE_BATCH)
    && rows == before - StaleOf(before, ids, cutoff)
    && Accounts(before, rows, cutoff, removed)
  }

  lemma GoesOn(quiet: bool, was: Rows, turnsWere: seq<Turn<Change>>, before: Rows, rows: Rows, cutoff: int,
               cursor: Bytes, ids: seq<Bytes>, removed: nat, total: nat)
    requires Going(was, turnsWere, before, cutoff, cursor, total)
    requires quiet ==> TookBatch(before, rows, cutoff, cursor, ids, removed)
    ensures quiet && ids != [] ==>
      && |Ahead(rows, cutoff, ids[|ids| - 1])| < |Ahead(before, cutoff, cursor)|
      && Going(was, turnsWere, rows, cutoff, ids[|ids| - 1], total + removed)
    ensures quiet && ids == [] && turnsWere == [] && [] !in was ==>
      rows == Fresh(was, cutoff) && total + removed == |Stale(was, cutoff)|
  {
    if quiet && ids != [] {
      CursorAdvances(before, cutoff, cursor, ids, AGE_BATCH);
    } else if quiet {
      assert before - StaleOf(before, [], cutoff) == before;
      if turnsWere == [] && [] !in was {
        NothingAhead(before, cutoff, cursor, AGE_BATCH);
      }
    }
  }

  lemma SmallerSet(a: set<Bytes>, b: set<Bytes>)
    requires a < b
    ensures |a| < |b|
  {
    assert b == a + (b - a);
  }

  /** The cursor has passed every stale row that is left. */
  ghost predicate NoneBehind(rows: Rows, cutoff: int, cursor: Bytes) {
    forall k :: IsStale(rows, k, cutoff) ==> BlobLess(cursor, k)
  }

  function Least(a: nat, b: nat): nat {
    if a < b then a else b
  }

  /** Of what went nothing was later than this. */
  ghost predicate GoneUpTo(was: Rows, rows: Rows, at: int) {
    forall gone :: gone in was && gone !in rows ==> was[gone] <= at
  }

  /** So many stale rows went and nothing else did, and none left is colder than one that
      went. */
  ghost predicate ColdestGone(was: Rows, rows: Rows, cutoff: int, removed: nat) {
    && Accounts(was, rows, cutoff, removed)
    && (forall k :: k in rows ==> k in was && rows[k] == was[k])
    && (forall left {:trigger GoneUpTo(was, rows, was[left])} :: left in rows ==> GoneUpTo(was, rows, was[left]))
  }

  lemma {:induction false} ColdestExists(rows: Rows, keys: set<Bytes>)
    requires keys != {} && keys <= rows.Keys
    ensures exists m :: m in keys && forall k :: k in keys ==> rows[m] <= rows[k]
  {
    var k :| k in keys;
    if keys != {k} {
      ColdestExists(rows, keys - {k});
      var m :| m in keys - {k} && forall j :: j in keys - {k} ==> rows[m] <= rows[j];
      var least := if rows[k] <= rows[m] then k else m;
      assert forall j :: j in keys ==> rows[least] <= rows[j];
    }
  }

  lemma {:induction false} DistinctCount(ids: seq<Bytes>, s: set<Bytes>)
    requires forall i, j :: 0 <= i < j < |ids| ==> ids[i] != ids[j]
    requires forall k :: k in s <==> k in ids
    ensures |s| == |ids|
  {
    if ids != [] {
      var last := ids[|ids| - 1];
      var init := ids[..|ids| - 1];
      assert ids == init + [last];
      DistinctCount(init, s - {last});
    }
  }

  /** With no interference: the coldest go first, a batch at a time. */
  ghost predicate Reaping(was: Rows, rows: Rows, cutoff: int, total: nat, limit: nat) {
    ColdestGone(was, rows, cutoff, total) && total == Least(|Stale(was, cutoff)|, limit)
  }

  ghost predicate NoneOlder(rows: Rows, cutoff: int) {
    forall k :: k in rows ==> rows[k] >= cutoff
  }

  lemma NoneStale(rows: Rows, cutoff: int)
    requires IsColdest([], rows, Stale(rows, cutoff), AGE_BATCH)
    ensures Stale(rows, cutoff) == {} && NoneOlder(rows, cutoff)
  {
    assert forall k :: k in rows ==> k !in Stale(rows, cutoff);
  }

  /** A batch of the coldest stale rows went, or there was none. */
  ghost predicate TookColdest(before: Rows, rows: Rows, cutoff: int, ids: seq<Bytes>, removed: nat) {
    && IsColdest(ids, before, Stale(before, cutoff), AGE_BATCH)
    && rows == before - StaleOf(before, ids, cutoff) && Accounts(before, rows, cutoff, removed)
  }

  lemma ReapingEnds(quiet: bool, was: Rows, rows: Rows, cutoff: int, total: nat)
    requires quiet ==> Reaping(was, rows, cutoff, total, BatchesHold(AGE_MAX_BATCHES))
    ensures quiet ==> ReapedAll(was, rows, cutoff, total)
  {
    BatchesHoldUpTo(AGE_MAX_BATCHES);
    if quiet {
      FreshIfNoneStale(was, rows, cutoff, total);
    }
  }

  lemma ColdestGoNext(quiet: bool, was: Rows, before: Rows, rows: Rows, cutoff: int, total: nat, ids: seq<Bytes>,
                      removed: nat, limit: nat)
    requires quiet ==> Reaping(was, before, cutoff, total, limit) && TookColdest(before, rows, cutoff, ids, removed)
    ensures quiet && ids != [] ==> Reaping(was, rows, cutoff, total + removed, limit + 2000)
    ensures quiet && ids == [] && limit <= 4_000_000 ==> ReapedAll(was, rows, cutoff, total + removed)
  {
    if quiet {
      ColdestGo(was, before, rows, cutoff, total, ids, removed, limit);
    }
  }

  lemma ColdestGo(was: Rows, before: Rows, rows: Rows, cutoff: int, total: nat, ids: seq<Bytes>, removed: nat,
                  limit: nat)
    requires Reaping(was, before, cutoff, total, limit) && TookColdest(before, rows, cutoff, ids, removed)
    ensures ids != [] ==> Reaping(was, rows, cutoff, total + removed, limit + 2000)
    ensures ids == [] && limit <= 4_000_000 ==> ReapedAll(was, rows, cutoff, total + removed)
  {
    if ids != [] {
      BatchIsFull(before, rows, cutoff, ids, removed);
      ColdestWent(was, before, rows, cutoff, ids);
    } else {
      assert rows == before;
      NoneStale(before, cutoff);
      FreshIfNoneStale(was, rows, cutoff, total);
    }
  }

  lemma BatchIsFull(before: Rows, rows: Rows, cutoff: int, ids: seq<Bytes>, removed: nat)
    requires IsColdest(ids, before, Stale(before, cutoff), AGE_BATCH) && rows == before - StaleOf(before, ids, cutoff)
    requires Accounts(before, rows, cutoff, removed)
    ensures removed == Least(|Stale(before, cutoff)|, AGE_BATCH)
  {
    var gone := StaleOf(before, ids, cutoff);
    DistinctCount(ids, gone);
    assert gone <= Stale(before, cutoff);
    assert Stale(rows, cutoff) == Stale(before, cutoff) - gone;
  }

  lemma ColdestWent(was: Rows, before: Rows, rows: Rows, cutoff: int, ids: seq<Bytes>)
    requires forall k :: k in before ==> k in was && before[k] == was[k]
    requires forall left {:trigger GoneUpTo(was, before, was[left])} ::
      left in before ==> GoneUpTo(was, before, was[left])
    requires IsColdest(ids, before, Stale(before, cutoff), AGE_BATCH) && rows == before - StaleOf(before, ids, cutoff)
    ensures forall left {:trigger GoneUpTo(was, rows, was[left])} :: left in rows ==> GoneUpTo(was, rows, was[left])
  {
    forall left | left in rows
      ensures GoneUpTo(was, rows, was[left])
    {
      assert GoneUpTo(was, before, was[left]);
      forall gone | gone in was && gone !in rows
        ensures was[gone] <= was[left]
      {
        if gone in before {
          assert gone in ids && left !in ids;
          var i :| 0 <= i < |ids| && ids[i] == gone;
          if left in Stale(before, cutoff) {
            assert TakenUpTo(ids, before, before[left]);
          }
        }
      }
    }
  }

  lemma FreshIfNoneStale(was: Rows, rows: Rows, cutoff: int, total: nat)
    requires ColdestGone(was, rows, cutoff, total)
    ensures rows == Fresh(was, cutoff) <==> total == |Stale(was, cutoff)|
  {
    if total == |Stale(was, cutoff)| {
      assert Stale(rows, cutoff) == {};
      assert forall k :: k in rows ==> k !in Stale(rows, cutoff);
      assert rows == Fresh(rows, cutoff);
    } else {
      assert Stale(rows, cutoff) != {};
      var k :| k in Stale(rows, cutoff);
      assert k !in Fresh(was, cutoff);
    }
  }

  /** As many of the coldest stale rows went as the bound allows; nothing stale is left
      when, and only when, the bound allows for them all. */
  ghost predicate ReapedAll(was: Rows, rows: Rows, cutoff: int, total: nat) {
    && ColdestGone(was, rows, cutoff, total)
    && total == Least(|Stale(was, cutoff)|, 4_000_000)
    && (rows == Fresh(was, cutoff) <==> |Stale(was, cutoff)| <= 4_000_000)
  }

  const AGE_BATCH := 2000
  const AGE_MAX_BATCHES := 2000

  /** How many rows so many batches hold. */
  function BatchesHold(batches: nat): nat {
    if batches == 0 then 0 else BatchesHold(batches - 1) + 2000
  }

  lemma {:induction false} BatchesHoldUpTo(batches: nat)
    ensures BatchesHold(batches) == 2000 * batches
  {
    if batches > 0 {
      BatchesHoldUpTo(batches - 1);
    }
  }

  class Table {
    var rows: Rows
    var turns: seq<Turn<Change>>          // one taken by each statement; afterwards nothing interferes
    ghost var schedule: seq<Turn<Change>> // the turns at the start of the pass
    ghost var start: Rows                 // the table then
    ghost var log: seq<Event>
    ghost var facts: Facts                // what the log comes to

    constructor (rows: Rows, turns: seq<Turn<Change>>)
      ensures this.rows == rows && this.turns == turns
    {
      this.rows, this.turns := rows, turns;
      schedule, start, log, facts := turns, rows, [], Outcome(rows, []);
    }

    /** The table is what the log comes to, and only stale rows expired. */
    ghost predicate Consistent(cutoff: int)
      reads this
    {
      facts == Outcome(start, log) && rows == facts.rows && OnlyStale(start, log, cutoff)
    }

    /** And what others did is as scheduled. */
    ghost predicate InPass(cutoff: int)
      reads this
    {
      Consistent(cutoff) && OnSchedule(facts.others, schedule, turns)
    }

    ghost method Record(e: Event, cutoff: int)
      requires facts == Outcome(start, log) && OnlyStale(start, log, cutoff)
      requires e.Expired? ==> IsStale(facts.rows, e.key, cutoff)
      modifies this`log, this`facts
      ensures facts == Outcome(start, log) && OnlyStale(start, log, cutoff)
      ensures facts == Extended(old(facts), e)
    {
      LogTakesOne(start, log, e, cutoff);
      log, facts := log + [e], Extended(facts, e);
    }

    /** Other processes' turn, before one statement of this one. */
    method TakeTurn(ghost cutoff: int) returns (fails: bool)
      requires InPass(cutoff) && NoneFailed(schedule, turns)
      modifies this
      ensures InPass(cutoff) && start == old(start) && schedule == old(schedule) && facts.expired == old(facts).expired
      ensures rows == AfterTurn(old(rows), old(turns)) && turns == LaterTurns(old(turns))
      ensures fails <==> !NoneFailed(schedule, turns)
    {
      fails := false;
      if turns == [] {
        return;
      }
      var turn := turns[0];
      ghost var others := facts.others;
      OnScheduleAfter(others, schedule, turns);
      var i := 0;
      assert others + turn.changes[..0] == others;
      while i < |turn.changes|
        invariant 0 <= i <= |turn.changes|
        invariant start == old(start) && schedule == old(schedule) && turns == old(turns)
        invariant Consistent(cutoff) && facts.expired == old(facts).expired
        invariant facts.others == others + turn.changes[..i] && rows == ChangedAll(old(rows), turn.changes[..i])
      {
        ChangedAllTakesOne(old(rows), turn.changes, i);
        TakesOneMore(others, turn.changes, i);
        rows := Changed(rows, turn.changes[i]);
        Record(Other(turn.changes[i]), cutoff);
        i := i + 1;
      }
      assert turn.changes[..i] == turn.changes;
      fails, turns := turn.fails, turns[1..];
    }

    /** One batch in one transaction: the keys were chosen by an earlier statement, so
        the cutoff is asserted again on each. A failed transaction is rolled back. */
    method DeleteStaleByKey(cutoff: int, keys: seq<Bytes>) returns (ok: bool, removed: nat)
      requires InPass(cutoff) && NoneFailed(schedule, turns)
      modifies this
      ensures InPass(cutoff) && start == old(start) && schedule == old(schedule)
      ensures facts.expired == old(facts).expired + removed && removed <= |keys|
      ensures turns == LaterTurns(old(turns)) && (ok <==> NoneFailed(schedule, turns))
      ensures
        var was := AfterTurn(old(rows), old(turns));
        if ok then rows == was - StaleOf(was, keys, cutoff) && Accounts(was, rows, cutoff, removed)
        else rows == was && removed == 0
    {
      var fails := TakeTurn(cutoff);
      ok, removed := !fails, 0;
      if ok {
        removed := ExpireBatch(cutoff, keys);
      }
    }

    method ExpireBatch(cutoff: int, keys: seq<Bytes>) returns (removed: nat)
      requires Consistent(cutoff)
      modifies this`rows, this`log, this`facts
      ensures Consistent(cutoff) && facts.others == old(facts).others
      ensures facts.expired == old(facts).expired + removed && removed <= |keys|
      ensures rows == old(rows) - StaleOf(old(rows), keys, cutoff) && Accounts(old(rows), rows, cutoff, removed)
    {
      removed := 0;
      var i := 0;
      assert rows - StaleOf(rows, [], cutoff) == rows;
      while i < |keys|
        invariant 0 <= i <= |keys|
        invariant Consistent(cutoff) && facts.others == old(facts).others
        invariant facts.expired == old(facts).expired + removed && removed <= i
        invariant rows == old(rows) - StaleOf(old(rows), keys[..i], cutoff)
        invariant Accounts(old(rows), rows, cutoff, removed)
      {
        BatchTakesOne(old(rows), rows, keys, i, cutoff, removed);
        if keys[i] in rows && rows[keys[i]] < cutoff {
          Record(Expired(keys[i]), cutoff);
          rows := rows - {keys[i]};
          removed := removed + 1;
        }
        i := i + 1;
      }
      assert keys[..i] == keys;
    }

    /** SELECT ... WHERE accessed_at < ? AND action_id > ? ORDER BY action_id LIMIT ?. */
    method StaleActionIds(cutoff: int, after: Bytes) returns (ok: bool, ids: seq<Bytes>)
      requires InPass(cutoff) && NoneFailed(schedule, turns)
      modifies this
      ensures InPass(cutoff) && start == old(start) && schedule == old(schedule) && facts.expired == old(facts).expired
      ensures turns == LaterTurns(old(turns)) && (ok <==> NoneFailed(schedule, turns))
      ensures rows == AfterTurn(old(rows), old(turns))
      ensures ok ==> IsFirst(ids, set k | k in rows && rows[k] < cutoff && BlobLess(after, k), 2000)
    {
      var fails := TakeTurn(cutoff);
      ok, ids := !fails, [];
      if ok {
        ids := FirstKeys(Ahead(rows, cutoff, after), AGE_BATCH);
      }
    }

    /** One turn of the loop: the next batch of stale keys, and their deletion. `was` and
        `turnsWere` are how the pass found the table and the schedule. */
    method ExpireAfter(cutoff: int, cursor: Bytes, ghost was: Rows, ghost turnsWere: seq<Turn<Change>>)
        returns (ok: bool, ids: seq<Bytes>, removed: nat)
      requires InPass(cutoff) && NoneFailed(schedule, turns)
      requires StillAhead(was, turnsWere, rows, turns, cutoff, cursor)
      modifies this
      ensures InPass(cutoff) && start == old(start) && schedule == old(schedule)
      ensures facts.expired == old(facts).expired + removed && (ok <==> NoneFailed(schedule, turns))
      ensures ok && ids == [] ==> NothingLeft(was, turnsWere, rows, cutoff)
      ensures ok && ids != [] ==> StillAhead(was, turnsWere, rows, turns, cutoff, ids[|ids| - 1])
      ensures |turns| <= |old(turns)| && (old(turns) != [] ==> |turns| < |old(turns)|)
      ensures old(turns) == [] && ok ==>
        TookBatch(old(rows), rows, cutoff, cursor, ids, removed)
    {
      ghost var rows0, turns0 := rows, turns;
      removed := 0;
      ok, ids := StaleActionIds(cutoff, cursor);
      TurnCarriesOn(rows0, turns0, cutoff);
      if !ok {
        return;
      }
      ghost var rows1, turns1 := rows, turns;
      if ids == [] {
        NothingAhead(rows, cutoff, cursor, AGE_BATCH);
        return;
      }
      ok, removed := DeleteStaleByKey(cutoff, ids);
      if ok {
        BatchCarriesOn(rows1, turns1, ids, cutoff);
        StillAheadAfterBatch(was, turnsWere, rows0, turns0, rows1, turns1, rows, turns, cutoff, cursor, ids);
      }
    }

    /** Expires entries by a cursor over their keys. The table it leaves is what its log
        comes to, and the log holds what others did, exactly as scheduled, and rows
        expired while stale; the count is of those. A finished pass leaves no row that
        stayed stale throughout, whatever was refreshed, added or removed in between, and
        it fails exactly when a statement does. */
    method DeleteStaleEntries(cutoff: int) returns (ok: bool, total: nat)
      modifies this
      ensures InPass(cutoff) && start == old(rows) && schedule == old(turns)
      ensures total == facts.expired && (ok <==> NoneFailed(schedule, turns))
      ensures ok ==> NothingLeft(old(rows), old(turns), rows, cutoff)
      ensures old(turns) == [] && [] !in old(rows) ==>
        ok && rows == Fresh(old(rows), cutoff) && total == |Stale(old(rows), cutoff)|
    {
      log, start, schedule, facts := [], rows, turns, Outcome(rows, []);
      ghost var was, turnsWere := rows, turns;
      total := 0;
      var cursor: Bytes := [];
      while true
        invariant InPass(cutoff) && start == was && schedule == turnsWere && total == facts.expired
        invariant NoneFailed(schedule, turns) && |turns| <= |turnsWere|
        invariant StillAhead(was, turnsWere, rows, turns, cutoff, cursor)
        invariant Going(was, turnsWere, rows, cutoff, cursor, total)
        decreases |turns|, |Ahead(rows, cutoff, cursor)|
      {
        ghost var before, turnsBefore := rows, turns;
        var ids, removed;
        ok, ids, removed := ExpireAfter(cutoff, cursor, was, turnsWere);
        GoesOn(ok && turnsBefore == [], was, turnsWere, before, rows, cutoff, cursor, ids, removed, total);
        total := total + removed;
        if !ok || ids == [] {
          return;
        }
        cursor := ids[|ids| - 1];
      }
    }

    /** SELECT ... WHERE accessed_at < ? ORDER BY accessed_at LIMIT ?: rows that tie come in
        any order. */
    method StaleOutputIds(cutoff: int) returns (ok: bool, ids: seq<Bytes>)
      requires InPass(cutoff) && NoneFailed(schedule, turns)
      modifies this
      ensures InPass(cutoff) && start == old(start) && schedule == old(schedule) && facts.expired == old(facts).expired
      ensures turns == LaterTurns(old(turns)) && (ok <==> NoneFailed(schedule, turns))
      ensures rows == AfterTurn(old(rows), old(turns))
      ensures ok ==> IsColdest(ids, rows, set k | k in rows && rows[k] < cutoff, 2000)
    {
      var fails := TakeTurn(cutoff);
      ok, ids := !fails, [];
      if ok {
        ids := ColdestKeys(rows, Stale(rows, cutoff), AGE_BATCH);
      }
    }

    /** One turn of the loop: the coldest stale keys, and their deletion. */
    method ExpireColdest(cutoff: int) returns (ok: bool, ids: seq<Bytes>, removed: nat)
      requires InPass(cutoff) && NoneFailed(schedule, turns)
      modifies this
      ensures InPass(cutoff) && start == old(start) && schedule == old(schedule)
      ensures facts.expired == old(facts).expired + removed && (ok <==> NoneFailed(schedule, turns))
      ensures removed <= 2000 && (!ok || ids == [] ==> removed == 0)
      ensures ok && ids == [] ==> NoneOlder(rows, cutoff)
      ensures old(turns) == [] ==> ok && turns == [] && TookColdest(old(rows), rows, cutoff, ids, removed)
    {
      removed := 0;
      ok, ids := StaleOutputIds(cutoff);
      if !ok {
        return;
      }
      if ids == [] {
        NoneStale(rows, cutoff);
        return;
      }
      ok, removed := DeleteStaleByKey(cutoff, ids);
    }

    /** Expires outputs by re-selecting the coldest. The table is what the log comes to, and
        the log holds what others did and rows expired while stale, as for entries. It
        stops after a bounded number of batches whatever reappears below the cutoff;
        stopping earlier means nothing was stale at its last select. With no interference
        the coldest rows go first, as many as the bound allows, so the survivors are
        exactly the fresh rows when, and only when, the stale ones fit in it. */
    method DeleteStaleOutputs(cutoff: int) returns (ok: bool, total: nat, batches: nat)
      modifies this
      ensures InPass(cutoff) && start == old(rows) && schedule == old(turns)
      ensures total == facts.expired && (ok <==> NoneFailed(schedule, turns))
      ensures batches <= 2000 && total <= BatchesHold(batches) == 2000 * batches
      ensures ok && batches < 2000 ==> NoneOlder(rows, cutoff)
      ensures old(turns) == [] ==> ok && ReapedAll(old(rows), rows, cutoff, total)
    {
      log, start, schedule, facts := [], rows, turns, Outcome(rows, []);
      ghost var was, quiet := rows, turns == [];
      ok, total, batches := true, 0, 0;
      while batches < AGE_MAX_BATCHES
        invariant batches <= AGE_MAX_BATCHES && total <= BatchesHold(batches) == 2000 * batches
        invariant ok && InPass(cutoff) && start == was && schedule == old(turns) && total == facts.expired
        invariant NoneFailed(schedule, turns)
        invariant quiet ==> turns == [] && Reaping(was, rows, cutoff, total, BatchesHold(batches))
      {
        ghost var before := rows;
        var ids, removed;
        ok, ids, removed := ExpireColdest(cutoff);
        ColdestGoNext(quiet, was, before, rows, cutoff, total, ids, removed, BatchesHold(batches));
        total := total + removed;
        if !ok || ids == [] {
          return;
        }
        batches := batches + 1;
      }
      ReapingEnds(quiet, was, rows, cutoff, total);
    }
  }

  /** What ORDER BY and LIMIT pick out. */
  method FirstKeys(keys: set<Bytes>, limit: nat) returns (ids: seq<Bytes>)
    ensures IsFirst(ids, keys, limit)
  {
    ids := [];
    var left := keys;
    while left != {} && |ids| < limit
      invariant left <= keys && |ids| <= limit
      invariant forall k :: k in keys <==> k in left || k in ids
      invariant forall i, k :: 0 <= i < |ids| && k in left ==> BlobLess(ids[i], k)
      invariant forall i, j :: 0 <= i < j < |ids| ==> BlobLess(ids[i], ids[j])
    {
      LowestExists(left);
      var m :| IsLowest(m, left);
      ids := ids + [m];
      left := left - {m};
    }
  }

  /** What ORDER BY accessed_at and LIMIT pick out. */
  method ColdestKeys(rows: Rows, keys: set<Bytes>, limit: nat) returns (ids: seq<Bytes>)
    requires keys <= rows.Keys
    ensures IsColdest(ids, rows, keys, limit)
  {
    ids := [];
    var left := keys;
    while left != {} && |ids| < limit
      invariant left <= keys && |ids| <= limit && |ids| + |left| == |keys|
      invariant forall k :: k in keys <==> k in left || k in ids
      invariant forall i :: 0 <= i < |ids| ==> ids[i] !in left
      invariant forall i, k :: 0 <= i < |ids| && k in left ==> rows[ids[i]] <= rows[k]
      invariant forall i, j :: 0 <= i < j < |ids| ==> ids[i] != ids[j]
    {
      ColdestExists(rows, left);
      var m :| m in left && forall k :: k in left ==> rows[m] <= rows[k];
      ids := ids + [m];
      left := left - {m};
    }
  }
}
