/** What the processes of the lifecycle come to when nothing disturbs them: a store that opens
    and closes, and a clean, a reclaim, a sweep and an expiry, which take all that is theirs
    to take and nothing else. */
module Housekeeping {
  import opened Ids
  import opened Lifecycle

  /** These steps, all of them possible, lead from one state to the other. */
  ghost predicate Leads(c: Config, from: State, steps: seq<Step>, to: State)
    decreases |steps|
  {
    if steps == [] then from == to
    else
      var last := |steps| - 1;
      exists mid: State ::
        Leads(c, from, steps[..last], mid) && Enabled(mid, steps[last]) && to == Apply(c, mid, steps[last])
  }

  lemma Goes(c: Config, from: State, steps: seq<Step>, mid: State, step: Step)
      returns (steps': seq<Step>, next: State)
    requires Leads(c, from, steps, mid) && Enabled(mid, step)
    ensures next == Apply(c, mid, step) && Leads(c, from, steps', next)
  {
    steps', next := steps + [step], Apply(c, mid, step);
    assert steps'[..|steps'| - 1] == steps;
  }

  lemma GoesTwice(c: Config, from: State, steps: seq<Step>, mid: State, first: Step, second: Step)
      returns (steps': seq<Step>, next: State)
    requires Leads(c, from, steps, mid) && Enabled(mid, first) && Enabled(Apply(c, mid, first), second)
    ensures next == Apply(c, Apply(c, mid, first), second) && Leads(c, from, steps', next)
  {
    steps', next := Goes(c, from, steps, mid, first);
    steps', next := Goes(c, from, steps', next, second);
  }

  lemma SetTwice<V>(m: map<nat, V>, t: nat, before: V, after: V)
    ensures m[t := before][t := after] == m[t := after]
    ensures t !in m ==> m[t := before] - {t} == m
  {
  }

  /******* Clean *******/

  /** The directories among these whose run.lock nobody has. */
  ghost function Unheld(s: State, among: set<RunId>): set<RunId> {
    set r | r in among && RunLockFree(s, r)
  }

  /** No lock file but these has gone, and none has a new time. */
  ghost predicate LocksLess(s: State, now: State, gone: set<RunId>) {
    && (forall r :: r in gone ==> r !in now.lockFiles)
    && (forall r :: r in s.lockFiles && r !in gone ==> r in now.lockFiles && now.lockFiles[r] == s.lockFiles[r])
  }

  /** Every process but the cleaners is where it was. */
  ghost predicate OnlyCleaners(s: State, now: State) {
    && now.now == s.now && now.owners == s.owners && now.reclaimers == s.reclaimers && now.sweepers == s.sweepers
    && now.expirers == s.expirers && now.collectors == s.collectors
  }

  ghost predicate CleanAt(s: State, now: State, t: Tid, m: Cleaner, gone: set<RunId>) {
    && now.cleaners == map[t := m] && OnlyCleaners(s, now)
    && now.dirs == s.dirs - gone && LocksLess(s, now, gone) && now.rows == s.rows && now.retained == s.retained
  }

  lemma SameRunLocks(s: State, now: State, t: Tid, m: Cleaner, gone: set<RunId>, r: RunId)
    requires s.cleaners == map[] && CleanAt(s, now, t, m, gone) && !m.phase.Trying?
    ensures RunLockFree(now, r) <==> RunLockFree(s, r)
  {
  }

  /** Where a clean stands that has visited all but these directories. */
  ghost predicate Cleaning(c: Config, s: State, steps: seq<Step>, now: State, t: Tid, m: Cleaner) {
    && Leads(c, s, steps, now) && s.cleaners == map[] && m.phase.Visiting? && m.todo <= s.dirs
    && CleanAt(s, now, t, m, Unheld(s, s.dirs - m.todo))
    && (m.active <==> Unheld(s, s.dirs - m.todo) != s.dirs - m.todo)
  }

  lemma UnheldTakesOne(s: State, todo: set<RunId>, r: RunId)
    requires r in todo && todo <= s.dirs
    ensures Unheld(s, s.dirs - (todo - {r})) == Unheld(s, s.dirs - todo) + if RunLockFree(s, r) then {r} else {}
    ensures Unheld(s, s.dirs - (todo - {r})) == s.dirs - (todo - {r}) <==>
      Unheld(s, s.dirs - todo) == s.dirs - todo && RunLockFree(s, r)
  {
    var before, after := s.dirs - todo, s.dirs - (todo - {r});
    assert after == before + {r};
    assert Unheld(s, before) <= before && r !in before;
    if Unheld(s, after) == after {
      assert r in Unheld(s, after);
      forall q | q in before ensures q in Unheld(s, before) {
        assert q in Unheld(s, after);
      }
    }
  }

  lemma TriesHeld(s: State, now: State, t: Tid, m: Cleaner, gone: set<RunId>, r: RunId)
    requires s.cleaners == map[] && CleanAt(s, now, t, m, gone) && m.phase.Visiting?
    requires r in m.todo && r in s.dirs && r !in gone && !RunLockFree(s, r)
    ensures CleanEnabled(now, t, TryUnused(r))
    ensures CleanAt(s, ApplyClean(now, t, TryUnused(r)), t, Cleaner(m.todo - {r}, true, Visiting), gone)
  {
    SameRunLocks(s, now, t, m, gone, r);
  }

  lemma TriesUnheld(s: State, now: State, t: Tid, m: Cleaner, gone: set<RunId>, r: RunId)
    requires s.cleaners == map[] && CleanAt(s, now, t, m, gone) && m.phase.Visiting?
    requires r in m.todo && r in s.dirs && r !in gone && RunLockFree(s, r)
    ensures CleanEnabled(now, t, TryUnused(r))
    ensures CleanAt(s, ApplyClean(now, t, TryUnused(r)), t, Cleaner(m.todo - {r}, m.active, Trying(r)), gone)
  {
    SameRunLocks(s, now, t, m, gone, r);
  }

  lemma RemovesUnheld(s: State, now: State, t: Tid, m: Cleaner, gone: set<RunId>, r: RunId)
    requires CleanAt(s, now, t, m, gone) && m.phase == Unused(r)
    ensures CleanEnabled(now, t, RemoveUnused)
    ensures CleanAt(s, ApplyClean(now, t, RemoveUnused), t, m.(phase := Visiting), gone + {r})
  {
    assert s.dirs - gone - {r} == s.dirs - (gone + {r});
  }

  lemma TakesUnheld(c: Config, s: State, before: seq<Step>, now: State, t: Tid, m: Cleaner, gone: set<RunId>, r: RunId)
      returns (steps: seq<Step>, next: State)
    requires Leads(c, s, before, now) && s.cleaners == map[] && CleanAt(s, now, t, m, gone) && m.phase.Visiting?
    requires r in m.todo && r in s.dirs && r !in gone && RunLockFree(s, r)
    ensures Leads(c, s, steps, next) && CleanAt(s, next, t, Cleaner(m.todo - {r}, m.active, Visiting), gone + {r})
  {
    TriesUnheld(s, now, t, m, gone, r);
    steps, next := Goes(c, s, before, now, CleanBy(t, TryUnused(r)));
    Unlocks(s, next, t, Cleaner(m.todo - {r}, m.active, Trying(r)), gone, r);
    steps, next := Goes(c, s, steps, next, CleanBy(t, UnlockUnused));
    RemovesUnheld(s, next, t, Cleaner(m.todo - {r}, m.active, Unused(r)), gone, r);
    steps, next := Goes(c, s, steps, next, CleanBy(t, RemoveUnused));
  }

  lemma Unlocks(s: State, now: State, t: Tid, m: Cleaner, gone: set<RunId>, r: RunId)
    requires CleanAt(s, now, t, m, gone) && m.phase == Trying(r)
    ensures CleanEnabled(now, t, UnlockUnused)
    ensures CleanAt(s, ApplyClean(now, t, UnlockUnused), t, m.(phase := Unused(r)), gone)
  {
  }

  /** A clean visits one more directory, and takes it unless it is in use. */
  lemma Visits(c: Config, s: State, before: seq<Step>, now: State, t: Tid, m: Cleaner, r: RunId)
      returns (steps: seq<Step>, next: State, m': Cleaner)
    requires Cleaning(c, s, before, now, t, m) && r in m.todo
    ensures m'.todo == m.todo - {r} && Cleaning(c, s, steps, next, t, m')
  {
    var gone := Unheld(s, s.dirs - m.todo);
    UnheldTakesOne(s, m.todo, r);
    if RunLockFree(s, r) {
      steps, next := TakesUnheld(c, s, before, now, t, m, gone, r);
      m' := Cleaner(m.todo - {r}, m.active, Visiting);
    } else {
      TriesHeld(s, now, t, m, gone, r);
      steps, next := Goes(c, s, before, now, CleanBy(t, TryUnused(r)));
      m' := Cleaner(m.todo - {r}, true, Visiting);
      assert gone + {} == gone;
    }
  }

  lemma {:induction false} VisitsAll(c: Config, s: State, before: seq<Step>, now: State, t: Tid, m: Cleaner)
      returns (steps: seq<Step>, next: State, m': Cleaner)
    requires Cleaning(c, s, before, now, t, m)
    ensures m'.todo == {} && Cleaning(c, s, steps, next, t, m')
    decreases |m.todo|
  {
    steps, next, m' := before, now, m;
    if m.todo != {} {
      var r :| r in m.todo;
      steps, next, m' := Visits(c, s, before, now, t, m, r);
      steps, next, m' := VisitsAll(c, s, steps, next, t, m');
    }
  }

  lemma CleanStarts(c: Config, s: State, t: Tid) returns (steps: seq<Step>, next: State)
    requires LifecycleFree(s)
    ensures Cleaning(c, s, steps, next, t, Cleaner(s.dirs, false, Visiting))
  {
    assert s.dirs - s.dirs == {} && Unheld(s, {}) == {} && s.dirs - {} == s.dirs;
    steps, next := Goes(c, s, [], s, CleanBy(t, StartClean));
  }

  /** No run is in use or on record. */
  ghost predicate NoneActive(s: State) {
    s.rows == {} && forall r :: r in s.dirs ==> RunLockFree(s, r)
  }

  /** What a clean leaves: nothing, if no run is active; otherwise what active runs need. */
  ghost predicate Cleaned(s: State, next: State) {
    && next.cleaners == map[] && OnlyCleaners(s, next)
    && if NoneActive(s) then next.dirs == {} && next.lockFiles == map[] && next.retained == map[] && next.rows == {}
       else
         && (forall r :: r in next.dirs <==> r in s.dirs && !RunLockFree(s, r))
         && next.rows == s.rows && next.retained == s.retained
         && (forall r :: r in s.dirs && RunLockFree(s, r) ==> r !in next.lockFiles)
         && forall r :: r in s.lockFiles && !(r in s.dirs && RunLockFree(s, r)) ==>
              r in next.lockFiles && next.lockFiles[r] == s.lockFiles[r]
  }

  ghost predicate Wiped(s: State, now: State, t: Tid, m: Cleaner) {
    && now.cleaners == map[t := m] && OnlyCleaners(s, now) && m.phase.Wiping?
    && now.dirs == {} && now.lockFiles == map[] && now.retained == map[] && now.rows == {}
  }

  /** Everything but these is as it was, and they are empty. */
  lemma WipesAll(now: State, t: Tid)
    requires t in now.cleaners && now.cleaners[t].phase.Wiping?
    ensures CleanEnabled(now, t, WipeLive)
    ensures
      var a := ApplyClean(now, t, WipeLive);
      CleanEnabled(a, t, WipeRetained) &&
      var b := ApplyClean(a, t, WipeRetained);
      CleanEnabled(b, t, WipeCatalog) &&
      ApplyClean(b, t, WipeCatalog) == now.(dirs := {}, lockFiles := map[], retained := map[], rows := {})
  {
  }

  lemma Counts(s: State, now: State, t: Tid, m: Cleaner)
    requires CleanAt(s, now, t, m, Unheld(s, s.dirs)) && m.todo == {} && m.phase.Visiting? && !m.active && s.rows == {}
    ensures CleanEnabled(now, t, CountActive)
    ensures ApplyClean(now, t, CountActive).cleaners == map[t := m.(phase := Wiping)]
    ensures OnlyCleaners(s, ApplyClean(now, t, CountActive))
  {
  }

  lemma Wipes(c: Config, s: State, before: seq<Step>, now: State, t: Tid, m: Cleaner)
      returns (steps: seq<Step>, next: State)
    requires Leads(c, s, before, now) && CleanAt(s, now, t, m, Unheld(s, s.dirs))
    requires m.todo == {} && m.phase.Visiting? && !m.active && s.rows == {}
    ensures Leads(c, s, steps, next) && Wiped(s, next, t, m.(phase := Wiping))
  {
    Counts(s, now, t, m);
    steps, next := Goes(c, s, before, now, CleanBy(t, CountActive));
    WipesAll(next, t);
    steps, next := Goes(c, s, steps, next, CleanBy(t, WipeLive));
    steps, next := Goes(c, s, steps, next, CleanBy(t, WipeRetained));
    steps, next := Goes(c, s, steps, next, CleanBy(t, WipeCatalog));
  }

  lemma LeavesActive(s: State, now: State, t: Tid, m: Cleaner)
    requires s.cleaners == map[] && CleanAt(s, now, t, m, Unheld(s, s.dirs)) && !NoneActive(s)
    ensures Cleaned(s, ApplyClean(now, t, EndClean))
  {
  }

  /** A clean that gets the lifecycle lock takes every directory whose run.lock nobody has;
      and the retained files and the catalog too if and only if no run is active. */
  lemma CleanCleans(c: Config, s: State, t: Tid) returns (steps: seq<Step>, next: State)
    requires LifecycleFree(s)
    ensures Leads(c, s, steps, next) && Cleaned(s, next)
  {
    var m;
    steps, next := CleanStarts(c, s, t);
    steps, next, m := VisitsAll(c, s, steps, next, t, Cleaner(s.dirs, false, Visiting));
    assert s.dirs - {} == s.dirs;
    if NoneActive(s) {
      steps, next := Wipes(c, s, steps, next, t, m);
    } else {
      LeavesActive(s, next, t, m);
    }
    steps, next := Goes(c, s, steps, next, CleanBy(t, EndClean));
  }

  /******* Reclaim *******/

  /** The runs among these that are over: the directory is gone, or nobody has its run.lock. */
  ghost function Over(s: State, among: set<RunId>): set<RunId> {
    set r | r in among && (r !in s.dirs || RunLockFree(s, r))
  }

  /** The state but for one reclaimer, and what is left of directories, rows and lock files. */
  ghost predicate ReclaimAt(s: State, now: State, t: Tid, m: Reclaimer, dirs: set<RunId>, rows: set<RunId>,
                            lockFiles: map<RunId, int>)
  {
    && now == s.(reclaimers := now.reclaimers, dirs := dirs, rows := rows, lockFiles := lockFiles)
    && now.reclaimers == s.reclaimers[t := m]
  }

  lemma FindsMissing(s: State, now: State, t: Tid, m: Reclaimer, dirs: set<RunId>, rows: set<RunId>,
                     lockFiles: map<RunId, int>, r: RunId)
    requires ReclaimAt(s, now, t, m, dirs, rows, lockFiles) && m.phase.Between? && r in m.todo && r !in dirs
    ensures ReclaimEnabled(now, t, LookForDir(r))
    ensures
      var found := ApplyReclaim(now, t, LookForDir(r));
      && ReclaimEnabled(found, t, DeleteMissing)
      && ReclaimAt(s, ApplyReclaim(found, t, DeleteMissing), t, Reclaimer(m.todo - {r}, Between), dirs, rows - {r},
                   lockFiles)
  {
    var found := ApplyReclaim(now, t, LookForDir(r));
    SetTwice(s.reclaimers, t, m, found.reclaimers[t]);
    SetTwice(s.reclaimers, t, found.reclaimers[t], Reclaimer(m.todo - {r}, Between));
  }

  lemma FindsHeld(s: State, now: State, t: Tid, m: Reclaimer, dirs: set<RunId>, rows: set<RunId>,
                  lockFiles: map<RunId, int>, r: RunId)
    requires ReclaimAt(s, now, t, m, dirs, rows, lockFiles) && m.phase.Between? && r in m.todo && r in dirs
    ensures ReclaimEnabled(now, t, LookForDir(r))
    ensures
      var found := ApplyReclaim(now, t, LookForDir(r));
      && ReclaimEnabled(found, t, SkipRun)
      && ReclaimAt(s, ApplyReclaim(found, t, SkipRun), t, Reclaimer(m.todo - {r}, Between), dirs, rows, lockFiles)
  {
    var found := ApplyReclaim(now, t, LookForDir(r));
    SetTwice(s.reclaimers, t, m, found.reclaimers[t]);
    SetTwice(s.reclaimers, t, found.reclaimers[t], Reclaimer(m.todo - {r}, Between));
  }

  lemma FindsFree(s: State, now: State, t: Tid, m: Reclaimer, dirs: set<RunId>, rows: set<RunId>,
                  lockFiles: map<RunId, int>, r: RunId)
    requires ReclaimAt(s, now, t, m, dirs, rows, lockFiles) && m.phase.Between? && r in m.todo && r in dirs
    requires t !in s.reclaimers && RunLockFree(s, r)
    ensures ReclaimEnabled(now, t, LookForDir(r))
    ensures
      var found := ApplyReclaim(now, t, LookForDir(r));
      && ReclaimEnabled(found, t, TryRunLock)
      && ReclaimAt(s, ApplyReclaim(found, t, TryRunLock), t, Reclaimer(m.todo - {r}, RunLocked(r)), dirs, rows,
                   Touched(lockFiles, r, s.now))
  {
    var found := ApplyReclaim(now, t, LookForDir(r));
    SetTwice(s.reclaimers, t, m, found.reclaimers[t]);
    SetTwice(s.reclaimers, t, found.reclaimers[t], Reclaimer(m.todo - {r}, RunLocked(r)));
  }

  lemma TakesRow(s: State, now: State, t: Tid, m: Reclaimer, dirs: set<RunId>, rows: set<RunId>,
                 lockFiles: map<RunId, int>, r: RunId)
    requires ReclaimAt(s, now, t, m, dirs, rows, lockFiles) && m.phase == RunLocked(r)
    ensures ReclaimEnabled(now, t, DeleteFound)
    ensures
      var deleted := ApplyReclaim(now, t, DeleteFound);
      && ReclaimEnabled(deleted, t, UnlockFound)
      && ReclaimAt(s, ApplyReclaim(deleted, t, UnlockFound), t, Reclaimer(m.todo, RunUnlocked(r)), dirs, rows - {r},
                   lockFiles)
  {
    var deleted := ApplyReclaim(now, t, DeleteFound);
    SetTwice(s.reclaimers, t, m, deleted.reclaimers[t]);
    SetTwice(s.reclaimers, t, deleted.reclaimers[t], Reclaimer(m.todo, RunUnlocked(r)));
  }

  lemma TakesDir(s: State, now: State, t: Tid, m: Reclaimer, dirs: set<RunId>, rows: set<RunId>,
                 lockFiles: map<RunId, int>, r: RunId)
    requires ReclaimAt(s, now, t, m, dirs, rows, lockFiles) && m.phase == RunUnlocked(r)
    ensures ReclaimEnabled(now, t, RemoveFound)
    ensures ReclaimAt(s, ApplyReclaim(now, t, RemoveFound), t, Reclaimer(m.todo, Between), dirs - {r}, rows,
                      lockFiles - {r})
  {
    SetTwice(s.reclaimers, t, m, Reclaimer(m.todo, Between));
  }

  lemma TakesLocked(c: Config, s: State, before: seq<Step>, now: State, t: Tid, m: Reclaimer, dirs: set<RunId>,
                    rows: set<RunId>, lockFiles: map<RunId, int>, r: RunId)
      returns (steps: seq<Step>, next: State)
    requires Leads(c, s, before, now) && ReclaimAt(s, now, t, m, dirs, rows, lockFiles) && m.phase == RunLocked(r)
    ensures Leads(c, s, steps, next)
    ensures ReclaimAt(s, next, t, Reclaimer(m.todo, Between), dirs - {r}, rows - {r}, lockFiles - {r})
  {
    TakesRow(s, now, t, m, dirs, rows, lockFiles, r);
    steps, next := GoesTwice(c, s, before, now, ReclaimBy(t, DeleteFound), ReclaimBy(t, UnlockFound));
    TakesDir(s, next, t, Reclaimer(m.todo, RunUnlocked(r)), dirs, rows - {r}, lockFiles, r);
    steps, next := Goes(c, s, steps, next, ReclaimBy(t, RemoveFound));
  }

  lemma TakesFree(c: Config, s: State, before: seq<Step>, now: State, t: Tid, m: Reclaimer, dirs: set<RunId>,
                  rows: set<RunId>, lockFiles: map<RunId, int>, r: RunId)
      returns (steps: seq<Step>, next: State)
    requires Leads(c, s, before, now) && ReclaimAt(s, now, t, m, dirs, rows, lockFiles) && m.phase.Between?
    requires t !in s.reclaimers && r in m.todo && r in dirs && RunLockFree(s, r)
    ensures Leads(c, s, steps, next)
    ensures ReclaimAt(s, next, t, Reclaimer(m.todo - {r}, Between), dirs - {r}, rows - {r}, lockFiles - {r})
  {
    var locks := Touched(lockFiles, r, s.now);
    FindsFree(s, now, t, m, dirs, rows, lockFiles, r);
    steps, next := GoesTwice(c, s, before, now, ReclaimBy(t, LookForDir(r)), ReclaimBy(t, TryRunLock));
    steps, next := TakesLocked(c, s, steps, next, t, Reclaimer(m.todo - {r}, RunLocked(r)), dirs, rows, locks, r);
    assert locks - {r} == lockFiles - {r};
  }

  /** Where a reclaim stands that has these runs still to come to, and has taken those. */
  ghost predicate Reclaiming(c: Config, s: State, steps: seq<Step>, now: State, t: Tid, todo: set<RunId>,
                             gone: set<RunId>)
  {
    && Leads(c, s, steps, now) && t !in s.reclaimers && todo !! gone
    && ReclaimAt(s, now, t, Reclaimer(todo, Between), s.dirs - gone, s.rows - gone, s.lockFiles - gone * s.dirs)
  }

  lemma GoneOneMore(s: State, gone: set<RunId>, r: RunId)
    ensures s.dirs - gone - {r} == s.dirs - (gone + {r}) && s.rows - gone - {r} == s.rows - (gone + {r})
    ensures r in s.dirs ==> s.lockFiles - gone * s.dirs - {r} == s.lockFiles - (gone + {r}) * s.dirs
    ensures r !in s.dirs ==> s.lockFiles - gone * s.dirs == s.lockFiles - (gone + {r}) * s.dirs
  {
  }

  lemma ReclaimsOne(c: Config, s: State, before: seq<Step>, now: State, t: Tid, todo: set<RunId>, gone: set<RunId>,
                    r: RunId)
      returns (steps: seq<Step>, next: State)
    requires Reclaiming(c, s, before, now, t, todo, gone) && r in todo
    ensures Reclaiming(c, s, steps, next, t, todo - {r}, gone + Over(s, {r}))
  {
    var m := Reclaimer(todo, Between);
    var dirs, rows, lockFiles := s.dirs - gone, s.rows - gone, s.lockFiles - gone * s.dirs;
    GoneOneMore(s, gone, r);
    if r !in s.dirs {
      assert Over(s, {r}) == {r};
      assert dirs - {r} == dirs;
      FindsMissing(s, now, t, m, dirs, rows, lockFiles, r);
      steps, next := GoesTwice(c, s, before, now, ReclaimBy(t, LookForDir(r)), ReclaimBy(t, DeleteMissing));
    } else if RunLockFree(s, r) {
      assert Over(s, {r}) == {r};
      steps, next := TakesFree(c, s, before, now, t, m, dirs, rows, lockFiles, r);
    } else {
      assert Over(s, {r}) == {} && gone + {} == gone;
      FindsHeld(s, now, t, m, dirs, rows, lockFiles, r);
      steps, next := GoesTwice(c, s, before, now, ReclaimBy(t, LookForDir(r)), ReclaimBy(t, SkipRun));
    }
  }

  lemma {:induction false} ReclaimsAll(c: Config, s: State, before: seq<Step>, now: State, t: Tid, todo: set<RunId>,
                                       gone: set<RunId>, all: set<RunId>)
      returns (steps: seq<Step>, next: State)
    requires Reclaiming(c, s, before, now, t, todo, gone) && all == gone + Over(s, todo)
    ensures Reclaiming(c, s, steps, next, t, {}, all)
    decreases |todo|
  {
    if todo == {} {
      steps, next := before, now;
      assert all == gone;
    } else {
      var r :| r in todo;
      steps, next := ReclaimsOne(c, s, before, now, t, todo, gone, r);
      OverTakesOne(s, todo, r);
      assert gone + Over(s, {r}) + Over(s, todo - {r}) == gone + Over(s, todo);
      steps, next := ReclaimsAll(c, s, steps, next, t, todo - {r}, gone + Over(s, {r}), all);
    }
  }

  lemma OverTakesOne(s: State, todo: set<RunId>, r: RunId)
    requires r in todo
    ensures Over(s, todo) == Over(s, {r}) + Over(s, todo - {r})
  {
  }

  /** A reclaim takes the row, the directory and the lock file of every run that is over,
      and nothing of any other. */
  lemma ReclaimReclaims(c: Config, s: State, t: Tid, except: set<RunId>) returns (steps: seq<Step>, next: State)
    requires t !in s.reclaimers
    ensures Leads(c, s, steps, next)
    ensures
      var gone := Over(s, s.rows - except);
      next == s.(dirs := s.dirs - gone, rows := s.rows - gone, lockFiles := s.lockFiles - gone * s.dirs)
  {
    var todo := s.rows - except;
    assert s.dirs - {} == s.dirs && s.rows - {} == s.rows && s.lockFiles - {} * s.dirs == s.lockFiles;
    steps, next := Goes(c, s, [], s, ReclaimBy(t, ListRuns(except)));
    steps, next := ReclaimsAll(c, s, steps, next, t, todo, {}, Over(s, todo));
    SetTwice(s.reclaimers, t, Reclaimer({}, Between), Reclaimer({}, Between));
    steps, next := Goes(c, s, steps, next, ReclaimBy(t, CrashReclaim));
  }

  /******* Sweep *******/

  /** The directories with a run.lock that nobody has and that is older than the slack. */
  ghost function Abandoned(c: Config, s: State): set<RunId> {
    set r | r in s.dirs && r in s.lockFiles && s.lockFiles[r] < s.now - c.slack && RunLockFree(s, r)
  }

  ghost predicate SweepAt(c: Config, s: State, now: State, t: Tid, phase: SweepPhase, gone: set<RunId>) {
    && now == s.(sweepers := now.sweepers, dirs := s.dirs - gone, lockFiles := s.lockFiles - gone)
    && now.sweepers == s.sweepers[t := Sweeper(s.now - c.slack, phase)]
  }

  lemma JudgesOne(c: Config, s: State, now: State, t: Tid, gone: set<RunId>, r: RunId)
    requires t !in s.sweepers && SweepAt(c, s, now, t, Looking, gone) && r in Abandoned(c, s) && r !in gone
    ensures SweepEnabled(now, t, TrySweepLock(r))
    ensures
      var tried := ApplySweep(c, now, t, TrySweepLock(r));
      SweepEnabled(tried, t, Judge) && SweepAt(c, s, ApplySweep(c, tried, t, Judge), t, Expired(r), gone)
  {
    var tried := ApplySweep(c, now, t, TrySweepLock(r));
    SetTwice(s.sweepers, t, Sweeper(s.now - c.slack, Looking), Sweeper(s.now - c.slack, Judging(r)));
    SetTwice(s.sweepers, t, Sweeper(s.now - c.slack, Judging(r)), Sweeper(s.now - c.slack, Expired(r)));
  }

  lemma SweepsOne(c: Config, s: State, now: State, t: Tid, gone: set<RunId>, r: RunId)
    requires SweepAt(c, s, now, t, Expired(r), gone)
    ensures SweepEnabled(now, t, RemoveExpired)
    ensures SweepAt(c, s, ApplySweep(c, now, t, RemoveExpired), t, Looking, gone + {r})
  {
    SetTwice(s.sweepers, t, Sweeper(s.now - c.slack, Expired(r)), Sweeper(s.now - c.slack, Looking));
    assert s.dirs - gone - {r} == s.dirs - (gone + {r}) && s.lockFiles - gone - {r} == s.lockFiles - (gone + {r});
  }

  ghost predicate Sweeping(c: Config, s: State, steps: seq<Step>, now: State, t: Tid, todo: set<RunId>,
                           gone: set<RunId>)
  {
    && Leads(c, s, steps, now) && t !in s.sweepers && SweepAt(c, s, now, t, Looking, gone)
    && todo <= Abandoned(c, s) && todo !! gone
  }

  lemma SweepsNext(c: Config, s: State, before: seq<Step>, now: State, t: Tid, todo: set<RunId>, gone: set<RunId>,
                   r: RunId)
      returns (steps: seq<Step>, next: State)
    requires Sweeping(c, s, before, now, t, todo, gone) && r in todo
    ensures Sweeping(c, s, steps, next, t, todo - {r}, gone + {r})
  {
    JudgesOne(c, s, now, t, gone, r);
    steps, next := GoesTwice(c, s, before, now, SweepBy(t, TrySweepLock(r)), SweepBy(t, Judge));
    SweepsOne(c, s, next, t, gone, r);
    steps, next := Goes(c, s, steps, next, SweepBy(t, RemoveExpired));
  }

  lemma {:induction false} SweepsAll(c: Config, s: State, before: seq<Step>, now: State, t: Tid, todo: set<RunId>,
                                     gone: set<RunId>, all: set<RunId>)
      returns (steps: seq<Step>, next: State)
    requires Sweeping(c, s, before, now, t, todo, gone) && all == gone + todo
    ensures Sweeping(c, s, steps, next, t, {}, all)
    decreases |todo|
  {
    if todo == {} {
      steps, next := before, now;
      assert all == gone;
    } else {
      var r :| r in todo;
      steps, next := SweepsNext(c, s, before, now, t, todo, gone, r);
      assert gone + {r} + (todo - {r}) == gone + todo;
      steps, next := SweepsAll(c, s, steps, next, t, todo - {r}, gone + {r}, all);
    }
  }

  /** A sweep takes exactly those directories, with what is in them. */
  lemma SweepSweeps(c: Config, s: State, t: Tid) returns (steps: seq<Step>, next: State)
    requires t !in s.sweepers
    ensures Leads(c, s, steps, next)
    ensures next == s.(dirs := s.dirs - Abandoned(c, s), lockFiles := s.lockFiles - Abandoned(c, s))
  {
    var all := Abandoned(c, s);
    assert s.dirs - {} == s.dirs && s.lockFiles - {} == s.lockFiles;
    steps, next := Goes(c, s, [], s, SweepBy(t, StartSweep));
    steps, next := SweepsAll(c, s, steps, next, t, all, {}, all);
    SetTwice(s.sweepers, t, Sweeper(s.now - c.slack, Looking), Sweeper(s.now - c.slack, Looking));
    steps, next := Goes(c, s, steps, next, SweepBy(t, CrashSweep));
  }

  /******* Retained expiry, and collection *******/

  ghost predicate ExpireAt(s: State, now: State, t: Tid, m: Expirer, gone: set<Bytes>) {
    && now == s.(expirers := now.expirers, retained := s.retained - gone)
    && now.expirers == s.expirers[t := m]
  }

  /** The retained files older than a cutoff. */
  function Old(s: State, cutoff: int): set<Bytes> {
    set o | o in s.retained && s.retained[o] < cutoff
  }

  ghost predicate Expiring(c: Config, s: State, steps: seq<Step>, now: State, t: Tid, cutoff: int, todo: set<Bytes>,
                           gone: set<Bytes>)
  {
    && Leads(c, s, steps, now) && ExpireAt(s, now, t, Removing(cutoff), gone) && todo <= Old(s, cutoff) && todo !! gone
  }

  lemma ExpiresNext(c: Config, s: State, before: seq<Step>, now: State, t: Tid, cutoff: int, todo: set<Bytes>,
                    gone: set<Bytes>, o: Bytes)
      returns (steps: seq<Step>, next: State)
    requires Expiring(c, s, before, now, t, cutoff, todo, gone) && o in todo
    ensures Expiring(c, s, steps, next, t, cutoff, todo - {o}, gone + {o})
  {
    assert s.retained - gone - {o} == s.retained - (gone + {o});
    steps, next := Goes(c, s, before, now, ExpireBy(t, RemoveRetained(o)));
  }

  lemma {:induction false} ExpiresAll(c: Config, s: State, before: seq<Step>, now: State, t: Tid, cutoff: int,
                                      todo: set<Bytes>, gone: set<Bytes>, all: set<Bytes>)
      returns (steps: seq<Step>, next: State)
    requires Expiring(c, s, before, now, t, cutoff, todo, gone) && all == gone + todo
    ensures Expiring(c, s, steps, next, t, cutoff, {}, all)
    decreases |todo|
  {
    if todo == {} {
      steps, next := before, now;
      assert all == gone;
    } else {
      var o :| o in todo;
      steps, next := ExpiresNext(c, s, before, now, t, cutoff, todo, gone, o);
      assert gone + {o} + (todo - {o}) == gone + todo;
      steps, next := ExpiresAll(c, s, steps, next, t, cutoff, todo - {o}, gone + {o}, all);
    }
  }

  lemma ExpiryCounts(c: Config, s: State, t: Tid, cutoff: int) returns (steps: seq<Step>, next: State)
    requires t !in s.expirers && LifecycleFree(s)
    ensures Leads(c, s, steps, next)
    ensures ExpireAt(s, next, t, if s.rows == {} then Removing(cutoff) else Walked(cutoff), {})
  {
    assert s.retained - {} == s.retained;
    steps, next := Goes(c, s, [], s, ExpireBy(t, StartExpiry(cutoff)));
    SetTwice(s.expirers, t, Walked(cutoff), Counting(cutoff));
    steps, next := Goes(c, s, steps, next, ExpireBy(t, TakeLifecycle));
    SetTwice(s.expirers, t, Counting(cutoff), if s.rows == {} then Removing(cutoff) else Walked(cutoff));
    steps, next := Goes(c, s, steps, next, ExpireBy(t, CountRuns));
  }

  /** An expiry takes exactly the retained files older than its cutoff, if no run is on
      record, and none otherwise. */
  lemma ExpiryExpires(c: Config, s: State, t: Tid, cutoff: int) returns (steps: seq<Step>, next: State)
    requires t !in s.expirers && LifecycleFree(s)
    ensures Leads(c, s, steps, next)
    ensures next == s.(retained := if s.rows == {} then s.retained - Old(s, cutoff) else s.retained)
  {
    steps, next := ExpiryCounts(c, s, t, cutoff);
    var m := if s.rows == {} then Removing(cutoff) else Walked(cutoff);
    assert s.retained - {} == s.retained;
    if s.rows == {} {
      steps, next := ExpiresAll(c, s, steps, next, t, cutoff, Old(s, cutoff), {}, Old(s, cutoff));
    }
    SetTwice(s.expirers, t, m, m);
    steps, next := Goes(c, s, steps, next, ExpireBy(t, EndExpiry));
  }

  /** However the rest goes on, an expiry takes a file only past its count, and only if the
      file is older than its cutoff; */
  lemma ExpiryTakesOnlyOld(s: State, t: Tid, step: ExpireStep, o: Bytes)
    requires ExpireEnabled(s, t, step) && o in s.retained && o !in ApplyExpire(s, t, step).retained
    ensures t in s.expirers && s.expirers[t].Removing? && s.retained[o] < s.expirers[t].cutoff
  {
  }

  /** and a clean only once it wipes. */
  lemma CleanTakesOnlyWiping(s: State, t: Tid, step: CleanStep, o: Bytes)
    requires CleanEnabled(s, t, step) && o in s.retained && o !in ApplyClean(s, t, step).retained
    ensures t in s.cleaners && s.cleaners[t].phase.Wiping?
  {
  }

  /** Collecting a retained file, in its output's stripe, takes that file. */
  lemma CollectionUnlinks(c: Config, s: State, t: Tid, o: Bytes) returns (steps: seq<Step>, next: State)
    requires t !in s.collectors && StripeFree(s, StripeName(o))
    ensures Leads(c, s, steps, next) && next == s.(retained := s.retained - {o})
  {
    steps, next := Goes(c, s, [], s, CollectBy(t, TakeShard(StripeName(o))));
    steps, next := Goes(c, s, steps, next, CollectBy(t, UnlinkRetained(o)));
    SetTwice(s.collectors, t, Collector(StripeName(o)), Collector(StripeName(o)));
    steps, next := Goes(c, s, steps, next, CollectBy(t, LeaveShard));
  }

  /******* A store's own life *******/

  /** Where a run stands, everything else being as it was. */
  ghost predicate OwnerAt(s: State, now: State, r: RunId, owner: Owner, dir: bool, lockFile: bool, row: bool) {
    && now == s.(owners := now.owners, dirs := now.dirs, lockFiles := now.lockFiles, rows := now.rows)
    && now.owners == s.owners[r := owner]
    && now.dirs == (if dir then s.dirs + {r} else s.dirs)
    && now.lockFiles == (if lockFile then s.lockFiles[r := s.now] else s.lockFiles)
    && now.rows == (if row then s.rows + {r} else s.rows)
  }

  /** A run id that is new, with nothing of its name about. */
  ghost predicate IsNew(s: State, r: RunId) {
    r !in s.owners && r !in s.dirs && r !in s.lockFiles && r !in s.rows && RunLockFree(s, r)
  }

  function OpeningStep(phase: OwnerPhase): OwnerStep {
    match phase
    case Opening => MakeDir
    case DirMade => CreateLock
    case LockCreated => TakeRunLock
    case LockHeld => Register
    case _ => FinishOpen
  }

  function OpeningNext(phase: OwnerPhase): OwnerPhase {
    match phase
    case Opening => DirMade
    case DirMade => LockCreated
    case LockCreated => LockHeld
    case LockHeld => Registered
    case _ => Running
  }

  function OpeningLeft(phase: OwnerPhase): nat {
    match phase
    case Opening => 5
    case DirMade => 4
    case LockCreated => 3
    case LockHeld => 2
    case Registered => 1
    case _ => 0
  }

  /** A run that has got so far with opening. */
  ghost predicate OpenAt(s: State, now: State, r: RunId, phase: OwnerPhase) {
    OwnerAt(s, now, r, Owner(phase, false), !phase.Opening?, !phase.Opening? && !phase.DirMade?,
            phase.Registered? || phase.Running?)
  }

  lemma OpensOn(c: Config, s: State, now: State, r: RunId, phase: OwnerPhase)
    requires IsNew(s, r) && OpenAt(s, now, r, phase) && IsOpening(phase)
    ensures OwnerEnabled(now, r, OpeningStep(phase))
    ensures OpenAt(s, ApplyOwner(c, now, r, OpeningStep(phase)), r, OpeningNext(phase))
  {
    SetTwice(s.owners, r, Owner(phase, false), Owner(OpeningNext(phase), false));
  }

  lemma {:induction false} OpensFrom(c: Config, s: State, before: seq<Step>, now: State, r: RunId, phase: OwnerPhase)
      returns (steps: seq<Step>, next: State)
    requires Leads(c, s, before, now) && IsNew(s, r) && OpenAt(s, now, r, phase)
    requires IsOpening(phase) || phase.Running?
    ensures Leads(c, s, steps, next) && OpenAt(s, next, r, Running)
    decreases OpeningLeft(phase)
  {
    steps, next := before, now;
    if !phase.Running? {
      OpensOn(c, s, now, r, phase);
      steps, next := Goes(c, s, before, now, OwnerBy(r, OpeningStep(phase)));
      steps, next := OpensFrom(c, s, steps, next, r, OpeningNext(phase));
    }
  }

  /** An opening that gets the lifecycle lock ends with the run running: its directory, its
      lock file and its row are there, and nothing else has changed. */
  lemma OpenSucceeds(c: Config, s: State, r: RunId) returns (steps: seq<Step>, next: State)
    requires LifecycleFree(s) && IsNew(s, r)
    ensures Leads(c, s, steps, next)
    ensures next == s.(owners := s.owners[r := Owner(Running, false)], dirs := s.dirs + {r},
                       lockFiles := s.lockFiles[r := s.now], rows := s.rows + {r})
  {
    steps, next := Goes(c, s, [], s, OwnerBy(r, Open));
    steps, next := OpensFrom(c, s, steps, next, r, OwnerPhase.Opening);
  }

  /** Wherever an opening fails before it has registered, nothing is left of it. */
  lemma FailedOpenLeavesNothing(c: Config, s: State, now: State, r: RunId, phase: OwnerPhase)
    requires IsNew(s, r) && OpenAt(s, now, r, phase) && IsOpening(phase) && !phase.Registered?
    ensures OwnerEnabled(now, r, FailOpen)
    ensures ApplyOwner(c, now, r, FailOpen) == s.(owners := s.owners[r := Owner(Ended, false)])
  {
    SetTwice(s.owners, r, Owner(phase, false), Owner(Ended, false));
  }

  lemma PlacesFile(c: Config, s: State, r: RunId, o: Bytes, written: int) returns (steps: seq<Step>, next: State)
    requires r in s.owners && s.owners[r].phase.Closing? && StripeFree(s, StripeName(o)) && written <= s.now
    ensures Leads(c, s, steps, next)
    ensures next == s.(owners := s.owners[r := Owner(Placed(o), s.owners[r].kept)],
                       retained := s.retained[o := PlacedAt(c, s, o, written)])
  {
    var kept := s.owners[r].kept;
    steps, next := Goes(c, s, [], s, OwnerBy(r, TakeStripe(o)));
    SetTwice(s.owners, r, Owner(OwnerPhase.Adopting(o), kept), Owner(Placed(o), kept));
    steps, next := Goes(c, s, steps, next, OwnerBy(r, Place(written)));
  }

  /** Adopting a file: it takes its place with the time it was written, unless one is there,
      which is marked used now if it was last so at least an interval ago. */
  lemma AdoptionRetains(c: Config, s: State, r: RunId, o: Bytes, written: int)
      returns (steps: seq<Step>, next: State, at: int)
    requires r in s.owners && s.owners[r].phase.Closing? && StripeFree(s, StripeName(o)) && written <= s.now
    ensures Leads(c, s, steps, next)
    ensures next == s.(owners := s.owners[r := Owner(Closing, true)], retained := s.retained[o := at])
    ensures o !in s.retained ==> at == written
    ensures o in s.retained && s.now - s.retained[o] < c.mtimeInterval ==> at == s.retained[o]
    ensures o in s.retained && s.now - s.retained[o] >= c.mtimeInterval ==> at == s.now
  {
    at := PlacedAt(c, s, o, written);
    steps, next := PlacesFile(c, s, r, o, written);
    SetTwice(s.owners, r, Owner(Placed(o), s.owners[r].kept), Owner(Linked(o), true));
    steps, next := Goes(c, s, steps, next, OwnerBy(r, Link));
    SetTwice(s.owners, r, Owner(Linked(o), true), Owner(Closing, true));
    steps, next := Goes(c, s, steps, next, OwnerBy(r, LeaveStripe));
  }

  /** An adoption that fails, before the file is placed or after, keeps the directory all the
      same: what it was to retain may be nowhere else. */
  lemma FailedAdoptionKeeps(c: Config, s: State, r: RunId, o: Bytes, written: int, placed: bool)
      returns (steps: seq<Step>, next: State)
    requires r in s.owners && s.owners[r].phase.Closing? && StripeFree(s, StripeName(o)) && written <= s.now
    ensures Leads(c, s, steps, next)
    ensures next.owners == s.owners[r := Owner(Closing, true)] && next.dirs == s.dirs && next.lockFiles == s.lockFiles
    ensures if placed then o in next.retained && next.retained - {o} == s.retained - {o}
            else next.retained == s.retained
  {
    if placed {
      steps, next := PlacesFile(c, s, r, o, written);
    } else {
      steps, next := Goes(c, s, [], s, OwnerBy(r, TakeStripe(o)));
    }
    SetTwice(s.owners, r, next.owners[r], Owner(Closing, true));
    steps, next := Goes(c, s, steps, next, OwnerBy(r, FailAdoption));
  }

  /** Closing, once there is nothing more to adopt: with something kept the directory stays,
      its run.lock stamped now; with nothing kept it goes, and so does its run.lock. */
  lemma CloseEnds(c: Config, s: State, r: RunId) returns (steps: seq<Step>, next: State)
    requires r in s.owners && s.owners[r].phase.Closing?
    ensures Leads(c, s, steps, next)
    ensures s.owners[r].kept ==> next == s.(
      owners := s.owners[r := Owner(Ended, true)], rows := s.rows - {r}, lockFiles := s.lockFiles[r := s.now])
    ensures !s.owners[r].kept ==> next == s.(
      owners := s.owners[r := Owner(Ended, false)], rows := s.rows - {r}, dirs := s.dirs - {r},
      lockFiles := s.lockFiles - {r})
  {
    var kept := s.owners[r].kept;
    steps, next := Goes(c, s, [], s, OwnerBy(r, DeleteRow(true)));
    SetTwice(s.owners, r, Owner(Unregistered, kept), Owner(Stamped, kept));
    steps, next := Goes(c, s, steps, next, OwnerBy(r, Stamp));
    SetTwice(s.owners, r, Owner(Stamped, kept), Owner(Released, kept));
    steps, next := Goes(c, s, steps, next, OwnerBy(r, ReleaseRun));
    SetTwice(s.owners, r, Owner(Released, kept), Owner(Ended, kept));
    steps, next := Goes(c, s, steps, next, OwnerBy(r, RemoveOwnDir));
  }

  lemma {:induction false} LeadsOn(c: Config, from: State, steps: seq<Step>, mid: State, more: seq<Step>, to: State)
    requires Leads(c, from, steps, mid) && Leads(c, mid, more, to)
    ensures Leads(c, from, steps + more, to)
    decreases |more|
  {
    if more == [] {
      assert steps + more == steps;
    } else {
      var last := |more| - 1;
      var before: State :| Leads(c, mid, more[..last], before) && Enabled(before, more[last]) &&
                           to == Apply(c, before, more[last]);
      LeadsOn(c, from, steps, mid, more[..last], before);
      assert (steps + more)[..|steps + more| - 1] == steps + more[..last];
    }
  }

  /** A run that retained nothing leaves no trace. */
  lemma EmptyRunLeavesNoTrace(c: Config, s: State, r: RunId) returns (steps: seq<Step>, next: State)
    requires LifecycleFree(s) && IsNew(s, r)
    ensures Leads(c, s, steps, next) && next == s.(owners := s.owners[r := Owner(Ended, false)])
  {
    var running, closing, more;
    steps, running := OpenSucceeds(c, s, r);
    SetTwice(s.owners, r, Owner(Running, false), Owner(Closing, false));
    steps, closing := Goes(c, s, steps, running, OwnerBy(r, BeginClose));
    more, next := CloseEnds(c, closing, r);
    SetTwice(s.owners, r, Owner(Closing, false), Owner(Ended, false));
    LeadsOn(c, s, steps, closing, more, next);
    steps := steps + more;
  }

  /** Wherever a run crashes that has registered, the next reclaim takes its row, its directory
      and its run.lock, and nothing else of any run but those that are over as well. */
  lemma CrashedRunIsReclaimed(c: Config, s: State, r: RunId, t: Tid) returns (steps: seq<Step>, next: State)
    requires r in s.owners && !IsPast(s.owners[r].phase) && t !in s.reclaimers
    requires r in s.rows && HeldOnlyByOwner(s, r)
    ensures Leads(c, s, steps, next)
    ensures r !in next.rows && r !in next.dirs && (r in s.dirs ==> r !in next.lockFiles)
    ensures forall q :: q in s.dirs && !RunLockFree(s, q) && q != r ==> q in next.dirs
  {
    var dead, more;
    steps, dead := Goes(c, s, [], s, OwnerBy(r, CrashOwner));
    CrashFreesOnlyIt(c, s, r);
    more, next := ReclaimReclaims(c, dead, t, {});
    LeadsOn(c, s, steps, dead, more, next);
    steps := steps + more;
    assert r in Over(dead, dead.rows - {});
  }

  /** Nobody but its owner has the run's lock. */
  ghost predicate HeldOnlyByOwner(s: State, r: RunId) {
    && (forall t :: t in s.reclaimers ==>
          s.reclaimers[t].phase != RunLocked(r) && s.reclaimers[t].phase != RowDeleted(r))
    && (forall t :: t in s.sweepers ==> s.sweepers[t].phase != Judging(r))
    && (forall t :: t in s.cleaners ==> s.cleaners[t].phase != Trying(r))
  }

  lemma CrashFreesOnlyIt(c: Config, s: State, r: RunId)
    requires r in s.owners && !IsPast(s.owners[r].phase) && HeldOnlyByOwner(s, r)
    ensures RunLockFree(ApplyOwner(c, s, r, CrashOwner), r)
    ensures forall q :: q != r && !RunLockFree(s, q) ==> !RunLockFree(ApplyOwner(c, s, r, CrashOwner), q)
    ensures ApplyOwner(c, s, r, CrashOwner) == s.(owners := s.owners[r := s.owners[r].(phase := Dead)])
  {
  }
}
