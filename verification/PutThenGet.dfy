/** What is put is got back: from any reachable state, a put left alone and then a get left
    alone answer with the put's own bytes, unless the put took over a damaged blob. */
module PutThenGet {
  import opened Ids
  import opened Catalog
  import opened Protocol
  import opened ProtocolSafety
  import opened Runs

  /** These steps, all of them possible, lead from one state to the other. */
  ghost predicate Leads(w: World, from: State, steps: seq<Step>, to: State)
    decreases |steps|
  {
    if steps == [] then from == to
    else
      var last := |steps| - 1;
      exists mid: State ::
        Leads(w, from, steps[..last], mid) && Enabled(w, mid, steps[last]) && to == Apply(w, mid, steps[last])
  }

  lemma Extend(w: World, from: State, steps: seq<Step>, mid: State, step: Step)
    requires Leads(w, from, steps, mid) && Enabled(w, mid, step)
    ensures Leads(w, from, steps + [step], Apply(w, mid, step))
  {
    var longer := steps + [step];
    assert longer[..|longer| - 1] == steps;
  }

  lemma PutGoes(w: World, from: State, steps: seq<Step>, mid: State, t: Tid, step: PutStep)
      returns (steps': seq<Step>, next: State)
    requires Leads(w, from, steps, mid) && PutEnabled(w, mid, t, step)
    ensures next == ApplyPut(w, mid, t, step) && Leads(w, from, steps', next)
  {
    steps', next := steps + [PutBy(t, step)], ApplyPut(w, mid, t, step);
    Extend(w, from, steps, mid, PutBy(t, step));
  }

  lemma GetGoes(w: World, from: State, steps: seq<Step>, mid: State, t: Tid, step: GetStep)
      returns (steps': seq<Step>, next: State)
    requires Leads(w, from, steps, mid) && GetEnabled(w, mid, t, step)
    ensures next == ApplyGet(w, mid, t, step) && Leads(w, from, steps', next)
  {
    steps', next := steps + [GetBy(t, step)], ApplyGet(w, mid, t, step);
    Extend(w, from, steps, mid, GetBy(t, step));
  }

  /******* A put left alone *******/

  /** A put that can start, and a free stripe for it. */
  ghost predicate Ready(w: World, s: State, t: Tid, p: Put, inode: Inode) {
    && PutEnabled(w, s, t, StartPut(p)) && |p.body| == p.bodySize
    && inode !in s.inodes && StripeFree(s, StripeName(p.output))
  }

  /** Where the put stands, everything else being as it was. */
  ghost predicate At(s: State, now: State, t: Tid, p: Put, phase: PutPhase) {
    && now.puts == s.puts[t := p.(phase := phase)]
    && now.gets == s.gets && now.evictions == s.evictions && now.collections == s.collections
    && now.tables == s.tables && now.now == s.now
    && now.live == s.live[p.live := p.body] && now.materialized == s.materialized
  }

  /** Until it installs its file, the put has changed no blob. */
  ghost predicate Holding(w: World, s: State, now: State, t: Tid, p: Put, inode: Inode) {
    && t in now.pendings && now.blobs == s.blobs
    && now.inodes == s.inodes[inode := Blob(p.output, w.encode(p.body), s.now)]
  }

  lemma Starts(w: World, s: State, t: Tid, p: Put)
    requires PutEnabled(w, s, t, StartPut(p))
    ensures ApplyPut(w, s, t, StartPut(p)) == s.(puts := s.puts[t := p], pendings := s.pendings[t := s.now])
  {
  }

  lemma Writes(w: World, s: State, now: State, t: Tid, p: Put, inode: Inode)
    requires now == s.(puts := s.puts[t := p], pendings := s.pendings[t := s.now])
    requires p.phase.Writing?
    ensures At(s, ApplyFinish(w, now, t, inode), t, p, Waiting(inode))
    ensures Holding(w, s, ApplyFinish(w, now, t, inode), t, p, inode)
  {
    SetTwice(s.puts, t, p, p.(phase := Waiting(inode)));
  }

  lemma PutWrites(w: World, s: State, t: Tid, p: Put, inode: Inode) returns (steps: seq<Step>, next: State)
    requires Ready(w, s, t, p, inode)
    ensures Leads(w, s, steps, next) && At(s, next, t, p, Waiting(inode)) && Holding(w, s, next, t, p, inode)
  {
    Starts(w, s, t, p);
    steps, next := PutGoes(w, s, [], s, t, StartPut(p));
    Writes(w, s, next, t, p, inode);
    steps, next := PutGoes(w, s, steps, next, t, FinishWriting(inode));
  }

  lemma StaysFree(s: State, now: State, t: Tid, p: Put, phase: PutPhase, name: string)
    requires At(s, now, t, p, phase) && !PutHolds(p.(phase := phase), name) && StripeFree(s, name)
    ensures StripeFree(now, name)
  {
  }

  lemma Advances(w: World, s: State, now: State, t: Tid, p: Put, inode: Inode, phase: PutPhase, next: PutPhase)
    requires At(s, now, t, p, phase) && Holding(w, s, now, t, p, inode)
    ensures At(s, Advance(now, t, next), t, p, next) && Holding(w, s, Advance(now, t, next), t, p, inode)
  {
    assert now.puts[t := p.(phase := next)] == s.puts[t := p.(phase := next)];
  }

  function Decision(s: State, o: Bytes, inode: Inode): PutPhase {
    if HasBlob(s, o) then Adopting(inode, false) else Renaming(inode)
  }

  lemma Decides(w: World, s: State, now: State, t: Tid, p: Put, inode: Inode)
    requires Holding(w, s, now, t, p, inode) && inode !in s.inodes
    requires p.output in s.blobs ==> s.blobs[p.output] != inode
    ensures Decision(now, p.output, inode) == Decision(s, p.output, inode)
  {
  }

  lemma PutEnters(w: World, s: State, t: Tid, p: Put, inode: Inode) returns (steps: seq<Step>, next: State)
    requires Ready(w, s, t, p, inode) && (p.output in s.blobs ==> s.blobs[p.output] != inode)
    ensures Leads(w, s, steps, next) && Holding(w, s, next, t, p, inode)
    ensures At(s, next, t, p, Decision(s, p.output, inode))
  {
    steps, next := PutWrites(w, s, t, p, inode);
    StaysFree(s, next, t, p, Waiting(inode), StripeName(p.output));
    Advances(w, s, next, t, p, inode, Waiting(inode), Locked(inode));
    steps, next := PutGoes(w, s, steps, next, t, LockPut);
    Decides(w, s, next, t, p, inode);
    Advances(w, s, next, t, p, inode, Locked(inode), Decision(s, p.output, inode));
    steps, next := PutGoes(w, s, steps, next, t, CheckBlob);
  }

  /** The bytes the put leaves at the blob's place: those already there, or its own. */
  function Left(w: World, s: State, p: Put): Bytes {
    if HasBlob(s, p.output) then s.inodes[s.blobs[p.output]].bytes else w.encode(p.body)
  }

  ghost predicate BlobHolds(s: State, o: Bytes, bytes: Bytes) {
    HasBlob(s, o) && s.inodes[s.blobs[o]].bytes == bytes
  }

  lemma Adopts(w: World, s: State, now: State, t: Tid, p: Put, inode: Inode)
    requires At(s, now, t, p, Adopting(inode, false)) && Holding(w, s, now, t, p, inode)
    requires HasBlob(s, p.output) && inode !in s.inodes
    ensures PutEnabled(w, now, t, Adopt)
    ensures At(s, ApplyAdopt(now, t), t, p, Sizing(s.now, Some(inode)))
    ensures BlobHolds(ApplyAdopt(now, t), p.output, Left(w, s, p))
  {
  }

  lemma Renames(w: World, s: State, now: State, t: Tid, p: Put, inode: Inode)
    requires At(s, now, t, p, Renaming(inode)) && Holding(w, s, now, t, p, inode) && !HasBlob(s, p.output)
    ensures PutEnabled(w, now, t, Rename)
    ensures At(s, ApplyRename(now, t), t, p, Sizing(s.now, None))
    ensures BlobHolds(ApplyRename(now, t), p.output, Left(w, s, p))
  {
  }

  lemma PutInstalls(w: World, s: State, t: Tid, p: Put, inode: Inode)
      returns (steps: seq<Step>, next: State, spare: Option<Inode>)
    requires Ready(w, s, t, p, inode) && (p.output in s.blobs ==> s.blobs[p.output] != inode)
    ensures Leads(w, s, steps, next)
    ensures At(s, next, t, p, Sizing(s.now, spare)) && BlobHolds(next, p.output, Left(w, s, p))
  {
    steps, next := PutEnters(w, s, t, p, inode);
    spare := if HasBlob(s, p.output) then Some(inode) else None;
    if HasBlob(s, p.output) {
      Adopts(w, s, next, t, p, inode);
      steps, next := PutGoes(w, s, steps, next, t, Adopt);
    } else {
      Renames(w, s, next, t, p, inode);
      steps, next := PutGoes(w, s, steps, next, t, Rename);
    }
  }

  function SizedAt(w: World, s: State, p: Put): PutPhase {
    Installed(s.now, |Left(w, s, p)|, s.now, 0)
  }

  lemma SizesExactly(now: State, t: Tid, bytes: Bytes)
    requires t in now.puts && now.puts[t].phase.Sizing? && BlobHolds(now, now.puts[t].output, bytes)
    ensures ApplyReadSize(now, t) ==
      now.(puts := now.puts[t := now.puts[t].(phase := Installed(now.puts[t].phase.stamp, |bytes|, now.now, 0))])
  {
  }

  lemma Sizes(w: World, s: State, now: State, t: Tid, p: Put, spare: Option<Inode>)
    requires At(s, now, t, p, Sizing(s.now, spare)) && BlobHolds(now, p.output, Left(w, s, p))
    ensures PutEnabled(w, now, t, ReadSize)
    ensures At(s, ApplyReadSize(now, t), t, p, SizedAt(w, s, p))
    ensures BlobHolds(ApplyReadSize(now, t), p.output, Left(w, s, p))
  {
    SizesExactly(now, t, Left(w, s, p));
    SetTwice(s.puts, t, p.(phase := Sizing(s.now, spare)), p.(phase := SizedAt(w, s, p)));
  }

  lemma SetTwice<V>(m: map<Tid, V>, t: Tid, before: V, after: V)
    ensures m[t := before][t := after] == m[t := after]
  {
  }

  function RecordFor(w: World, s: State, p: Put): PutRecord {
    PutRecord(p.action, p.output, |p.body|, |Left(w, s, p)|, s.now, s.now)
  }

  /** After the commit: the catalog has this put's record, and the blob is in place. */
  ghost predicate Recorded(w: World, s: State, now: State, t: Tid, p: Put, phase: PutPhase) {
    && now.puts == s.puts[t := p.(phase := phase)]
    && now.gets == s.gets && now.evictions == s.evictions && now.collections == s.collections
    && now.tables == Upsert(s.tables, RecordFor(w, s, p)) && BlobHolds(now, p.output, Left(w, s, p))
    && now.live == s.live[p.live := p.body]
    && now.materialized == if phase.Done? then s.materialized[(p.live.store, p.output) := p.live] else s.materialized
  }

  lemma Records(w: World, s: State, now: State, t: Tid, p: Put)
    requires At(s, now, t, p, SizedAt(w, s, p)) && BlobHolds(now, p.output, Left(w, s, p))
    ensures PutEnabled(w, now, t, CommitPut(true))
    ensures Recorded(w, s, ApplyCommit(now, t, true), t, p, Committed)
  {
    assert RecordOf(now.puts[t]) == RecordFor(w, s, p);
  }

  lemma Publishes(w: World, s: State, now: State, t: Tid, p: Put)
    requires Recorded(w, s, now, t, p, Committed)
    ensures PutEnabled(w, now, t, PublishPut)
    ensures Recorded(w, s, ApplyPublish(now, t), t, p, Done)
  {
    SetTwice(s.puts, t, p.(phase := Committed), p.(phase := Done));
  }

  /** What the catalog holds then: the output's row has the sizes of the body and of the file
      in place, the action's entry references it, both have the time of the put, and no
      other row or entry has changed. */
  ghost predicate Landed(s: State, now: State, p: Put) {
    && HasBlob(now, p.output) && p.output in now.tables.outputs && p.action in now.tables.entries
    && (var row, entry := now.tables.outputs[p.output], now.tables.entries[p.action];
        && row.size == |p.body| && row.accessedAt == s.now
        && row.compressedSize == |now.inodes[now.blobs[p.output]].bytes|
        && entry.output == row.id && entry.createdAt == s.now && entry.accessedAt == s.now
        && (if p.output in s.tables.outputs then row.id == s.tables.outputs[p.output].id
            else row.id == now.tables.sequence == s.tables.sequence + 1))
    && now.tables.outputs - {p.output} == s.tables.outputs - {p.output}
    && now.tables.entries - {p.action} == s.tables.entries - {p.action}
  }

  lemma RecordLands(w: World, s: State, now: State, t: Tid, p: Put)
    requires Recorded(w, s, now, t, p, Done)
    ensures Landed(s, now, p)
  {
  }

  /** A put alone in its stripe succeeds, and records its output for its action. */
  lemma PutSucceeds(w: World, s: State, t: Tid, p: Put, inode: Inode) returns (steps: seq<Step>, next: State)
    requires Ready(w, s, t, p, inode) && (p.output in s.blobs ==> s.blobs[p.output] != inode)
    ensures Leads(w, s, steps, next) && Recorded(w, s, next, t, p, Done)
    ensures Landed(s, next, p)
  {
    var spare;
    steps, next, spare := PutInstalls(w, s, t, p, inode);
    Sizes(w, s, next, t, p, spare);
    steps, next := PutGoes(w, s, steps, next, t, ReadSize);
    Records(w, s, next, t, p);
    steps, next := PutGoes(w, s, steps, next, t, CommitPut(true));
    Publishes(w, s, next, t, p);
    steps, next := PutGoes(w, s, steps, next, t, PublishPut);
    RecordLands(w, s, next, t, p);
  }

  /******* A get left alone *******/

  /** Where the get stands; the catalog, the blobs and everyone else are as they were. */
  ghost predicate GetAt(s: State, now: State, u: Tid, g: Get, phase: GetPhase) {
    && now.gets == s.gets[u := g.(phase := phase)]
    && now.puts == s.puts && now.evictions == s.evictions && now.collections == s.collections
    && now.tables == s.tables && now.blobs == s.blobs && now.inodes == s.inodes
    && now.live == s.live && now.materialized == s.materialized
  }

  lemma Looks(w: World, s: State, u: Tid, g: Get, createdAt: int)
    requires u !in s.gets && g.action != [] && Keyed(s.tables) && g.phase.Resolved?
    requires Lookup(s.tables, g.action) == Found(g.output, g.size, createdAt)
    ensures GetEnabled(w, s, u, StartGet(g.store, g.action))
    ensures GetAt(s, ApplyGet(w, s, u, StartGet(g.store, g.action)), u, g, Resolved)
  {
  }

  lemma Turns(s: State, now: State, u: Tid, g: Get, phase: GetPhase, next: GetPhase)
    requires GetAt(s, now, u, g, phase)
    ensures GetAt(s, Turn(now, u, next), u, g, next)
  {
    assert now.gets[u := g.(phase := next)] == s.gets[u := g.(phase := next)];
  }

  lemma StaysFreeForGet(s: State, now: State, u: Tid, g: Get, phase: GetPhase, name: string)
    requires GetAt(s, now, u, g, phase) && !GetHolds(g.(phase := phase), name) && StripeFree(s, name)
    ensures StripeFree(now, name)
  {
  }

  /** The get answers with this file, newly decoded. */
  ghost predicate Served(s: State, now: State, u: Tid, g: Get, path: LivePath, body: Bytes) {
    && now.gets == s.gets[u := g.(phase := Hit(path))] && now.puts == s.puts
    && now.tables == s.tables && now.blobs == s.blobs && now.inodes == s.inodes
    && now.live == s.live[path := body] && now.materialized == s.materialized[(g.store, g.output) := path]
  }

  /** The get has missed: the output's blob and row are gone, and the action's entry, and
      nothing else is. */
  ghost predicate Forgets(s: State, now: State, u: Tid, g: Get) {
    && now.gets == s.gets[u := g.(phase := Miss)] && now.puts == s.puts
    && now.tables.outputs == s.tables.outputs - {g.output} && now.tables.entries == s.tables.entries - {g.action}
    && now.tables.sequence == s.tables.sequence
    && now.blobs == s.blobs - {g.output} && now.inodes == s.inodes && now.live == s.live
    && now.materialized == s.materialized - {(g.store, g.output)}
  }

  /** Where the forgetting stands: the blob goes first, then the row, then the entry. */
  ghost predicate DropAt(s: State, now: State, u: Tid, g: Get, phase: GetPhase, rowGone: bool) {
    && now.gets == s.gets[u := g.(phase := phase)] && now.puts == s.puts
    && now.tables == (if rowGone then s.tables.(outputs := s.tables.outputs - {g.output}) else s.tables)
    && now.blobs == s.blobs - {g.output} && now.inodes == s.inodes
    && now.live == s.live && now.materialized == s.materialized
  }

  lemma DropUnlinks(w: World, s: State, now: State, u: Tid, g: Get)
    requires GetAt(s, now, u, g, DropLocked)
    ensures GetEnabled(w, now, u, DropUnlink)
    ensures DropAt(s, ApplyGet(w, now, u, DropUnlink), u, g, DropUnlinked, false)
  {
    SetTwice(s.gets, u, g.(phase := DropLocked), g.(phase := DropUnlinked));
  }

  lemma DropsRow(w: World, s: State, now: State, u: Tid, g: Get)
    requires DropAt(s, now, u, g, DropUnlinked, false)
    ensures GetEnabled(w, now, u, DropRow)
    ensures DropAt(s, ApplyGet(w, now, u, DropRow), u, g, DropRowless, true)
  {
    SetTwice(s.gets, u, g.(phase := DropUnlinked), g.(phase := DropRowless));
  }

  lemma DropsEntry(w: World, s: State, now: State, u: Tid, g: Get)
    requires DropAt(s, now, u, g, DropRowless, true)
    ensures GetEnabled(w, now, u, DropEntry)
    ensures Forgets(s, ApplyGet(w, now, u, DropEntry), u, g)
  {
    SetTwice(s.gets, u, g.(phase := DropRowless), g.(phase := Miss));
  }

  /** A get that found its blob missing or bad, left alone, forgets output and action both. */
  lemma DropForgets(w: World, from: State, before: seq<Step>, s: State, now: State, u: Tid, g: Get)
      returns (steps: seq<Step>, next: State)
    requires Leads(w, from, before, now) && GetAt(s, now, u, g, DropWaiting) && StripeFree(s, StripeName(g.output))
    ensures Leads(w, from, steps, next) && Forgets(s, next, u, g)
  {
    StaysFreeForGet(s, now, u, g, DropWaiting, StripeName(g.output));
    Turns(s, now, u, g, DropWaiting, DropLocked);
    steps, next := GetGoes(w, from, before, now, u, LockDrop);
    DropUnlinks(w, s, next, u, g);
    steps, next := GetGoes(w, from, steps, next, u, DropUnlink);
    DropsRow(w, s, next, u, g);
    steps, next := GetGoes(w, from, steps, next, u, DropRow);
    DropsEntry(w, s, next, u, g);
    steps, next := GetGoes(w, from, steps, next, u, DropEntry);
  }

  /** The blob's bytes decode to something of the size the catalog has. */
  predicate IsGood(w: World, s: State, g: Get) {
    HasBlob(s, g.output) &&
    match w.decode(s.inodes[s.blobs[g.output]].bytes)
    case None => false
    case Some(body) => |body| == g.size
  }

  lemma Decodes(w: World, s: State, now: State, u: Tid, g: Get, path: LivePath)
    requires HasBlob(s, g.output) && GetAt(s, now, u, g, Decoding(path, s.blobs[g.output]))
    ensures GetEnabled(w, now, u, Decode)
    ensures IsGood(w, s, g) ==>
      Served(s, ApplyDecode(w, now, u), u, g, path, w.decode(s.inodes[s.blobs[g.output]].bytes).value)
    ensures !IsGood(w, s, g) ==> GetAt(s, ApplyDecode(w, now, u), u, g, DropWaiting)
  {
    SetTwice(s.gets, u, g.(phase := Decoding(path, s.blobs[g.output])), ApplyDecode(w, now, u).gets[u]);
  }

  /** A get that can start, finds an output, has no file of it yet, and a free stripe. */
  ghost predicate Asking(s: State, u: Tid, g: Get, createdAt: int, path: LivePath) {
    && u !in s.gets && g.action != [] && Keyed(s.tables) && g.phase.Resolved?
    && Lookup(s.tables, g.action) == Found(g.output, g.size, createdAt)
    && !HasLive(s, g) && path.store == g.store && path.output == g.output && path !in s.live
    && StripeFree(s, StripeName(g.output)) && (g.output in s.blobs ==> s.blobs[g.output] in s.inodes)
  }

  lemma GetOpens(w: World, s: State, u: Tid, g: Get, createdAt: int, path: LivePath)
      returns (steps: seq<Step>, next: State)
    requires Asking(s, u, g, createdAt, path)
    ensures Leads(w, s, steps, next) && GetAt(s, next, u, g, OpenLocked(path))
  {
    Looks(w, s, u, g, createdAt);
    steps, next := GetGoes(w, s, [], s, u, StartGet(g.store, g.action));
    Turns(s, next, u, g, Resolved, Opening(path));
    steps, next := GetGoes(w, s, steps, next, u, CreateLive(path));
    StaysFreeForGet(s, next, u, g, Opening(path), StripeName(g.output));
    Turns(s, next, u, g, Opening(path), OpenLocked(path));
    steps, next := GetGoes(w, s, steps, next, u, LockOpen);
  }

  /** It answers with the decoded file if the blob is good, and forgets the output otherwise. */
  lemma GetAnswers(w: World, s: State, u: Tid, g: Get, createdAt: int, path: LivePath)
      returns (steps: seq<Step>, next: State)
    requires Asking(s, u, g, createdAt, path)
    ensures Leads(w, s, steps, next)
    ensures IsGood(w, s, g) ==> Served(s, next, u, g, path, w.decode(s.inodes[s.blobs[g.output]].bytes).value)
    ensures !IsGood(w, s, g) ==> Forgets(s, next, u, g)
  {
    steps, next := GetOpens(w, s, u, g, createdAt, path);
    if HasBlob(s, g.output) {
      Turns(s, next, u, g, OpenLocked(path), Decoding(path, s.blobs[g.output]));
      steps, next := GetGoes(w, s, steps, next, u, OpenBlob);
      Decodes(w, s, next, u, g, path);
      steps, next := GetGoes(w, s, steps, next, u, Decode);
    } else {
      Turns(s, next, u, g, OpenLocked(path), DropWaiting);
      steps, next := GetGoes(w, s, steps, next, u, OpenBlob);
    }
    if !IsGood(w, s, g) {
      steps, next := DropForgets(w, s, steps, s, next, u, g);
    }
  }

  /** An action the catalog does not have is a miss, and nothing has changed. */
  lemma Misses(w: World, s: State, u: Tid, store: nat, action: Bytes) returns (steps: seq<Step>, next: State)
    requires u !in s.gets && action != [] && Keyed(s.tables) && Lookup(s.tables, action).NoRows?
    ensures Leads(w, s, steps, next) && GetAt(s, next, u, Get(store, action, [], 0, Miss), Miss)
  {
    steps, next := GetGoes(w, s, [], s, u, StartGet(store, action));
  }

  /** A mismatched entry is forgotten alone: the output it led to is somebody else's. */
  ghost predicate ForgetsEntry(s: State, now: State, u: Tid, g: Get) {
    && now.gets == s.gets[u := g.(phase := Miss)] && now.puts == s.puts
    && now.tables.outputs == s.tables.outputs && now.tables.entries == s.tables.entries - {g.action}
    && now.blobs == s.blobs && now.inodes == s.inodes && now.live == s.live && now.materialized == s.materialized
  }

  lemma MismatchMisses(w: World, s: State, u: Tid, store: nat, action: Bytes) returns (steps: seq<Step>, next: State)
    requires u !in s.gets && action != [] && Keyed(s.tables) && Lookup(s.tables, action).TagMismatch?
    ensures Leads(w, s, steps, next) && ForgetsEntry(s, next, u, Get(store, action, [], 0, Miss))
  {
    steps, next := GetGoes(w, s, [], s, u, StartGet(store, action));
    SetTwice(s.gets, u, Get(store, action, [], 0, Mismatched), Get(store, action, [], 0, Miss));
    steps, next := GetGoes(w, s, steps, next, u, ForgetMismatched);
  }

  /** A file of the output the store already has is the answer. */
  lemma Reuses(w: World, s: State, u: Tid, g: Get, createdAt: int) returns (steps: seq<Step>, next: State)
    requires u !in s.gets && g.action != [] && Keyed(s.tables) && g.phase.Resolved? && HasLive(s, g)
    requires Lookup(s.tables, g.action) == Found(g.output, g.size, createdAt)
    ensures Leads(w, s, steps, next) && GetAt(s, next, u, g, Hit(s.materialized[(g.store, g.output)]))
  {
    Looks(w, s, u, g, createdAt);
    steps, next := GetGoes(w, s, [], s, u, StartGet(g.store, g.action));
    Turns(s, next, u, g, Resolved, Hit(s.materialized[(g.store, g.output)]));
    steps, next := GetGoes(w, s, steps, next, u, ReuseLive);
  }

  /** What a get left alone comes to, whatever it finds. */
  ghost predicate Concluded(w: World, s: State, now: State, u: Tid, store: nat, action: Bytes, path: LivePath)
    requires Keyed(s.tables)
  {
    match Lookup(s.tables, action)
    case NoRows => GetAt(s, now, u, Get(store, action, [], 0, Miss), Miss)
    case TagMismatch(_) => ForgetsEntry(s, now, u, Get(store, action, [], 0, Miss))
    case Found(o, size, _) =>
      var g := Get(store, action, o, size, Resolved);
      if HasLive(s, g) then GetAt(s, now, u, g, Hit(s.materialized[(store, o)]))
      else if IsGood(w, s, g) then Served(s, now, u, g, path, w.decode(s.inodes[s.blobs[o]].bytes).value)
      else Forgets(s, now, u, g)
  }

  lemma GetConcludes(w: World, s: State, u: Tid, store: nat, action: Bytes, path: LivePath)
      returns (steps: seq<Step>, next: State)
    requires u !in s.gets && action != [] && Keyed(s.tables) && BlobsFaithful(w, s)
    requires path.store == store && path !in s.live
    requires Lookup(s.tables, action).Found? ==>
      path.output == Lookup(s.tables, action).output && StripeFree(s, StripeName(path.output))
    ensures Leads(w, s, steps, next) && Concluded(w, s, next, u, store, action, path)
  {
    match Lookup(s.tables, action)
    case NoRows => steps, next := Misses(w, s, u, store, action);
    case TagMismatch(_) => steps, next := MismatchMisses(w, s, u, store, action);
    case Found(o, size, createdAt) =>
      var g := Get(store, action, o, size, Resolved);
      if HasLive(s, g) {
        steps, next := Reuses(w, s, u, g, createdAt);
      } else {
        steps, next := GetAnswers(w, s, u, g, createdAt, path);
      }
  }

  /******* One after the other *******/

  function Request(store: nat, p: Put): Get {
    Get(store, p.action, p.output, |p.body|, Resolved)
  }

  /** The catalog answers the get with what the put recorded. */
  lemma RecordIsFound(w: World, s: State, p: Put)
    requires Inv(w, s)
    ensures var tables := Upsert(s.tables, RecordFor(w, s, p));
      Keyed(tables) && Lookup(tables, p.action) == Found(p.output, |p.body|, s.now)
  {
    UpsertThenLookup(s.tables, RecordFor(w, s, p), p.action);
  }

  /** Nobody is in the stripe after the put either. */
  lemma FreeAfterPut(w: World, s: State, now: State, t: Tid, p: Put, name: string)
    requires Recorded(w, s, now, t, p, Done) && StripeFree(s, name)
    ensures StripeFree(now, name)
  {
  }

  /** What the put leaves decodes to its body, unless it took over damaged bytes; those do
      not pass for the body either. */
  lemma LeftIsRight(w: World, s: State, p: Put)
    requires Sound(w) && Inv(w, s) && p.body == w.content(p.output)
    ensures var decoded := w.decode(Left(w, s, p));
      decoded.Some? && |decoded.value| == |p.body| <==> decoded == Some(p.body)
    ensures !HasBlob(s, p.output) ==> w.decode(Left(w, s, p)) == Some(p.body)
  {
    if HasBlob(s, p.output) {
      assert Readable(w, s.inodes[s.blobs[p.output]]);
    }
  }

  /** From any reachable state: a put alone in its stripe, and then another store's get of
      its action, alone there too. The get answers with the put's own bytes exactly when
      there was no blob for the put to take over, or an undamaged one; otherwise it misses,
      and the output and the action are forgotten. */
  lemma GetAfterPut(w: World, s: State, t: Tid, p: Put, inode: Inode, u: Tid, store: nat, path: LivePath)
      returns (put: seq<Step>, mid: State, get: seq<Step>, end: State)
    requires Sound(w) && Inv(w, s) && Ready(w, s, t, p, inode)
    requires u !in s.gets && store != p.live.store && !HasLive(s, Request(store, p))
    requires path.store == store && path.output == p.output && path !in s.live
    ensures Leads(w, s, put, mid) && Leads(w, mid, get, end)
    ensures t in mid.puts && mid.puts[t].phase.Done? && u in end.gets
    ensures Landed(s, mid, p)
    ensures if HasBlob(s, p.output) ==> w.decode(s.inodes[s.blobs[p.output]].bytes) == Some(p.body)
            then Served(mid, end, u, Request(store, p), path, p.body)
            else Forgets(mid, end, u, Request(store, p))
  {
    put, mid := PutSucceeds(w, s, t, p, inode);
    RecordIsFound(w, s, p);
    FreeAfterPut(w, s, mid, t, p, StripeName(p.output));
    NoLiveAfterPut(w, s, mid, t, p, store, path);
    get, end := GetAnswers(w, mid, u, Request(store, p), s.now, path);
    LeftIsRight(w, s, p);
  }

  lemma NoLiveAfterPut(w: World, s: State, mid: State, t: Tid, p: Put, store: nat, path: LivePath)
    requires LiveFaithful(w, s) && Recorded(w, s, mid, t, p, Done)
    requires store != p.live.store && !HasLive(s, Request(store, p)) && path.store == store && path !in s.live
    ensures !HasLive(mid, Request(store, p)) && path !in mid.live
  {
  }

  /** The putting store's own get needs no blob: the put left it the live file. */
  lemma OwnGetAfterPut(w: World, s: State, t: Tid, p: Put, inode: Inode, u: Tid)
      returns (put: seq<Step>, mid: State, get: seq<Step>, end: State)
    requires Sound(w) && Inv(w, s) && Ready(w, s, t, p, inode) && u !in s.gets
    ensures Leads(w, s, put, mid) && Leads(w, mid, get, end)
    ensures u in end.gets && end.gets[u].phase == Hit(p.live)
    ensures p.live in end.live && end.live[p.live] == p.body
  {
    put, mid := PutSucceeds(w, s, t, p, inode);
    RecordIsFound(w, s, p);
    var g := Request(p.live.store, p);
    Looks(w, mid, u, g, s.now);
    get, end := GetGoes(w, mid, [], mid, u, StartGet(g.store, g.action));
    get, end := GetGoes(w, mid, get, end, u, ReuseLive);
  }

  /******* Taking over a damaged blob *******/

  /** Bytes that decode, but to something longer than the output. */
  function TooLong(w: World): Bytes {
    w.encode(w.content(O) + [0])
  }

  lemma PutDies(w: World) returns (states: seq<State>, steps: seq<Step>)
    ensures Going(w, states, steps)
    ensures var s := Last(states);
      && s.puts == map[] && s.gets == map[] && s.evictions == map[] && s.collections == map[]
      && s.blobs == map[O := 0] && s.inodes.Keys == {0} && s.inodes[0].output == O
      && s.doomed == {} && s.reaped == {} && s.pendings == map[]
      && s.materialized == map[] && s.live.Keys == {Job(w, 0).live}
  {
    states, steps := LonePutInstalls(w);
    states, steps := Take(w, states, steps, PutBy(0, CrashPut));
  }

  /** The blob a put left is damaged, in a way that its size gives away. */
  ghost predicate Damaged(w: World, s: State) {
    && Ready(w, s, 1, Job(w, 1), 1) && HasBlob(s, O) && s.inodes[s.blobs[O]].bytes == TooLong(w)
    && s.gets == map[] && s.materialized == map[] && s.live.Keys == {Job(w, 0).live}
  }

  lemma BlobIsDamaged(w: World) returns (states: seq<State>, steps: seq<Step>)
    requires Sound(w)
    ensures Going(w, states, steps) && Damaged(w, Last(states))
  {
    states, steps := PutDies(w);
    states, steps := Take(w, states, steps, Other(Damage(0, TooLong(w))));
  }

  /** The output and the action were there before the get, and are gone after it. */
  ghost predicate Missed(mid: State, end: State) {
    && 0 in end.gets && end.gets[0].phase == Miss
    && O in mid.tables.outputs && end.tables.outputs == mid.tables.outputs - {O}
    && O in mid.blobs && end.blobs == mid.blobs - {O}
    && end.gets[0].action in mid.tables.entries
    && end.tables.entries == mid.tables.entries - {end.gets[0].action}
  }

  lemma ForgottenIsMissed(w: World, s: State, mid: State, end: State)
    requires Landed(s, mid, Job(w, 1)) && Forgets(mid, end, 0, Request(1, Job(w, 1)))
    ensures Missed(mid, end)
  {
  }

  lemma OversizeIsBad(w: World, s: State)
    requires Sound(w) && Damaged(w, s)
    ensures HasBlob(s, O) && w.decode(s.inodes[s.blobs[O]].bytes) != Some(w.content(O))
  {
    assert w.decode(TooLong(w)) == Some(w.content(O) + [0]);
  }

  lemma DamagedMisses(w: World, s: State) returns (put: seq<Step>, mid: State, get: seq<Step>, end: State)
    requires Sound(w) && Inv(w, s) && Damaged(w, s)
    ensures Leads(w, s, put, mid) && Leads(w, mid, get, end)
    ensures 1 in mid.puts && mid.puts[1].phase.Done?
    ensures Missed(mid, end)
  {
    OversizeIsBad(w, s);
    put, mid, get, end := GetAfterPut(w, s, 1, Job(w, 1), 1, 0, 1, LivePath(1, O, 0));
    ForgottenIsMissed(w, s, mid, end);
  }

  /** In any world there is such a run: the put of the same output then succeeds, and the
      get after it misses, and forgets what the put recorded. */
  lemma TakenOverDamageMisses(w: World)
      returns (states: seq<State>, steps: seq<Step>, put: seq<Step>, mid: State, get: seq<Step>, end: State)
    requires Sound(w)
    ensures Going(w, states, steps) && Leads(w, Last(states), put, mid) && Leads(w, mid, get, end)
    ensures 1 in mid.puts && mid.puts[1].phase.Done?
    ensures Missed(mid, end)
  {
    states, steps := BlobIsDamaged(w);
    var n: nat := |states| - 1;
    RunKeeps(w, states, steps, n);
    put, mid, get, end := DamagedMisses(w, Last(states));
  }
}
