/** Puts, gets, eviction, age expiry and orphan collection as processes that share one
    cache: the catalog, the blob files and the stripe locks. Each step is one statement
    or transaction on the tables, or one file operation; any process may crash between
    any two of them. */
module Protocol {
  import opened Ids
  import opened Catalog

  type Inode = nat
  type Tid = nat

  /** What the model takes as given. With `stripes` unset the stripe locks exclude nobody,
      which tells what depends on them. Every put of an output carries the same bytes, and
      decoding inverts encoding. */
  datatype World = World(
    content: Bytes -> Bytes,
    encode: Bytes -> Bytes,
    decode: Bytes -> Option<Bytes>,
    orphanGrace: int,
    mtimeInterval: int,
    stripes: bool)

  ghost predicate Sound(w: World) {
    forall b: Bytes :: w.decode(w.encode(b)) == Some(b)
  }

  /** A compressed file. The inode outlives its names: an open descriptor still reads it. */
  datatype Blob = Blob(output: Bytes, bytes: Bytes, mtime: int)

  /** An uncompressed file in a store's run directory; its name starts with the output id. */
  datatype LivePath = LivePath(store: nat, output: Bytes, suffix: nat)

  /** One put request; `stamp` is when its installed file was last written or stamped, and
      `spare` is its own file while it sizes another that it took over. */
  datatype Put = Put(action: Bytes, output: Bytes, body: Bytes, bodySize: int, live: LivePath, phase: PutPhase)
  datatype PutPhase =
    | Writing
    | Waiting(inode: Inode)
    | Locked(inode: Inode)
    | Adopting(inode: Inode, last: bool)
    | Renaming(inode: Inode)
    | Sizing(stamp: int, spare: Option<Inode>)
    | Installed(stamp: int, compressedSize: int, at: int, attempts: int)
    | Committed
    | Done
    | Failed

  /** One get request, and the forgetting of a bad entry. */
  datatype Get = Get(store: nat, action: Bytes, output: Bytes, size: int, phase: GetPhase)
  datatype GetPhase =
    | Resolved
    | Mismatched
    | Opening(path: LivePath)
    | OpenLocked(path: LivePath)
    | Decoding(path: LivePath, inode: Inode)
    | DropWaiting
    | DropLocked
    | DropUnlinked
    | DropRowless
    | Hit(path: LivePath)
    | Miss

  /** One output whose row eviction has deleted and whose blob it has yet to unlink. */
  datatype Eviction = Eviction(output: Bytes, locked: bool)

  /** Orphan collection of one shard. */
  datatype Collection = Collection(shard: int, candidates: set<Bytes>, cutoff: int, phase: CollectPhase)
  datatype CollectPhase =
    | Scanned
    | Requeried(referenced: set<Bytes>, snapshotAt: int)
    | ShardLocked(referenced: set<Bytes>, snapshotAt: int)

  /** `pendings` holds the last write of each put's pending file, under its own name, and
      `doomed` and `reaped` the puts whose pending file upkeep has found stale and has
      removed. `closing` holds the stores that have begun to close. `wrote`, `named` and
      `recordedAt` are history: what each row id was handed out for, the output each
      action's latest committed put recorded, and when each output last was. */
  datatype State = State(
    now: int,
    tables: Tables,
    inodes: map<Inode, Blob>,
    blobs: map<Bytes, Inode>,
    pendings: map<Tid, int>,
    doomed: set<Tid>,
    reaped: set<Tid>,
    live: map<LivePath, Bytes>,
    materialized: map<(nat, Bytes), LivePath>,
    closing: set<nat>,
    puts: map<Tid, Put>,
    gets: map<Tid, Get>,
    evictions: map<Tid, Eviction>,
    collections: map<Tid, Collection>,
    wrote: map<int, Bytes>,
    named: map<Bytes, Bytes>,
    recordedAt: map<Bytes, int>)

  datatype PutStep =
    | StartPut(put: Put)
    | WritePending
    | FinishWriting(inode: Inode)
    | FailPut
    | LockPut
    | CheckBlob
    | Adopt
    | Rename
    | ReadSize
    | CommitPut(acknowledged: bool)
    | BusyPut
    | PublishPut
    | CrashPut

  datatype GetStep =
    | StartGet(store: nat, action: Bytes)
    | ForgetMismatched
    | ReuseLive
    | CreateLive(path: LivePath)
    | LockOpen
    | OpenBlob
    | Decode
    | LockDrop
    | DropUnlink
    | DropRow
    | DropEntry
    | CrashGet

  datatype EvictStep =
    | EvictRow(output: Bytes, plannedAt: int)
    | LockEvict
    | EvictUnlink
    | CrashEvict

  datatype CollectStep =
    | ScanShard(shard: int, startedAt: int, found: set<Bytes>)
    | Requery
    | LockShard
    | RemoveOrphan(output: Bytes)
    | LeaveShard

  datatype OtherStep =
    | ExpireRows(staleOutputs: set<Bytes>, staleEntries: set<Bytes>, cutoff: int)
    | TouchRows(entryStamps: map<Bytes, int>, outputStamps: map<Bytes, int>)
    | JudgePending(put: Tid)
    | ReapPending(put: Tid)
    | Tick(to: int)
    | BeginClose(store: nat)
    | RewriteLive(path: LivePath, bytes: Bytes)
    | LoseLive(path: LivePath)
    | ForgetMaterialized(store: nat, output: Bytes)
    | Damage(inode: Inode, bytes: Bytes)

  datatype Step =
    | PutBy(t: Tid, putStep: PutStep)
    | GetBy(t: Tid, getStep: GetStep)
    | EvictBy(t: Tid, evictStep: EvictStep)
    | CollectBy(t: Tid, collectStep: CollectStep)
    | Other(step: OtherStep)

  /******* Stripes *******/

  // Who holds a stripe is read off the processes: the one inside its critical section. A
  // crash ends the holder, and with it the lock.

  predicate PutHolds(p: Put, name: string) {
    (p.phase.Locked? || p.phase.Adopting? || p.phase.Renaming? || p.phase.Sizing?) && StripeName(p.output) == name
  }

  predicate GetHolds(g: Get, name: string) {
    (g.phase.OpenLocked? || g.phase.DropLocked?) && StripeName(g.output) == name
  }

  predicate EvictionHolds(e: Eviction, name: string) {
    e.locked && StripeName(e.output) == name
  }

  /** Orphan collection locks the shard by its prefix, as if that were an output id. */
  predicate CollectionHolds(c: Collection, name: string) {
    c.phase.ShardLocked? && 0 <= c.shard < 256 && OutputShard(ShardPrefix(c.shard)) == name
  }

  ghost predicate StripeFree(s: State, name: string) {
    && (forall t :: t in s.puts ==> !PutHolds(s.puts[t], name))
    && (forall t :: t in s.gets ==> !GetHolds(s.gets[t], name))
    && (forall t :: t in s.evictions ==> !EvictionHolds(s.evictions[t], name))
    && (forall t :: t in s.collections ==> !CollectionHolds(s.collections[t], name))
  }

  /** A section may be entered: its stripe is free, if stripes are taken at all. */
  ghost predicate MayEnter(w: World, s: State, name: string) {
    w.stripes ==> StripeFree(s, name)
  }

  /******* Put *******/

  predicate Unfinished(phase: PutPhase) {
    !phase.Committed? && !phase.Done? && !phase.Failed?
  }

  ghost predicate PutEnabled(w: World, s: State, t: Tid, step: PutStep) {
    match step
    case StartPut(p) =>
      && t !in s.puts && t !in s.pendings && t !in s.doomed && t !in s.reaped
      && p.action != [] && p.output != [] && p.body == w.content(p.output)
      && p.live.output == p.output && p.live !in s.live && p.phase == Writing
    case WritePending => t in s.puts && s.puts[t].phase.Writing?
    case FinishWriting(inode) =>
      && t in s.puts && s.puts[t].phase.Writing? && inode !in s.inodes
      && |s.puts[t].body| == s.puts[t].bodySize
    case FailPut => t in s.puts && Unfinished(s.puts[t].phase)
    case LockPut => t in s.puts && s.puts[t].phase.Waiting? && MayEnter(w, s, StripeName(s.puts[t].output))
    case CheckBlob => t in s.puts && s.puts[t].phase.Locked?
    case Adopt => t in s.puts && s.puts[t].phase.Adopting?
    case Rename => t in s.puts && s.puts[t].phase.Renaming?
    case ReadSize => t in s.puts && s.puts[t].phase.Sizing?
    case CommitPut(_) =>
      t in s.puts && s.puts[t].phase.Installed? && s.puts[t].phase.attempts < CATALOG_PUT_ATTEMPTS
    case BusyPut =>
      t in s.puts && s.puts[t].phase.Installed? && s.puts[t].phase.attempts < CATALOG_PUT_ATTEMPTS
    case PublishPut => t in s.puts && s.puts[t].phase.Committed?
    case CrashPut => t in s.puts
  }

  ghost function ApplyPut(w: World, s: State, t: Tid, step: PutStep): State
    requires PutEnabled(w, s, t, step)
  {
    match step
    case StartPut(p) => s.(puts := s.puts[t := p], pendings := s.pendings[t := s.now])
    case WritePending => s.(pendings := WrittenAt(s.pendings, t, s.now))
    case FinishWriting(inode) => ApplyFinish(w, s, t, inode)
    case FailPut => Abandon(s, t)
    case LockPut => Advance(s, t, Locked(s.puts[t].phase.inode))
    case CheckBlob =>
      Advance(s, t, if HasBlob(s, s.puts[t].output) then Adopting(s.puts[t].phase.inode, false)
                    else Renaming(s.puts[t].phase.inode))
    case Adopt => ApplyAdopt(s, t)
    case Rename => ApplyRename(s, t)
    case ReadSize => ApplyReadSize(s, t)
    case CommitPut(acknowledged) => ApplyCommit(s, t, acknowledged)
    case BusyPut => Advance(s, t, s.puts[t].phase.(attempts := s.puts[t].phase.attempts + 1))
    case PublishPut => ApplyPublish(s, t)
    case CrashPut => s.(puts := s.puts - {t})
  }

  function Advance(s: State, t: Tid, phase: PutPhase): State
    requires t in s.puts
  {
    s.(puts := s.puts[t := s.puts[t].(phase := phase)])
  }

  function WrittenAt(pendings: map<Tid, int>, t: Tid, now: int): map<Tid, int> {
    if t in pendings then pendings[t := now] else pendings
  }

  /** A put that fails removes its pending and live files. */
  function Abandon(s: State, t: Tid): State
    requires t in s.puts
  {
    Advance(s, t, Failed).(pendings := s.pendings - {t}, live := s.live - {s.puts[t].live})
  }

  function ApplyFinish(w: World, s: State, t: Tid, inode: Inode): State
    requires t in s.puts
  {
    var p := s.puts[t];
    Advance(s, t, Waiting(inode)).(
      pendings := WrittenAt(s.pendings, t, s.now),
      inodes := s.inodes[inode := Blob(p.output, w.encode(p.body), s.now)],
      live := s.live[p.live := p.body])
  }

  /** There is a regular file at the output's blob path. */
  predicate HasBlob(s: State, o: Bytes) {
    o in s.blobs && s.blobs[o] in s.inodes
  }

  /** A blob freshly written: a rename brings the file's last write, an adoption stamps it. */
  function Stamped(inodes: map<Inode, Blob>, inode: Inode, now: int): map<Inode, Blob>
    requires inode in inodes
  {
    inodes[inode := inodes[inode].(mtime := now)]
  }

  /** Taking over the blob that is already there. Losing it between the check and the
      stamp falls back to this put's own copy, the first time. */
  function ApplyAdopt(s: State, t: Tid): State
    requires t in s.puts && s.puts[t].phase.Adopting?
  {
    var p := s.puts[t];
    var found := HasBlob(s, p.output);
    var failed := !found && p.phase.last;
    s.(puts := s.puts[t := p.(phase := if found then Sizing(s.now, if p.phase.last then None else Some(p.phase.inode))
                                       else if failed then Failed
                                       else Renaming(p.phase.inode))],
       inodes := if found then Stamped(s.inodes, s.blobs[p.output], s.now) else s.inodes,
       pendings := if failed then s.pendings - {t} else s.pendings,
       live := if failed then s.live - {p.live} else s.live)
  }

  /** The rename fails only if the pending file is gone; then a blob another put
      installed will do. A rename keeps the file's own last write as its mtime. */
  function ApplyRename(s: State, t: Tid): State
    requires t in s.puts && s.puts[t].phase.Renaming?
  {
    var p := s.puts[t];
    var renamed := t in s.pendings;
    var failed := !renamed && !HasBlob(s, p.output);
    var lastWrite := if p.phase.inode in s.inodes then s.inodes[p.phase.inode].mtime else s.now;
    s.(puts := s.puts[t := p.(phase := if renamed then Sizing(lastWrite, None) else if failed then Failed
                                       else Adopting(p.phase.inode, true))],
       pendings := s.pendings - {t},
       blobs := if renamed then s.blobs[p.output := p.phase.inode] else s.blobs,
       live := if failed then s.live - {p.live} else s.live)
  }

  /** The size is read back under the stripe, which is released before the catalog write. A
      file that was taken over and has gone is replaced by the put's own. */
  function ApplyReadSize(s: State, t: Tid): State
    requires t in s.puts && s.puts[t].phase.Sizing?
  {
    var p := s.puts[t];
    var found := HasBlob(s, p.output);
    var failed := !found && p.phase.spare.None?;
    s.(puts := s.puts[t := p.(phase :=
         if found then Installed(p.phase.stamp, |s.inodes[s.blobs[p.output]].bytes|, s.now, 0)
         else if failed then Failed else Renaming(p.phase.spare.value))],
       pendings := if failed then s.pendings - {t} else s.pendings,
       live := if failed then s.live - {p.live} else s.live)
  }

  function RecordOf(p: Put): PutRecord
    requires p.phase.Installed?
  {
    PutRecord(p.action, p.output, |p.body|, p.phase.compressedSize, p.phase.at, p.phase.at)
  }

  /** The put transaction takes effect, whether or not the put hears of it. */
  function ApplyCommit(s: State, t: Tid, acknowledged: bool): State
    requires t in s.puts && s.puts[t].phase.Installed?
  {
    var p := s.puts[t];
    Advance(s, t, if acknowledged then Committed else p.phase.(attempts := p.phase.attempts + 1)).(
      tables := Upsert(s.tables, RecordOf(p)),
      wrote := Wrote(s.tables, RecordOf(p), s.wrote),
      named := s.named[p.action := p.output],
      recordedAt := s.recordedAt[p.output := s.now])
  }

  function ApplyPublish(s: State, t: Tid): State
    requires t in s.puts
  {
    var p := s.puts[t];
    Advance(s, t, Done).(
      pendings := s.pendings - {t},
      materialized := s.materialized[(p.live.store, p.output) := p.live])
  }

  /******* Get *******/

  /** A live file this store already has for the output. */
  predicate HasLive(s: State, g: Get) {
    (g.store, g.output) in s.materialized && s.materialized[(g.store, g.output)] in s.live
  }

  ghost predicate GetEnabled(w: World, s: State, t: Tid, step: GetStep) {
    match step
    case StartGet(_, a) => t !in s.gets && a != [] && Keyed(s.tables)
    case ForgetMismatched => t in s.gets && s.gets[t].phase.Mismatched?
    case ReuseLive => t in s.gets && s.gets[t].phase.Resolved? && HasLive(s, s.gets[t])
    case CreateLive(path) =>
      && t in s.gets && s.gets[t].phase.Resolved? && !HasLive(s, s.gets[t])
      && path.store == s.gets[t].store && path.output == s.gets[t].output && path !in s.live
    case LockOpen => t in s.gets && s.gets[t].phase.Opening? && MayEnter(w, s, StripeName(s.gets[t].output))
    case OpenBlob => t in s.gets && s.gets[t].phase.OpenLocked?
    case Decode => t in s.gets && s.gets[t].phase.Decoding? && s.gets[t].phase.inode in s.inodes
    case LockDrop => t in s.gets && s.gets[t].phase.DropWaiting? && MayEnter(w, s, StripeName(s.gets[t].output))
    case DropUnlink => t in s.gets && s.gets[t].phase.DropLocked?
    case DropRow => t in s.gets && s.gets[t].phase.DropUnlinked?
    case DropEntry => t in s.gets && s.gets[t].phase.DropRowless?
    case CrashGet => t in s.gets
  }

  ghost function ApplyGet(w: World, s: State, t: Tid, step: GetStep): State
    requires GetEnabled(w, s, t, step)
  {
    match step
    case StartGet(store, a) => s.(gets := s.gets[t := Looked(store, a, Lookup(s.tables, a))])
    case ForgetMismatched => Turn(s, t, Miss).(tables := DeleteAction(s.tables, s.gets[t].action))
    case ReuseLive => Turn(s, t, Hit(s.materialized[(s.gets[t].store, s.gets[t].output)]))
    case CreateLive(path) => Turn(s, t, Opening(path))
    case LockOpen => Turn(s, t, OpenLocked(s.gets[t].phase.path))
    case OpenBlob =>
      Turn(s, t, if s.gets[t].output in s.blobs then Decoding(s.gets[t].phase.path, s.blobs[s.gets[t].output])
                 else DropWaiting)
    case Decode => ApplyDecode(w, s, t)
    case LockDrop => Turn(s, t, DropLocked)
    case DropUnlink => Turn(s, t, DropUnlinked).(blobs := s.blobs - {s.gets[t].output})
    case DropRow => Turn(s, t, DropRowless).(tables := DeleteOutput(s.tables, s.gets[t].output))
    case DropEntry =>
      Turn(s, t, Miss).(
        tables := DeleteAction(s.tables, s.gets[t].action),
        materialized := s.materialized - {(s.gets[t].store, s.gets[t].output)})
    case CrashGet => s.(gets := s.gets - {t})
  }

  function Turn(s: State, t: Tid, phase: GetPhase): State
    requires t in s.gets
  {
    s.(gets := s.gets[t := s.gets[t].(phase := phase)])
  }

  function Looked(store: nat, action: Bytes, result: LookupResult): Get {
    match result
    case NoRows => Get(store, action, [], 0, Miss)
    case TagMismatch(_) => Get(store, action, [], 0, Mismatched)
    case Found(o, size, _) => Get(store, action, o, size, Resolved)
  }

  /** Decompression into the live file, and the size check; a blob that fails either is
      dropped. */
  function ApplyDecode(w: World, s: State, t: Tid): State
    requires t in s.gets && s.gets[t].phase.Decoding? && s.gets[t].phase.inode in s.inodes
  {
    var g := s.gets[t];
    var decoded := w.decode(s.inodes[g.phase.inode].bytes);
    var good := decoded.Some? && |decoded.value| == g.size;
    s.(gets := s.gets[t := g.(phase := if good then Hit(g.phase.path) else DropWaiting)],
       live := if good then s.live[g.phase.path := decoded.value] else s.live,
       materialized := if good then s.materialized[(g.store, g.output) := g.phase.path] else s.materialized)
  }

  /** Damage the checksum or the recorded size catches. */
  predicate Detectable(w: World, output: Bytes, bytes: Bytes) {
    match w.decode(bytes)
    case None => true
    case Some(b) => |b| != |w.content(output)|
  }

  /******* Eviction *******/

  ghost predicate EvictEnabled(w: World, s: State, t: Tid, step: EvictStep) {
    match step
    case EvictRow(o, at) => t !in s.evictions && EvictsOutput(s.tables.outputs, o, at)
    case LockEvict => t in s.evictions && !s.evictions[t].locked && MayEnter(w, s, StripeName(s.evictions[t].output))
    case EvictUnlink => t in s.evictions && s.evictions[t].locked
    case CrashEvict => t in s.evictions
  }

  function ApplyEvict(s: State, t: Tid, step: EvictStep): State
    requires !step.EvictRow? ==> t in s.evictions
  {
    match step
    case EvictRow(o, _) =>
      s.(evictions := s.evictions[t := Eviction(o, false)], tables := DeleteOutput(s.tables, o))
    case LockEvict => s.(evictions := s.evictions[t := s.evictions[t].(locked := true)])
    case EvictUnlink => s.(evictions := s.evictions - {t}, blobs := s.blobs - {s.evictions[t].output})
    case CrashEvict => s.(evictions := s.evictions - {t})
  }

  /******* Orphan collection *******/

  /** The blobs in a shard's directory. */
  function ShardBlobs(s: State, shard: int): set<Bytes>
    requires 0 <= shard < 256
  {
    set o | o in s.blobs && StripeName(o) == ShardPrefix(shard)
  }

  /** The scan queries the references and then walks the shard's files, in two steps: what
      it finds may be any of them, named by a row or not by the time it is done. */
  ghost predicate CollectEnabled(w: World, s: State, t: Tid, step: CollectStep) {
    match step
    case ScanShard(shard, startedAt, found) =>
      t !in s.collections && 0 <= shard < 256 && startedAt <= s.now && found <= ShardBlobs(s, shard)
    case Requery => t in s.collections && s.collections[t].phase.Scanned? && 0 <= s.collections[t].shard < 256
    case LockShard =>
      && t in s.collections && s.collections[t].phase.Requeried? && 0 <= s.collections[t].shard < 256
      && MayEnter(w, s, OutputShard(ShardPrefix(s.collections[t].shard)))
    case RemoveOrphan(o) => t in s.collections && MayRemove(s, s.collections[t], o)
    case LeaveShard => t in s.collections
  }

  /** Still unreferenced, and its file not written since the cutoff; a file that is gone
      is no obstacle. */
  predicate MayRemove(s: State, c: Collection, o: Bytes) {
    && c.phase.ShardLocked? && o in c.candidates && o !in c.phase.referenced
    && (o in s.blobs ==> s.blobs[o] in s.inodes && s.inodes[s.blobs[o]].mtime < c.cutoff)
  }

  ghost function ApplyCollect(w: World, s: State, t: Tid, step: CollectStep): State
    requires CollectEnabled(w, s, t, step)
  {
    match step
    case ScanShard(shard, startedAt, found) =>
      s.(collections := s.collections[t := Collection(shard, found, startedAt - w.orphanGrace, Scanned)])
    case Requery =>
      var c := s.collections[t];
      s.(collections := s.collections[t := c.(phase := Requeried(ShardKeys(s.tables.outputs.Keys, c.shard), s.now))])
    case LockShard =>
      var c := s.collections[t];
      s.(collections := s.collections[t := c.(phase := ShardLocked(c.phase.referenced, c.phase.snapshotAt))])
    case RemoveOrphan(o) =>
      var c := s.collections[t];
      s.(collections := s.collections[t := c.(candidates := c.candidates - {o})], blobs := s.blobs - {o})
    case LeaveShard => s.(collections := s.collections - {t})
  }

  /******* Age expiry, touches, and the world *******/

  /** No request of the store is being served: closing waits for them. From then on the
      store strips and removes its live files. */
  ghost predicate Idle(s: State, store: nat) {
    && (forall t :: t in s.puts && s.puts[t].live.store == store ==> s.puts[t].phase.Done? || s.puts[t].phase.Failed?)
    && (forall t :: t in s.gets && s.gets[t].store == store ==> s.gets[t].phase.Hit? || s.gets[t].phase.Miss?)
  }

  ghost predicate OtherEnabled(w: World, s: State, step: OtherStep) {
    match step
    case ExpireRows(os, es, cutoff) =>
      && (forall o :: o in os ==> o in s.tables.outputs && s.tables.outputs[o].accessedAt < cutoff)
      && (forall e :: e in es ==> e in s.tables.entries && s.tables.entries[e].accessedAt < cutoff)
    case TouchRows(_, _) => true
    case JudgePending(t) => t in s.pendings && s.pendings[t] < s.now - w.mtimeInterval
    case ReapPending(t) => t in s.doomed && t in s.pendings
    case Tick(to) => s.now <= to
    case BeginClose(store) => Idle(s, store)
    case RewriteLive(path, _) => path in s.live && path.store in s.closing
    case LoseLive(_) => true
    case ForgetMaterialized(_, _) => true
    case Damage(inode, bytes) => inode in s.inodes && Detectable(w, s.inodes[inode].output, bytes)
  }

  function ApplyOther(s: State, step: OtherStep): State
    requires step.Damage? ==> step.inode in s.inodes
  {
    match step
    case ExpireRows(os, es, _) => s.(tables := DeleteRows(s.tables, os, es))
    case TouchRows(es, os) => s.(tables := Touch(s.tables, es, os))
    case JudgePending(t) => s.(doomed := s.doomed + {t})
    case ReapPending(t) => s.(pendings := s.pendings - {t}, reaped := s.reaped + {t})
    case Tick(to) => s.(now := to)
    case BeginClose(store) => s.(closing := s.closing + {store})
    case RewriteLive(path, bytes) => s.(live := s.live[path := bytes])
    case LoseLive(path) => s.(live := s.live - {path})
    case ForgetMaterialized(store, o) => s.(materialized := s.materialized - {(store, o)})
    case Damage(inode, bytes) => s.(inodes := s.inodes[inode := s.inodes[inode].(bytes := bytes)])
  }

  /******* Runs *******/

  ghost predicate Enabled(w: World, s: State, step: Step) {
    match step
    case PutBy(t, p) => PutEnabled(w, s, t, p)
    case GetBy(t, g) => GetEnabled(w, s, t, g)
    case EvictBy(t, e) => EvictEnabled(w, s, t, e)
    case CollectBy(t, c) => CollectEnabled(w, s, t, c)
    case Other(o) => OtherEnabled(w, s, o)
  }

  ghost function Apply(w: World, s: State, step: Step): State
    requires Enabled(w, s, step)
  {
    match step
    case PutBy(t, p) => ApplyPut(w, s, t, p)
    case GetBy(t, g) => ApplyGet(w, s, t, g)
    case EvictBy(t, e) => ApplyEvict(s, t, e)
    case CollectBy(t, c) => ApplyCollect(w, s, t, c)
    case Other(o) => ApplyOther(s, o)
  }

  /** An empty cache, at any time of day. */
  function Empty(now: int): State {
    State(now, Tables(map[], map[], 0), map[], map[], map[], {}, {}, map[], map[], {}, map[], map[], map[], map[],
          map[], map[], map[])
  }

  ghost predicate IsRun(w: World, states: seq<State>, steps: seq<Step>) {
    && |states| == |steps| + 1
    && states[0] == Empty(states[0].now)
    && forall i {:trigger steps[i]} :: 0 <= i < |steps| ==>
         Enabled(w, states[i], steps[i]) && states[i + 1] == Apply(w, states[i], steps[i])
  }
}
