/** What every run of the protocol keeps, and what that means for a get and for a put. */
module ProtocolSafety {
  import opened Ids
  import opened Catalog
  import opened Protocol

  /******* The invariant *******/

  /** A put's section excludes every other section on the same stripe, those of the three
      unlinkers among them. */
  ghost predicate SectionsExclusive(w: World, s: State) {
    w.stripes ==> forall t, name :: t in s.puts && PutHolds(s.puts[t], name) ==> Alone(s, t, name)
  }

  ghost predicate Alone(s: State, t: Tid, name: string) {
    && (forall u :: u in s.puts && u != t ==> !PutHolds(s.puts[u], name))
    && (forall u :: u in s.gets ==> !GetHolds(s.gets[u], name))
    && (forall u :: u in s.evictions ==> !EvictionHolds(s.evictions[u], name))
    && (forall u :: u in s.collections ==> !CollectionHolds(s.collections[u], name))
  }

  ghost predicate TablesFaithful(w: World, s: State) {
    && Interned(s.tables, s.wrote, s.named)
    && (forall o :: o in s.tables.outputs ==> o != [] && s.tables.outputs[o].size == |w.content(o)|)
  }

  /** A blob file decodes to its output's bytes, or does not pass as them. */
  ghost predicate Readable(w: World, b: Blob) {
    w.decode(b.bytes) == Some(w.content(b.output)) || Detectable(w, b.output, b.bytes)
  }

  ghost predicate FilesFaithful(w: World, s: State) {
    BlobsFaithful(w, s) && LiveFaithful(w, s)
  }

  ghost predicate BlobsFaithful(w: World, s: State) {
    && (forall i :: i in s.inodes ==> Readable(w, s.inodes[i]))
    && (forall o :: o in s.blobs ==> o != [] && s.blobs[o] in s.inodes && s.inodes[s.blobs[o]].output == o)
  }

  ghost predicate LiveFaithful(w: World, s: State) {
    && (forall path :: path in s.live && path.store !in s.closing ==> s.live[path] == w.content(path.output))
    && (forall k :: k in s.materialized ==> s.materialized[k].store == k.0 && s.materialized[k].output == k.1)
  }

  /** The put may still need its pending file. */
  predicate InProgress(phase: PutPhase) {
    || phase.Writing? || phase.Waiting? || phase.Locked? || phase.Adopting? || phase.Renaming?
    || (phase.Sizing? && phase.spare.Some?)
  }

  /** Until it is installed a put has its own compressed file, under its pending name
      unless that was collected as stale; and inside its section the blob it found or
      installed stays where it is. */
  ghost predicate PutFits(w: World, s: State, t: Tid, p: Put) {
    && p.output != [] && p.body == w.content(p.output) && p.live.output == p.output
    && (InProgress(p.phase) ==> t in s.pendings || t in s.reaped)
    && (p.phase.Waiting? || p.phase.Locked? || p.phase.Adopting? || p.phase.Renaming? ==>
          p.phase.inode in s.inodes && s.inodes[p.phase.inode].output == p.output)
    && (p.phase.Sizing? && p.phase.spare.Some? ==>
          p.phase.spare.value in s.inodes && s.inodes[p.phase.spare.value].output == p.output)
    && (w.stripes && (p.phase.Adopting? || p.phase.Sizing?) ==> p.output in s.blobs)
  }

  ghost predicate GetFits(w: World, s: State, g: Get) {
    && !g.phase.Mismatched?
    && (!g.phase.Miss? ==> g.output != [] && g.size == |w.content(g.output)|)
    && (g.phase.Opening? || g.phase.OpenLocked? || g.phase.Decoding? || g.phase.Hit? ==>
          g.phase.path.store == g.store && g.phase.path.output == g.output)
    && (g.phase.Decoding? ==> g.phase.inode in s.inodes && s.inodes[g.phase.inode].output == g.output)
  }

  /** Orphan collection of a shard only ever considers files of that shard's directory. */
  ghost predicate CollectionFits(c: Collection) {
    0 <= c.shard < 256 && forall o :: o in c.candidates ==> o != [] && StripeName(o) == ShardPrefix(c.shard)
  }

  ghost predicate ProcessesFit(w: World, s: State) {
    && (forall t :: t in s.puts ==> PutFits(w, s, t, s.puts[t]))
    && (forall t :: t in s.gets ==> GetFits(w, s, s.gets[t]))
    && (forall t :: t in s.collections ==> CollectionFits(s.collections[t]))
  }

  ghost predicate Inv(w: World, s: State) {
    SectionsExclusive(w, s) && TablesFaithful(w, s) && FilesFaithful(w, s) && ProcessesFit(w, s)
  }

  /******* What a step leaves alone *******/

  ghost predicate InodesKept(s: State, s': State) {
    forall i :: i in s.inodes ==> i in s'.inodes && s'.inodes[i].output == s.inodes[i].output
  }

  /** A put's step is invisible to every process but itself. */
  ghost predicate PutFrame(s: State, s': State, t: Tid) {
    && s'.gets == s.gets && s'.evictions == s.evictions && s'.collections == s.collections
    && (forall u :: u != t && u in s'.puts ==> u in s.puts && s'.puts[u] == s.puts[u])
    && (forall u :: u != t && u in s.pendings ==> u in s'.pendings)
    && s'.reaped == s.reaped && s'.doomed == s.doomed
    && s.blobs.Keys <= s'.blobs.Keys
    && InodesKept(s, s')
  }

  ghost predicate NoPutHolds(s: State, name: string) {
    forall u :: u in s.puts ==> !PutHolds(s.puts[u], name)
  }

  /** Any other step leaves the puts and their files alone, but for a blob unlinked while
      no put is inside its stripe's section. */
  ghost predicate Bystander(w: World, s: State, s': State) {
    && s'.puts == s.puts
    && s.pendings.Keys <= s'.pendings.Keys + s'.reaped
    && s.reaped <= s'.reaped
    && (w.stripes ==> forall o :: o in s.blobs && o !in s'.blobs ==> NoPutHolds(s, StripeName(o)))
    && InodesKept(s, s')
  }

  lemma PutsUndisturbed(w: World, s: State, s': State)
    requires ProcessesFit(w, s) && Bystander(w, s, s')
    ensures forall u :: u in s'.puts ==> PutFits(w, s', u, s'.puts[u])
  {
    forall u | u in s'.puts
      ensures PutFits(w, s', u, s'.puts[u])
    {
      var p := s.puts[u];
      assert PutFits(w, s, u, p);
      if p.phase.Adopting? || p.phase.Sizing? {
        assert PutHolds(p, StripeName(p.output));
      }
    }
  }

  /** The unlinkers: a get dropping a bad blob, an eviction, a collection. Each holds the
      stripe of the blob it unlinks, so no put is inside that section. */
  lemma UnlinkerExcludesPuts(w: World, s: State, o: Bytes)
    requires Inv(w, s) && w.stripes
    requires (exists u :: u in s.gets && GetHolds(s.gets[u], StripeName(o)))
          || (exists u :: u in s.evictions && EvictionHolds(s.evictions[u], StripeName(o)))
          || (exists u :: u in s.collections && CollectionHolds(s.collections[u], StripeName(o)))
    ensures NoPutHolds(s, StripeName(o))
  {
  }

  /** The stripe a collection takes is the stripe of every output it considers. */
  lemma CollectionHoldsItsOutputs(c: Collection, o: Bytes)
    requires CollectionFits(c) && c.phase.ShardLocked? && o in c.candidates
    ensures CollectionHolds(c, StripeName(o))
  {
  }

  ghost predicate HeldOrFree(w: World, s: State, name: string, heldBefore: bool) {
    heldBefore || MayEnter(w, s, name)
  }

  /** Sections stay exclusive when the puts do not move and every other process either
      was in the section it is in or found its stripe free. */
  lemma SectionsSurvive(w: World, s: State, s': State)
    requires SectionsExclusive(w, s) && s'.puts == s.puts
    requires forall u, name :: u in s'.gets && GetHolds(s'.gets[u], name) ==>
      HeldOrFree(w, s, name, u in s.gets && GetHolds(s.gets[u], name))
    requires forall u, name :: u in s'.evictions && EvictionHolds(s'.evictions[u], name) ==>
      HeldOrFree(w, s, name, u in s.evictions && EvictionHolds(s.evictions[u], name))
    requires forall u, name :: u in s'.collections && CollectionHolds(s'.collections[u], name) ==>
      HeldOrFree(w, s, name, u in s.collections && CollectionHolds(s.collections[u], name))
    ensures SectionsExclusive(w, s')
  {
    forall u, name | w.stripes && u in s'.puts && PutHolds(s'.puts[u], name)
      ensures Alone(s', u, name)
    {
      assert Alone(s, u, name);
    }
  }

  /******* Preservation by puts *******/

  lemma PutLeavesOthers(w: World, s: State, t: Tid, step: PutStep)
    requires PutEnabled(w, s, t, step)
    ensures var s' := ApplyPut(w, s, t, step);
      && s'.gets == s.gets && s'.evictions == s.evictions && s'.collections == s.collections
      && s'.reaped == s.reaped && s'.doomed == s.doomed && s'.now == s.now
      && (!step.CommitPut? ==> s'.tables == s.tables && s'.wrote == s.wrote && s'.named == s.named &&
                               s'.recordedAt == s.recordedAt)
  {
  }

  predicate InSection(step: PutStep) {
    step.Adopt? || step.Rename? || step.ReadSize?
  }

  lemma PutStepFrameInSection(w: World, s: State, t: Tid, step: PutStep)
    requires PutEnabled(w, s, t, step) && InSection(step)
    ensures PutFrame(s, ApplyPut(w, s, t, step), t)
  {
  }

  lemma PutStepFrameOutside(w: World, s: State, t: Tid, step: PutStep)
    requires PutEnabled(w, s, t, step) && !InSection(step)
    ensures PutFrame(s, ApplyPut(w, s, t, step), t)
  {
  }

  lemma PutStepFrame(w: World, s: State, t: Tid, step: PutStep)
    requires PutEnabled(w, s, t, step)
    ensures PutFrame(s, ApplyPut(w, s, t, step), t)
  {
    if InSection(step) {
      PutStepFrameInSection(w, s, t, step);
    } else {
      PutStepFrameOutside(w, s, t, step);
    }
  }

  lemma PutFitsInSection(w: World, s: State, t: Tid, step: PutStep)
    requires PutEnabled(w, s, t, step) && InSection(step) && PutFits(w, s, t, s.puts[t])
    ensures var s' := ApplyPut(w, s, t, step); t in s'.puts ==> PutFits(w, s', t, s'.puts[t])
  {
  }

  lemma PutFitsOutside(w: World, s: State, t: Tid, step: PutStep)
    requires PutEnabled(w, s, t, step) && !InSection(step)
    requires t in s.puts ==> PutFits(w, s, t, s.puts[t])
    ensures var s' := ApplyPut(w, s, t, step); t in s'.puts ==> PutFits(w, s', t, s'.puts[t])
  {
  }

  lemma PutFitsItself(w: World, s: State, t: Tid, step: PutStep)
    requires PutEnabled(w, s, t, step)
    requires t in s.puts ==> PutFits(w, s, t, s.puts[t])
    ensures var s' := ApplyPut(w, s, t, step); t in s'.puts ==> PutFits(w, s', t, s'.puts[t])
  {
    if InSection(step) {
      PutFitsInSection(w, s, t, step);
    } else {
      PutFitsOutside(w, s, t, step);
    }
  }

  lemma PutKeepsProcesses(w: World, s: State, s': State, t: Tid)
    requires ProcessesFit(w, s) && PutFrame(s, s', t)
    requires t in s'.puts ==> PutFits(w, s', t, s'.puts[t])
    ensures ProcessesFit(w, s')
  {
    forall u | u in s'.puts && u != t
      ensures PutFits(w, s', u, s'.puts[u])
    {
      assert PutFits(w, s, u, s.puts[u]);
    }
  }

  lemma PutKeepsTables(w: World, s: State, t: Tid, step: PutStep)
    requires TablesFaithful(w, s) && PutEnabled(w, s, t, step)
    requires t in s.puts ==> PutFits(w, s, t, s.puts[t])
    ensures TablesFaithful(w, ApplyPut(w, s, t, step))
  {
    if step.CommitPut? {
      UpsertKeepsInterned(s.tables, RecordOf(s.puts[t]), s.wrote, s.named);
    } else {
      PutLeavesOthers(w, s, t, step);
    }
  }

  lemma PutKeepsBlobs(w: World, s: State, t: Tid, step: PutStep)
    requires Sound(w) && BlobsFaithful(w, s) && PutEnabled(w, s, t, step)
    requires t in s.puts ==> PutFits(w, s, t, s.puts[t])
    ensures BlobsFaithful(w, ApplyPut(w, s, t, step))
  {
  }

  lemma PutKeepsLive(w: World, s: State, t: Tid, step: PutStep)
    requires LiveFaithful(w, s) && PutEnabled(w, s, t, step)
    requires t in s.puts ==> PutFits(w, s, t, s.puts[t])
    ensures LiveFaithful(w, ApplyPut(w, s, t, step))
  {
  }

  /** A step enters a section only by taking its stripe while that is free. */
  lemma PutTakesFreeStripe(w: World, s: State, t: Tid, step: PutStep, name: string)
    requires PutEnabled(w, s, t, step)
    ensures var s' := ApplyPut(w, s, t, step);
      t in s'.puts && PutHolds(s'.puts[t], name) ==> (t in s.puts && PutHolds(s.puts[t], name)) || MayEnter(w, s, name)
  {
  }

  lemma PutKeepsSections(w: World, s: State, t: Tid, step: PutStep)
    requires SectionsExclusive(w, s) && PutEnabled(w, s, t, step)
    ensures SectionsExclusive(w, ApplyPut(w, s, t, step))
  {
    var s' := ApplyPut(w, s, t, step);
    PutStepFrame(w, s, t, step);
    forall u, name | w.stripes && u in s'.puts && PutHolds(s'.puts[u], name)
      ensures Alone(s', u, name)
    {
      PutTakesFreeStripe(w, s, t, step, name);
      assert u != t ==> Alone(s, u, name);
    }
  }

  lemma PutKeeps(w: World, s: State, t: Tid, step: PutStep)
    requires Sound(w) && Inv(w, s) && PutEnabled(w, s, t, step)
    ensures Inv(w, ApplyPut(w, s, t, step))
  {
    PutKeepsSections(w, s, t, step);
    PutKeepsTables(w, s, t, step);
    PutKeepsBlobs(w, s, t, step);
    PutKeepsLive(w, s, t, step);
    PutStepFrame(w, s, t, step);
    PutFitsItself(w, s, t, step);
    PutKeepsProcesses(w, s, ApplyPut(w, s, t, step), t);
  }

  /******* Preservation by gets *******/

  lemma GetKeepsTables(w: World, s: State, t: Tid, step: GetStep)
    requires TablesFaithful(w, s) && GetEnabled(w, s, t, step)
    ensures TablesFaithful(w, ApplyGet(w, s, t, step))
  {
  }

  lemma GetKeepsLive(w: World, s: State, t: Tid, step: GetStep)
    requires FilesFaithful(w, s) && GetEnabled(w, s, t, step)
    requires t in s.gets ==> GetFits(w, s, s.gets[t])
    ensures LiveFaithful(w, ApplyGet(w, s, t, step))
  {
    if step.Decode? {
      assert Readable(w, s.inodes[s.gets[t].phase.inode]);
    }
  }

  lemma GetStepFrame(w: World, s: State, t: Tid, step: GetStep)
    requires GetEnabled(w, s, t, step)
    ensures var s' := ApplyGet(w, s, t, step);
      && s'.puts == s.puts && s'.evictions == s.evictions && s'.collections == s.collections
      && s'.pendings == s.pendings && s'.reaped == s.reaped && s'.doomed == s.doomed && s'.inodes == s.inodes
      && (forall u :: u in s'.gets && u != t ==> u in s.gets && s'.gets[u] == s.gets[u])
      && s'.blobs == if step.DropUnlink? then s.blobs - {s.gets[t].output} else s.blobs
  {
  }

  lemma GetIsBystander(w: World, s: State, t: Tid, step: GetStep)
    requires Inv(w, s) && GetEnabled(w, s, t, step)
    ensures Bystander(w, s, ApplyGet(w, s, t, step))
  {
    GetStepFrame(w, s, t, step);
    if step.DropUnlink? {
      assert GetHolds(s.gets[t], StripeName(s.gets[t].output));
      if w.stripes { UnlinkerExcludesPuts(w, s, s.gets[t].output); }
    }
  }

  lemma GetFitsItself(w: World, s: State, t: Tid, step: GetStep)
    requires TablesFaithful(w, s) && FilesFaithful(w, s) && GetEnabled(w, s, t, step)
    requires t in s.gets ==> GetFits(w, s, s.gets[t])
    ensures var s' := ApplyGet(w, s, t, step); t in s'.gets ==> GetFits(w, s', s'.gets[t])
  {
    if step.StartGet? {
      LookupFaithful(s.tables, s.wrote, s.named, step.action);
    }
  }

  lemma GetKeepsProcesses(w: World, s: State, s': State, t: Tid)
    requires ProcessesFit(w, s) && Bystander(w, s, s') && s'.collections == s.collections
    requires forall u :: u in s'.gets && u != t ==> u in s.gets && s'.gets[u] == s.gets[u]
    requires t in s'.gets ==> GetFits(w, s', s'.gets[t])
    ensures ProcessesFit(w, s')
  {
    PutsUndisturbed(w, s, s');
  }

  lemma GetTakesFreeStripe(w: World, s: State, t: Tid, step: GetStep, name: string)
    requires GetEnabled(w, s, t, step)
    ensures var s' := ApplyGet(w, s, t, step);
      t in s'.gets && GetHolds(s'.gets[t], name) ==> (t in s.gets && GetHolds(s.gets[t], name)) || MayEnter(w, s, name)
  {
  }

  lemma GetKeepsSections(w: World, s: State, t: Tid, step: GetStep)
    requires SectionsExclusive(w, s) && GetEnabled(w, s, t, step)
    ensures SectionsExclusive(w, ApplyGet(w, s, t, step))
  {
    var s' := ApplyGet(w, s, t, step);
    GetStepFrame(w, s, t, step);
    forall u, name | u in s'.gets && GetHolds(s'.gets[u], name)
      ensures HeldOrFree(w, s, name, u in s.gets && GetHolds(s.gets[u], name))
    {
      GetTakesFreeStripe(w, s, t, step, name);
    }
    SectionsSurvive(w, s, s');
  }

  lemma GetKeeps(w: World, s: State, t: Tid, step: GetStep)
    requires Inv(w, s) && GetEnabled(w, s, t, step)
    ensures Inv(w, ApplyGet(w, s, t, step))
  {
    GetKeepsSections(w, s, t, step);
    GetKeepsTables(w, s, t, step);
    GetKeepsLive(w, s, t, step);
    GetIsBystander(w, s, t, step);
    GetFitsItself(w, s, t, step);
    GetStepFrame(w, s, t, step);
    GetKeepsProcesses(w, s, ApplyGet(w, s, t, step), t);
  }

  /******* Preservation by maintenance *******/

  lemma EvictStepFrame(w: World, s: State, t: Tid, step: EvictStep)
    requires EvictEnabled(w, s, t, step)
    ensures var s' := ApplyEvict(s, t, step);
      && s'.puts == s.puts && s'.gets == s.gets && s'.collections == s.collections
      && s'.pendings == s.pendings && s'.reaped == s.reaped && s'.doomed == s.doomed && s'.inodes == s.inodes
      && s'.live == s.live && s'.materialized == s.materialized && s'.closing == s.closing
      && s'.now == s.now && s'.wrote == s.wrote && s'.named == s.named && s'.recordedAt == s.recordedAt
      && s'.tables == (if step.EvictRow? then DeleteOutput(s.tables, step.output) else s.tables)
      && s'.blobs == (if step.EvictUnlink? then s.blobs - {s.evictions[t].output} else s.blobs)
      && forall u, name :: u in s'.evictions && EvictionHolds(s'.evictions[u], name) ==>
           HeldOrFree(w, s, name, u in s.evictions && EvictionHolds(s.evictions[u], name))
  {
  }

  /** A step of maintenance touches rows and unlinks blobs no put is working on. */
  ghost predicate Maintains(w: World, s: State, s': State) {
    && s'.puts == s.puts && s'.gets == s.gets && s'.pendings == s.pendings
    && s'.reaped == s.reaped && s'.doomed == s.doomed
    && s'.inodes == s.inodes && s'.live == s.live && s'.materialized == s.materialized && s'.closing == s.closing
    && (forall o :: o in s'.blobs ==> o in s.blobs && s'.blobs[o] == s.blobs[o])
    && (w.stripes ==> forall o :: o in s.blobs && o !in s'.blobs ==> NoPutHolds(s, StripeName(o)))
  }

  lemma MaintenanceKeeps(w: World, s: State, s': State)
    requires Inv(w, s) && Maintains(w, s, s')
    requires SectionsExclusive(w, s') && TablesFaithful(w, s')
    requires forall t :: t in s'.collections ==> CollectionFits(s'.collections[t])
    ensures Inv(w, s')
  {
    PutsUndisturbed(w, s, s');
  }

  lemma EvictMaintains(w: World, s: State, t: Tid, step: EvictStep)
    requires Inv(w, s) && EvictEnabled(w, s, t, step)
    ensures Maintains(w, s, ApplyEvict(s, t, step))
  {
    EvictStepFrame(w, s, t, step);
    if step.EvictUnlink? {
      assert EvictionHolds(s.evictions[t], StripeName(s.evictions[t].output));
      if w.stripes { UnlinkerExcludesPuts(w, s, s.evictions[t].output); }
    }
  }

  lemma EvictKeepsTables(w: World, s: State, t: Tid, step: EvictStep)
    requires TablesFaithful(w, s) && EvictEnabled(w, s, t, step)
    ensures TablesFaithful(w, ApplyEvict(s, t, step))
  {
    EvictStepFrame(w, s, t, step);
    if step.EvictRow? {
      DeleteRowsKeepsInterned(s.tables, {step.output}, {}, s.wrote, s.named);
    }
  }

  lemma EvictKeepsSections(w: World, s: State, t: Tid, step: EvictStep)
    requires SectionsExclusive(w, s) && EvictEnabled(w, s, t, step)
    ensures SectionsExclusive(w, ApplyEvict(s, t, step))
  {
    EvictStepFrame(w, s, t, step);
    SectionsSurvive(w, s, ApplyEvict(s, t, step));
  }

  lemma EvictKeeps(w: World, s: State, t: Tid, step: EvictStep)
    requires Inv(w, s) && EvictEnabled(w, s, t, step)
    ensures Inv(w, ApplyEvict(s, t, step))
  {
    EvictStepFrame(w, s, t, step);
    EvictMaintains(w, s, t, step);
    EvictKeepsTables(w, s, t, step);
    EvictKeepsSections(w, s, t, step);
    MaintenanceKeeps(w, s, ApplyEvict(s, t, step));
  }

  lemma CollectStepFrame(w: World, s: State, t: Tid, step: CollectStep)
    requires CollectEnabled(w, s, t, step)
    ensures var s' := ApplyCollect(w, s, t, step);
      && s'.puts == s.puts && s'.gets == s.gets && s'.evictions == s.evictions
      && s'.pendings == s.pendings && s'.reaped == s.reaped && s'.doomed == s.doomed && s'.inodes == s.inodes
      && s'.live == s.live && s'.materialized == s.materialized && s'.closing == s.closing
      && s'.now == s.now && s'.tables == s.tables
      && s'.wrote == s.wrote && s'.named == s.named && s'.recordedAt == s.recordedAt
      && s'.blobs == if step.RemoveOrphan? then s.blobs - {step.output} else s.blobs
  {
  }

  lemma CollectTakesFreeStripe(w: World, s: State, t: Tid, step: CollectStep)
    requires CollectEnabled(w, s, t, step)
    ensures var s' := ApplyCollect(w, s, t, step);
      forall u, name :: u in s'.collections && CollectionHolds(s'.collections[u], name) ==>
        HeldOrFree(w, s, name, u in s.collections && CollectionHolds(s.collections[u], name))
  {
  }

  lemma CollectFitsItself(w: World, s: State, t: Tid, step: CollectStep)
    requires CollectEnabled(w, s, t, step) && BlobsFaithful(w, s)
    requires forall u :: u in s.collections ==> CollectionFits(s.collections[u])
    ensures forall u :: u in ApplyCollect(w, s, t, step).collections ==>
      CollectionFits(ApplyCollect(w, s, t, step).collections[u])
  {
  }

  lemma CollectMaintains(w: World, s: State, t: Tid, step: CollectStep)
    requires Inv(w, s) && CollectEnabled(w, s, t, step)
    ensures Maintains(w, s, ApplyCollect(w, s, t, step))
  {
    CollectStepFrame(w, s, t, step);
    if step.RemoveOrphan? {
      CollectionHoldsItsOutputs(s.collections[t], step.output);
      if w.stripes { UnlinkerExcludesPuts(w, s, step.output); }
    }
  }

  lemma CollectKeepsSections(w: World, s: State, t: Tid, step: CollectStep)
    requires SectionsExclusive(w, s) && CollectEnabled(w, s, t, step)
    ensures SectionsExclusive(w, ApplyCollect(w, s, t, step))
  {
    CollectStepFrame(w, s, t, step);
    CollectTakesFreeStripe(w, s, t, step);
    SectionsSurvive(w, s, ApplyCollect(w, s, t, step));
  }

  lemma CollectKeeps(w: World, s: State, t: Tid, step: CollectStep)
    requires Inv(w, s) && CollectEnabled(w, s, t, step)
    ensures Inv(w, ApplyCollect(w, s, t, step))
  {
    CollectStepFrame(w, s, t, step);
    CollectMaintains(w, s, t, step);
    CollectFitsItself(w, s, t, step);
    CollectKeepsSections(w, s, t, step);
    MaintenanceKeeps(w, s, ApplyCollect(w, s, t, step));
  }

  lemma OtherKeepsTables(w: World, s: State, step: OtherStep)
    requires TablesFaithful(w, s) && OtherEnabled(w, s, step)
    ensures TablesFaithful(w, ApplyOther(s, step))
  {
    match step
    case ExpireRows(os, es, _) => DeleteRowsKeepsInterned(s.tables, os, es, s.wrote, s.named);
    case TouchRows(es, os) => TouchKeepsInterned(s.tables, es, os, s.wrote, s.named);
    case _ =>
  }

  lemma OtherKeepsFiles(w: World, s: State, step: OtherStep)
    requires FilesFaithful(w, s) && OtherEnabled(w, s, step)
    ensures FilesFaithful(w, ApplyOther(s, step))
  {
  }

  lemma OtherStepFrame(w: World, s: State, step: OtherStep)
    requires OtherEnabled(w, s, step)
    ensures var s' := ApplyOther(s, step);
      && s'.gets == s.gets && s'.evictions == s.evictions && s'.collections == s.collections
      && s'.doomed == (if step.JudgePending? then s.doomed + {step.put} else s.doomed)
      && s'.reaped == (if step.ReapPending? then s.reaped + {step.put} else s.reaped)
      && Bystander(w, s, s')
  {
  }

  lemma OtherKeeps(w: World, s: State, step: OtherStep)
    requires Inv(w, s) && OtherEnabled(w, s, step)
    ensures Inv(w, ApplyOther(s, step))
  {
    var s' := ApplyOther(s, step);
    OtherStepFrame(w, s, step);
    PutsUndisturbed(w, s, s');
    SectionsSurvive(w, s, s');
    OtherKeepsTables(w, s, step);
    OtherKeepsFiles(w, s, step);
  }

  lemma StepKeeps(w: World, s: State, step: Step)
    requires Sound(w) && Inv(w, s) && Enabled(w, s, step)
    ensures Inv(w, Apply(w, s, step))
  {
    match step
    case PutBy(t, p) => PutKeeps(w, s, t, p);
    case GetBy(t, g) => GetKeeps(w, s, t, g);
    case EvictBy(t, e) => EvictKeeps(w, s, t, e);
    case CollectBy(t, c) => CollectKeeps(w, s, t, c);
    case Other(o) => OtherKeeps(w, s, o);
  }

  lemma EmptyFits(w: World, now: int)
    ensures Inv(w, Empty(now))
  {
  }

  lemma RunStepKeeps(w: World, states: seq<State>, steps: seq<Step>, m: nat, n: nat)
    requires Sound(w) && IsRun(w, states, steps) && m < |steps| && n == m + 1
    requires Inv(w, states[m])
    ensures Inv(w, states[n])
  {
    StepKeeps(w, states[m], steps[m]);
  }

  lemma {:induction false} RunKeeps(w: World, states: seq<State>, steps: seq<Step>, n: nat)
    requires Sound(w) && IsRun(w, states, steps) && n < |states|
    ensures Inv(w, states[n])
  {
    if n == 0 {
      EmptyFits(w, states[0].now);
    } else {
      var m: nat := n - 1;
      RunKeeps(w, states, steps, m);
      RunStepKeeps(w, states, steps, m, n);
    }
  }

  /******* What that means for a get *******/

  ghost predicate HitAt(states: seq<State>, n: nat, t: Tid)
    requires n < |states|
  {
    t in states[n].gets && states[n].gets[t].phase.Hit?
  }

  /** At step j the get looked its action up, and the entry it found named its output:
      the output of the last put committed for that action. */
  ghost predicate LookedUpAt(states: seq<State>, steps: seq<Step>, j: nat, t: Tid, g: Get)
    requires |states| == |steps| + 1
  {
    && j < |steps| && steps[j] == GetBy(t, StartGet(g.store, g.action))
    && g.action in states[j].named && states[j].named[g.action] == g.output
  }

  lemma {:induction false} EveryGetLookedUp(w: World, states: seq<State>, steps: seq<Step>, n: nat, t: Tid)
    requires Sound(w) && IsRun(w, states, steps) && n < |states|
    requires t in states[n].gets && !states[n].gets[t].phase.Miss?
    ensures exists j: nat :: j < n && LookedUpAt(states, steps, j, t, states[n].gets[t])
  {
    RunKeeps(w, states, steps, n - 1);
    var s, step := states[n - 1], steps[n - 1];
    var g := states[n].gets[t];
    if step.GetBy? && step.t == t && step.getStep.StartGet? {
      LookupFaithful(s.tables, s.wrote, s.named, step.getStep.action);
      RunKeeps(w, states, steps, n);
      assert LookedUpAt(states, steps, n - 1, t, g);
    } else {
      GetIdentityKept(w, s, step, t);
      EveryGetLookedUp(w, states, steps, n - 1, t);
      var j: nat :| j < n - 1 && LookedUpAt(states, steps, j, t, s.gets[t]);
      assert LookedUpAt(states, steps, j, t, g);
    }
  }

  lemma GetIdentityKept(w: World, s: State, step: Step, t: Tid)
    requires Enabled(w, s, step) && t in Apply(w, s, step).gets && !Apply(w, s, step).gets[t].phase.Miss?
    requires !(step.GetBy? && step.t == t && step.getStep.StartGet?)
    ensures t in s.gets && !s.gets[t].phase.Miss?
    ensures var g, g' := s.gets[t], Apply(w, s, step).gets[t];
      g'.store == g.store && g'.action == g.action && g'.output == g.output && g'.size == g.size
  {
    match step
    case PutBy(u, p) => PutStepFrame(w, s, u, p);
    case GetBy(u, g) => GetStepFrame(w, s, u, g); if !g.StartGet? { GetStepIdentity(w, s, u, g); }
    case EvictBy(u, e) => EvictStepFrame(w, s, u, e);
    case CollectBy(u, c) => CollectStepFrame(w, s, u, c);
    case Other(o) => OtherStepFrame(w, s, o);
  }

  lemma GetStepIdentity(w: World, s: State, t: Tid, step: GetStep)
    requires GetEnabled(w, s, t, step) && !step.StartGet?
    ensures var s' := ApplyGet(w, s, t, step); t in s'.gets ==>
      var g, g' := s.gets[t], s'.gets[t];
      && g'.store == g.store && g'.action == g.action && g'.output == g.output && g'.size == g.size
      && (g.phase.Miss? ==> g'.phase.Miss?)
  {
  }

  /** The central promise. In every interleaving, with crashes anywhere, a get that hits
      answers with the output its action's entry named when it looked, with that
      output's size, and with a file holding exactly that output's bytes: at the step
      that answers the file is there, and until its store begins to close it is intact for
      as long as it is. Closing strips it or takes it away. */
  lemma GetHitIsRight(w: World, states: seq<State>, steps: seq<Step>, n: nat, t: Tid)
    requires Sound(w) && IsRun(w, states, steps) && n < |states| && HitAt(states, n, t)
    ensures var g := states[n].gets[t];
      && (exists j: nat :: j < n && LookedUpAt(states, steps, j, t, g))
      && g.size == |w.content(g.output)|
      && (g.phase.path in states[n].live && g.store !in states[n].closing ==>
            states[n].live[g.phase.path] == w.content(g.output))
      && (n > 0 && !HitAt(states, n - 1, t) ==> g.phase.path in states[n].live)
  {
    EveryGetLookedUp(w, states, steps, n, t);
    RunKeeps(w, states, steps, n);
    if n > 0 && !HitAt(states, n - 1, t) {
      HitFindsFile(w, states[n - 1], steps[n - 1], t);
    }
  }

  lemma HitFindsFile(w: World, s: State, step: Step, t: Tid)
    requires Enabled(w, s, step)
    requires t in Apply(w, s, step).gets && Apply(w, s, step).gets[t].phase.Hit?
    requires !(t in s.gets && s.gets[t].phase.Hit?)
    ensures Apply(w, s, step).gets[t].phase.path in Apply(w, s, step).live
  {
    match step
    case PutBy(u, p) => PutStepFrame(w, s, u, p);
    case GetBy(u, g) => GetStepFrame(w, s, u, g); GetStepHits(w, s, u, g);
    case EvictBy(u, e) => EvictStepFrame(w, s, u, e);
    case CollectBy(u, c) => CollectStepFrame(w, s, u, c);
    case Other(o) => OtherStepFrame(w, s, o);
  }

  lemma GetStepHits(w: World, s: State, t: Tid, step: GetStep)
    requires GetEnabled(w, s, t, step)
    requires !(t in s.gets && s.gets[t].phase.Hit?)
    ensures var s' := ApplyGet(w, s, t, step);
      t in s'.gets && s'.gets[t].phase.Hit? ==> s'.gets[t].phase.path in s'.live
  {
  }

  /******* What that means for a put *******/

  /** Once a put's pending file exists, only its being collected as stale can take it: in
      every reachable state it is there until the put installs it or gives up. Inside
      the stripe the blob a put decided to adopt can be stamped, and the one it adopted
      or renamed into place can be sized: no eviction, bad-entry drop or orphan
      collection has it. */
  lemma InstallCannotFail(w: World, states: seq<State>, steps: seq<Step>, n: nat, t: Tid)
    requires Sound(w) && IsRun(w, states, steps) && n < |states| && t in states[n].puts
    ensures var s, p := states[n], states[n].puts[t];
      && (p.phase.Renaming? && t !in s.reaped ==> ApplyRename(s, t).puts[t].phase.Sizing?)
      && (w.stripes && p.phase.Adopting? ==>
            ApplyAdopt(s, t).puts[t].phase.Sizing? && ApplyAdopt(s, t).puts[t].phase.stamp == s.now)
      && (w.stripes && p.phase.Sizing? ==> ApplyReadSize(s, t).puts[t].phase.Installed?)
      && (InProgress(p.phase) ==> t in s.pendings || t in s.reaped)
  {
    RunKeeps(w, states, steps, n);
  }

  /** An upkeep pass finds a pending file unwritten for longer than the mtime interval. */
  predicate Judges(w: World, s: State, step: Step, t: Tid) {
    step == Other(JudgePending(t)) && t in s.pendings && s.pendings[t] < s.now - w.mtimeInterval
  }

  /** A pending file is removed as stale only by an upkeep pass that had found it unwritten
      for longer than the mtime interval. Its put may have written since: nothing looks
      again before the removal. */
  lemma {:induction false} ReapedWasStale(w: World, states: seq<State>, steps: seq<Step>, n: nat, t: Tid)
    requires IsRun(w, states, steps) && n < |states| && t in states[n].reaped
    ensures exists j, i :: 0 <= j < i < n && Judges(w, states[j], steps[j], t) && steps[i] == Other(ReapPending(t))
  {
    var m: nat := n - 1;
    if steps[m] == Other(ReapPending(t)) {
      DoomedWasStale(w, states, steps, m, t);
    } else {
      OnlyReapingReaps(w, states[m], steps[m], t);
      ReapedWasStale(w, states, steps, m, t);
    }
  }

  lemma {:induction false} DoomedWasStale(w: World, states: seq<State>, steps: seq<Step>, n: nat, t: Tid)
    requires IsRun(w, states, steps) && n < |states| && t in states[n].doomed
    ensures exists j :: 0 <= j < n && Judges(w, states[j], steps[j], t)
  {
    var m: nat := n - 1;
    if steps[m] != Other(JudgePending(t)) {
      OnlyReapingReaps(w, states[m], steps[m], t);
      DoomedWasStale(w, states, steps, m, t);
    }
  }

  lemma OnlyReapingReaps(w: World, s: State, step: Step, t: Tid)
    requires Enabled(w, s, step)
    ensures t in Apply(w, s, step).reaped && step != Other(ReapPending(t)) ==> t in s.reaped
    ensures t in Apply(w, s, step).doomed && step != Other(JudgePending(t)) ==> t in s.doomed
  {
    match step
    case PutBy(u, p) => PutStepFrame(w, s, u, p);
    case GetBy(u, g) => GetStepFrame(w, s, u, g);
    case EvictBy(u, e) => EvictStepFrame(w, s, u, e);
    case CollectBy(u, c) => CollectStepFrame(w, s, u, c);
    case Other(o) => OtherStepFrame(w, s, o);
  }
}
