/** Orphan collection: listing the files no row names, shard by shard, and unlinking the
    listed ones that are still unnamed and old enough. */
module OrphanScan {
  import opened Ids

  datatype Tree = Blobs | Retained

  /** A file below one shard's directory; `under` is the directories in between, which the
      cache never makes but the walk goes into. */
  datatype Path = Path(tree: Tree, dir: string, under: seq<string>, base: string)

  type Files = map<Path, int>  // modification times
  type Rows = map<Bytes, int>  // access times

  /** Access times are 64-bit, so this cutoff keeps every row. */
  const KEEP_EVERY_OUTPUT := -0x8000_0000_0000_0000

  predicate AreInt64(rows: Rows) {
    forall o :: o in rows ==> -0x8000_0000_0000_0000 <= rows[o] <= 0x7FFF_FFFF_FFFF_FFFF
  }

  /** The names one shard's range query returns. */
  function ReferencedNames(rows: Rows, shard: int, minAccessedAt: int): set<string>
    requires 0 <= shard < 256
  {
    set o | o in ShardKeys(rows.Keys, shard) && rows[o] >= minAccessedAt :: HexEncode(o)
  }

  function Extensions(tree: Tree): seq<string> {
    if tree.Blobs? then [".zst"] else [".a", ".go"]
  }

  lemma NoEmptyExtension(tree: Tree, ext: string)
    requires ext in Extensions(tree)
    ensures ext != ""
  {
    var exts := Extensions(tree);
    assert |exts[0]| > 0 && exts[|exts| - 1] != "";
  }

  predicate InShard(p: Path, shard: int) {
    0 <= shard < 256 && p.dir == ShardPrefix(shard)
  }

  predicate Scanned(p: Path, tree: Tree, dir: string) {
    p.tree == tree && p.dir == dir && Ext(p.base) in Extensions(tree) && !MatchesPending(p.base)
  }

  /** Some row of this shard names the file, at or after a cutoff. */
  predicate Names(rows: Rows, o: Bytes, p: Path, minAccessedAt: int) {
    && o in rows && rows[o] >= minAccessedAt
    && o != [] && p.dir == ShardPrefix(o[0] as int) && Stem(p.base) == HexEncode(o)
  }

  /** A file that no row names, in a directory named by a byte. */
  ghost predicate IsOrphan(files: Files, rows: Rows, p: Path, includeBlobs: bool, minAccessedAt: int) {
    && p in files && (p.tree.Blobs? ==> includeBlobs)
    && (exists shard :: InShard(p, shard))
    && Scanned(p, p.tree, p.dir)
    && forall o :: !Names(rows, o, p, minAccessedAt)
  }

  /** Within one shard's directory, not being in the query's answer is being named by no
      row at all. */
  lemma UnreferencedIsUnnamed(rows: Rows, shard: int, p: Path, minAccessedAt: int)
    requires InShard(p, shard)
    ensures Stem(p.base) in ReferencedNames(rows, shard, minAccessedAt) <==>
            exists o :: Names(rows, o, p, minAccessedAt)
  {
    forall o: Bytes | o != []
      ensures InShardRange(shard, o) <==> p.dir == ShardPrefix(o[0] as int)
    {
      ShardRangesPartition(shard, o);
      if p.dir == ShardPrefix(o[0] as int) {
        ShardPrefixInjective(shard, o[0] as int);
      }
    }
    ShardRangesPartition(shard, []);
    if Stem(p.base) in ReferencedNames(rows, shard, minAccessedAt) {
      var o :| o in ShardKeys(rows.Keys, shard) && rows[o] >= minAccessedAt && HexEncode(o) == Stem(p.base);
      assert Names(rows, o, p, minAccessedAt);
    }
    if o :| Names(rows, o, p, minAccessedAt) {
      assert HexEncode(o) in ReferencedNames(rows, shard, minAccessedAt);
    }
  }

  /** Where the cache itself puts files, directly in the shard directory, being named by a
      row is being that output's own file. */
  lemma OneLevelExact(rows: Rows, p: Path, shard: int, o: Bytes)
    requires o in rows && o != [] && rows[o] >= -0x8000_0000_0000_0000
    requires p.under == [] && Ext(p.base) != "" && InShard(p, shard)
    ensures Names(rows, o, p, KEEP_EVERY_OUTPUT) <==> FilePath(p.dir, p.base) == OutputPath(o, Ext(p.base))
  {
    var own := o[0] as int;
    OutputDir(o, Ext(p.base));
    ShardRangesPartition(own, o);
    if shard == own {
      StemNamesOutput(shard, p.base, o);
    } else {
      assert ShardPrefix(shard) != ShardPrefix(own) by {
        if ShardPrefix(shard) == ShardPrefix(own) { ShardPrefixInjective(shard, own); }
      }
    }
  }

  lemma UnnamedIsUnowned(rows: Rows, p: Path, shard: int)
    requires p.under == [] && Ext(p.base) != "" && InShard(p, shard)
    requires AreInt64(rows)
    ensures (forall o :: !Names(rows, o, p, KEEP_EVERY_OUTPUT)) <==>
            forall o :: o in rows && o != [] ==> FilePath(p.dir, p.base) != OutputPath(o, Ext(p.base))
  {
    forall o | o in rows && o != []
      ensures Names(rows, o, p, KEEP_EVERY_OUTPUT) <==> FilePath(p.dir, p.base) == OutputPath(o, Ext(p.base))
    {
      OneLevelExact(rows, p, shard, o);
    }
  }

  lemma ScannedHasExt(p: Path)
    requires Scanned(p, p.tree, p.dir)
    ensures Ext(p.base) != ""
  {
    NoEmptyExtension(p.tree, Ext(p.base));
  }

  /** So among the files directly in a shard's directory, the orphans are the ones of the
      right kind, no put's temporary file, and no row's own file. */
  lemma OrphanIffUnowned(files: Files, rows: Rows, p: Path, shard: int, includeBlobs: bool)
    requires p in files && p.under == [] && InShard(p, shard)
    requires AreInt64(rows)
    ensures IsOrphan(files, rows, p, includeBlobs, KEEP_EVERY_OUTPUT) <==>
      && (p.tree.Blobs? ==> includeBlobs)
      && Scanned(p, p.tree, p.dir)
      && forall o :: o in rows && o != [] ==> FilePath(p.dir, p.base) != OutputPath(o, Ext(p.base))
  {
    if Scanned(p, p.tree, p.dir) {
      ScannedHasExt(p);
      UnnamedIsUnowned(rows, p, shard);
    }
  }

  /******* What that means for the files the cache makes *******/

  /** The file is some row's own: a blob, or a retained archive or source. */
  ghost predicate IsOwned(rows: Rows, p: Path) {
    p.under == [] && exists o :: o in rows && o != [] && FilePath(p.dir, p.base) == OutputPath(o, Ext(p.base))
  }

  /** The file is where the cache puts this output's own. */
  predicate IsFileOf(o: Bytes, p: Path)
    requires o != []
  {
    && p.under == [] && p.dir == ShardPrefix(o[0] as int)
    && match p.tree
       case Blobs => p.base == HexEncode(o) + ".zst"
       case Retained => p.base == HexEncode(o) + ".a" || p.base == HexEncode(o) + ".go"
  }

  /** The cache's own file of an output is one a pass looks at, and the output's by its name. */
  lemma OwnFileIsScanned(o: Bytes, p: Path)
    requires o != [] && IsFileOf(o, p)
    ensures Scanned(p, p.tree, p.dir) && Stem(p.base) == HexEncode(o) && InShard(p, o[0] as int)
    ensures FilePath(p.dir, p.base) == OutputPath(o, Ext(p.base))
  {
    var ext := if p.tree.Blobs? then ".zst" else if p.base == HexEncode(o) + ".a" then ".a" else ".go";
    OwnExt(o, ext);
    OutputDir(o, ext);
  }

  lemma OwnExt(o: Bytes, ext: string)
    requires ext == ".zst" || ext == ".a" || ext == ".go"
    ensures Ext(HexEncode(o) + ext) == ext && Stem(HexEncode(o) + ext) == HexEncode(o)
    ensures !MatchesPending(HexEncode(o) + ext)
  {
    HexHasNoPunctuation(o);
    ExtOfConcat(HexEncode(o), ext);
    if ext == ".zst" {
      BlobNamesDoNotMatch(o);
    } else {
      EndsOtherwise(HexEncode(o), ext);
    }
  }

  lemma EndsOtherwise(stem: string, ext: string)
    requires ext == ".a" || ext == ".go"
    ensures !MatchesPending(stem + ext)
  {
    var base := stem + ext;
    assert base[|base| - 1] == ext[|ext| - 1] != ".zst"[3];
    if |base| >= 4 {
      assert base[|base| - 4..][3] == base[|base| - 1];
    }
  }

  /** A row's own file is no orphan, whatever else is there, */
  lemma OwnedIsNoOrphan(files: Files, rows: Rows, p: Path, includeBlobs: bool)
    requires AreInt64(rows) && IsOwned(rows, p)
    ensures !IsOrphan(files, rows, p, includeBlobs, KEEP_EVERY_OUTPUT)
  {
    if IsOrphan(files, rows, p, includeBlobs, KEEP_EVERY_OUTPUT) {
      var shard :| InShard(p, shard);
      OrphanIffUnowned(files, rows, p, shard, includeBlobs);
    }
  }

  /** nor does removal take it from any plan; */
  lemma OwnedIsNotRemovable(files: Files, rows: Rows, orphans: map<int, seq<Path>>, p: Path, modifiedBefore: int)
    requires AreInt64(rows) && IsOwned(rows, p) && Sharded(orphans) && Ext(p.base) != ""
    ensures !Removable(files, rows, orphans, p, modifiedBefore)
  {
    if Removable(files, rows, orphans, p, modifiedBefore) {
      var shard :| 0 <= shard < 256 && shard in orphans && p in orphans[shard] &&
                   Goes(files, ReferencedNames(rows, shard, KEEP_EVERY_OUTPUT), p, modifiedBefore);
      assert InShard(p, shard);
      UnreferencedIsUnnamed(rows, shard, p, KEEP_EVERY_OUTPUT);
      UnnamedIsUnowned(rows, p, shard);
    }
  }

  /** and the cache's own file of an output without a row is one. */
  lemma UnrecordedIsOrphan(files: Files, rows: Rows, o: Bytes, p: Path, includeBlobs: bool)
    requires AreInt64(rows) && o != [] && o !in rows && IsFileOf(o, p) && p in files
    requires p.tree.Blobs? ==> includeBlobs
    ensures IsOrphan(files, rows, p, includeBlobs, KEEP_EVERY_OUTPUT)
  {
    OwnFileIsScanned(o, p);
    forall q | q in rows && q != []
      ensures FilePath(p.dir, p.base) != OutputPath(q, Ext(p.base))
    {
      if FilePath(p.dir, p.base) == OutputPath(q, Ext(p.base)) {
        assert HexEncode(q) + Ext(p.base) == HexEncode(o) + Ext(p.base);
        SameStem(HexEncode(q), HexEncode(o), Ext(p.base));
        HexInjective(q, o);
      }
    }
    OrphanIffUnowned(files, rows, p, o[0] as int, includeBlobs);
  }

  /** It is the cache's own file of some output without a row. */
  ghost predicate IsUnrecorded(rows: Rows, p: Path) {
    exists o :: o != [] && o !in rows && IsFileOf(o, p)
  }

  lemma UnrecordedIsRemovable(files: Files, rows: Rows, orphans: map<int, seq<Path>>, p: Path, modifiedBefore: int)
    requires AreInt64(rows) && Sharded(orphans) && IsUnrecorded(rows, p) && IsPlanned(orphans, p)
    requires p in files && files[p] < modifiedBefore
    ensures Removable(files, rows, orphans, p, modifiedBefore)
  {
    var o :| o != [] && o !in rows && IsFileOf(o, p);
    UnrecordedIsOrphan(files, rows, o, p, true);
    var shard :| shard in orphans && p in orphans[shard];
    assert InShard(p, shard);
    UnreferencedIsUnnamed(rows, shard, p, KEEP_EVERY_OUTPUT);
  }

  ghost predicate IsPlanned(orphans: map<int, seq<Path>>, p: Path) {
    exists shard :: shard in orphans && p in orphans[shard]
  }

  lemma SameStem(a: string, b: string, ext: string)
    requires a + ext == b + ext
    ensures a == b
  {
    assert |a| == |b| && a == (a + ext)[..|a|] && b == (b + ext)[..|b|];
  }

  /** A put's temporary file is no orphan, wherever it is. */
  lemma PendingIsNoOrphan(files: Files, rows: Rows, p: Path, key: Bytes, random: string, includeBlobs: bool,
                          cutoff: int)
    requires p.base == HexEncode(key) + "-pending-" + random + ".zst"
    ensures !IsOrphan(files, rows, p, includeBlobs, cutoff)
  {
    PendingNamesMatch(key, random);
  }

  /** The files a pass plans and then finds still unnamed and old enough. */
  ghost predicate Removable(files: Files, rows: Rows, orphans: map<int, seq<Path>>, p: Path, modifiedBefore: int) {
    exists shard :: 0 <= shard < 256 && shard in orphans && p in orphans[shard] &&
                    Goes(files, ReferencedNames(rows, shard, KEEP_EVERY_OUTPUT), p, modifiedBefore)
  }

  predicate Goes(files: Files, referenced: set<string>, p: Path, modifiedBefore: int) {
    p in files && files[p] < modifiedBefore && Stem(p.base) !in referenced
  }

  /** A plan files every candidate under its own shard. */
  ghost predicate Sharded(orphans: map<int, seq<Path>>) {
    forall shard :: shard in orphans ==>
      0 <= shard < 256 && orphans[shard] != [] && forall p :: p in orphans[shard] ==> InShard(p, shard)
  }

  /** The shards below `upto` are planned, and no other. */
  ghost predicate Planned(files: Files, rows: Rows, orphans: map<int, seq<Path>>, upto: int, includeBlobs: bool,
                          cutoff: int)
  {
    && Sharded(orphans)
    && (forall s :: s in orphans ==> s < upto)
    && (forall s, p: Path :: s < upto && InShard(p, s) ==>
          (s in orphans && p in orphans[s] <==> IsOrphan(files, rows, p, includeBlobs, cutoff)))
  }

  lemma PlanTakesShard(files: Files, rows: Rows, orphans: map<int, seq<Path>>, shard: int, found: seq<Path>,
                       includeBlobs: bool, cutoff: int)
    requires 0 <= shard < 256 && Planned(files, rows, orphans, shard, includeBlobs, cutoff)
    requires forall p :: p in found ==> InShard(p, shard)
    requires forall p: Path :: InShard(p, shard) ==> (p in found <==> IsOrphan(files, rows, p, includeBlobs, cutoff))
    ensures
      var more := if |found| > 0 then orphans[shard := found] else orphans;
      Planned(files, rows, more, shard + 1, includeBlobs, cutoff)
  {
    var next := if |found| > 0 then orphans[shard := found] else orphans;
    forall s, p: Path | s < shard + 1 && InShard(p, s)
      ensures s in next && p in next[s] <==> IsOrphan(files, rows, p, includeBlobs, cutoff)
    {
      if s == shard {
        assert p in found <==> IsOrphan(files, rows, p, includeBlobs, cutoff);
      } else {
        assert s in next && p in next[s] <==> s in orphans && p in orphans[s];
      }
    }
  }

  lemma PlanIsExact(files: Files, rows: Rows, orphans: map<int, seq<Path>>, includeBlobs: bool, cutoff: int)
    requires Planned(files, rows, orphans, 256, includeBlobs, cutoff)
    ensures forall p :: IsPlanned(orphans, p) <==>
      IsOrphan(files, rows, p, includeBlobs, cutoff)
  {
    forall shard, p | shard in orphans && p in orphans[shard]
      ensures IsOrphan(files, rows, p, includeBlobs, cutoff)
    {
      assert InShard(p, shard);
    }
    forall p | IsOrphan(files, rows, p, includeBlobs, cutoff)
      ensures IsPlanned(orphans, p)
    {
      var shard :| InShard(p, shard);
      assert shard in orphans && p in orphans[shard];
    }
  }

  class Collector {
    var files: Files
    var rows: Rows

    method OrphanFilesInDir(tree: Tree, dir: string, referenced: set<string>) returns (orphans: seq<Path>)
      ensures forall p :: p in orphans <==>
        p in files && Scanned(p, tree, dir) && Stem(p.base) !in referenced
    {
      orphans := [];
      var walk := set p | p in files && p.tree == tree && p.dir == dir;
      while walk != {}
        invariant forall p :: p in walk ==> p in files && p.tree == tree && p.dir == dir
        invariant forall p :: p in files && p.tree == tree && p.dir == dir && p !in walk ==>
          (p in orphans <==> Scanned(p, tree, dir) && Stem(p.base) !in referenced)
        invariant forall p :: p in orphans ==> p in files && p !in walk && p.tree == tree && p.dir == dir
      {
        var p :| p in walk;
        walk := walk - {p};
        if Ext(p.base) !in Extensions(tree) {
          continue;
        }
        if MatchesPending(p.base) {
          continue;
        }
        if Stem(p.base) !in referenced {
          orphans := orphans + [p];
        }
      }
    }

    /** Lists exactly the orphans, by shard. */
    method PlanOrphans(includeBlobs: bool, entryCutoff: int) returns (orphans: map<int, seq<Path>>)
      ensures Sharded(orphans)
      ensures forall p :: IsPlanned(orphans, p) <==>
        IsOrphan(files, rows, p, includeBlobs, entryCutoff)
    {
      orphans := map[];
      var shard := 0;
      while shard < 256
        invariant 0 <= shard <= 256
        invariant Planned(files, rows, orphans, shard, includeBlobs, entryCutoff)
      {
        var referenced := ReferencedNames(rows, shard, entryCutoff);
        var prefix := ShardPrefix(shard);
        var found: seq<Path> := [];
        if includeBlobs {
          found := OrphanFilesInDir(Blobs, prefix, referenced);
        }
        var retained := OrphanFilesInDir(Retained, prefix, referenced);
        found := found + retained;
        forall p: Path | InShard(p, shard)
          ensures p in found <==> IsOrphan(files, rows, p, includeBlobs, entryCutoff)
        {
          UnreferencedIsUnnamed(rows, shard, p, entryCutoff);
        }
        PlanTakesShard(files, rows, orphans, shard, found, includeBlobs, entryCutoff);
        if |found| > 0 {
          orphans := orphans[shard := found];
        }
        shard := shard + 1;
      }
      PlanIsExact(files, rows, orphans, includeBlobs, entryCutoff);
    }

    method RemoveShardOrphans(paths: seq<Path>, referenced: set<string>, modifiedBefore: int)
      modifies this`files
      ensures files == old(files) - set p | p in paths && Goes(old(files), referenced, p, modifiedBefore)
    {
      var i := 0;
      while i < |paths|
        invariant 0 <= i <= |paths|
        invariant files == old(files) - set p | p in paths[..i] && Goes(old(files), referenced, p, modifiedBefore)
      {
        var p := paths[i];
        assert paths[..i + 1] == paths[..i] + [p];
        i := i + 1;
        if Stem(p.base) in referenced {
          continue;
        }
        if p in files && files[p] >= modifiedBefore {
          continue;
        }
        files := files - {p};
      }
      assert paths[..i] == paths;
    }

    /** Unlinks the planned files that are unnamed and old enough now, whatever changed
        since they were planned, and nothing else. No row's own file goes. */
    method RemoveOrphans(orphans: map<int, seq<Path>>, modifiedBefore: int)
      requires forall shard :: shard in orphans ==> 0 <= shard < 256
      modifies this`files
      ensures forall p :: p in files <==>
        p in old(files) && !Removable(old(files), rows, orphans, p, modifiedBefore)
      ensures forall p :: p in files ==> files[p] == old(files)[p]
      ensures AreInt64(rows) && Sharded(orphans) ==>
        forall p :: p in old(files) && IsOwned(rows, p) && Ext(p.base) != "" ==> p in files
      ensures AreInt64(rows) && Sharded(orphans) ==>
        forall p | p in old(files) && IsUnrecorded(rows, p) && IsPlanned(orphans, p) ::
          old(files)[p] < modifiedBefore ==> p !in files
    {
      if AreInt64(rows) && Sharded(orphans) {
        forall p | IsOwned(rows, p) && Ext(p.base) != ""
          ensures !Removable(files, rows, orphans, p, modifiedBefore)
        {
          OwnedIsNotRemovable(files, rows, orphans, p, modifiedBefore);
        }
        forall p | p in files && IsUnrecorded(rows, p) && IsPlanned(orphans, p) && files[p] < modifiedBefore
          ensures Removable(files, rows, orphans, p, modifiedBefore)
        {
          UnrecordedIsRemovable(files, rows, orphans, p, modifiedBefore);
        }
      }
      if |orphans| == 0 {
        return;
      }
      var shard := 0;
      while shard < 256
        invariant 0 <= shard <= 256
        invariant forall p :: p in files ==> p in old(files) && files[p] == old(files)[p]
        invariant forall p :: p in old(files) && p !in files ==>
          Removable(old(files), rows, orphans, p, modifiedBefore)
        invariant forall p, s :: p in files && 0 <= s < shard && s in orphans && p in orphans[s] ==>
          !Goes(old(files), ReferencedNames(rows, s, KEEP_EVERY_OUTPUT), p, modifiedBefore)
      {
        if shard in orphans {
          var referenced := ReferencedNames(rows, shard, KEEP_EVERY_OUTPUT);
          RemoveShardOrphans(orphans[shard], referenced, modifiedBefore);
        }
        shard := shard + 1;
      }
    }

    /** Planned and removed with nothing in between: exactly the orphans past the grace
        are unlinked. So every row's own file stays, and every put's temporary one; and of
        an output without a row the blob, the archive and the source go, once they are
        past the grace. */
    method Collect(includeBlobs: bool, modifiedBefore: int)
      modifies this`files
      ensures forall p :: p in files <==>
        p in old(files) &&
        !(IsOrphan(old(files), rows, p, includeBlobs, KEEP_EVERY_OUTPUT) && old(files)[p] < modifiedBefore)
      ensures forall p :: p in files ==> files[p] == old(files)[p]
      ensures AreInt64(rows) ==> forall p :: p in old(files) && IsOwned(rows, p) ==> p in files
      ensures forall p, key, random ::
        p in old(files) && p.base == HexEncode(key) + "-pending-" + random + ".zst" ==> p in files
      ensures AreInt64(rows) ==>
        forall p | p in old(files) && IsUnrecorded(rows, p) && (p.tree.Blobs? ==> includeBlobs) ::
          old(files)[p] < modifiedBefore ==> p !in files
    {
      ghost var was := files;
      if AreInt64(rows) {
        forall p | IsOwned(rows, p) ensures !IsOrphan(was, rows, p, includeBlobs, KEEP_EVERY_OUTPUT) {
          OwnedIsNoOrphan(was, rows, p, includeBlobs);
        }
        forall p | IsUnrecorded(rows, p) && p in was && (p.tree.Blobs? ==> includeBlobs)
          ensures IsOrphan(was, rows, p, includeBlobs, KEEP_EVERY_OUTPUT)
        {
          var o :| o != [] && o !in rows && IsFileOf(o, p);
          UnrecordedIsOrphan(was, rows, o, p, includeBlobs);
        }
      }
      forall p: Path, key, random | p.base == HexEncode(key) + "-pending-" + random + ".zst"
        ensures !IsOrphan(was, rows, p, includeBlobs, KEEP_EVERY_OUTPUT)
      {
        PendingIsNoOrphan(was, rows, p, key, random, includeBlobs, KEEP_EVERY_OUTPUT);
      }
      var orphans := PlanOrphans(includeBlobs, KEEP_EVERY_OUTPUT);
      forall p | p in files
        ensures Removable(files, rows, orphans, p, modifiedBefore) <==>
          IsOrphan(files, rows, p, includeBlobs, KEEP_EVERY_OUTPUT) && files[p] < modifiedBefore
      {
        PlannedGoes(files, rows, orphans, p, includeBlobs, modifiedBefore);
      }
      RemoveOrphans(orphans, modifiedBefore);
    }
  }

  lemma PlannedGoes(files: Files, rows: Rows, orphans: map<int, seq<Path>>, p: Path, includeBlobs: bool,
                    modifiedBefore: int)
    requires Sharded(orphans) && p in files
    requires IsPlanned(orphans, p) <==>
      IsOrphan(files, rows, p, includeBlobs, KEEP_EVERY_OUTPUT)
    ensures Removable(files, rows, orphans, p, modifiedBefore) <==>
      IsOrphan(files, rows, p, includeBlobs, KEEP_EVERY_OUTPUT) && files[p] < modifiedBefore
  {
    if IsOrphan(files, rows, p, includeBlobs, KEEP_EVERY_OUTPUT) {
      var shard :| shard in orphans && p in orphans[shard];
      UnreferencedIsUnnamed(rows, shard, p, KEEP_EVERY_OUTPUT);
    }
  }
}
