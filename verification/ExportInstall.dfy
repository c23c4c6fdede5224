/** Retaining an export archive: stripped into a temporary file, installed or found already
    installed, and linked back over the live file it came from. */
module ExportInstall {
  import opened Ids
  import opened ExportArchive

  datatype Inode = Inode(data: Bytes, mtime: int)

  /** How far copying a file gets. */
  datatype Copied = Whole | Partly(length: nat) | NotStarted

  /** Which of the operating system's calls work this time, in the order they are made, and
      what another process installs just before this one would. */
  datatype Luck = Luck(
    read: bool, temp: bool, written: bool, tidies: bool,
    mark: bool, others: Option<Bytes>, install: bool,
    placeholder: bool, closed: bool, cleared: bool, link: bool, copy: Copied, sweeps: bool,
    rename: bool, remove: bool, renameAgain: bool)

  /** A file gets to its place by renaming, or by renaming once what is there is removed. */
  predicate Replaces(l: Luck, there: bool) {
    l.rename || ((there ==> l.remove) && l.renameAgain)
  }

  /** The live directory gets its own name for the archive. */
  predicate Readies(l: Luck) {
    l.placeholder && l.closed && l.cleared && (l.link || l.copy.Whole?)
  }

  /** There is an archive in the retained tree afterwards: this one, or another's. */
  predicate Installs(l: Luck, there: bool) {
    if there then l.mark else l.install || (l.others.Some? && l.mark)
  }

  /** The second name is left behind: closing the placeholder or replacing the live file
      failed and so did removing the name; or the placeholder could not be cleared, or a
      copy broke off, which nothing removes. */
  predicate LeavesName(l: Luck) {
    && l.placeholder
    && if !l.closed then !l.sweeps
       else if !l.cleared then true
       else if !l.link && !l.copy.Whole? then l.copy.Partly?
       else !Replaces(l, true) && !l.sweeps
  }

  /** Every call before the live file's replacement works. */
  predicate Reaches(l: Luck, archive: Option<string>, there: bool) {
    l.temp && l.written && (archive.Some? ==> Installs(l, there) && Readies(l))
  }

  /** The stripped file was renamed away, to the live path or into the retained tree. */
  predicate Moves(l: Luck, archive: Option<string>, there: bool) {
    l.written && if archive.None? then Replaces(l, true) else !there && l.install
  }

  /** The live file was removed to make way, whether or not anything took its place. */
  predicate Removes(l: Luck, archive: Option<string>, links: map<string, int>) {
    Reaches(l, archive, archive.Some? && archive.value in links) && l.remove
  }

  function Paths(path: string, archive: Option<string>, tmp: string, placeholder: string): set<string> {
    {path, tmp, placeholder} + if archive.Some? then {archive.value} else {}
  }

  datatype Outcome = Skipped | Failed | Done

  function DataOf(inodes: map<int, Inode>, i: int): Option<Bytes> {
    if i in inodes then Some(inodes[i].data) else None
  }

  /** Every other path is what it was. */
  ghost predicate SameBut(before: map<string, int>, after: map<string, int>, but: set<string>) {
    forall p :: p !in but ==> (p in after <==> p in before) && (p in after && p in before ==> after[p] == before[p])
  }

  /** A path's file was removed, or is the one it was. */
  predicate GoneOrSame(before: map<string, int>, after: map<string, int>, p: string, gone: bool) {
    if gone then p !in after else p in after && p in before && after[p] == before[p]
  }

  predicate SameFile(links: map<string, int>, p: string, q: string) {
    p in links && q in links && links[p] == links[q]
  }

  /** Every inode there was still holds the same bytes. */
  ghost predicate Extends(before: map<int, Inode>, after: map<int, Inode>) {
    forall i :: i in before ==> DataOf(after, i) == DataOf(before, i)
  }

  class Files {
    var links: map<string, int>     // path to inode number
    var inodes: map<int, Inode>
    var next: int                   // no inode has this number or a higher one
    const mtimeInterval: int

    ghost predicate Valid()
      reads this
    {
      && (forall p :: p in links ==> links[p] in inodes)
      && (forall i :: i in inodes ==> i < next)
    }

    function Content(p: string): Option<Bytes>
      reads this
    {
      if p in links then DataOf(inodes, links[p]) else None
    }

    method Create(path: string, data: Bytes, now: int)
      requires Valid()
      modifies this
      ensures Valid() && Extends(old(inodes), inodes)
      ensures links == old(links)[path := old(next)] && Content(path) == Some(data)
    {
      links := links[path := next];
      inodes := inodes[next := Inode(data, now)];
      next := next + 1;
    }

    method Remove(path: string)
      requires Valid()
      modifies this`links
      ensures Valid() && links == old(links) - {path}
    {
      links := links - {path};
    }

    /** os.Rename: the destination takes the source's inode. */
    method Rename(from: string, to: string, works: bool) returns (ok: bool)
      requires Valid() && from != to
      modifies this`links
      ensures Valid() && ok == (works && from in old(links))
      ensures links == if ok then old(links)[to := old(links)[from]] - {from} else old(links)
    {
      ok := works && from in links;
      if ok {
        links := links[to := links[from]] - {from};
      }
    }

    /** A removal whose failure nobody looks at. */
    method Discard(path: string, works: bool)
      requires Valid()
      modifies this`links
      ensures Valid() && links == if works then old(links) - {path} else old(links)
    {
      if works {
        Remove(path);
      }
    }

    ghost predicate RecentlyUsed(path: string, now: int)
      requires Valid() && path in links
      reads this
    {
      now - inodes[links[path]].mtime < mtimeInterval || inodes[links[path]].mtime == now
    }

    /** A file in use keeps a recent modification time, so that age does not collect it. */
    method MarkRetainedFileUsed(path: string, now: int, works: bool) returns (ok: bool)
      requires Valid() && path in links
      modifies this`inodes
      ensures Valid() && Extends(old(inodes), inodes) && inodes.Keys == old(inodes).Keys
      ensures ok == works && (ok ==> RecentlyUsed(path, now))
    {
      if !works {
        return false;
      }
      var i := links[path];
      if now - inodes[i].mtime >= mtimeInterval {
        inodes := inodes[i := inodes[i].(mtime := now)];
      }
      return true;
    }

    /** An archive that is already there is adopted as it is, and so is one that another
        process installed since, if installing over it does not work. */
    method InstallExportArchive(tmp: string, archive: string, now: int, luck: Luck) returns (ok: bool)
      requires Valid() && tmp in links && tmp != archive
      modifies this
      ensures Valid() && Extends(old(inodes), inodes)
      ensures ok <==> Installs(luck, archive in old(links))
      ensures archive in old(links) ==> links == old(links)
      ensures archive !in old(links) && luck.install ==> links == old(links)[archive := old(links)[tmp]] - {tmp}
      ensures archive !in old(links) && !luck.install ==>
        match luck.others
        case None => links == old(links)
        case Some(data) =>
          archive in links && links == old(links)[archive := links[archive]] && Content(archive) == Some(data)
      ensures ok && (archive in old(links) || !luck.install) ==> RecentlyUsed(archive, now)
    {
      if archive in links {
        ok := MarkRetainedFileUsed(archive, now, luck.mark);
        return;
      }
      if luck.others.Some? {
        Create(archive, luck.others.value, now);
      }
      ok := Rename(tmp, archive, luck.install);
      if ok {
        return;
      }
      if archive in links {
        ok := MarkRetainedFileUsed(archive, now, luck.mark);
      }
    }

    /** Puts tmp where path is; if renaming over it does not work, after removing it. */
    method ReplaceFile(tmp: string, path: string, luck: Luck) returns (ok: bool)
      requires Valid() && tmp in links && tmp != path
      modifies this`links
      ensures Valid() && ok == Replaces(luck, path in old(links))
      ensures ok ==> links == old(links)[path := old(links)[tmp]] - {tmp}
      ensures !ok ==> links == if luck.remove then old(links) - {path} else old(links)
    {
      ok := Rename(tmp, path, luck.rename);
      if ok {
        return;
      }
      if path in links {
        if !luck.remove {
          return;
        }
        Remove(path);
      }
      ok := Rename(tmp, path, luck.renameAgain);
    }

    /** Gives the archive a second name: a link, or a copy where links do not work. */
    method NameArchive(archive: string, tmp: string, now: int, luck: Luck) returns (ok: bool)
      requires Valid() && archive in links && tmp !in links
      modifies this
      ensures Valid() && Extends(old(inodes), inodes) && SameBut(old(links), links, {tmp})
      ensures ok <==> Readies(luck)
      ensures ok ==> tmp in links && Content(tmp) == old(Content(archive))
      ensures ok && luck.link ==> SameFile(links, tmp, archive)
      ensures !ok ==> (tmp in links <==> LeavesName(luck))
    {
      if !luck.placeholder {
        return false;
      }
      Create(tmp, [], now);
      if !luck.closed {
        Discard(tmp, luck.sweeps);
        return false;
      }
      if !luck.cleared {
        return false;
      }
      Remove(tmp);
      if luck.link {
        links := links[tmp := links[archive]];
        return true;
      }
      ok := CopyFile(archive, tmp, now, luck.copy);
    }

    method CopyFile(from: string, to: string, now: int, copy: Copied) returns (ok: bool)
      requires Valid() && from in links && to !in links
      modifies this
      ensures Valid() && Extends(old(inodes), inodes) && SameBut(old(links), links, {to})
      ensures ok <==> copy.Whole?
      ensures ok ==> Content(to) == old(Content(from))
      ensures to in links <==> !copy.NotStarted?
    {
      var data := inodes[links[from]].data;
      match copy
      case Whole =>
        Create(to, data, now);
        ok := true;
      case Partly(n) =>
        Create(to, if n < |data| then data[..n] else data, now);
        ok := false;
      case NotStarted =>
        ok := false;
    }

    /** Links the archive back over the live file, or copies it if links do not work. The
        live file is left alone unless the archive has its second name; then it is gone
        only if removing it worked and nothing could take its place. */
    method ReplaceWithExportArchive(archive: string, path: string, tmp: string, now: int, luck: Luck)
        returns (ok: bool)
      requires Valid() && archive in links && path in links && tmp !in links
      requires archive != path && tmp != path && tmp != archive
      modifies this
      ensures Valid() && Extends(old(inodes), inodes)
      ensures ok <==> Readies(luck) && Replaces(luck, true)
      ensures SameBut(old(links), links, {tmp, path})
      ensures ok ==> path in links && Content(path) == old(Content(archive))
      ensures ok && luck.link ==> SameFile(links, path, archive)
      ensures !ok ==> GoneOrSame(old(links), links, path, Readies(luck) && luck.remove)
      ensures tmp in links <==> LeavesName(luck)
    {
      ok := NameArchive(archive, tmp, now, luck);
      if !ok {
        return;
      }
      ok := ReplaceFile(tmp, path, luck);
      if !ok {
        Discard(tmp, luck.sweeps);
      }
    }

    /** What becomes of the archive's path: what is there stays; else it is the stripped
        file, or another process's where installing over that one does not work. */
    ghost predicate ArchiveLeft(before: map<string, int>, archive: string, kept: Bytes, luck: Luck)
      reads this
    {
      if archive in before then archive in links && links[archive] == before[archive]
      else if !luck.temp || !luck.written then archive !in links
      else Content(archive) == if luck.install then Some(kept) else luck.others
    }

    /** Installs the archive, and puts it where the live file is. */
    method PutArchive(path: string, archive: string, tmp: string, placeholder: string, now: int, luck: Luck)
        returns (ok: bool)
      requires Valid() && path in links && tmp in links && placeholder !in links && tmp != placeholder
      requires archive != path && archive != tmp && archive != placeholder
      requires path != tmp && path != placeholder && luck.temp && luck.written
      modifies this
      ensures Valid() && Extends(old(inodes), inodes)
      ensures SameBut(old(links), links, {path, archive, tmp, placeholder})
      ensures ok <==> Reaches(luck, Some(archive), archive in old(links)) && Replaces(luck, true)
      ensures tmp in links <==> !Moves(luck, Some(archive), archive in old(links))
      ensures placeholder in links <==> Installs(luck, archive in old(links)) && LeavesName(luck)
      ensures ArchiveLeft(old(links), archive, old(inodes[links[tmp]].data), luck)
      ensures ok ==> path in links && Content(path) == Content(archive)
      ensures ok && luck.link ==> SameFile(links, path, archive)
      ensures !ok ==>
        GoneOrSame(old(links), links, path, Reaches(luck, Some(archive), archive in old(links)) && luck.remove)
    {
      ok := InstallExportArchive(tmp, archive, now, luck);
      assert GoneOrSame(old(links), links, path, false) && placeholder !in links;
      if ok {
        ok := ReplaceWithExportArchive(archive, path, placeholder, now, luck);
      }
    }

    /** Puts the stripped file in place, if it was written, or the archive it is installed as. */
    method PutInPlace(path: string, archive: Option<string>, tmp: string, placeholder: string, now: int, luck: Luck)
        returns (ok: bool)
      requires Valid() && path in links && tmp in links && placeholder !in links && tmp != placeholder
      requires archive.Some? ==> archive.value != path && archive.value != tmp && archive.value != placeholder
      requires path != tmp && path != placeholder && luck.temp
      modifies this
      ensures Valid() && Extends(old(inodes), inodes)
      ensures SameBut(old(links), links, Paths(path, archive, tmp, placeholder))
      ensures ok <==> Reaches(luck, archive, archive.Some? && archive.value in old(links)) && Replaces(luck, true)
      ensures tmp in links <==> !Moves(luck, archive, archive.Some? && archive.value in old(links))
      ensures placeholder in links <==>
        (luck.written && archive.Some? && Installs(luck, archive.value in old(links)) && LeavesName(luck))
      ensures archive.Some? ==> ArchiveLeft(old(links), archive.value, old(inodes[links[tmp]].data), luck)
      ensures ok ==>
        path in links && Content(path) == if archive.Some? then Content(archive.value) else old(Content(tmp))
      ensures ok && archive.Some? && luck.link ==> SameFile(links, path, archive.value)
      ensures !ok ==> GoneOrSame(old(links), links, path, Removes(luck, archive, old(links)))
    {
      if !luck.written {
        ok := false;
      } else if archive.None? {
        ok := ReplaceFile(tmp, path, luck);
      } else {
        ok := PutArchive(path, archive.value, tmp, placeholder, now, luck);
      }
    }

    /** Writes the stripped file, puts it in place, and removes the temporary one if it is
        still there. */
    method Put(path: string, archive: Option<string>, kept: Bytes, tmp: string, placeholder: string,
               now: int, luck: Luck)
        returns (ok: bool)
      requires Valid() && path in links && tmp !in links && placeholder !in links && tmp != placeholder
      requires archive.Some? ==> archive.value != path && archive.value != tmp && archive.value != placeholder
      requires path != tmp && path != placeholder
      modifies this
      ensures Valid() && Extends(old(inodes), inodes)
      ensures SameBut(old(links), links, Paths(path, archive, tmp, placeholder))
      ensures ok <==> Reaches(luck, archive, archive.Some? && archive.value in old(links)) && Replaces(luck, true)
      ensures tmp in links <==>
        (luck.temp && !luck.tidies && !Moves(luck, archive, archive.Some? && archive.value in old(links)))
      ensures placeholder in links <==>
        (luck.temp && luck.written &&
         archive.Some? && Installs(luck, archive.value in old(links)) && LeavesName(luck))
      ensures archive.Some? ==> ArchiveLeft(old(links), archive.value, kept, luck)
      ensures ok ==> path in links && Content(path) == if archive.Some? then Content(archive.value) else Some(kept)
      ensures ok && archive.Some? && luck.link ==> SameFile(links, path, archive.value)
      ensures !ok ==> GoneOrSame(old(links), links, path, Removes(luck, archive, old(links)))
    {
      if !luck.temp {
        return false;
      }
      Create(tmp, kept, now);
      assert SameBut(old(links), links, {tmp}) && inodes[links[tmp]].data == kept;
      ok := PutInPlace(path, archive, tmp, placeholder, now, luck);
      Discard(tmp, luck.tidies);
    }

    /** Whatever is retained at the archive's path is this stripped archive. */
    ghost predicate Retains(archive: Option<string>, kept: Bytes)
      reads this
    {
      archive.Some? && Content(archive.value).Some? ==> Content(archive.value) == Some(kept)
    }

    /** What the live file's bytes strip to. */
    method ReadStrip(path: string) returns (strip: Strip)
      requires Valid() && path in links
      ensures Content(path).Some? && strip == StripToExport(Content(path).value)
    {
      strip := StripToExport(inodes[links[path]].data);
    }

    /** Strips a live archive to its export data. It is left alone, with nothing else
        touched, exactly when it reads as no such archive; a file that is gone or cannot
        be read, or an archive that ends early, is an error that leaves every file as it
        was. Otherwise it is replaced exactly when every call it takes works: without an
        archive path by the stripped file; with one, by the archive that is installed
        there, this one or what is already there. No other path changes, and what is
        left of the live file and the temporary ones is as the failed call dictates. Where
        every process that retains the archive strips the same bytes, what is retained
        stays the strip of those bytes, the live file becomes exactly that, and stripping
        it again changes nothing. */
    method StripPackageArchiveToExport(path: string, archive: Option<string>, tmp: string, placeholder: string,
                                       now: int, luck: Luck)
        returns (outcome: Outcome, ghost strip: Strip)
      requires Valid() && tmp !in links && placeholder !in links && tmp != placeholder
      requires archive.Some? ==> archive.value != path && archive.value != tmp && archive.value != placeholder
      requires path != tmp && path != placeholder
      modifies this
      ensures Valid() && Extends(old(inodes), inodes)
      ensures path !in old(links) || !luck.read ==> outcome.Failed? && links == old(links)
      ensures path in old(links) && luck.read ==> strip == StripToExport(old(Content(path)).value)
      ensures path in old(links) && luck.read ==>
        var there := archive.Some? && archive.value in old(links);
        match strip
        case NotAnArchive => outcome.Skipped? && links == old(links) && inodes == old(inodes)
        case Truncated =>
          outcome.Failed? && SameBut(old(links), links, {tmp}) && (tmp in links <==> luck.temp && !luck.tidies)
        case Stripped(kept) =>
          && outcome == (if Reaches(luck, archive, there) && Replaces(luck, true) then Done else Failed)
          && SameBut(old(links), links, Paths(path, archive, tmp, placeholder))
          && (outcome.Done? ==>
                path in links && Content(path) == if archive.Some? then Content(archive.value) else Some(kept))
          && (outcome.Done? && archive.Some? && luck.link ==> SameFile(links, path, archive.value))
          && (outcome.Failed? ==> GoneOrSame(old(links), links, path, Removes(luck, archive, old(links))))
          && (archive.Some? ==> ArchiveLeft(old(links), archive.value, kept, luck))
          && (tmp in links <==> luck.temp && !luck.tidies && !Moves(luck, archive, there))
          && (placeholder in links <==>
                luck.temp && luck.written && archive.Some? && Installs(luck, there) && LeavesName(luck))
      ensures path in old(links) && luck.read && strip.Stripped? && old(Retains(archive, strip.kept)) &&
              (luck.others.Some? ==> luck.others == Some(strip.kept)) ==>
        && Retains(archive, strip.kept) && (outcome.Done? ==> Content(path) == Some(strip.kept))
        && StripToExport(strip.kept) == Stripped(strip.kept)
    {
      strip := NotAnArchive;
      if path !in links || !luck.read {
        return Failed, strip;
      }
      var found := ReadStrip(path);
      strip := found;
      match found
      case NotAnArchive =>
        outcome := Skipped;
      case Truncated =>
        if luck.temp {
          Create(tmp, [], now);
          Discard(tmp, luck.tidies);
        }
        outcome := Failed;
      case Stripped(kept) =>
        StripKeepsPrefix(Content(path).value);
        var ok := Put(path, archive, kept, tmp, placeholder, now, luck);
        outcome := if ok then Done else Failed;
    }
  }
}
