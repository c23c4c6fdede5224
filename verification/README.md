# Verification model of gocachez

gocachez is a build cache shared by several processes: compressed blobs in 256 shard
directories, a SQL catalog of outputs and of actions that name them, live run directories,
and retained files. This project models its hard parts in Dafny and proves what they keep.
`dafny verify dfyconfig.toml` checks all of it.

## What is modelled, and in which form

* `Ids.dfy`, `Catalog.dfy`, `CatalogRuns.dfy`: names, hex digests, shards, SQLite's BLOB
  order; the catalog tables and its transactions, each one atomic step on maps; its life,
  with the sequence of row ids set back at will. A `Db` class runs the statements.
* `Protocol.dfy`, `ProtocolSafety.dfy`: puts, gets, eviction, age expiry, upkeep of pending
  files and orphan collection as interleaved processes that share catalog, blobs and stripe
  locks. A step is one statement or one file operation, and any process may crash between
  two of them. The central theorem, `GetHitIsRight`, holds of every run, and whether or not
  the stripe locks exclude anyone; `StripeLocks.dfy` has what they are for.
* `Runs.dfy`, `PendingUpkeep.dfy`: runs built step by step, and when upkeep spares the
  pending file of a put in progress.
* `PutThenGet.dfy`, `Chores.dfy`: what an undisturbed put, get, forgetting of a bad entry,
  eviction and collection come to, and what puts leave behind in every run.
* `OrphanGrace.dfy`, `OrphanRace.dfy`: how long a put may take before orphan collection can
  take its blob, with the exact bound.
* `Lifecycle.dfy`, `LifecycleSafety.dfy`, `KeptDirs.dfy`, `LockOrder.dfy`: opening and closing
  a store, adoption of retained files, reclaiming, sweeping, retained expiry, clean and
  collection, again as interleaved processes with crashes; when a kept directory stands, and
  who waits for whom.
* `Housekeeping.dfy`: what each of these processes comes to when nothing disturbs it: what a
  clean, a reclaim, a sweep and an expiry take, and what a run leaves.
* `Eviction.dfy`, `EvictionPass.dfy`: the paged plan and the pass that applies it, as classes
  with the source's loops. Interference is a finite schedule (`Schedule.dfy`) of changes that
  other processes make before each statement; an empty one means an unchanging catalog. What
  happened is a log whose replay is the state. In it, what others did is exactly what the
  turns taken hold, in order, so every other change is the pass's own and the contracts
  speak of each of them.
* `AgeExpiry.dfy`: the cursor-driven and the cursorless batch deletes, as a class, with the
  same schedule and the same kind of log.
* `AccessTimes.dfy`: the access-time buffer as a class, and its hits, claims and flushes as
  runs, with the lemmas that say the buffer makes such runs.
* `OrphanScan.dfy`: planning and removing orphans over 256 shards, as a class.
* `Text.dfy`, `Base64.dfy`, `Buffered.dfy`, `BodyStream.dfy`, `Requests.dfy`: the protocol
  stream. The buffered reader keeps its bytes in a real array which fills move and overwrite;
  the body reader's pending bytes are a range of that array. `Serve` is the loop that answers
  a client until it closes.
* `ExportArchive.dfy`, `ExportInstall.dfy`: stripping a package archive, as functions, and
  installing the result, as a class over paths and inodes.

Hypotheses the model states: all puts of one output carry the same bytes (the code never
hashes them); decoding inverts encoding, and damage to a blob is caught by its checksum or
its size; ids are not empty (`util.go:13-18`) and stored compressed sizes are not negative;
row ids are handed out by AUTOINCREMENT; run ids are not reused and run directories get
fresh names; the clock does not go back where timing is used.

## Where the source's comments and its code disagree

* `cache.go:1184-1187` asks only that orphanGrace exceed the gap between installing a blob
  and recording it. That is not enough: a put's pending file keeps the time of its own last
  write while it waits for the stripe, so it can replace a newer file that was evicted, and
  the row of the newer one can then be recorded over a file two gaps old. `OrphanRace` gives
  the run, and `SparesLiveBlobsIffHalfGrace` the exact condition: two gaps must fit in
  orphanGrace. A gap runs from the last write of the pending file to the recording, so it has
  the wait for the stripe in it, which nothing bounds.
* `cache.go:1149-1150` says the bytes are identical because the name is the digest. The code
  does not hash what it stores; this is a hypothesis here.
* `cache.go:1148-1150` has a put either find identical bytes or install its own copy. A put
  takes over any regular file that is there (`cache.go:498-507`), damaged ones too, so the
  get after it hits exactly when there was no blob or an undamaged one (`GetAfterPut`); in
  every world a run leads to a put that takes over a damaged one (`TakenOverDamageMisses`).
* `cache.go:1147-1153` says that removing the stripe lock should cost hit rate and nothing else.
  Of what gets answer this is true: `GetHitIsRight` does not need it. But a put that has renamed
  its own file into place fails if it goes before it has been sized, and without the lock it
  can (`SectionsHoldIffStripes`).
* `store.go:305-330` creates run.lock before it can lock it, and the sweep takes no lifecycle
  lock. A held run keeps its directory exactly when no opener stalls in between for longer
  than the sweep's slack (`HeldRunsHaveDirsIffPrompt`).
* `cache.go:340-341` says a later access always wins when a batch is put back. It does, in
  every run, if and only if no two flushes overlap and no hit's clock reading is behind the
  clock once the hit gets the lock (`NothingLostIffOneFlush`). With two flushes the older
  batch can be written last, though each was claimed an interval after the other
  (`TwoFlushesCanLose`); a reading taken before the lock can be recorded after a later one
  (`LateReadingCanLose`). Within those bounds failures lose nothing (`NoHitLost`).
* `protocol.go:433-438` passes on an end of input inside a body as the ordinary end of the
  body, without looking at the last part of a buffer. So draining a body that is cut off
  succeeds exactly when the source merely ended and no whole buffer of the body has a
  backslash (`Drain`), and a cut-off body of one byte drains as an empty one
  (`DrainCutOff`).
* `cache.go:1110-1139` says age can tell a dead put's pending file from one in progress. It
  can, in every run, if and only if no put in progress goes longer than mtimeInterval without
  writing its file, the wait for the stripe included (`SparesPutsIffBeating`). Upkeep looks at
  a file and removes it in two steps, so a put that pauses for longer can lose a file it has
  written that very instant (`FreshFileIsLost`), and then it fails (`LosingItFailsThePut`).
* `store.go:57-68` and `catalog.go:25-37` trust that row ids are not reused, with a tag as a
  witness. Lookups are faithful in every run if and only if the sequence is never set back
  (`FaithfulIffNeverReset`); with it set back, the tag guards the leading bytes and no more
  (`TagGuards`).
* `cache.go:101-108` refuses a put with a missing id before it gets to its body, which stays on
  the stream and is read as the next request. The conversation ends there, with the put's
  answer but none for what follows (`ServeRefusedBody`).
* `export_archive.go:117-128` leaves its second name for the archive behind when the
  placeholder cannot be cleared or a copy breaks off; `StripPackageArchiveToExport` says
  exactly when any temporary file stays.

## Model

| member | source | states |
|---|---|---|
| Ids.HexRoundTrip | catalog.go:43-49 | decoding an id's hex name gives the id back |
| Ids.HexInjective | catalog.go:43-49 | different ids never share a file name |
| Ids.HexDigits | catalog.go:43-49 | two digits a byte, the higher first, all lower-case |
| Ids.LiveOutputIdExact | store.go:686-705 | a live file is taken for an output exactly when its name is the output's lower-case hex id, a hyphen and anything |
| Ids.LiveOutputIdCanonical | store.go:691-704 | whatever is taken for an output id is the canonical encoding of some id |
| Ids.BlobLessTrichotomy | catalog.go:652-660 | exactly one of equal, below and above in BLOB order |
| Ids.BlobLessIsLexicographic | catalog.go:652-660 | BLOB order is by the first byte that differs, a proper prefix first |
| Ids.ShardRangesPartition | catalog.go:652-691 | the 256 range queries, the last open above, find every non-empty id exactly once, in the shard its hex name's directory has |
| Ids.PendingNamesMatch | cache.go:1106-1108 | every pending file matches the pending pattern |
| Ids.BlobNamesDoNotMatch | cache.go:1530-1544 | no installed blob does |
| Ids.StemNamesOutput | cache.go:1524-1547 | in a shard's directory, a stem spelling an id is that output's own file |
| Catalog.UpsertThenLookup | catalog.go:255-328 | a put leaves the output's row and the action's entry with its own sizes and times and no other changed; it is found by its own action, and other actions find what they found, but for the new size of a shared output |
| Catalog.UpsertIdempotent | catalog.go:226-247 | repeating the put transaction after a disputed commit changes nothing |
| Catalog.UpsertKeepsInterned | store.go:57-60 | a put's row id is one no entry can still be holding |
| Catalog.DeleteRowsKeepsInterned | store.go:57-60 | deleting any rows keeps every entry's id faithful |
| Catalog.LookupFaithful | catalog.go:308-328 | an entry resolves to nothing or to the output its action's latest put recorded, never to a mismatch |
| Catalog.ReusedIdCanMislead | store.go:57-68 | with the sequence set back, an output sharing the leading bytes is taken for another |
| CatalogRuns.TagGuards | catalog.go:25-37 | in every run, however the sequence is set back, an entry whose id has no row finds nothing; otherwise it finds the row's output exactly if this agrees with the one last recorded in its first four bytes, or altogether where one is shorter, and a mismatch if not |
| CatalogRuns.ForgettingTakesOne | catalog.go:330-336 | forgetting an entry takes that entry and no other action's answer |
| CatalogRuns.FaithfulIffNeverReset | store.go:57-68 | lookups find the very output last recorded, in every run, if and only if the sequence is never set back |
| Catalog.Db.UpsertEntryOnce | catalog.go:255-282 | one transaction records output and entry, or nothing |
| Catalog.Db.UpsertEntry | catalog.go:226-247 | at most three attempts while busy; success leaves the tables as one put would, failure as one put or none |
| Catalog.Db.DropAction | catalog.go:384-390 | the output's row goes first, and the entry only if the second statement runs |
| Catalog.Db.EvictOutput | catalog.go:399-408 | the row goes, and true is returned, exactly when nothing read the output since |
| Catalog.Db.TouchAccessed | catalog.go:341-374 | every named row that exists takes the new time, and nothing else changes |
| ProtocolSafety.UnlinkerExcludesPuts | cache.go:1158-1171 | a get's drop, an eviction or a collection inside a stripe excludes every put's section on it |
| ProtocolSafety.CollectionHoldsItsOutputs | cache.go:1450-1456 | the stripe taken by shard prefix is the stripe of each output considered |
| Chores.BlobsOnlyInStripe | cache.go:1140-1171 | whoever opens, takes over, installs, sizes or unlinks a blob is inside its stripe |
| ProtocolSafety.PutKeeps | cache.go:100-211 | every step of a put keeps the invariant |
| ProtocolSafety.GetKeeps | cache.go:213-260 | every step of a get, and of dropping a bad entry, keeps it |
| ProtocolSafety.EvictKeeps | cache.go:1037-1055 | every step of eviction keeps it |
| ProtocolSafety.CollectKeeps | cache.go:1435-1479 | every step of orphan collection keeps it |
| ProtocolSafety.OtherKeeps | catalog.go:562-592 | age expiry, touches, upkeep of pending files and damage keep it |
| ProtocolSafety.RunKeeps | cache.go:1147-1153 | the invariant holds in every state of every run |
| ProtocolSafety.EveryGetLookedUp | cache.go:218-235 | a get that has not missed found, when it looked, the output of the last put committed for its action |
| ProtocolSafety.GetHitIsRight | cache.go:213-260 | in every interleaving with crashes, with or without stripe locks, a hit has the output named at lookup and its size; the file is there when it answers, and until its store begins to close it holds exactly that output's bytes |
| ProtocolSafety.InstallCannotFail | cache.go:498-530 | in every reachable state a put inside its stripe can adopt, install and size its blob, unless its pending file was collected as stale |
| ProtocolSafety.ReapedWasStale | cache.go:1114-1139 | a pending file is removed only by a pass that had found it unwritten for longer than the mtime interval, at an earlier step |
| PendingUpkeep.SparesPutsIffBeating | cache.go:1110-1139 | no run whose puts write at least once every beat loses the file of a put in progress, if and only if the beat is within the mtime interval |
| PendingUpkeep.PendingStays | cache.go:508-515 | in such runs a put's file is there for as long as it is needed, and its rename cannot fail |
| PendingUpkeep.FreshFileIsLost | cache.go:1122-1136 | for any longer beat there is a run in which upkeep removes a file written at that very instant |
| PendingUpkeep.LosingItFailsThePut | cache.go:508-530 | and one in which the put then fails, with nothing else disturbing it |
| StripeLocks.SectionsHoldIffStripes | cache.go:1147-1171 | no put fails for finding its blob gone inside its section, in every run, if and only if the stripes exclude |
| PutThenGet.PutSucceeds | cache.go:100-211 | from any state in which it can start, a put alone in its stripe finishes, with its live file published, a blob in place, and a row and an entry that hold the sizes of the body and of that blob and the time of the put, no other having changed |
| PutThenGet.DropForgets | cache.go:543-560 | a get that found its blob missing or bad, alone in its stripe, takes the blob, the row, the entry and what the store remembers of a live file, and nothing else |
| PutThenGet.GetAnswers | cache.go:213-260 | a get alone in its stripe ends in a hit with the decoded file if the blob is there and decodes to the recorded size; otherwise it misses, with the output's blob and row and the action's entry gone and every other as it was |
| PutThenGet.GetConcludes | cache.go:213-260 | a get left alone, whatever it finds: no entry, a mismatched one, a file the store already has, a good blob, or a bad or missing one, each with exactly what it changes |
| PutThenGet.GetAfterPut | cache.go:498-516 | from any reachable state, another store's get after the put hits with the put's own bytes where there was no blob to take over, or an undamaged one; everywhere else it misses, and output and action are forgotten |
| PutThenGet.TakenOverDamageMisses | cache.go:498-507 | in every world a run leads to a put that takes over a damaged blob and succeeds, and a get after it that misses and forgets what the put recorded |
| PutThenGet.OwnGetAfterPut | cache.go:236-259 | the putting store's own get always has them, from its live file |
| Chores.PutsStayTidy | cache.go:113-211 | in every run a put that is over has no pending file, one that was recorded had the size announced, and its transaction is tried three times at most |
| Chores.InstallFailsOnlyBare | cache.go:498-516 | in every run, inside its stripe a put fails only with no blob there and its own file gone |
| Chores.SectionEnds | cache.go:498-530 | a put leaves its stripe within six of its own steps, installed or failed |
| Chores.EveryTryCounts | catalog.go:226-247 | every try of its transaction that it does not hear the success of counts |
| Chores.MayFailUntilRecorded | cache.go:113-211 | a put may fail wherever it is until it hears that its record is in the catalog, and not after |
| Chores.FailureCleansUp | cache.go:126-150 | wherever a put fails, its pending file and its live file go, and nothing else |
| Chores.WritingKeepsFresh | cache.go:1114-1139 | upkeep lets a pending file be for the mtime interval after any write, and no longer |
| Chores.UpkeepReaps | cache.go:1110-1139 | upkeep removes the pending file of a put that is gone once it is old enough, and nothing else |
| Chores.AnyoneMayCrash | cache.go:1110-1114 | whatever a process is at it may crash, and only its locks go with it |
| Chores.ExpiryTakesOld | catalog.go:562-592 | age expiry can take exactly rows older than its cutoff |
| Chores.FlushTouches | catalog.go:341-374 | a flush of access times touches the rows it names, and nothing else |
| Chores.PlanIsRechecked | catalog.go:399-408 | eviction can delete a row exactly when nothing read the output after it was planned |
| Chores.EvictionEvicts | cache.go:1037-1055 | an eviction left alone takes the row and the blob, and nothing else |
| Chores.CollectionCollects | cache.go:1403-1479 | a collection of a shard left alone takes exactly its blobs that no row names and that were last written before the grace |
| OrphanGrace.RenameMovesFilesOn | cache.go:508-515 | a rename brings a file at most one gap old |
| OrphanGrace.StepKeepsTiming | cache.go:498-530 | every step keeps files within two gaps of their row's recording and snapshots behind rows they miss |
| OrphanGrace.HalfGraceSuffices | cache.go:1435-1479 | with puts recorded within half of orphanGrace, collection takes no blob that has a row or a put in flight |
| OrphanRace.MoreThanHalfGraceIsTooLong | cache.go:1184-1189 | with any longer gap there is a timely run in which it does |
| OrphanRace.SparesLiveBlobsIffHalfGrace | cache.go:1173-1189 | all timely runs spare live blobs if and only if two gaps fit in orphanGrace |
| LifecycleSafety.OwnerKeeps | store.go:551-586 | every step of opening, running, adopting and closing keeps the invariant |
| LifecycleSafety.ReclaimSpares | store.go:742-781 | a reclaimer takes directories, locks and rows only of runs that are past |
| LifecycleSafety.SweepFits | cache.go:1339-1380 | a directory judged expired is of a run that is past |
| LifecycleSafety.CleanSpares | clean.go:32-109 | clean removes and wipes only what no live run holds |
| LifecycleSafety.StepKeeps | store.go:305-375 | every step of every process keeps the invariant, if openers are prompt |
| LifecycleSafety.HeldRunIsSafe | store.go:742-781 | a run holding its run.lock has its directory, has its row from registration to its own deletion, and nobody else holds its lock or is about to remove it |
| LifecycleSafety.ExpirySeesNoRun | cache.go:899-929 | retained expiry that counted no run sees none registered or opening until it finishes |
| LifecycleSafety.WipeSeesNoRun | clean.go:72-113 | a clean that wipes sees no run on record, opening or in use until it finishes |
| LifecycleSafety.AdoptionIsUninterrupted | store.go:644-684 | from installation to link, no step of any other process unlinks an adopted file, and the link finds it |
| LifecycleSafety.CleanCloseKeeps | store.go:551-586 | a close that kept something and got its row deleted stamps run.lock before it lets go of it, and leaves the directory with that stamp, unlisted and unjudged |
| LifecycleSafety.KeptDirSurvives | store.go:568-584 | such a directory stands until it ages out, for listings taken after its row is deleted |
| LifecycleSafety.CleanCloseKeepsDir | store.go:551-586 | so from the deletion of the row, through whatever others do, the directory stands until the slack has passed since its own closing stamp |
| KeptDirs.KeptIffUnlisted | store.go:568-584 | a close that kept something leaves its directory until it ages out, in every continuation without a clean, if and only if no reclaimer has the run listed as its row is deleted |
| LifecycleSafety.HeldRunsHaveDirsIffPrompt | cache.go:1339-1366 | held runs have their directories in every run if and only if openers stall no longer than the sweep's slack |
| Housekeeping.CleanCleans | clean.go:32-142 | a clean that gets the lifecycle lock takes every directory whose run.lock nobody has, and leaves nothing at all if no run is in use or on record; otherwise it keeps the directories in use, the rows and the retained files |
| Housekeeping.CleanTakesOnlyWiping | clean.go:88-108 | a clean takes a retained file only once it wipes |
| Housekeeping.ReclaimReclaims | store.go:715-781 | a reclaim left alone takes row, directory and lock file of every run whose directory is gone or whose run.lock nobody has, and nothing of any other |
| Housekeeping.SweepSweeps | cache.go:1339-1380 | a sweep left alone takes exactly the directories with a run.lock that nobody has and that is older than the slack |
| Housekeeping.ExpiryExpires | cache.go:899-929 | a retained expiry left alone takes exactly the files older than its cutoff if no run is on record, and none otherwise |
| Housekeeping.ExpiryTakesOnlyOld | cache.go:893-918 | however the rest goes on, it takes a file only past its count and only if it is older than the cutoff |
| Housekeeping.CollectionUnlinks | cache.go:1461-1479 | collecting a retained file takes that file |
| Housekeeping.OpenSucceeds | store.go:305-375 | an opening that gets the lifecycle lock ends with the run's directory, lock file and row, and nothing else changed |
| Housekeeping.FailedOpenLeavesNothing | store.go:305-375 | one that fails before it registers leaves nothing, wherever it fails |
| Housekeeping.AdoptionRetains | store.go:644-684 | adopting puts a file in place with the time it was written; one that is there is marked used, at most once an interval |
| Housekeeping.FailedAdoptionKeeps | store.go:600-642 | an adoption that fails, before the file is placed or after, keeps the directory all the same |
| Housekeeping.CloseEnds | store.go:551-586 | a close takes the row, and the directory exactly when nothing was kept; one that stays has its lock stamped |
| Housekeeping.EmptyRunLeavesNoTrace | store.go:305-375 | a run that opens and closes with nothing retained leaves all as it was |
| Housekeeping.CrashedRunIsReclaimed | store.go:715-781 | wherever a registered run crashes, the next reclaim takes its row, its directory and its lock file, and leaves every directory in use |
| LockOrder.StripeHolderGoesOn | cache.go:1155-1157 | whoever is inside a stripe waits for nobody and has a step to take |
| LockOrder.LifecycleHolderGoesOn | store.go:305-375 | whoever has the lifecycle lock can go on, or waits for one that can |
| LockOrder.NoWaitCycle | cache.go:1155-1157 | in every reachable state, if openers are prompt, nobody whom a process with a lock in hand waits for is waiting in turn, so there is no cycle of waiters of any length |
| Eviction.RankedSorts | catalog.go:825-851 | the rows are listed all, once, in index order |
| Eviction.NextPage | catalog.go:805-851 | the page after a page starts where that one ended, however many rows tie |
| Eviction.ChainedListsAll | cache.go:988-1009 | pages chained by the cursor list a prefix of the rows, and all of them once one is empty |
| Eviction.FromCutoffIsExact | cache.go:974-981 | the scan starts at the cutoff: it has exactly the rows at or after it |
| Eviction.CoverIsUnique | cache.go:986-1009 | there is one shortest covering prefix |
| Eviction.PageSource.PlanToMaxSize | cache.go:962-1011 | for arbitrary pages, the plan is the shortest covering prefix of the distinct rows listed, or all of them after an empty page |
| Eviction.PlanNeverRepeats | cache.go:982-999 | no output is chosen twice |
| Eviction.StablePlan | cache.go:962-1011 | on an unchanging catalog it is the shortest covering prefix of the rows at or after the cutoff, or all of them |
| EvictionPass.LegalAt | cache.go:1027-1047 | each row deleted was there, not read since it was planned, and went while the total was over budget; each spared was gone or read |
| EvictionPass.UnlinkFollowsDelete | cache.go:1037-1055 | a blob is unlinked only after this pass deleted its row, with only other processes in between |
| EvictionPass.ReadOutputStays | cache.go:1032-1036 | an output read later than it was planned survives the pass, row and blob, unless another process takes it |
| EvictionPass.Cache.EvictToMaxSize | cache.go:1015-1065 | under any interference what others did is as scheduled and the rest of the log is a legal pass; it credits exactly the rows it deleted, fails exactly when a statement does, and ends within budget or with every candidate tried |
| EvictionPass.TotalAfterDelete | catalog.go:600-605 | deleting a row takes its size off the total, which is zero of no rows |
| EvictionPass.QuietPass | cache.go:1027-1060 | with nothing interleaved the running total is always the real one, and rows and blobs gone are the candidates tried |
| EvictionPass.Cache.PruneToMaxSize | cache.go:962-1065 | planned and applied with nothing interleaved, exactly the covering prefix goes, rows and blobs |
| EvictionPass.EndsWithinBudget | cache.go:1027-1060 | then the cache is within budget or no row is left at or after the cutoff |
| EvictionPass.SurvivorsSortAfter | cache.go:962-1011 | every survivor there comes after every output evicted, by access time, then compressed size, then row id |
| EvictionPass.NothingGoesWithinBudget | cache.go:1028-1030 | each output went while what was left was over budget |
| AgeExpiry.OnlyStaleAt | catalog.go:562-592 | every row expired was stale at that moment |
| AgeExpiry.FreshRowStays | catalog.go:562-592 | a fresh row survives the pass unless another process removes it or makes it stale |
| AgeExpiry.CursorAdvances | catalog.go:463-481 | the cursor moves past what it deletes and skips no stale row |
| AgeExpiry.Table.DeleteStaleByKey | catalog.go:562-592 | after others' turn one transaction removes exactly the keys still stale and counts them; if it fails nothing is removed and none is counted |
| AgeExpiry.Table.StaleActionIds | catalog.go:483-498 | the first stale keys after the cursor, in order, at most 2000 |
| AgeExpiry.Table.DeleteStaleEntries | catalog.go:463-481 | under any schedule the table is what others did plus rows expired while stale, with the exact count; it fails exactly when a statement does; a finished pass leaves no row that stayed stale throughout, and undisturbed it is one filter |
| AgeExpiry.Table.StaleOutputIds | catalog.go:528-536 | at most 2000 of the coldest stale keys, ties in any order |
| AgeExpiry.Table.DeleteStaleOutputs | catalog.go:502-526 | the same of its table; it stops after 2000 batches of 2000 rows; stopping early means nothing stale at the last select; undisturbed, the coldest go first and the survivors are the fresh rows if and only if there were at most four million stale ones |
| AccessTimes.RestoreIsMaxIffPositive | cache.go:336-355 | a failed batch put back is the pointwise maximum if and only if its unhit stamps are positive |
| AccessTimes.AccessBuffer.Mark | cache.go:280-291 | a hit is recorded, and a flush claimed exactly when thirty seconds have passed since the last claim |
| AccessTimes.AccessBuffer.RestoreAccessed | cache.go:342-355 | both maps become what restoring the batch gives |
| AccessTimes.AccessBuffer.Flush | cache.go:303-334 | a commit writes the whole batch and keeps the hits that came meanwhile; a failure writes nothing and puts the batch back under them |
| AccessTimes.NothingLostIffOneFlush | cache.go:336-355 | all runs with at most so many flushes at once, and readings at most so far behind the clock, lose no hit if and only if the one is at most one and the other zero |
| AccessTimes.NoHitLost | cache.go:280-355 | within those bounds, however many flushes fail, each id's latest hit is pending, else in flight, else written |
| AccessTimes.FailureRestoresMax | cache.go:313-316 | in any run a failed flush leaves exactly the pointwise maximum of its batch and what came meanwhile |
| AccessTimes.TwoFlushesCanLose | cache.go:280-318 | with two flushes at once, each due, the older stamp can be written last |
| AccessTimes.LateReadingCanLose | cache.go:280-284 | a clock read before the lock and recorded late overwrites a later hit |
| AccessTimes.CloseWritesAll | store.go:521-530 | closing the store writes whatever is pending, however lately a flush was claimed |
| AccessTimes.MarkIsHit | cache.go:280-291 | a hit the buffer records is a hit of the run |
| AccessTimes.FlushIsRun | cache.go:303-318 | what a flush of the buffer leaves pending and writes is what taking the batch, the hits meanwhile, and its commit or failure come to |
| OrphanScan.UnreferencedIsUnnamed | cache.go:1403-1429 | in a shard's directory, not being in the query's answer is being named by no row at all |
| OrphanScan.OrphanIffUnowned | cache.go:1512-1554 | directly in a shard's directory, for rows of any 64-bit access time, the orphans are the files of the right kind, not pending, that are no row's own |
| OrphanScan.Collector.OrphanFilesInDir | cache.go:1512-1554 | exactly the unreferenced, non-pending files of the wanted extensions, at any depth |
| OrphanScan.Collector.PlanOrphans | cache.go:1403-1429 | exactly the orphans, filed under their shards |
| OrphanScan.Collector.RemoveShardOrphans | cache.go:1461-1479 | exactly the listed files unreferenced now and old enough |
| OrphanScan.Collector.RemoveOrphans | cache.go:1435-1459 | for any plan, exactly its files that are unreferenced now and old enough; a row's own file stays, whatever its access time, and a planned file of an output without a row goes |
| OrphanScan.Collector.Collect | cache.go:1090-1096 | planned and removed with nothing in between, exactly the orphans past the grace: every row's own file stays, every put's temporary one too, and the blob, archive and source of an output without a row go |
| Buffered.BufReader.ReadSlice | protocol.go:433-439 | the standard library's buffered line read, as used here: where the line is in the buffer, and what is left to read |
| BodyStream.SplitIsUnique | protocol.go:400-418 | the body is what is before the first quote |
| BodyStream.JsonStringReader.Refill | protocol.go:433-446 | a chunk is taken without its closing quote, or refused for a backslash |
| BodyStream.JsonStringReader.Read | protocol.go:420-451 | what a read returns, followed by what is to come, is what was to come before, for any buffer and read size |
| BodyStream.JsonStringReader.Drain | protocol.go:387-390 | refused exactly for a backslash in what is looked at; otherwise a closed body is read whole, ending just past its quote, and one cut off is read as its whole buffers, an error exactly when the source failed |
| BodyStream.DrainCutOff | protocol.go:433-438 | a body of one byte with no closing quote drains as an empty one |
| Text.TrimsBothEnds | protocol.go:318-340 | trimming takes Unicode's white space on either side of a text, and all of a text that is nothing else |
| Text.LeadingIsWhite | protocol.go:318-340 | a code point at the front is trimmed exactly when it is white space |
| Text.TrailingIsWhite | protocol.go:318-340 | and so is one at the end |
| Requests.DropsSpaces | protocol.go:453-466 | the four JSON spaces, and nothing after them |
| Requests.SkipWhitespace | protocol.go:453-466 | the four JSON spaces are skipped, and nothing else |
| Requests.NewJsonStringReader | protocol.go:406-418 | a body starts at a quote, and anything else is an error |
| Requests.ReadRequest | protocol.go:318-340 | the request the first line that is not blank decodes to, and the rest of the stream; a line that decodes to none is an error, and a last line without its end counts unless the source failed |
| Base64.RoundTrip | protocol.go:361-376 | what is encoded decodes to itself, for any bytes |
| Base64.EncodingIsQuotable | protocol.go:400-418 | an encoding has no quote and no backslash, so it is a JSON string as it stands |
| Base64.DigitIsPlace | protocol.go:372-375 | a digit is worth its place in the alphabet of section 4 of RFC 4648, and nothing else is a digit |
| Base64.QuantumIsNumber | protocol.go:372-375 | four digits are the number three bytes are, the highest first |
| Base64.DecodesIffText | protocol.go:372-375 | what is left without line ends is decoded exactly when it is digits four by four, with one or two signs of padding at the end |
| Base64.SkipsLineEnds | protocol.go:372-375 | carriage returns and line feeds are skipped, wherever they are, and nothing else |
| Requests.ReadBody | protocol.go:361-397 | a closed body without a backslash is decoded and checked against its size, and the stream left behind it; anything else is refused, or taken as what was looked at where the source ended |
| Requests.Handle | protocol.go:342-376 | a get with an id and a close are handled, a put with both ids takes its body, and every other request is refused for its own reason, with the stream left where it was |
| Requests.AnswerIsHeard | protocol.go:342-359 | the client hears that a get or a close was handled, what a put stored, which is the content it sent, and each refusal exactly where it is due |
| Requests.Serve | protocol.go:131-169 | for any buffer, chunks, read sizes and order in which gets' answers are written, every request up to the first close is answered once, under its own id, with exactly the content sent or the refusal it earns, and the close last; a close ends it, and so do the end of input and, with an error, a failing source or a line that is no request |
| Requests.RefusedBodyEnds | protocol.go:318-340 | a body nobody takes reads as a request that does not parse |
| Requests.ServeRefusedBody | cache.go:100-112 | so a put refused for a missing id that sends its body is answered, and nothing after it |
| ExportArchive.SizeCannotOverflow | export_archive.go:233-244 | the ten-character field keeps the size, and its padded form, far within 64 bits |
| ExportArchive.SizeRoundTrip | export_archive.go:239-242 | a size is read back from its field |
| ExportArchive.HeaderRoundTrip | export_archive.go:233-244 | so is a whole member header |
| ExportArchive.AnyHeaderRoundTrip | export_archive.go:233-244 | a member of any name is read back, whether or not a slash ends the name |
| ExportArchive.SignedSizes | export_archive.go:239-242 | a signed size is read as one, so that a negative one is refused |
| ExportArchive.OnlyPackageArchives | export_archive.go:216-244 | whatever is not left alone has the archive magic, the header's end, the name of the export data and a size |
| ExportArchive.OtherMembersAreLeft | export_archive.go:226-231 | an archive whose first member has another name is left alone |
| ExportArchive.CutOffStrips | export_archive.go:26-70 | an archive cut off before its content is none, within its content an error, and past it nothing is lost |
| ExportArchive.StripKeepsPrefix | export_archive.go:26-70 | stripping keeps the input up to the end of the padded member, which parses to the same member and strips to itself |
| ExportArchive.StripReadsNoFurther | export_archive.go:63-70 | nothing past that point decides anything |
| ExportArchive.ArchiveStrips | export_archive.go:20-95 | an archive with any members after the first strips to the archive of its export data |
| ExportInstall.Files.MarkRetainedFileUsed | cache.go:1386-1396 | the file's time becomes recent, and its bytes stay |
| ExportInstall.Files.InstallExportArchive | export_archive.go:97-109 | an archive already there is adopted, otherwise the temporary file becomes it, and one another process installed since is adopted where that does not work |
| ExportInstall.Files.ReplaceWithExportArchive | export_archive.go:111-141 | the live path gets the archive's bytes, by link or copy, exactly when every call it takes works; else it is what it was, or gone once removed to make way; the second name stays exactly when nothing clears it |
| ExportInstall.Files.ReplaceFile | export_archive.go:164-175 | the path takes the temporary file exactly when a rename works, the second after a removal; else it is gone exactly if it could be removed |
| ExportInstall.Files.StripPackageArchiveToExport | export_archive.go:20-95 | whatever fails, the outcome, the live path, the archive's path and both temporary files are determined, no other path changes, and every inode keeps its bytes; where all who retain the archive strip the same bytes, what is retained stays their strip and the live file becomes exactly that |

## Left out

- The SQL engine, its write-ahead log, pragmas, prepared statements and busy timeouts: each statement or transaction is one atomic step, and a failed one does nothing.
- zstd and the pooling of encoders and decoders: one abstract pair, whose decode may fail on a damaged blob.
- flock, rename on Windows, permissions and directory entries: locks are held by processes and freed when they crash, and files are paths to inodes with times. removeEmptyDirs is not modelled, so claims about installing start once the pending file exists.
- The widths of sums and times: totals, sizes and milliseconds are unbounded integers, except in the archive header.
- status.go, blob_type.go, help.go, main.go, config.go and the size and age parsing: reporting, content sniffing and flags.
- The JSON of requests and responses, profiling, logging, signals and the worker pool: a finite table says what each line decodes to, answers are values, and writing one cannot fail.
- Scheduling of maintenance, its stamps and its lock (cache.go:563-703, cache.go:739-897), and addRetainedCandidates: a pass may run at any time.
- An unlimited supply of interference: the schedules of other processes' changes in Eviction, EvictionPass and AgeExpiry are finite, of any length, so that a cursor loop ends.
- Two statements of one age-expiry pass, entries and then outputs, as one call: each is proved on its own table.
- Retaining generated Go sources: the same installation and link as an export archive, with other content tests.
- ProtocolSafety.InstallCannotFail: excludes puts whose pending file upkeep removed, because the code does not keep it for them; PendingUpkeep has exactly when that cannot be. Its claims about adopting and sizing are for stripes that exclude, as SectionsHoldIffStripes says they must.
- ProtocolSafety.GetHitIsRight: after the answer the live file is claimed intact only while it exists and its store has not begun to close, because anything outside the cache may delete it, and closing strips it in place or takes it away.
- ProtocolSafety.RunKeeps: there the sequence of row ids is never set back, so a lookup never reports a mismatch; CatalogRuns has the lookups of runs in which it is.
- LifecycleSafety.KeptDirSurvives: assumes no clean, because clean removes the directory, and no listing from before the row was deleted; KeptIffUnlisted shows that this is needed.
- Housekeeping.CleanCleans: the reclaim and the collection of retained orphans that a clean runs first are processes of their own here, and its removal of the blobs is not part of this state.
- LockOrder.NoWaitCycle: the maintenance lock, which is taken outside all of these, and SQLite's own locks are not among the locks.
- LifecycleSafety.StepKeeps: reclaimers and collectors run as processes of their own at any time, more often than the lifecycle lock lets them, and a file expired by age is chosen by its time alone.
- OrphanScan.Collector.Collect: interleaving with puts and gets is in Protocol, not here.
- BodyStream.JsonStringReader.Drain: bodies with a backslash are refused by the code, a restriction of section 7 of RFC 8259, and so are not decoded; where the stream is left after one is not stated.
- Requests.ReadBody: which refusal is reported for a body with a backslash, or where the source fails inside it, is not stated; base64 is decoded after the whole body is read, not as it comes.
- Requests.Serve: a put's failures in the store, after its body is read, are not part of it; the messages are ones that take the body they send, and ServeRefusedBody has the others.
- Buffered.BufReader.ReadSlice: the source's reads bring at least one byte each, and bring their error separately from any bytes.
- ExportInstall.Files.StripPackageArchiveToExport: writing, syncing and closing the stripped file are one call that works or not, and removals by other processes in between are not modelled.
