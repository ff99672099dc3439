# Verified model of repo-sync

repo-sync mirrors package repositories into a live tree that clients read while
it changes. This project models the parts of it that are hardest to get right
and proves what they promise: the locks that keep runs and crawls apart, the
download of one file and of a batch, the publication of RPM, Arch and apt
repositories as a transaction over the live tree, pruning and the other
bookkeeping that spans runs, the discovery crawl, the server's crawl schedule,
and the apt control-file reader.

`dafny verify dfyconfig.toml` checks everything.

## How the model is built

* **The file system** (`Disk.dfy`) is a class over a map from paths to bytes.
  Every operation may fail, and may do so at any call; a rename is atomic. Its
  ghost `log` remembers every content the tree has had, so "at every moment"
  means for every entry of that log, which is what a client can observe. Its
  ghost `statFaults` counts stats that failed although the answer was knowable;
  some promises need that count not to grow, because `StagedOrFinal`
  (fetch/fetch.go:446-452) reads a failed stat as "not staged".
* **The network, OpenPGP and every parser** are parameters: the upstream answers
  anything at all, `verify` accepts or rejects a signature over bytes, and the
  parsers give lists of entries. `LocalJoin`, glob matching and path escaping
  are parameters too; what is needed of them is said where they are used.
* **Concurrent protocols** (`DestLock`, `CrawlLocks`, `WorkerPool`, `Pool`) are
  sequences of steps of any number of participants, one step for each critical
  section, system call or channel operation. Their theorems hold for every
  schedule.
* **Runs over time** (`Missing`, `Prune`, `DiscoverCache`, `CrawlSchedule`) are
  sequences of whole runs or events; the theorems say what a stored record means
  in terms of everything that happened before.
* Loops of the source are loops here, proved against functions whose meaning is
  then proved separately, in the terms of the data: names, sizes, digests and
  orders of preference are written out there. Objects with changing fields are
  classes.
* Every lemma switches automatic induction off, so each induction is a call that
  can be read.

## What is proved

1. **Destination lock.** At most one run is between a successful lock and its
   unlink, in every interleaving, although inode numbers are reused as soon as
   nothing refers to them; a run that gives up saw at least one release by
   another run for every attempt without a stat error, and a run that nobody
   disturbs gets the lock.
2. **Crawl coordination.** Two goroutines never work on one resource, nor on two
   suites of one Debian archive. Reference counts are exact, nobody deadlocks, no
   wakeup is lost, no request is forgotten, and every schedule of the work at hand
   ends with all of it done.
3. **Downloads.** Whatever the upstream sends, a destination or its staged copy
   is only replaced by bytes whose full length and strongest listed digest
   match. A batch that reports no error settled every job, and it reports one
   exactly when a download failed in a way that nobody allowed. This holds however
   the coordinator, its workers and the single system calls of their downloads
   interleave: a download is a program of system calls on three files of its own,
   ends where it would alone, and succeeds exactly when the upstream's answers
   complete it.
4. **RPM.** With separate destinations, a run that succeeds brings together all
   that the indexes list as it read them. If no stale staged index misled it,
   repomd.xml stays the old one until the repository the new one describes is
   complete, entry by entry with the listed size and digest, and the repository
   then stays complete through pruning. A publication that fails and whose undo
   operations work leaves every live path as it was.
5. **Arch.** A run that returns before promotion shows clients nothing. From
   then on every package and signature that was served has its earlier bytes or
   those this run staged, which the verifier took if both were served; signatures
   come before packages, and the database changes only when every served pair is
   live, with what the database lists. What becomes of pairs served by half is
   stated too.
6. **apt.** In every tree clients see, indexes become new only when the pool is in
   place, and each release document only when all indexes and the documents
   before it are, InRelease last; whatever earlier runs left behind. Every package
   and source index that was served is read in its most preferred compression.
7. **Bookkeeping.** Prune grace, retry budget, discovery cache and crawl schedule
   each mean a statement about the whole history; what an eviction removes is
   exact. A synchronization of any of the three kinds that is to prune removes
   only what is stale, and leaves nothing stale but what waits or cannot be
   removed; however it ends, no staged copy of its root documents is left that
   could be removed.
8. **Crawl and parser.** The breadth-first crawl lists exactly the directories
   reached by its rules, each once. Reading a printed list of stanzas gives that
   list back, and stripping undoes clear signing.

Some promises fail in cases one might not expect. Each has its condition and a
case that fails:

* An RPM run reads an index from a staged copy that an earlier run left behind,
  because it downloads indexes without staging them and only staged downloads
  clear such copies (mirror/rpm.go:394-398, fetch/fetch.go:252-257).
  `RpmSync.CompleteExactly` says when the repository is complete nevertheless,
  `RpmSync.UnseenEntryBreaks` and `RpmSync.StaleIndexBreaks` when it is not, and
  `RpmSync.StaleRunExists` that such runs exist. A caller can check
  beforehand that no name below the destination ends in `.staged` (`RpmSync.TidyDirectory`, `RpmSync.TidyIsComplete`).
* An apt run clears the staged copies of its indexes, but goes on when it cannot
  (fetch/fetch.go:252-257); it then reads an unchanged live index and publishes
  the stale copy (`DebSync.LeftoverIsPublished`). `DebSync.ServedExactly` says when
  the published indexes are served nevertheless and `DebSync.UnseenEntryBreaks`
  when they are not, and `DebSync.IndexesMeetExactly` when they are the ones the
  release lists; without such a failure they are, whatever was left behind.
* Distinct destinations also means that no destination is named like the mirror's
  own work files: a package listed as `p.withdrawn.staged` beside `p` is taken for
  the backup of `p` and lost (mirror/rpm.go:201-222).
  `RpmPublish.UndoKeepsAllBut` and `RpmPublish.BackupNameIsLost` state it.
* Where the upstream serves a signature but not its package, Arch promotes the
  signature without a check, beside whatever package is there
  (mirror/arch.go:165-167, 195-210). `ArchSync.VerifiedExactly` says when all live
  pairs are accepted, `ArchSync.HalvedPairBreaks` is the case that fails.
* Where the upstream lists a package and serves neither half, Arch drops its
  signature and leaves the package, signatures required or not
  (mirror/arch.go:165-167, 200-204). `ArchSync.SignedExactly` says when every live
  package has a signature nevertheless, `ArchSync.UnservedPairBreaks` is the case
  that fails.
* A refetched Arch package is compared with a live one by size alone
  (fetch/fetch.go:239-244, 258-263), although the refetch is documented not to
  reuse the destination. `ArchSync.DigestExactly` says when a served package ends
  with the database's digest. A caller can check beforehand that no live file has
  a listed size and another digest and that no staged copy is lying about
  (`ArchSync.DigestUnlessLookalike`); a refetch over such a file keeps it
  (`ArchSync.RefetchKeepsLookalike`), as `ArchSync.RefetchTrustsSize` shows call by
  call.
* Evicting a withdrawn repository removes its whole directory, so a repository
  still published is only safe when no evicted directory contains its own
  (mirror/discover_cache.go:297-307), which repo-sync's own README.md (lines
  116-124) does not say. `Eviction.SafeExactlyWhenClear` is the condition and
  `Eviction.MovedDownIsEvicted` the case where it fails; the run mirrors what it
  lost again afterwards.

A crawl failure whose message is empty is scheduled like a success
(server/crawl_loop.go:551-563, state/state.go:125-140); the schedule's theorems
say so.

## Model

| member | source | states |
|---|---|---|
| `DestLock.MutualExclusion` | mirror/sync.go:33-72 | in every interleaving of runs that open, lock, compare, unlink, close or crash, at most one is between a successful lock and its unlink, and the path then names the file it holds |
| `DestLock.GivingUpNeedsReleases` | mirror/sync.go:38-60 | a run gives up only after as many releases by other runs, since its call began, as it had attempts without a stat error |
| `DestLock.LockedExactly` | mirror/sync.go:43-46 | a lock attempt succeeds exactly when no run holds the file it opened |
| `DestLock.LoneRunLocks` | mirror/sync.go:38-60 | a run that nobody disturbs gets the lock: alone, its first attempt ends holding the file at the path |
| `DestLock.ReleaseInOrder` | mirror/sync.go:63-72 | whatever others do in between, a release whose unlink works leaves no moment at which the path names a file whose lock was given back |
| `DestLock.SameFileIsSame` | mirror/sync.go:52-56 | comparing inode numbers is enough: while the descriptor is open, equal numbers mean the same file even though numbers are reused |
| `DestLock.ReachableInv` | mirror/sync.go:33-72 | every reachable state keeps file identity, lock ownership and the accounting of attempts |
| `DestLock.LockDestination` | mirror/sync.go:33-61 | run against arbitrary steps of others, success leaves the caller holding the file at the path; a call that gives up made every attempt |
| `DestLock.Release` | mirror/sync.go:67-72 | the unlink comes before the close; when the unlink works, at every moment from then on the run has the lock or the path, for good, does not name its file |
| `CrawlLocks.MutualExclusion` | server/crawl_loop.go:39-59 | holders of one key are one goroutine, although table entries are deleted |
| `CrawlLocks.WorkApart` | server/crawl_loop.go:156-162 | in every reachable state, two goroutines at work on one resource, or on suites of one Debian archive, are one goroutine, whether they crawl or evict |
| `CrawlLocks.TableExact` | server/crawl_loop.go:27-59 | a reference count is the number of goroutines using the object, and a key has an entry exactly while one does, the same object for all |
| `CrawlLocks.SlotsAndFlights` | server/crawl_loop.go:97-144 | the slot count is the number of holders, and a key is in flight exactly while one dispatched crawl of it is unfinished |
| `CrawlLocks.SlotUnderLimit` | server/crawl_loop.go:97-104 | a goroutine that asks gets a slot exactly while fewer have one than the limit last loaded, and else sleeps; a cancelled crawl gives it back at once |
| `CrawlLocks.RequestTaken` | server/crawl_loop.go:117-127 | no request is forgotten: some goroutine of its kind has its resource, another request's when a crawl of it was in flight |
| `CrawlLocks.DoneHasWorked` | server/crawl_loop.go:131-140 | a goroutine that is done did its work, unless its crawl was dispatched and cancelled; evictions and crawls a client waits for always did |
| `CrawlLocks.PlanOrder` | server/crawl_loop.go:156-162 | a resource key never looks like an archive-root key, so everybody takes the root lock first |
| `CrawlLocks.NoLostWakeup` | server/crawl_loop.go:97-112 | in every reachable state with a crawl asleep for a slot, some goroutine holds a slot it has yet to give back or is about to broadcast |
| `CrawlLocks.NoDeadlock` | server/crawl_loop.go:97-112 | while any crawl or eviction is unfinished, some goroutine can step |
| `CrawlLocks.StepsBounded` | server/crawl_loop.go:117-144 | without new work, goroutines take a bounded number of steps however they are scheduled |
| `CrawlLocks.EverySchedule` | server/crawl_loop.go:117-144 | a schedule that cannot go on has finished everything |
| `WorkerPool.NilMeansDone` | fetch/fetch.go:490-553 | a nil result means every index was handed out once and every download ended well, or as "not found" where the job is optional or the call tolerates it; states, keep set and missing count say which |
| `WorkerPool.ErrorsAreReported` | fetch/fetch.go:503-552 | a download that ended in any other way makes the result an error, and an error is the cancellation or that of such a download: an absence that is optional or tolerated never stops a call |
| `WorkerPool.NeverStuck` | fetch/fetch.go:490-553 | no reachable unfinished state is stuck, although workers leave on an error |
| `WorkerPool.CallsEnd` | fetch/fetch.go:490-553 | every schedule of a call ends within a bound given by jobs and workers |
| `Fetch.BestSum` | fetch/fetch.go:144-152 | the chosen digest is the strongest one listed, and there is none only when none is listed |
| `Fetch.StrongestFirst` | fetch/fetch.go:123-152 | the order of preference by name: sha512, sha384, sha256, sha224, sha1, sha, md5, md5sum |
| `Fetch.ExpectMeans` | fetch/fetch.go:110-123 | an expectation made from one entry of the metadata demands its positive size and, for a known algorithm in any case of letters, its digest |
| `Fetch.SumsMean` | fetch/fetch.go:144-190 | one made from a list of checksums demands the positive size and the strongest digest that is given |
| `Fetch.VerifyLocal` | fetch/fetch.go:172-190 | an accepted local file has the expected size and, when asked, the strongest digest |
| `Fetch.Receive` | fetch/fetch.go:331-375 | what was hashed is exactly what the partial file holds: the whole answer, or the prefix that was there and then the answer to a ranged request; nothing else changed |
| `Fetch.Install` | fetch/fetch.go:377-404 | the target is replaced only by bytes that match, and a failure leaves it as it was |
| `Fetch.Download` | fetch/fetch.go:292-414 | one transfer, whatever the answer: at every moment the target has its old or matching bytes, and an unchanged answer only comes for unconditional content checks that were asked for |
| `Fetch.ResumePoint` | fetch/fetch.go:265-274 | without a stat fault a ranged request continues a partial file exactly when it is shorter than an expectation with size and digest |
| `Fetch.Transfer` | fetch/fetch.go:276-287 | at most two attempts, the second from scratch and only after a failed resume |
| `Fetch.File` | fetch/fetch.go:246-288 | the destination or its staged copy is only ever replaced by matching bytes, those of the last answer; a staged leftover survives only when it could not be removed; an unchanged file meets its expectation; "not found" is only reported when the upstream said so |
| `Fetch.StagedOrFinal` | fetch/fetch.go:446-452 | without a stat fault the staged copy is selected exactly when there is one |
| `Fetch.PromoteStaged` | fetch/fetch.go:456-465 | promotion happens at once or not at all, and without a staged copy changes nothing |
| `Transfers.RunJob` | fetch/fetch.go:503-534 | what one worker records about a job agrees with the tree; it skips a job only when the upstream answered "not found", counts it as missing exactly when the job is mandatory, and fails with that answer only when neither the job nor the call allows it |
| `Transfers.Many` | fetch/fetch.go:490-553 | jobs one after the other: a batch without error and with distinct destinations settled every job, counted as missing only mandatory jobs without a file, and keeps only destinations with one; at every moment only the jobs' own targets and partial files differ; `Pool` has the interleaved call |
| `Transfers.WorkNamesDiffer` | fetch/fetch.go:83-87 | different plain destinations have different staged and partial names |
| `Interleaving.EffectConfined` | fetch/fetch.go:246-288 | a system call's answer and effect depend only on the files it names, and it changes no others |
| `Interleaving.AsIfAlone` | fetch/fetch.go:503-534 | at every moment of every interleaving of programs of system calls that share no file, each is where it would be alone after as many steps, in control state and in files |
| `Interleaving.OrderIsImmaterial` | fetch/fetch.go:490-553 | interleavings of such programs in which each makes the same number of steps end in the same state |
| `Interleaving.SameAsOneByOne` | fetch/fetch.go:490-553 | every interleaving of such programs ends where running them one after the other does |
| `FileSteps.OwnsItsNames` | fetch/fetch.go:246-288 | one download, system call by system call, names its destination, the staged copy and the partial file, and no other file |
| `FileSteps.EndsAlone` | fetch/fetch.go:276-287 | it takes at most nineteen system calls |
| `FileSteps.AloneKeeps` | fetch/fetch.go:292-414 | at every moment only target and partial file differ, and the target is as before, cleared, or has matching bytes |
| `FileSteps.AloneIsFile` | fetch/fetch.go:246-288 | it ends with what `Fetch.File` promises |
| `FileSteps.SucceedsExactly` | fetch/fetch.go:246-288 | where every system call works, a download succeeds exactly when the live file is accepted, or the first answer completes the file, or a ranged request that was not answered "not found" led to a second one whose answer does |
| `FileSteps.AcceptedIsKept` | fetch/fetch.go:258-263 | and an accepted live file is not downloaded again: the call ends as unchanged, with the file as it was |
| `FileSteps.SizeIsEnough` | fetch/fetch.go:242-263 | without a digest check, a download over a live file of the listed size ends as unchanged after two working calls and leaves it |
| `Pool.TwoSides` | fetch/fetch.go:490-553 | a call of Many is a run of the worker pool and an interleaving of its downloads at once |
| `Pool.OneAfterTheOther` | fetch/fetch.go:490-553 | tree and downloads end where running the downloads one after the other does |
| `Pool.EveryMoment` | fetch/fetch.go:490-553 | at every moment of every call, failed ones and downloads still in flight after an error included, no other file is touched and each target is as before, cleared, or has matching bytes |
| `Pool.NilSettles` | fetch/fetch.go:490-553 | a call that returns nil settled every job and every absence was allowed, in every interleaving of coordinator, workers and system calls |
| `Pool.ErrorsExactly` | fetch/fetch.go:503-552 | a call that was not cancelled returns an error exactly when some download ended in an error other than "not found", or in that one with a mandatory job and a call that does not tolerate it |
| `Pool.NeverStuck` | fetch/fetch.go:490-553 | no reachable unfinished call is stuck |
| `Pool.CallsEnd` | fetch/fetch.go:490-553 | every schedule of a call, system calls counted, is bounded by its jobs and workers |
| `Missing.Missing.Tolerate` | fetch/missing.go:149-190 | a path counts once per run however often it is reported |
| `Missing.Missing.Finish` | fetch/missing.go:195-238 | it fails exactly when a missed path is inside its budget, counts those and names one, and saves exactly the paths missed this run |
| `Missing.CompletedRun` | fetch/missing.go:107-237 | a whole run with any duplicates amounts to the set of missed paths |
| `Missing.RecordsCountStreaks` | fetch/missing.go:149-237 | after any history a path's record counts exactly its unbroken trailing streak of missed runs, and is known exactly when that reached the budget |
| `Missing.FinishFailsOnShortStreaks` | fetch/missing.go:195-210 | in retry mode a run fails exactly over the missed paths whose streak is shorter than the budget |
| `Missing.BudgetRestarts` | fetch/missing.go:209-237 | one run that was served a path starts its budget over |
| `Prune.PruneOne` | fetch/fetch.go:657-703 | a walked file is skipped, kept, made to wait or removed as its verdict says, and its entry with it |
| `Prune.PruneFiles` | fetch/fetch.go:646-704 | the walk removes exactly the files judged to go except failures, and the bookkeeping is what the runs' meaning needs |
| `Prune.DropVanished` | fetch/fetch.go:709-715 | only entries of files that are gone are dropped |
| `Prune.PruneTree` | fetch/fetch.go:636-732 | a whole prune: exactly the judged files go, at every moment nothing else is missing, and the sweep leaves exactly the directories with a file beneath |
| `Prune.WalkSweeps` | fetch/fetch.go:646-704 | a walk that reached everything leaves no live file but kept ones, the mirror's own, those whose removal failed, and those that wait out the grace as the record says; no work file waits |
| `Prune.KeptNotRemoved` | fetch/fetch.go:666-669 | kept files are never removed |
| `Prune.BookkeepingExactly` | fetch/fetch.go:657-661 | by name, the files no prune touches: the records of waiting and of missing files, the discovery cache and the lock |
| `Prune.OwnFilesStay` | fetch/fetch.go:657-665 | no run removes the lock it holds or the records of earlier runs |
| `Prune.RemovedOnlyAfterGrace` | fetch/fetch.go:636-717 | over any runs, a file that is no work file is removed only at least the grace after a run found it stale, with no run since that kept it; bookkeeping files never |
| `Prune.StaleIsRemoved` | fetch/fetch.go:636-717 | conversely, a file stale for the grace and still there is removed unless the removal fails |
| `Prune.EntryOrigin` | fetch/fetch.go:666-690 | an entry dates from a run that found the file stale, and no run since kept it |
| `Prune.SortDeepestFirst` | fetch/fetch.go:722-728 | directories come in non-increasing depth, none lost |
| `Prune.SweepDirs` | fetch/fetch.go:722-731 | one sweep in that order leaves exactly the directories with a file somewhere beneath them, when no removal fails; none with a file ever goes |
| `Prune.DepthUnder` | fetch/fetch.go:722-728 | separator count grows strictly downward, which is why one sweep is enough |
| `RpmPublish.SnapshotRoot` | mirror/rpm.go:153-174 | a snapshot holds the exact bytes or absence of each root file |
| `RpmPublish.RestoreRoot` | mirror/rpm.go:177-197 | without error every root file is as snapshotted, and until then each is as found or restored |
| `RpmPublish.WithdrawNext` | mirror/rpm.go:207-219 | a missing package's live copy is hidden whole, or the error hides nothing more |
| `RpmPublish.Withdraw` | mirror/rpm.go:201-222 | all live copies of missing packages are hidden, or the error reports exactly the hidden ones |
| `RpmPublish.PutBack` | mirror/rpm.go:226-240 | without error every hidden package is back with its bytes |
| `RpmPublish.DropBackups` | mirror/rpm.go:228-234 | clients see no difference, and without error no backup is left |
| `RpmPublish.PublishExtras` | mirror/rpm.go:258-279 | key and signature are promoted, or removed when the upstream has none |
| `RpmPublish.PublishForward` | mirror/rpm.go:258-284 | repomd.xml changes with the last step, after the key and the signature |
| `RpmPublish.PublishRoot` | mirror/rpm.go:244-285 | a failure whose rollback works leaves every live path as it was, and repomd.xml is untouched at every moment |
| `RpmPublish.RolledBack` | mirror/rpm.go:245-257 | restoring all three snapshots undoes whatever forward publication did |
| `RpmPublish.HideOne` | mirror/rpm.go:212-219 | hiding one more live package keeps every hidden one recoverable |
| `RpmPublish.UnhideOne` | mirror/rpm.go:235-237 | renaming a backup back recovers exactly that package |
| `RpmPublish.UndoKeepsAllBut` | mirror/rpm.go:201-241 | withdrawing a package and putting it back restores the tree but for a file of the backup name, so live files survive exactly when none has that name |
| `RpmPublish.BackupNameIsLost` | mirror/rpm.go:212-221 | a package listed under another's backup name is lost when that one is put back, and such destinations are not separated |
| `RpmPublish.Publication` | mirror/rpm.go:463-477 | from withdrawal to the end of publication: all or nothing in content, and repomd.xml changes only when the live tree is final |
| `RpmSync.PlanMetadata` | mirror/rpm.go:351-382 | the loop over repomd's entries gives their jobs, the last primary index and all delta indexes |
| `RpmSync.JobsCover` | mirror/rpm.go:351-363 | every listed location has its mandatory job, and a location outside the destination stops the run |
| `RpmSync.StageRoot` | mirror/rpm.go:57-150 | the required mode ends authenticated, an authenticated root is a pair the verifier took on exactly the bytes a promotion would publish, a root that could be used is given up only after two refused generations, and nothing staged is left then but what could not be removed |
| `RpmSync.FetchMetadata` | mirror/rpm.go:339-390 | every metadata file is live and accepted |
| `RpmSync.ReadListed` | mirror/rpm.go:394-452 | without a stat fault the entries read are those of each index's staged copy, or of the live index where there is none |
| `RpmSync.FetchPackages` | mirror/rpm.go:394-451 | every package and delta is live and accepted or recorded missing |
| `RpmSync.Assemble` | mirror/rpm.go:383-489 | once everything read is live, promoting repomd.xml would bring it together |
| `RpmSync.AssembledKept` | mirror/rpm.go:383-489 | what a run brought together survives any change elsewhere, and is a complete repository when no stale copy was there |
| `RpmSync.PublishedIsAssembled` | mirror/rpm.go:454-489 | publication keeps all of that and leaves the pair that was verified |
| `RpmSync.PublishBatch` | mirror/rpm.go:463-477 | at every moment of publication the old repomd.xml is live or the repository is complete; an authenticated one ends without any package that was not served |
| `RpmSync.PruneAfter` | mirror/rpm.go:484-486 | pruning leaves the repository complete at every moment, and leaves no stale file that is not stuck or waiting |
| `RpmSync.Sync` | mirror/rpm.go:327-489 | a run that stops early never touches the live root; one that fails to publish never touches repomd.xml and can be undone; one that succeeds brings together all that the indexes list as it read them, with the listed size and, where it was downloaded or checked, the listed digest, withdraws what was not served, prunes what is stale and touches nothing else; and without stale copies the old repomd.xml stays until the repository is complete, which it stays |
| `RpmSync.CompleteMeans` | mirror/rpm.go:345-452 | in a complete repository every file repomd.xml lists, and every one the last primary index and each delta index listed there lists, is live with its own entry's size and, where checked, digest, or recorded missing |
| `RpmSync.AssembledMeans` | mirror/rpm.go:345-452 | what a finished run read is what these indexes list, and what it downloaded meets its entries checked or not |
| `RpmSync.CompleteExactly` | mirror/rpm.go:394-452 | a run that succeeds without pruning leaves a complete repository exactly when each entry of the live indexes that it did not see, having read stale copies, was there before or is recorded missing |
| `RpmSync.UnseenEntryBreaks` | mirror/rpm.go:394-452 | one entry it did not see, with a file neither there before nor downloaded, leaves the repository incomplete, pruning or not |
| `RpmSync.TidyDirectory` | fetch/fetch.go:446-452 | a destination without names ending in `.staged` has no stale copy of anything a repository can list |
| `RpmSync.TidyIsComplete` | mirror/rpm.go:383-489 | and then every run that succeeds leaves a complete repository |
| `RpmSync.StaleIndexBreaks` | mirror/rpm.go:394-398 | whatever the upstream does, a run that succeeds over a stale staged copy listing another package publishes an index naming a package that is not there |
| `RpmSync.StaleRunExists` | mirror/rpm.go:394-398 | such a run exists in any directory |
| `Staging.ReadChosen` | fetch/fetch.go:446-452 | without a stat fault the bytes read are those a promotion would leave live |
| `Staging.VerifyPair` | mirror/rpm.go:131-141 | an accepted pair is accepted on exactly the bytes a promotion would leave live |
| `Staging.ChosenIsPromoted` | fetch/fetch.go:446-465 | the copy selected for reading is the one promotion publishes |
| `Staging.StageOne` | fetch/fetch.go:235-288 | staging one file touches only its work names and leaves something to publish: new bytes that meet the expectation, the live file, or an earlier staged copy that could not be removed; a file is taken as unchanged exactly when the live one has the listed size |
| `Staging.Cleanup` | mirror/rpm.go:48-54 | nothing staged is left of the names, but what could not be removed; nothing else changes |
| `Staging.ReadyFromMany` | fetch/fetch.go:490-553 | a settled batch has every file live, accepted and kept, or recorded missing |
| `Promotion.PromoteOne` | mirror/arch.go:200-208 | one job of a pass is promoted, left alone or dropped |
| `Promotion.PromotePass` | mirror/arch.go:195-210 | whatever happens, each live name has its earlier or its staged bytes, jobs outside the pass are untouched, missing ones are dropped at most, and a pass that succeeds leaves its jobs in place |
| `Promotion.StepMoves` | fetch/fetch.go:456-465 | promoting one file changes nothing about what the others have to publish |
| `ArchSync.CollectJobs` | mirror/arch.go:133-146 | packages and signatures are paired in order |
| `ArchSync.JobsSay` | mirror/arch.go:133-146 | entry i of the database has its mandatory package, with its size and checksums, and its optional signature beside it |
| `ArchSync.StageDatabase` | mirror/arch.go:76-129 | the database parsed is the one that will be published, accepted with its signature when it has one |
| `ArchSync.VerifyOrRefetch` | mirror/arch.go:174-190 | a pair is accepted on the bytes to be promoted, after one refetch of both at most, and not given up without; without one nothing changed, and a refetched package is new exactly when no live file has the listed size, else that file or an irremovable staged copy |
| `ArchSync.VerifyPairs` | mirror/arch.go:161-191 | success means every present package is accepted with its signature, or has none and none is required, and where its bytes are from, in terms of the tree before the run and of which pairs were refetched |
| `ArchSync.Prepare` | mirror/arch.go:52-194 | nothing clients see changes before promotion, at any moment and whatever the file names |
| `ArchSync.PromotePairs` | mirror/arch.go:195-210 | the accepted bytes become live, signatures before packages, and halves that were not served stay or are dropped |
| `ArchSync.PassesKeepOrder` | mirror/arch.go:195-210 | the two passes never show a new package before all new signatures |
| `ArchSync.PromoteDatabase` | mirror/arch.go:244-258 | the database changes with the last step, after its signature |
| `ArchSync.Promote` | mirror/arch.go:195-258 | pairs, companions and database in order: the database is new only when every pair is live |
| `ArchSync.CompanionsNamed` | mirror/arch.go:213-242 | the companion files asked for, by name: file list, archives, links and their signatures, all optional and staged |
| `ArchSync.Sync` | mirror/arch.go:52-271 | a return before promotion leaves every live path unchanged; afterwards served files have earlier or staged bytes, and a run that succeeds leaves the parsed database, its signature, every served pair verified and with its bytes from the download, the live file or the earlier staged copy as `ArchSync.DigestExactly` reads it, the halves that were not served as they were, dropped or pruned, its companions, and nothing stale that is not stuck or waiting |
| `ArchSync.DatabaseServed` | mirror/arch.go:133-194 | in a finished run every package the database lists that was served is live, and so is its signature, which the verifier takes; if that was not served, none was required |
| `ArchSync.PairEnds` | mirror/arch.go:165-210 | where each pair ends, whichever halves were served |
| `ArchSync.VerifiedExactly` | mirror/arch.go:165-210 | after a finished run all live packages whose signature was served are accepted with it exactly when the earlier packages that were not served fit the new signatures |
| `ArchSync.HalvedPairBreaks` | mirror/arch.go:165-210 | even in required mode, a signature served without its package replaces that of a good pair |
| `ArchSync.SignedExactly` | mirror/arch.go:165-210 | in required mode every live package has a signature after a finished run exactly when no pair that was not served at all lost its signature and kept a package from before |
| `ArchSync.UnservedPairBreaks` | mirror/arch.go:200-204 | even in required mode, a pair served by neither half loses its signature and keeps its package |
| `ArchSync.DigestExactly` | fetch/fetch.go:239-263 | a package of the database that was served ends live, and with its entry's size and strongest digest exactly when the live file a refetch kept, or the earlier staged copy that could not be removed, had them |
| `ArchSync.DigestUnlessLookalike` | mirror/arch.go:133-146 | without staged copies and without live files of a listed size and another digest before the run, every package of the database that was served ends with the size and strongest digest the database lists |
| `ArchSync.RefetchKeepsLookalike` | fetch/fetch.go:258-263 | and a refetch over such a file leaves it, or an earlier staged copy, in place |
| `ArchSync.RefetchTrustsSize` | fetch/fetch.go:242-263 | the download of a refetch, run call by call, drops the staged copy with the right digest and ends with the live one of the right size and another digest, when two calls work |
| `DebRelease.CheckInline` | mirror/deb.go:99-126 | InRelease, as long as the upstream serves it, is accepted after one refetch at most, and not given up without when it can be read |
| `DebRelease.CheckDetached` | mirror/deb.go:133-160 | Release and its signature are accepted together, after one refetch of both at most, and not given up without |
| `DebRelease.CheckDocs` | mirror/deb.go:97-161 | a signature without its Release is refused, and the two checks do not disturb each other |
| `DebRelease.StageRelease` | mirror/deb.go:66-180 | every served signature was accepted, the checksums come from the strongest document, the required mode authenticates, and a failure leaves clients nothing to see |
| `DebSync.IndexJobsCover` | mirror/deb.go:330-356 | the index jobs are exactly the listed files that are no release documents and pass the filter |
| `DebSync.WantedHasJob` | mirror/deb.go:330-356 | every listed file that is wanted has a job with its own size and checksums, optional and staged |
| `DebSync.JobsAreWanted` | mirror/deb.go:330-356 | and nothing else has a job |
| `DebSync.CollectIndexes` | mirror/deb.go:330-356 | the loop collects those jobs |
| `DebSync.SplitExt` | mirror/deb.go:665-672 | base and extension make up the path, and the extension is a known one or empty |
| `DebSync.PreferNext` | mirror/deb.go:384-388 | considering one more variant keeps the choice the most preferred so far |
| `DebSync.SelectVariants` | mirror/deb.go:366-389 | every index with a present variant has one chosen, and no present variant is more preferred; `DebSync.IndexesAreRead` says which these are |
| `DebSync.AddFiles` | mirror/deb.go:397-401 | the first expectation listed for a path is kept |
| `DebSync.PoolIsFirstWins` | mirror/deb.go:391-402 | the pool has exactly the listed paths, each with the first expectation listed |
| `DebSync.ReadPool` | mirror/deb.go:391-402 | the pool is what the chosen variants list, each read from its own staged copy or the unchanged live file |
| `DebSync.IndexesAreRead` | mirror/deb.go:366-402 | every served index whose path below the suite is a directory, then Packages or Sources, then nothing or a compression ending is read in its most preferred form, gz before xz before zst before bz2 before plain, and all it lists is in the pool |
| `DebSync.OnlyIndexesAreRead` | mirror/deb.go:366-389 | and nothing else is read |
| `DebSync.CollectPool` | mirror/deb.go:404-412 | one mandatory job for each pool path |
| `DebSync.Gather` | mirror/deb.go:325-423 | before publication every pool file of the indexes read is live and accepted or recorded missing |
| `DebSync.Promote` | mirror/deb.go:425-453 | at every moment the pool stays, indexes are earlier or new, and each document waits for what comes before it |
| `DebSync.PromoteDocs` | mirror/deb.go:438-453 | the release documents follow one another, a dropped one removed |
| `DebSync.InReleaseLast` | mirror/deb.go:438-453 | InRelease is new only after all indexes, Release.gpg and Release |
| `DebSync.PoolServed` | mirror/deb.go:404-418 | in every tree clients can see during publication, every file a chosen index lists, as the run read it, is live with the size and the strongest digest first listed for its path, or is recorded missing |
| `DebSync.PublishedIsSeen` | mirror/deb.go:366-402 | the indexes published are the ones read unless an earlier staged copy could not be removed |
| `DebSync.ServedExactly` | mirror/deb.go:391-453 | the published indexes are served in every tree clients see exactly when the entries the run did not see are |
| `DebSync.UnseenEntryBreaks` | mirror/deb.go:391-453 | an entry the run did not see, with a file that was not there, is not served by any of those trees |
| `DebSync.LeftoverIsPublished` | fetch/fetch.go:252-262 | with an unchanged index and a staged copy that could not be removed, the run reads the one and publishes the other |
| `DebSync.IndexesMeetExactly` | mirror/deb.go:330-362 | once a release document is new, every index the release lists and the upstream served has the size and strongest digest listed, exactly when that is so for the earlier staged copies published over unchanged indexes |
| `DebSync.Sync` | mirror/deb.go:275-476 | before publication only pool files arrive; from then on every tree clients see is ordered, whatever earlier runs left, with indexes that meet the release and the pool of the indexes as read; a run that succeeds ends with all of it done, dropped documents gone unless their removal failed, and nothing stale that is not stuck or waiting; with signatures on and one served, it is authenticated |
| `Discover.RepoTypeOf` | mirror/discover.go:122-144 | the format is the first accepted one whose markers are listed |
| `Discover.MarkersExactly` | mirror/discover.go:122-144 | the markers by name: a directory repodata, a file InRelease or Release, a file ending in .db, a file APKINDEX.tar.gz |
| `Discover.MatchedFiles` | mirror/discover.go:148-171 | exactly the wanted files that are not excluded, each once |
| `Discover.SubjectMeans` | mirror/discover.go:178-206 | a pattern with a slash is matched against the path from the start, without its leading one, and any other against the name |
| `Discover.UrlInjective` | mirror/discover.go:100-104 | each directory has its own URL, so the visited set tells directories apart |
| `Discover.RemainingShrinks` | mirror/discover.go:66-68 | every round lists a new directory of a finite set, so the crawl ends for every listing tree |
| `Discover.Enqueue` | mirror/discover.go:94-106 | after a directory's entries every child reached from it is met |
| `Discover.DiscoverRepos` | mirror/discover.go:54-116 | the crawl lists only reached directories, each once; unless cancelled it lists all of them, and the result has exactly their repositories and wanted files and counts exactly those that could not be listed |
| `Discover.CollectedMeans` | mirror/discover.go:71-89 | what was collected directory by directory describes the set of directories listed, whatever their order, each failure counted once |
| `Discover.ReachedExactly` | mirror/discover.go:71-106 | the crawl goes on from a listed directory that is no repository and not too deep, to those in it that no excluded pattern matches |
| `Discover.RepoExactly` | mirror/discover.go:71-80 | a directory is a repository of the first accepted format whose markers it lists, at its URL without slashes at the end |
| `Discover.FileExactly` | mirror/discover.go:148-171 | a loose file is one of a directory that is no repository which some wanted pattern matches and no excluded one does |
| `DiscoverCache.UpdateList` | mirror/discover_cache.go:161-226 | the compaction in place and the additions give the records and evictions specified |
| `DiscoverCache.SplitExactly` | mirror/discover_cache.go:162-183 | old records split into kept and evicted without loss or duplication |
| `DiscoverCache.LookupNext` | mirror/discover_cache.go:161-226 | what one update does to one key |
| `DiscoverCache.LiveMeans` | mirror/discover_cache.go:141-226 | over any scans, a key is live exactly when some scan found it and no later scan was both clean and without it |
| `DiscoverCache.GoneMeans` | mirror/discover_cache.go:163-180 | a key is gone since the first clean scan without it after it was last found |
| `DiscoverCache.EvictedOnlyAfterGrace` | mirror/discover_cache.go:169-181 | eviction happens only in a clean pruning scan, at least the grace after that |
| `DiscoverCache.GoneIsEvicted` | mirror/discover_cache.go:177-181 | and then it does happen |
| `DiscoverCache.EvictedExactly` | mirror/discover_cache.go:169-181 | what an update reports as withdrawn are the keys it stops tracking, with the types recorded |
| `DiscoverCache.TypeKept` | mirror/discover_cache.go:208-217 | a known URL keeps its old type |
| `DiscoverCache.TypeMeans` | mirror/discover_cache.go:208-217 | a key that is tracked has the type it had when some scan first found it since it was last unknown |
| `DiscoverCache.ReplayAfterCleanScan` | mirror/discover_cache.go:98-131 | replaying after a clean scan gives exactly the keys it found |
| `DiscoverCache.ReplayedExactly` | mirror/discover_cache.go:98-131 | what a replay returns are the live keys with the types recorded |
| `DiscoverCache.ReplayAfterUncleanScan` | mirror/discover_cache.go:169-172 | after an unclean scan nothing is withdrawn or evicted |
| `DiscoverCache.Cache.Reuse` | mirror/discover_cache.go:98-131 | a crawl is replayed exactly when it ran with these options, not in the future, and less than the positive time to live ago; then as its live entries |
| `DiscoverCache.Cache.Update` | mirror/discover_cache.go:141-238 | one crawl's record is updated for both kinds of entries, others are untouched |
| `DiscoverCache.CrawlKeyExact` | mirror/discover_cache.go:91-93 | trailing slashes make no difference to the key and nothing else is ignored |
| `DiscoverCache.FileKeyInjective` | mirror/discover_cache.go:156-159 | files with one key are one file, as names hold no slash |
| `Eviction.EvictDiscovered` | mirror/discover_cache.go:286-331 | at every moment the tree is the earlier one without some of the files to go, and without a failure all of them are gone |
| `Eviction.BelowDestination` | mirror/discover_cache.go:297-337 | removing a withdrawn repository's directory stays strictly below the destination |
| `Eviction.SafeExactlyWhenClear` | mirror/discover_cache.go:286-331 | a directory, as of a repository still published, loses nothing exactly when no evicted directory contains it or lies in it and no evicted file lies in it |
| `Eviction.MovedDownIsEvicted` | mirror/discover_cache.go:297-311 | a repository found one directory below a withdrawn one is live in the cache, and all its files go |
| `CrawlSchedule.Store.MarkRequested` | state/state.go:90-104 | the entry is created or refreshed, with a copy of it and whether it was tracked |
| `CrawlSchedule.Store.MarkSeenInInventory` | state/state.go:108-121 | the sighting is recorded and no request is implied |
| `CrawlSchedule.Store.MarkCrawled` | state/state.go:125-141 | the outcome schedules the next attempt by the retry or the crawl interval, and is dropped for an entry deleted meanwhile |
| `CrawlSchedule.Store.Delete` | state/state.go:157-164 | only the key goes |
| `CrawlSchedule.Store.TouchRepoMembers` | state/state.go:190-208 | exactly the repositories whose root covers the path are refreshed and returned |
| `CrawlSchedule.CoversExactly` | state/state.go:190-208 | a repository covers its root and what lies below it, by path segments |
| `CrawlSchedule.OwnedExactly` | server/crawl_loop.go:312-336 | a path is a member of a repository exactly when it lies strictly below the root of a tracked one that is not generic |
| `CrawlSchedule.RefreshTier` | server/crawl_loop.go:517-529 | the loop finds the tier the age falls into, or that it is past all |
| `CrawlSchedule.TierMeans` | server/crawl_loop.go:517-529 | stale means that the sum of all positive steps has passed; otherwise the tier is the first whose cumulative end lies ahead |
| `CrawlSchedule.EvictStale` | server/crawl_loop.go:600-630 | a resource requested after the snapshot stays, as does an entry whose files cannot be removed or do not resolve; a repository's member loses only its bookkeeping, and the whole tree is never removed |
| `CrawlSchedule.CrawlDue` | server/crawl_loop.go:567-596 | a complete pass dispatches exactly the due entries and evicts exactly the stale ones, apart from the failures it reports |
| `CrawlSchedule.LastRequestedMeans` | state/state.go:90-104 | an entry's last request is the latest request in the whole history |
| `CrawlSchedule.LastCrawledMeans` | state/state.go:125-141 | an entry's crawl fields come from the latest outcome for it |
| `CrawlSchedule.LastSeenMeans` | state/state.go:108-121 | a sighting is remembered until the key is deleted or evicted outside the shield |
| `CrawlSchedule.IdentityMeans` | state/state.go:90-121 | an entry's kind, path and root are those of the latest request or sighting that named it |
| `CrawlSchedule.EvictedOnlyWhenStale` | server/crawl_loop.go:567-584 | over any history, a pass evicts only what no request reached within the sum of all tiers and no mount advertised within 72 hours |
| `CrawlSchedule.StaleIsEvicted` | server/crawl_loop.go:567-584 | conversely, over any history, a complete pass evicts whatever no request reached within the sum of all tiers and no mount advertised within 72 hours, or reports a failure |
| `CrawlSchedule.DispatchedOnlyWhenDue` | server/crawl_loop.go:551-595 | over any history, a pass dispatches only what was never crawled, failed at least the retry interval ago, or was crawled at least the tier and the crawl interval ago |
| `CrawlSchedule.DueIsDispatched` | server/crawl_loop.go:551-595 | and it dispatches all of that |
| `Control.ControlReader.ReadStanza` | mirror/control.go:36-67 | each call returns the next stanza of the remaining text or the end |
| `Control.ReadStanzas` | mirror/control.go:36-67 | calling until the end returns all of them and ends |
| `Control.ReadUndoesPrint` | mirror/control.go:36-67 | reading a printed list of stanzas returns exactly that list, for the syntax of section 5.1 of the Debian Policy Manual, continuation lines indented by space or tab |
| `Control.MeaningExact` | mirror/control.go:54-64 | a field has its own value, continuation lines joined, unless one of the same name follows it |
| `Control.BlankSkipped` | mirror/control.go:46-53 | lines of nothing but space before a stanza are skipped, however many |
| `Control.FinalNewlineOptional` | mirror/control.go:40-45 | the final newline makes no difference |
| `Control.StripClearsign` | mirror/control.go:71-100 | the loop over lines gives the stripped text specified |
| `Control.StripUndoesSigning` | mirror/control.go:71-100 | stripping a clearsigned document returns the payload's lines and one empty line, dash escaping of section 7.1 of RFC 4880 reversed |
| `Control.NormalizeLines` | mirror/control.go:74-74 | documents with CRLF line endings have the same normal form |
| `Control.ReleaseReadsEitherWay` | mirror/control.go:71-100 | a release document gives the same stanzas whether it is served plain or clearsigned |

## Left out

- RpmSync.Sync: promises hold for separate destinations that are no work names, without a failed stat; dry runs and traces are not modelled.
- ArchSync.Sync: signed, non-dry runs only, with distinct file names and without a failed stat; the unsigned path writes packages in place as RPM does and would add the same claims; the database name is a parameter and its paths are taken as the plain join.
- DebSync.Sync: promises hold for distinct file names, without a failed stat; by-hash links, dry runs and traces are not modelled; the component and architecture filter is a parameter.
- Fetch.StagedOrFinal: a failed stat selects the final file, as in the source, so claims about what was read exclude stat faults.
- Transfers.Many: jobs run one after the other here, and a call stops at the first error; the interleaved call, with jobs in flight after an error, is `Pool`.
- WorkerPool.NilMeansDone: what one download does is an arbitrary outcome there; `Pool` has the downloads too.
- Missing.Missing.Finish: the first and last times in a record, and failures to save the records, are not modelled.
- Prune.PruneTree: dry runs and failures to save the prune state are not modelled; symbolic links and special files are not part of the tree.
- Discover.DiscoverRepos: the results' final sorting is not modelled; entries are taken to be plain names, never `.` or `..`; escaping is taken to keep entries apart and free of slashes.
- DiscoverCache.Cache.Update: the final sorting of records is not modelled, and scans are taken to list each key once, as discovery does.
- CrawlSchedule.CrawlDue: a pass is one step in the histories; a request racing an eviction between its second look and the deletion is not claimed to win, as the source does not ensure it.
- Control.ControlReader.ReadStanza: read errors other than the end of input are not modelled.
- RpmSync.StageRoot: the key file and the configured key servers are inside the signature predicate; the key's staged copy is not read separately.
- mirror/sync.go beyond the lock: the driver over targets, summaries and totals.
- apk (mirror/apk.go): the same steps as Arch with one index and no package signatures.
- The striped lock on destinations (fetch/fetch.go:219-231): jobs of a batch have destinations of their own here, and runs on one destination are kept apart by `DestLock`.
- Configured mounts' own schedule (server/crawl_loop.go:484-512): the same dispatch over a fixed list.
- HTTP transport, HTML, XML, JSON, YAML, tar and compression decoding, OpenPGP packets and key servers: parameters.
- Serving, listeners, service management, flags, configuration, logging, traces: plumbing.
- File modes, umask, modification times and disk exhaustion other than as a failing write.
- Directories: they exist as needed; only the prune's sweep knows them.
- Text is characters, not bytes; lower-casing of digests is that of ASCII.
- Consistency of signature and repomd.xml between two promotion steps: the source does not ensure it.
