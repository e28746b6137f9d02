# Verified model of the hand-written transactions, queues and sample arithmetic

The project models the parts of the repository that are easy to get wrong and hard to test: the
publication of a staged unit, the coalescing fetch queue and its evidence cache, concurrent model
registration, the download queue, the multi-file JSON refresh, chunked audio joining, catalogue
deduplication, the decode damage budget and the algorithm-pair parser. Code that changes things step
by step is written as classes and methods with loops, each tied to a function of its inputs or of the
state before it; the laws are lemmas about those functions and about whole runs.

| file | models |
|---|---|
| `Text.dfy` | decimal numerals, `rfind`, `splitext` |
| `FileSystem.dfy` | a file system shared with other writers; every call first lets them act |
| `PromotionPlan.dfy` | association and suffix remapping of one staged unit |
| `Promotion.dfy` | the publication transaction: retries, whole-unit restart, backups, rollback |
| `FetchQueue.dfy` | request coalescing, reservation, the worker's chunks |
| `StaleRollback.dfy` | a concrete run in which a failing callback loses another caller's fetch |
| `RollbackLoss.dfy` | when exactly a failing callback can lose another caller's fetch |
| `StemEvidence.dfy` | the last-known-good evidence cache |
| `Registry.dfy` | Demucs registration under concurrent installers |
| `ArtifactCapture.dfy` | one-pass fingerprinting with a sliding window |
| `Chunking.dfy` | window arithmetic and the in-place crossfade |
| `Dedupe.dfy` | the greedy catalogue filter and its explanations |
| `DownloadQueue.dfy` | the download queue and its self-restarting worker |
| `JsonRefresh.dfy` | the multi-file JSON transaction and its lock order |
| `DecodeCap.dfy` | the damage budget and the output cap |
| `EnsembleTypes.dfy` | printing and parsing algorithm pairs |

How the environment enters:

- **Files.** `FileSystem` keeps `files == ours + born`: `born` is what other writers created since the
  start, `ours` everything else. A `schedule` says, tick by tick, what others create (only inside a
  finite `world` of paths, and never by removing or replacing) and whether the operation of that tick
  fails. A property that holds for every schedule holds for every interleaving and every single or
  repeated failure.
- **Threads.** The fetch queue, the registry and the download queue are step systems: an event is one
  locked section (or one atomic file operation), and the lemmas quantify over every sequence of events.
- **Digests and JSON.** Hashes and JSON printers are parameters; nothing is assumed of a digest, and of
  JSON only that parsing a printed payload gives it back.

Results worth knowing, because the code is not what one might expect:

- **Promotion is all or nothing, with two exact exceptions.** A backup that cannot be deleted after the
  unit was published raises although everything is in place (`Stranded` describes that state). And a
  file that already stands at a backup path is lost: a promotion that fails before publication restores
  the files exactly if and only if the backup paths of the targets it had moved aside were free
  (`RollbackExactIffBackupsFree`; `OldBackupIsLost` runs one that loses a file).
- **Unit suffixes need distinct basenames and prefixes that are not entangled.** Two unit files can take
  one path at one index exactly when one prefix continues like a suffixed unit name of the other
  (`FilesMeetIffEntangled`); the track base and member prefix of the separation command never do. Two
  staged unit files that share a basename are sent to one path at every index, so no suffix attempt can
  land the unit (`SharedBasenameAlwaysRaces`). A sidecar that shares
  its basename with another is, in a suffix attempt, sent to the last target with that name.
- **A failing callback can lose somebody else's fetch.** Rolling back a reservation re-puts the replaced
  request. `RollbackLosesIff` says exactly when some continuation of the program then loses a fetch:
  when the worker is about to retire a copy of that version, the version would change a later request it
  is joined to, and two other URLs can get ahead of it. A call whose URLs were not pending, or pending
  with priority 1, no force and every permission, is safe at whatever moment its callback fails
  (`FailingCallIsSafe`). Strict order of versions is lost more often (`RollbackAllKeepsInvIff`), without
  harm.
- **A retry can give one selection two active items.** Exactly an unguarded one does: retrying a failed
  item keeps selections unique if and only if its selection has no active item (`RetryKeepsUniqueIff`),
  and every run whose retries look first keeps them unique (`GuardedRunsStayUnique`).
- **Old cache records can change their view on a reload.** Exactly those without evidence whose own
  timestamp needs repair do (`ReloadKeepsViewIff`); no record the current code writes is one of them.
- **Documentation and code.** The docstring of `enqueue_missing` says that a URL already queued at the
  same or a better priority is skipped, and that of `_dedupe_sorted` that the best-priority copy is
  kept. The code re-queues the joined request every time and joins all copies; the model follows it.

## Model

| member | source | states |
|---|---|---|
| Text.SplitExtOf | cli/promotion_plan.py:11-11 | the extension starts at the last dot, unless only dots stand before it |
| Text.DigitsMean | cli/promotion_plan.py:51-51 | a suffix is the decimal numeral of its index, without leading zeros |
| Files.FileSystem.MoveNoReplace | cli/promotion.py:47-80 | the move succeeds only onto a path nobody holds, takes the bytes along, and leaves every other file, whoever wrote it, as it was |
| Files.FileSystem.Replace | cli/promotion.py:188-188 | the target holds the source's bytes, the source is gone, everything else is kept; a failure changes nothing |
| PromotionPlan.Associate | cli/promotion_plan.py:61-102 | the plan renames by the expected base exactly; without one, by the base of the first destination that has a name (what stands before its last " (", else its whole stem), and by none when no destination has one; with an expected base, the first file that matches neither it nor the member prefix is reported |
| PromotionPlan.TrackBaseMeans | cli/promotion_plan.py:10-15 | the base of a destination ends at the last " (" of its stem that is past the first character, or is the whole stem; only an empty name has none |
| PromotionPlan.FirstTrackBaseMeans | cli/promotion_plan.py:71-79 | of several destinations the first one with a name gives the base |
| PromotionPlan.SuffixMeans | cli/promotion_plan.py:18-52 | told by the form of the name: a file of the track (base, then a label or an extension) gets the number after the base; otherwise a file of the member (prefix, words, a label in parentheses, an extension) after the prefix; any other file stays |
| PromotionPlan.LastNameWins | cli/promotion_plan.py:126-126 | of several destinations with one basename the last one counts |
| PromotionPlan.TrackBaseNamesItsUnit | cli/promotion_plan.py:10-19 | the destination that gives the track base belongs to the unit exactly when it has a label or an extension |
| PromotionPlan.UnitPrefix | cli/promotion_plan.py:18-30 | the prefix that is extended is the track base or the member prefix, is a prefix of the name and is followed by a space or a dot |
| PromotionPlan.SuffixChangesUnits | cli/promotion_plan.py:33-52 | a suffix changes a path exactly when its file belongs to the unit |
| PromotionPlan.SuffixDecodes | cli/promotion_plan.py:33-52 | unless the prefixes are entangled, a suffixed path determines both the original file and the index |
| PromotionPlan.FilesMeetIffEntangled | cli/promotion_plan.py:18-52 | two different unit files can take one path at one index if and only if one prefix continues with the numeral and the start of a unit name of the other |
| PromotionPlan.RelatedIsNotEntangled | cli/promotion_plan.py:18-52 | a track base that is the member prefix, or that and a space and more, is not entangled with it |
| PromotionPlan.UnrelatedPrefixesCanCollide | cli/promotion_plan.py:33-52 | two concrete names with entangled prefixes take one path at index 2 |
| PromotionPlan.SuffixBoundsIndex | cli/promotion_plan.py:49-52 | a suffixed name of known length bounds the index it can carry |
| PromotionPlan.ClashBoundsIndex | cli/promotion_plan.py:33-52 | even unrelated prefixes only clash at indexes bounded by the prefix lengths |
| PromotionPlan.RemapIsPerFile | cli/promotion_plan.py:118-139 | with distinct basenames a remap is each file's own destination with the suffix |
| PromotionPlan.UnitOriginalIsOwn | cli/promotion_plan.py:126-131 | when no two unit files share a basename, each is remapped from its own destination |
| PromotionPlan.RemapInjectiveIffNamesDistinct | cli/promotion_plan.py:118-139 | unit files get pairwise different paths at an index if and only if no two share a basename |
| PromotionPlan.CandidateIsTheUnit | cli/promotion_plan.py:151-168 | a file advances with the index exactly when it belongs to the unit, and its suffixed path is among the rewritten targets |
| Promotion.FirstExisting | cli/promotion.py:158-164 | finds an existing path, all earlier ones having been free; if it finds none, none existed when the call began |
| Promotion.NumberedInjective | cli/promotion.py:35-39 | different indexes give different per-file names |
| Promotion.CandidatesFill | cli/promotion.py:37-38 | as many numbered variants are taken as indexes were skipped, so the probe must stop |
| Promotion.FirstFreeIndex | cli/promotion.py:36-39 | stops at the first index whose variant is free, bounded by the number of paths that can exist |
| Promotion.UniqueTarget | cli/promotion.py:32-39 | the path itself if free, else its first free numbered variant in the same directory; never an existing path |
| Promotion.NumberedKeepsExtension | cli/promotion.py:35-39 | the number stands at the end of the stem and the extension stays as it was |
| Promotion.BlockedBoundsIndex | cli/promotion.py:89-106 | only suffix indexes below a bound can be blocked by existing files |
| Promotion.ApplyUnitRename | cli/promotion.py:83-107 | ends at an index that was not blocked when the probe began, all smaller ones being blocked |
| Promotion.BudgetShrinks | cli/promotion.py:195-224 | every collision of one file uses up one of the finitely many paths of other writers |
| Promotion.MoveOrRename | cli/promotion.py:196-225 | one round moves the file, stops, or chooses the next per-file name with a smaller budget |
| Promotion.Retry | cli/promotion.py:195-225 | the inner loop ends; the file stands at the intended path or a numbered variant, or nothing of ours changed |
| Promotion.PublishNext | cli/promotion.py:192-229 | one staged file is taken to its place with its bytes, or nothing changes and the unit races or stops for a stated reason |
| Promotion.PublishAttempt | cli/promotion.py:192-229 | after any number of rounds the files are those at the start with the first staged files moved |
| Promotion.UndoMoves | cli/promotion.py:232-235 | moving back restores exactly the files at the start, whatever others created meanwhile |
| Promotion.RaceBoundsIndex | cli/promotion.py:190-241 | a whole-unit attempt can only be raced at indexes below a bound, because what stands in the way has a name of bounded length |
| Promotion.SharedBasenameAlwaysRaces | cli/promotion.py:190-241 | two unit files with one basename aim at one path at every index, and no suffix attempt gets past the second |
| Promotion.RacePassed | cli/promotion.py:208-241 | an attempt is only raced because a path it needs exists or two staged files are in each other's way |
| Promotion.PublishUnit | cli/promotion.py:190-241 | the restart loop ends, with the whole unit moved or a stated reason; every smaller index was passed over because a path it needs exists or two staged files are in each other's way |
| Promotion.LandedIsNamed | cli/promotion.py:208-241 | a published unit carries one suffix index on all its unit files or none; other files get their name or a numbered variant; all targets differ |
| Promotion.PublishOrUndo | cli/promotion.py:190-246 | the unit is published as named, or our files are exactly as before and the reason still stands |
| Promotion.BackupInjective | cli/promotion.py:42-44 | different targets have different backup paths |
| Promotion.BackUp | cli/promotion.py:182-189 | every existing target up to the point of failure stands at its backup path with its bytes |
| Promotion.RestoreBackups | cli/promotion.py:247-249 | restores every backed-up target; what stood at a used backup path is gone |
| Promotion.RollbackExactIffBackupsFree | cli/promotion.py:182-250 | a promotion that fails before publication leaves exactly the earlier files if and only if the backup paths of the targets it had moved aside were free |
| Promotion.OldBackupIsLost | cli/promotion.py:182-250 | a run of the promotion on an admissible state: the target is moved onto an occupied backup path, the publishing move fails, and the occupant is gone |
| Promotion.DropBackups | cli/promotion.py:251-253 | deletes the backups in order, up to the first failure |
| Promotion.PublishedOver | cli/promotion.py:181-254 | under overwrite the published unit replaces the old targets and only the backups remain to be removed |
| Promotion.Finish | cli/promotion.py:251-254 | all backups are gone, or exactly those left hold their targets' old bytes |
| Promotion.Transact | cli/promotion.py:178-254 | all or nothing for every policy and every point of failure |
| Promotion.ExpectedFiles | cli/promotion_plan.py:80-101 | a unit is refused exactly when some staged file is neither a file of the expected track nor one of the member |
| Promotion.PublishedAsOne | cli/promotion.py:165-254 | whatever its base, a published unit is not split: all its files carry one mark, none or one number from 2 on, right after their prefix |
| Promotion.PromoteLocked | cli/promotion.py:130-254 | a published unit stands at its distinct returned targets with its staged bytes and no backup; under `rename` all files of the unit carry one mark after the expected base, or the base of the first named destination, and the number is the smallest one not passed over for a reason; unexpected files are refused; an exception leaves the earlier files, up to the two exact exceptions; every failure has a reason; other writers' files are never changed |
| FetchQueue.JoinIsSemilattice | core/catalogue_stem_cache.py:446-461 | merging requests is associative, commutative and idempotent, and is the least upper bound |
| FetchQueue.JoinAllIsLeastPrivilege | core/catalogue_stem_cache.py:446-461 | a joined request has the AND of the policies, the OR of force, the best priority and the latest token of its callers |
| FetchQueue.DedupedCoalesces | core/catalogue_stem_cache.py:700-717 | one item per URL, sorted, each the least upper bound of exactly that URL's copies |
| FetchQueue.DedupeSorted | core/catalogue_stem_cache.py:700-717 | the dictionary loop computes that deduplication |
| FetchQueue.CopiesJoinToCurrent | core/catalogue_stem_cache.py:700-732 | joining all outstanding copies of a URL gives exactly its current request |
| FetchQueue.ReserveKeepsInv | core/catalogue_stem_cache.py:500-511 | reserving a URL keeps the queue invariant |
| FetchQueue.ReleaseKeepsInv | core/catalogue_stem_cache.py:528-531 | releasing a reservation keeps it |
| FetchQueue.RollbackKeepsInvIff | core/catalogue_stem_cache.py:516-527 | undoing one reservation keeps the copies in the priority queue newer than the worker's if and only if the worker holds no copy of the version put back |
| FetchQueue.RollbackAllKeepsInvIff | core/catalogue_stem_cache.py:516-527 | the same for the whole failed call |
| FetchQueue.StartKeepsInv | core/catalogue_stem_cache.py:748-763 | starting current items and dropping superseded ones keeps it |
| FetchQueue.FinishKeepsInv | core/catalogue_stem_cache.py:794-800 | retiring a finished request, unless it was promoted meanwhile, keeps it |
| FetchQueue.DrainKeepsInv | core/catalogue_stem_cache.py:720-732 | draining and deduplicating keeps it |
| FetchQueue.TakeNewKeepsInv | core/catalogue_stem_cache.py:801-808 | merging new arrivals into the backlog keeps it |
| FetchQueue.RunKeepsInv | core/catalogue_stem_cache.py:464-817 | in every reachable state each accepted URL is reserved or has a copy with exactly its request, and no URL is in flight twice |
| FetchQueue.ChunkIsLeastPrivilege | core/catalogue_stem_cache.py:747-763 | what runs is the join of everybody coalesced into it, with the privileges all of them have; at most two URLs, none twice |
| FetchQueue.ChunkComesFirst | core/catalogue_stem_cache.py:747-763 | every request that starts has a lower priority number than each that stays behind, or the same and is older |
| FetchQueue.AcceptedUntilServed | core/catalogue_stem_cache.py:464-817 | an accepted URL keeps all its callers until a chunk that ran exactly its joined request is finished |
| FetchQueue.WorkerStep | core/catalogue_stem_cache.py:735-817 | the worker always has a step that uses up work |
| FetchQueue.QuietMeansServed | core/catalogue_stem_cache.py:814-817 | an idle worker and an empty queue mean no URL is left |
| FetchQueue.WorkerServesEverything | core/catalogue_stem_cache.py:735-817 | once callers stop, the worker alone serves every accepted URL |
| FetchQueue.WantedUrls | core/catalogue_stem_cache.py:485-494 | the distinct non-empty URLs without their query, each in front of another exactly as the caller first named them |
| FetchQueue.WantedInOrder | core/catalogue_stem_cache.py:485-492 | of two accepted URLs the one that comes first was named before every occurrence of the other |
| FetchQueue.StemQueue.Admit | core/catalogue_stem_cache.py:482-513 | the gate, and the reservation of every wanted URL in one section |
| FetchQueue.StemQueue.ReleaseReserved | core/catalogue_stem_cache.py:528-531 | the loop that makes reservations executable |
| FetchQueue.StemQueue.RollbackReserved | core/catalogue_stem_cache.py:516-527 | the loop that undoes them |
| FetchQueue.StemQueue.TakeFirst | core/catalogue_stem_cache.py:737-737 | the worker takes an item that no other in the queue precedes by priority and age |
| FetchQueue.StemQueue.DrainItems | core/catalogue_stem_cache.py:720-732 | the drain as a method on the queue's variables |
| FetchQueue.StemQueue.StartChunk | core/catalogue_stem_cache.py:747-763 | the chunk filter; everything started carries its callers' least privilege and precedes what stays behind by priority and age |
| FetchQueue.StemQueue.FinishChunk | core/catalogue_stem_cache.py:794-808 | the section after a chunk |
| StaleRollback.RollbackCanLoseAFetch | core/catalogue_stem_cache.py:516-527 | a run from the empty queue that ends idle with a request nothing will run |
| StaleRollback.StrandedIsLost | core/catalogue_stem_cache.py:516-527 | in that final state no copy of the request exists |
| RollbackLoss.RollbackLosesIff | core/catalogue_stem_cache.py:516-527 | after undoing a reservation some run of the program loses an accepted fetch if and only if the version put back is about to be retired by the worker, is not absorbed by every later request, and can be overtaken by two other URLs |
| RollbackLoss.RunStaysCalm | core/catalogue_stem_cache.py:464-817 | without that risk no run of the program ever loses an accepted fetch, stale copies included |
| RollbackLoss.RiskyLoses | core/catalogue_stem_cache.py:516-527 | with it, some run of the program from that very state loses one |
| RollbackLoss.NothingAtStakeIsSafe | core/catalogue_stem_cache.py:516-527 | undoing reservations of URLs that were not pending, or whose pending request every later one absorbs, loses nothing |
| RollbackLoss.FailingCallIsSafe | core/catalogue_stem_cache.py:464-532 | a call with such URLs may fail in its callback at any moment of the worker without losing a fetch |
| RollbackLoss.ReachesLoss | core/catalogue_stem_cache.py:516-527 | the empty queue reaches a reservation whose failing callback loses a fetch |
| StemEvidence.Normalized | core/catalogue_stem_cache.py:179-206 | evidence is kept exactly when there is some, digests and texts are valid or absent, a missing or zero check time is replaced by the fetch time, and a legacy failure becomes an error |
| StemEvidence.EvidenceIsLastKnownGood | core/catalogue_stem_cache.py:271-346 | after any sequence of fetches the stems, target and digest are those of the latest valid body, and an error is set exactly when the latest fetch failed |
| StemEvidence.NextIsLastKnownGood | core/catalogue_stem_cache.py:271-346 | one more outcome, including a 304, keeps that |
| StemEvidence.ResponseSettles | core/catalogue_stem_cache.py:627-697 | by the response alone: a valid 200 body of at most 2 MiB replaces the evidence, a 304 confirms known stems and may renew their validators, everything else keeps what was known and records an error of its kind |
| StemEvidence.FreshIffWithinTtl | core/catalogue_stem_cache.py:212-227 | a record counts for seven days after a successful check and for six hours after a failed one |
| StemEvidence.ViewMeans | core/catalogue_stem_cache.py:230-268 | known stems are shown at any age, a failure only while it counts; the hit is stale exactly when its time is up or the last check failed, and carries the message of that failure |
| StemEvidence.ReloadKeepsViewIff | core/catalogue_stem_cache.py:179-268 | the lookup view survives a write and reload at every time exactly when there is evidence or the record's own timestamp needs no repair |
| StemEvidence.OwnEntriesReload | core/catalogue_stem_cache.py:289-346 | every record the cache stores meets that condition |
| StemEvidence.OldRecordChangesView | core/catalogue_stem_cache.py:179-268 | a legacy record that does not |
| StemEvidence.StemCache.FetchAndRemember | core/catalogue_stem_cache.py:627-697 | an entry is fetched again exactly when forced, unknown or past its time; exactly that entry changes, to what the response calls for; the request carries its validators, and the written file shows the same views of every entry that meets the reload condition, whatever the cache was loaded from |
| Registry.Normalize | core/demucs_registry.py:328-359 | succeeds exactly when no two models share a hash; the index is then the exact inverse of the models' hashes |
| Registry.CommitKeepsInv | core/demucs_registry.py:551-565 | a commit keeps the registry invariant and records artifacts with exactly the expected digests |
| Registry.CommitKeepsInverse | core/demucs_registry.py:517-549 | the availability check keeps the hash index exact and free of duplicates |
| Registry.CommitKeepsClaims | core/demucs_registry.py:517-549 | the availability check keeps claimed paths of different models disjoint |
| Registry.LinkKeepsInv | core/demucs_registry.py:637-647 | linking without replacement keeps the invariant |
| Registry.RollbackKeepsInv | core/demucs_registry.py:567-595 | removing own unclaimed files keeps it |
| Registry.ResetKeepsInv | core/demucs_registry.py:663-676 | removing an entry keeps it |
| Registry.AvailableIffFree | core/demucs_registry.py:517-549 | the check passes exactly when the ID is new or replaceable and no other model has the hash or one of the paths |
| Registry.InstallableIff | core/demucs_registry.py:597-657 | what an install alone needs, told by the models, the files on disk and the copies |
| Registry.EntryStays | core/demucs_registry.py:517-676 | only a reset of an ID, or a configure that may replace it, changes its entry; no install of a registered ID begins |
| Registry.RegisteredStays | core/demucs_registry.py:517-676 | so a registered entry survives every run without these two |
| Registry.GoesOnIffMatching | core/demucs_registry.py:602-647 | an artifact on disk lets an install go on if and only if it has the expected digest |
| Registry.MissingIsCreated | core/demucs_registry.py:602-647 | a missing artifact is noted, then created with the checked copy and recorded as created |
| Registry.RunKeepsInv | core/demucs_registry.py:517-676 | over all interleavings every claimed artifact is on disk with the bytes checked at commit, claims are disjoint, the hash index is the exact inverse |
| Registry.OnlyOwnRemoved | core/demucs_registry.py:567-595 | no step changes a file's bytes; only the rollback of its creator removes one, never while it is claimed |
| Registry.FailedInstallsLeaveNothing | core/demucs_registry.py:597-657 | when no command runs, every file was there at the start or has been part of a registered model |
| Registry.DemucsRegistry.IsAvailable | core/demucs_registry.py:517-549 | true exactly when the ID is new or may be replaced and no other model has the hash or any of the paths; a registered ID is refused without `replace` |
| Registry.DemucsRegistry.CommitUnit | core/demucs_registry.py:551-565 | commits exactly when the ID, hash and paths are free, every artifact has its expected digest and the write succeeds; then exactly that entry is set, otherwise nothing changes; a registered ID is refused without `replace` |
| Registry.DemucsRegistry.RollbackCreated | core/demucs_registry.py:567-595 | removes exactly the created files that no model claims |
| Registry.DemucsRegistry.FindMissing | core/demucs_registry.py:602-612 | existing artifacts must match; the others are exactly the missing ones |
| Registry.DemucsRegistry.LinkMissing | core/demucs_registry.py:637-647 | adds only files that did not exist, reports exactly those, and succeeds exactly when every missing artifact can be linked; each then has the content expected of the first artifact with its path |
| Registry.DemucsRegistry.Install | core/demucs_registry.py:597-657 | alone, an install succeeds exactly when the ID is not registered, no other model has its hash or a path, existing artifacts and copies match, links and the registry write work, and a path listed twice expects one content; then exactly its entry is added; otherwise files and registry are as they were |
| Registry.DemucsRegistry.Reset | core/demucs_registry.py:663-676 | removes exactly the model's entry and touches no file |
| ArtifactCapture.Trim | core/demucs_registry.py:120-127 | the inner loop leaves exactly the tail that fits the window |
| ArtifactCapture.Capture | core/demucs_registry.py:106-133 | for every splitting into reads the digest has absorbed the whole content in order and the window is exactly its last 10000*1024 bytes, or all of it when it is shorter |
| ArtifactCapture.AbsorbOne | core/demucs_registry.py:106-133 | the digest takes the bytes one by one |
| Chunking.FadeInto | core/audio_chunking.py:171-179 | the blocked in-place fade: sample `i` of `n` shared ones is `(n-1-i)/(n-1)` of what stood there and `i/(n-1)` of the new part, a single one stays; no other sample changes, for any block size |
| Chunking.BlendCrossfades | core/audio_chunking.py:171-179 | the left side falls from all to nothing in equal steps while the right side rises |
| Chunking.CrossfadeEnds | core/audio_chunking.py:171-179 | an overlap starts with the left part's sample and, if longer than one, ends with the right part's |
| Chunking.JoinIsJoin | core/audio_chunking.py:160-182 | a join is the left part up to the overlap, the crossfade, and the rest of the right part; it shares as many samples as asked for, or all of the shorter side |
| Chunking.AppendPart | core/audio_chunking.py:170-182 | appending a part in place equals one pairwise join |
| Chunking.Lengths | core/audio_chunking.py:160-166 | the effective overlaps and the final length of the pairwise joins |
| Chunking.Concat | core/audio_chunking.py:130-183 | the single buffer is what joining the parts one after the other gives, each join a left part, a falling crossfade over its own overlap and the rest of the next part; no parts, or a wrong number of overlaps, is an error |
| Chunking.JoinedLength | core/audio_chunking.py:160-166 | the result is as long as the parts together minus the effective overlaps |
| Chunking.JoinedIsConvex | core/audio_chunking.py:167-183 | every sample is a convex combination of the parts that cover it |
| Chunking.Round | core/audio_chunking.py:51-56 | rounds to the nearest integer, halves to the even one |
| Chunking.ClampOverlap | core/audio_chunking.py:13-25 | the given overlap where that is below half a chunk, else just below half a chunk, never negative |
| Chunking.OverlapIsRounded | core/audio_chunking.py:55-58 | the clamped overlap is used to the nearest sample, or half a chunk where rounding would reach a whole one |
| Chunking.SlideWindow | core/audio_chunking.py:61-75 | the loop yields the closed form of the windows |
| Chunking.ChunkBounds | core/audio_chunking.py:28-75 | the bounds of any mix, including the degenerate cases |
| Chunking.WindowsCover | core/audio_chunking.py:51-75 | full windows, strictly increasing starts, no gap, last end at the total, 1 + ceil((total - chunk) / step) of them, neighbours overlapping as configured |
| Chunking.OverlapsAreReal | core/audio_chunking.py:186-194 | neighbouring windows are joined over exactly the samples they share, and over none across a gap |
| Chunking.SliceThenJoin | core/audio_chunking.py:96-194 | slicing a mix and joining the slices over their real overlaps is the identity |
| Chunking.SliceAndJoin | core/audio_chunking.py:96-194 | the same for the program |
| Dedupe.KeptIff | core/catalog_dedupe.py:258-299 | a row is kept exactly when it is eligible and shares no key with an earlier kept row |
| Dedupe.KeptMeans | core/catalog_dedupe.py:187-299 | in plain terms: not withdrawn, not standing back for the one row of its URL that has the remote file's name, and sharing no label, URL, content or checkpoint name (the reviewed upstream one before its own) with an earlier kept row |
| Dedupe.KeptApart | core/catalog_dedupe.py:258-299 | kept rows are eligible and pairwise free of conflicts |
| Dedupe.Idempotent | core/catalog_dedupe.py:187-208 | deduplicating twice changes nothing |
| Dedupe.PreferredLabels | core/catalog_dedupe.py:244-256 | a URL has a preferred row exactly when several rows share it and one alone matches its file name |
| Dedupe.PreferredIffSole | core/catalog_dedupe.py:244-256 | the preferred row of a URL is the only one of several whose name matches the remote file |
| Dedupe.Seen.Collides | core/catalog_dedupe.py:266-285 | the key indexes answer exactly whether a kept row shares a key |
| Dedupe.Seen.ClaimAll | core/catalog_dedupe.py:286-299 | claiming a kept row's keys keeps the indexes exact |
| Dedupe.KeepRows | core/catalog_dedupe.py:226-299 | the one-pass filter computes the quadratic specification |
| Dedupe.ExplanationExplains | core/catalog_dedupe.py:304-321 | the candidates name an owner exactly when all exact keys of the row belong to one kept row, with the strongest evidence |
| Dedupe.FindDuplicates | core/catalog_dedupe.py:211-223 | a dropped, not withdrawn row is explained exactly when all kept rows with any evidence carry one label, by the strongest evidence: same content, reviewed re-host, same URL, same name |
| Dedupe.ExplainsIff | core/catalog_dedupe.py:304-321 | what each kind of evidence compares, and their order |
| DownloadQueue.RunKeepsInv | core/download_queue.py:106-249 | in every interleaving a queued item has an active worker or a thread that will see to one, the active flag tells the truth, and downloading items are those the worker holds |
| DownloadQueue.OneDownload | core/download_queue.py:216-224 | at most one item is downloading |
| DownloadQueue.EnqueueKeepsInv | core/download_queue.py:120-134 | adding an item keeps the invariant |
| DownloadQueue.RetryKeepsInv | core/download_queue.py:181-196 | requeuing a failed item keeps it |
| DownloadQueue.MapKeepsInv | core/download_queue.py:145-179 | cancelling keeps it |
| DownloadQueue.ClearKeepsInv | core/download_queue.py:198-206 | clearing finished items keeps it |
| DownloadQueue.FinishedConcat | core/download_queue.py:198-206 | clearing treats every item alone and keeps the order |
| DownloadQueue.EnsureKeepsInv | core/download_queue.py:226-231 | starting a worker when none is active keeps it |
| DownloadQueue.PickKeepsInv | core/download_queue.py:216-240 | picking the next item, or deciding to leave, keeps it |
| DownloadQueue.WriteKeepsInv | core/download_queue.py:269-395 | writing a final status keeps it |
| DownloadQueue.StepKeepsInv | core/download_queue.py:233-249 | so does every step of the worker, including the look after giving up the role |
| DownloadQueue.StatusMoves | core/download_queue.py:145-196 | statuses only move queued to downloading or cancelled, downloading to a final status, and by a retry of that item failed to queued |
| DownloadQueue.StepUsesWork | core/download_queue.py:233-249 | every step of a live thread uses up work, so threads cannot restart each other for ever |
| DownloadQueue.ThreadsDrain | core/download_queue.py:233-249 | once callers stop, every schedule of the threads, with any transfer results, takes at most `Work` steps, and when all threads have ended nothing is queued or downloading |
| DownloadQueue.ScheduleEnds | core/download_queue.py:233-249 | every schedule can be completed |
| DownloadQueue.QuietMeansDone | core/download_queue.py:233-249 | with all threads ended nothing is queued or downloading |
| DownloadQueue.RetryCanDuplicate | core/download_queue.py:181-196 | a run from the empty queue in which a retry makes a second active item of one selection |
| DownloadQueue.RetryKeepsUniqueIff | core/download_queue.py:181-196 | retrying a failed item keeps one active item per selection if and only if its selection has no active item |
| DownloadQueue.OthersKeepUnique | core/download_queue.py:106-179 | every other event keeps one active item per selection |
| DownloadQueue.GuardedRunsStayUnique | core/download_queue.py:106-196 | so does every run whose retries look for an active item first |
| DownloadQueue.Queue.EnqueueItem | core/download_queue.py:120-131 | adds the item exactly when no queued or downloading item has its selection and architecture |
| DownloadQueue.Queue.CancelOne | core/download_queue.py:145-156 | the item is not queued any more, and stopped if downloading; others are untouched |
| DownloadQueue.Queue.CancelEvery | core/download_queue.py:158-179 | nothing stays queued, downloads are told to stop, and the count is the number of items that were queued or downloading |
| DownloadQueue.Queue.RetryOne | core/download_queue.py:181-196 | requeues exactly a failed item with that ID |
| DownloadQueue.Queue.NextQueued | core/download_queue.py:216-224 | marks the first queued item, or reports that there is none |
| DownloadQueue.Queue.EnsureWorker | core/download_queue.py:226-231 | starts a worker exactly when none is active |
| DownloadQueue.Queue.StartTransfer | core/download_queue.py:269-280 | a transfer starts exactly when no stop was asked for; otherwise exactly that item is cancelled |
| DownloadQueue.Queue.WriteStatus | core/download_queue.py:320-389 | the item becomes complete or existing exactly when the transfer delivered that and the model is ready, cancelled exactly when the transfer reported a stop or raised after one was asked for, failed otherwise; nothing else changes |
| DownloadQueue.Queue.LeaveRole | core/download_queue.py:243-245 | gives up the worker role; the look that follows is still due |
| DownloadQueue.Queue.CheckAgain | core/download_queue.py:248-249 | looks again after the role was given up |
| JsonRefresh.Stage | core/downloads.py:211-232 | a payload is staged exactly when its destination is absent or parses to something else, with its own text; only temporary files are added |
| JsonRefresh.BackUp | core/downloads.py:234-253 | every existing destination has a copy aside; nothing else changed |
| JsonRefresh.Commit | core/downloads.py:255-257 | the committed destinations hold their texts, all others their old bytes |
| JsonRefresh.Undo | core/downloads.py:268-277 | the rollback restores every destination, removing those that did not exist |
| JsonRefresh.CleanUp | core/downloads.py:279-285 | no temporary file of the transaction remains |
| JsonRefresh.Refresh | core/downloads.py:204-286 | on success every destination parses to its payload, and a file that already did keeps its bytes; `changed` says whether some destination was absent or different; otherwise every file is as before; no staged or backup file remains, and it only fails when an operation failed |
| JsonRefresh.PlacedIsRefreshed | core/downloads.py:255-257 | putting the staged texts in place satisfies every write and touches no other file |
| JsonRefresh.DocumentsRefreshed | core/downloads.py:174-257 | each document afterwards equals its payload, with the old bytes if it did before; something is staged exactly when some document differed |
| JsonRefresh.WaitsForLater | core/downloads.py:194-197 | waiting along a chain means wanting ever later locks |
| JsonRefresh.NoWaitCycle | core/downloads.py:194-197 | refreshes never wait for each other in a circle |
| JsonRefresh.SomeoneProceeds | core/downloads.py:194-197 | among any number of refreshes one is not waiting |
| DecodeCap.AcceptedFits | core/audio_decode.py:88-101 | whatever the damage budget accepts stays below the cap |
| DecodeCap.CapIsTight | core/audio_decode.py:88-101 | one frame below the cap is still accepted |
| DecodeCap.AcceptsIffBelowCap | core/audio_decode.py:88-101 | the budget accepts exactly the streams of at least one frame below the cap |
| DecodeCap.PipesConcat | core/audio_decode.py:141-158 | each pipe delivers its chunks in the order they were read |
| DecodeCap.OneRead | core/audio_decode.py:141-158 | a chunk read from one pipe is part of that pipe's stream only |
| DecodeCap.RunTool | core/audio_decode.py:141-158 | the read loop stops exactly when the output exceeds the cap, never holds more, and keeps the tail of the diagnostics |
| DecodeCap.DecodeDamaged | core/audio_decode.py:297-339 | the capped pass accepts exactly the streams the budget check alone accepts, for any splitting into reads |
| EnsembleTypes.Parse | core/ensemble_algorithms.py:80-125 | the scanning loop computes the specified parse; blank text is refused when strict and replaced by the fallback otherwise |
| EnsembleTypes.TrimMeans | core/ensemble_algorithms.py:93-93 | trimming takes away white space at both ends, and all of it |
| EnsembleTypes.SpaceIsAscii | core/ensemble_algorithms.py:93-93 | white space is the ten ASCII characters that `strip` removes |
| EnsembleTypes.StrictRebuilds | core/ensemble_algorithms.py:94-113 | strict success gives known atoms that rebuild the text up to spaces, by its only split |
| EnsembleTypes.StrictSucceedsIff | core/ensemble_algorithms.py:94-113 | strict parsing succeeds exactly on an atom or on a text with one split into atoms, and reports the text otherwise |
| EnsembleTypes.RoundTripIff | core/ensemble_algorithms.py:75-113 | a printed pair parses back exactly when the text is no atom itself and splits into two atoms in one way |
| EnsembleTypes.LenientIsKnown | core/ensemble_algorithms.py:96-125 | lenient parsing always gives known atoms when the defaults are known |
| EnsembleTypes.LenientTakesFirstSplit | core/ensemble_algorithms.py:96-117 | lenient parsing takes the first split into two atoms |
| EnsembleTypes.LenientKeepsKnownHalf | core/ensemble_algorithms.py:115-125 | without one it keeps the known half at the first separator that has one, and takes the default for the other half |
| EnsembleTypes.LenientFallsBack | core/ensemble_algorithms.py:115-125 | without any known half it gives both defaults |
| EnsembleTypes.LenientExtendsStrict | core/ensemble_algorithms.py:96-117 | it agrees with strict parsing wherever that succeeds |
| EnsembleTypes.AmbiguousIsRefused | core/ensemble_algorithms.py:109-114 | a text with two splits into atoms is refused |

## Left out

- PromoteLocked: the moves of a rollback, and the directories they recreate, are assumed not to fail; created directories are not modelled; an interrupt between a file operation and the next statement is not considered.
- PromoteLocked: the stage is private, its files are listed once, and under `overwrite` no other writer acts and no staged file is named like another one's backup.
- MoveNoReplace: one atomic create-if-absent move; the link and unlink fallback and the platform branches are not modelled.
- PublishUnit: other writers only create files, at finitely many paths; whole-unit renaming is modelled for unit files with distinct basenames, without which no attempt with a suffix can succeed.
- The per-directory lock around promotion is not modelled: another promotion is one more writer.
- StemQueue.Admit: priorities are the two the code uses; the invariant allows any number, `RollbackLosesIff` continues with the two.
- RollbackLosesIff: continuations without a second failing callback; a URL is any string.
- FetchQueue.RunKeepsInv: the fetch queue's worker thread is assumed not to die of an exception of its own; starting and stopping threads, subscribers and the idle event are not modelled.
- FetchAndRemember: records with malformed field types, the size and YAML checks of a body, drift logging and the access policy's choice of cache file are inputs; a failed write leaves the file as it was.
- Install: as a method it runs alone; interleaved installs are the events `Begin`, `Inspect`, `Link`, `Commit`, `Fail` and `Rollback`. Temporary copies, source re-validation, bag signatures and the descriptive fields of an entry are not modelled; paths are normalized already.
- FailedInstallsLeaveNothing: assumes that rollbacks can read the registry and remove files, which the code ignores when they fail.
- Concat: one channel of exact samples; the dtype promotion, rounding, mono duplication and transposition of NumPy arrays are not modelled.
- ChunkBounds: arguments that are not numbers are not modelled.
- KeepRows: label, URL, content and checkpoint keys are given per row; their normalization is not modelled.
- DownloadQueue.RunKeepsInv: download items are values in the list, found by their unique ID, instead of shared objects; progress, detail texts, callbacks (assumed not to raise) and the failure to start a thread are not modelled.
- Refresh: undo and cleanup do not fail, paths are distinct files, and preparing further writes under the locks is not modelled.
- SomeoneProceeds: locks are named by their absolute path, already normalized.
- RunTool: timeouts, exit codes and process handling are not modelled.
- Parse: only ASCII white space is trimmed; the default text and atoms are parameters.
- Job planning, stem routing, network clients, settings, catalogue merging and all presentation code.
