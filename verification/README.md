# Mangarr: server logic, modelled and proved

Five pieces of Mangarr's server, each with a simple meaning and a fast or stateful implementation.

**Queue order.** `RankOrder` defines the list a table of sparse ranks stands for, and list splicing;
`RankAlloc` the gap an action names, renumbering and the bounds of both; `RankPriority` and `RankSort` what
priorities and chapter order ask for; `RankQueue`, `RankBatches` and `RankChapters` the transactions on a table;
`DownloadQueue` the `Queue` class, what every transaction leaves, and runs of transactions. `QueueRanks` and
`QueueFiles` say by ranks and rows alone what a transaction did. `Sorting` is a stable sort over any comparison.

**Mihon backups.** `Varint` and `Wire` are the Protocol Buffers encoding: base-128 varints, four wire types,
messages as field lists, and a reader that hands fields to a callback; `WireFields` says which bytes are a field.
`Decimal` is decimal parsing and
formatting of int64, `Float` the conversions between float32 and float64 by their bits. `Mihon` is the reader,
`MihonWriter` the fields the writer makes, `MihonEncoder` the buffer and loops that write them.
`MihonRoundTrip`, `MihonManga` and `MihonBackup` prove what reading a written backup gives, for every backup;
`MihonPortable` proves when that is the backup itself. `MihonFields` and `MihonCategories` say what the reader
makes of any bytes, `MihonPreferences` what stands in the messages that are only written. Strings are byte sequences, integers are 64 bits wide
with two's complement.

**Download jobs.** `Dispatch` is the manager's counters and one pass, and the life of a job's goroutine as a
transition system: database writes are single steps, a pass may act on any reading however old, other writers
may set any status at any time, and the workers' ledger is a set of open tasks. `DispatchSafety` proves what all
reachable states keep, `DispatchProgress` that a pass starts whatever may start, `DispatchOverlap` when a local run
can meet an open task. `Decision` ranks releases, `DecisionFields` says in their own fields which is approved and
why others are not. `Retry` is what a failed attempt does and why a job runs out of failures, also when attempts
work from older copies of its row, `RetryOutcomes` how each failure leaves the job, `RetryExcess` that older copies
cost it more failures. `CrashLoop` is how often a file whose processing fails or kills the server is counted and
queued again, `CrashRecovery` how each attempt can end and when the file is left alone.

**Resumable feeds.** `Updates` pages a merge of two bounded queries, `UpdatesFields` says which rows a page shows.
`Discover` pages a walk over several catalogs, `DiscoverStore` keeps the cursors, `DiscoverWalk` proves that a chain
of pages is the walk, `DiscoverProgress` that pages get on and shelves end, `DiscoverShelf` what stands on the
shelf, `DiscoverBrowse` that a reader of tokens sees it, and `DiscoverCuts` what it loses when time runs out inside a
fetch.

**Reading.** `Cleanup` decides which chapters may be deleted, `CleanupSafety` proves what one plan asks,
`CleanupRuns` what plans and removals delete and keep while states, files and rules change, and `CleanupFields` says
both in the fields of rules and progress. `Remap` moves progress to the pages of a split file. `Common` holds what the modules share.

## Where the code does less than its comments say

- `internal/downloads/dispatch.go:72-73` says that jobs a worker holds are not run here. The tasks are read
  before the lock is taken, and a failed read counts as no tasks, so a pass may start a job whose task was opened
  since. `DispatchOverlap.StaleReadOverlaps` gives a run in which the local run and the task then overlap;
  `DispatchOverlap.OverlapExactly` says when it can happen.
- `internal/downloads/queue_control.go:100-101` says that a stale snapshot can never run the same job twice. That
  holds for each time the job was queued (`DispatchSafety.ClaimsNeverOutnumberQueues`). The copy of the row in a
  stale snapshot still carries the release and the attempt count of when it was read, and a failure writes them
  back: `Retry.StaleCopyRaises` is a run in which a job returns to the release it has just blocklisted,
  `Retry.StaleCopyExactly` says when a failure on an older copy gets a job no further,
  `Retry.LadderTerminates` what all of them together can cost, and `RetryExcess.ExceedsExactly` that one is enough
  to fail more often than the ladder allows.
- `internal/downloads/process.go:176` gives up on a file after five attempts. The file's counter and the job's row
  are written apart, in `finish` and again in the recovery at start, a pause writes the row before it cancels
  the goroutine, and the row's write may fail unnoticed. A failure may so be counted without failing its job, and a
  retry by hand keeps the count: `CrashLoop.SixthAttempt` is a run without any kill, `CrashLoop.ExceedsExactly` says
  when the count can pass five and `CrashLoop.BoundIsReached` that nothing less than one attempt for each of these
  bounds it.
- `internal/backupimport/write.go:20-21` writes the fields the package reads. The backups that come back unchanged
  are those of `MihonPortable.Portable`; `MihonPortable.LeadingZeroIsLost` is one that does not, and
  `MihonBackup.WriteThenRead` says what comes back for all others.
- `internal/downloads/import.go:213-214` keeps readers on the first segment of their page. Through two splits this
  is what the composed map says under the condition of `Remap.TwoSplitsExactly`; `Remap.TwoSplitsDiffer` is a page
  for which it is not.
- `internal/api/discover_shelves.go:314` lets a page take eight seconds. When they run out inside a fetch, the rest
  of that catalog is passed over for the whole chain of cursors: `DiscoverCuts.CutShelfEmpty` is a shelf that stays
  empty, `DiscoverCuts.WholeShelfExactly` says when nothing is lost.
- `internal/cleanup/cleanup.go:1-2` deletes chapters that every required reader has finished. A run plans first and
  then removes one candidate after another without looking again, and a removal is by chapter:
  `CleanupRuns.RunsDeleteOnlyRead` holds for the moment of the plan, `CleanupRuns.UndisturbedIsDue` for that of the
  removal while nothing else happens, and `CleanupRuns.NewFileIsTaken` is a file imported in between.

## Model

| member | source | states |
|---|---|---|
| `DownloadQueue.Queue.Move` | internal/downloads/rank.go:128-197 | answers the error the arguments or the anchor earn, changing nothing; or 0 for no pending selected job, changing nothing; or moves the block, keeps everything but ranks, and adds one to the revision |
| `DownloadQueue.MoveIsOneBlock` | internal/downloads/rank.go:124-127 | after a move the list is the unselected jobs in their old order with the selected pending ones as one block, in their old order, at an end or right beside the anchor |
| `QueueRanks.MoveByRanks` | internal/downloads/rank.go:124-197 | after a move every two jobs compare by rank as the action asks: chosen ones as before, others as before, and each chosen one with each other by the side of the anchor or end |
| `QueueRanks.MoveIsRefused` | internal/downloads/rank.go:128-163 | a refused move changes nothing and its error is the first that the action, the anchor id, the selection or the anchor’s row earns |
| `QueueRanks.MoveIsSound` | internal/downloads/rank.go:128-163 | and one that goes through had none of these |
| `RankOrder.RerankingSplices` | internal/downloads/rank.go:165-185 | giving the selected jobs rising ranks inside the named gap is taking them out of the list and splicing them back at the gap; ranks stay distinct |
| `RankOrder.InsertionSplices` | internal/downloads/rank.go:110-122 | giving new jobs rising ranks inside the named gap is inserting them into the list there |
| `RankQueue.AllocateRanks` | internal/downloads/rank.go:44-106 | two attempts with a renumbering between: success gives ranks inside the gap, in limit, with the same list; failure only outside the documented bounds |
| `RankAlloc.GapIsEmpty` | internal/downloads/rank.go:49-82 | no stored rank lies strictly inside the gap of an action, and each job lies on the side the action says |
| `RankAlloc.UsableFills` | internal/downloads/rank.go:86-92 | an accepted gap is filled with strictly rising ranks strictly inside it and within the limit |
| `RankAlloc.RenumberingKeepsOrder` | internal/downloads/rank.go:93-99 | renumbering keeps the list and the distinctness of ranks and puts its i-th job at i steps |
| `RankAlloc.SecondAttemptUsable` | internal/downloads/rank.go:45-106 | with n + 1 at most 2^20 and fewer than 2^32 jobs and ranks in all, the attempt after a renumbering succeeds |
| `RankAlloc.NoOverflow` | internal/downloads/rank.go:18-21 | while stored ranks are in limit no sum, product or difference of an attempt leaves int64 |
| `RankAlloc.AttemptsFitInt64` | internal/downloads/rank.go:44-106 | neither the first attempt nor the one on the renumbered table overflows, nor do the renumbered ranks |
| `RankAlloc.RenumberedInLimit` | internal/downloads/rank.go:93-99 | a renumbered queue of fewer than 2^32 jobs has every rank strictly within 2^52 |
| `DownloadQueue.RanksStayInLimit` | internal/downloads/rank.go:18-21 | along any run of transactions every stored rank stays strictly within 2^52 while the queue has fewer than 2^32 jobs |
| `RankPriority.InsertionPointIsRight` | internal/downloads/rank.go:110-122 | in a queue in priority order the insertion point is behind all pending work of equal or higher priority and before all lower |
| `DownloadQueue.Queue.EnqueuePriority` | internal/downloads/queue.go:53-104 | an unfinished job of the chapter is raised and returned; else one row is inserted where its priority puts it, with the next id, and the revision goes up; on exhausted ranks nothing changes |
| `DownloadQueue.EnqueueKeepsPriority` | internal/downloads/queue.go:75-86 | a new job stands behind all pending work of its priority or more and a queue in priority order stays so |
| `QueueRanks.EnqueueMakes` | internal/downloads/queue.go:53-104 | a row is made exactly when no unfinished job has the chapter, with the fields asked for, behind exactly the jobs with no waiting job of lower priority up to them; other ranks keep their order |
| `DownloadQueue.Queue.Raise` | internal/downloads/queue.go:371-406 | only a queued job of the chapter below a positive priority is raised: its priority is set, it alone is spliced to its new place, the revision goes up |
| `DownloadQueue.RaiseKeepsOrder` | internal/downloads/queue.go:371-406 | raising keeps a queue in priority order |
| `QueueRanks.RaiseLifts` | internal/downloads/queue.go:371-406 | a raise happens exactly when the priority is positive and a queued job of the chapter is below it; that job alone changes place and priority |
| `DownloadQueue.Queue.EnqueueReprocessFiles` | internal/downloads/queue.go:106-145 | batches of 250: after k of them the queue is what one insert of the files they cover would give; an early stop only where ranks run out, keeping the batches before |
| `QueueFiles.FilesGetRows` | internal/downloads/queue.go:106-145 | exactly the files whose chapter no unfinished job held and no earlier file names become rows, in order, with consecutive ids and rising ranks at the place of their priority; every chapter reached is held, and without an error all are reached |
| `RankBatches.TwoBatches` | internal/downloads/queue.go:112-139 | two consecutive batches of one priority leave what one batch of both would |
| `RankBatches.AcceptedSplits` | internal/downloads/queue.go:127-135 | skipping files whose chapter is held gives the same files in two batches as in one |
| `RankBatches.AcceptedAreFree` | internal/downloads/queue.go:106-135 | no two inserted files share a chapter and none has an unfinished job |
| `RankQueue.InsertBatch` | internal/downloads/queue.go:120-135 | one transaction inserts the accepted files in order, in one block, at the place of their priority; which files these are is `QueueFiles.FilesGetRows` |
| `DownloadQueue.FilesKeepPriority` | internal/downloads/queue.go:106-145 | batches keep a queue in priority order |
| `DownloadQueue.StepAdvances` | internal/downloads/rank.go:25-39 | every transaction keeps ranks distinct and one unfinished job for a chapter, never lowers the revision or reuses an id, and changes a stored rank only under a new revision |
| `DownloadQueue.RevisionFixesRanks` | internal/downloads/queue.go:221-237 | two reads of a run that see one revision see the same rank for every job in both |
| `DownloadQueue.RevisionFixesOrder` | internal/downloads/queue.go:221-237 | and list any jobs present in both in the same order |
| `DownloadQueue.Queue.SortByChapter` | internal/downloads/rank.go:206-267 | the selected pending jobs are put in chapter order into the places they held, all else stays, the number of rows written is returned, and the revision goes up only when there is one |
| `QueueRanks.SortByRanks` | internal/downloads/rank.go:206-267 | after a sort two chosen jobs compare by whose series had the first chosen job, then by chapter number, then by old rank; the chosen share the ranks they had, the others keep theirs, and the answer counts the changed rows |
| `RankSort.ByChapterOrders` | internal/downloads/rank.go:230-243 | the order is a permutation: series by first appearance among the selected, chapters ascending, ties in their old order |
| `RankSort.SortRefills` | internal/downloads/rank.go:244-253 | writing the old ranks to the sorted jobs refills the selected places of the list in sorted order |
| `RankChapters.SortChapters` | internal/downloads/rank.go:209-267 | the two loops and the sort compute that list; the count returned is that of the changed rows, 0 exactly when the selected jobs are in order already |
| `DownloadQueue.SecondSortChangesNothing` | internal/downloads/rank.go:254-258 | a second sort of the same jobs changes nothing and leaves the revision |
| `Varint.Uvarint` | internal/backupimport/mihon.go:36-42 | a read value fits 64 bits and takes between one byte and all there are |
| `Varint.UvarintExactly` | internal/backupimport/mihon.go:36-42 | a varint is read exactly when it ends within ten bytes and its sevens of bits add up to less than 2^64, longer forms included |
| `Varint.VarintRoundTrip` | internal/backupimport/write.go:117-121 | a written 64-bit value reads back, with its length, whatever follows |
| `Varint.VarintFits` | internal/backupimport/mihon.go:36-42 | no 64-bit value is written in more than the ten bytes that are read |
| `Varint.LittleEndianRoundTrip` | internal/backupimport/write.go:151-158 | fixed-width values read back |
| `Wire.Fields` | internal/backupimport/mihon.go:44-87 | the loop hands every field in turn to the callback and stops at the first error |
| `WireFields.FieldExactly` | internal/backupimport/mihon.go:45-87 | a field is read exactly when a key and a payload of its wire type stand first, with the number, type, value and length these bytes give |
| `WireFields.FieldFails` | internal/backupimport/mihon.go:45-87 | and otherwise the wire type of the key is the error, or the message is cut off |
| `Wire.RunConcat` | internal/backupimport/mihon.go:45-87 | reading whole fields a and then b is reading b from the state a leaves, or the error in a |
| `Wire.RunInsertion` | internal/backupimport/mihon.go:45-87 | whole fields that the callback ignores may stand between any two others |
| `Wire.ReadEncField` | internal/backupimport/write.go:107-158 | a written varint, bytes or 32-bit field reads back with its number, type and payload, whatever follows |
| `Wire.RunEncFields` | internal/backupimport/write.go:105-158 | reading a written message is taking the callback for each field written, in order |
| `Wire.ReadInts` | internal/backupimport/mihon.go:100-116 | a repeated integer field is read packed or not |
| `Wire.PackedRoundTrip` | internal/backupimport/mihon.go:100-116 | a packed list reads back whole |
| `Mihon.ParseManga` | internal/backupimport/mihon.go:216-308 | the fields of one manga, the history by url with its latest time, and the read times set from it; an error without a url |
| `MihonFields.ChapterIs` | internal/backupimport/mihon.go:310-334 | a chapter is the last field of each number, whatever bytes it came in |
| `MihonFields.MangaIs` | internal/backupimport/mihon.go:216-308 | a manga that reads is its fields: the last of each single one, all of each repeated one in order, the last tracker of each kind, the known categories of its references in order, and for each chapter the latest positive history time of its url |
| `Mihon.ParseMihon` | internal/backupimport/mihon.go:153-214 | the top level: categories stably sorted by order, manga parsed against them, the first error with its number, and no manga an error |
| `MihonCategories.BackupIs` | internal/backupimport/mihon.go:153-214 | for any bytes: the categories are the category messages in rising order of their numbers, equal ones as read; an order stands for the last message that has it; a source id for the last name; the entries are the manga messages in order |
| `MihonCategories.BackupFails` | internal/backupimport/mihon.go:195-213 | a top level that reads is turned down for having no manga, or for the first manga that does not read, with its number |
| `Mihon.UnknownFieldsIgnored` | internal/backupimport/mihon.go:157-192 | whole fields of other numbers between two parts of a backup change nothing that is read |
| `Mihon.UnknownMangaFieldsIgnored` | internal/backupimport/mihon.go:219-288 | nor inside a manga |
| `MihonRoundTrip.ChapterReads` | internal/backupimport/mihon.go:310-334 | a written chapter reads back up to language and history, an omitted number as 0 |
| `MihonRoundTrip.TrackerReads` | internal/backupimport/mihon.go:336-365 | a written tracker reads back as its canonical positive id or the last segment of its url, or not at all |
| `MihonRoundTrip.TrackersInAnyOrder` | internal/backupimport/write.go:58-66 | the order in which the tracker map is walked does not matter |
| `MihonManga.HistoryJoins` | internal/backupimport/mihon.go:295-306 | history written apart from the chapters is joined back by url, the latest positive time for every chapter of the url |
| `MihonManga.MangaReads` | internal/backupimport/write.go:30-82 | a written manga reads back as its image, or as the missing-url error |
| `MihonBackup.OrdersMatch` | internal/backupimport/write.go:26-29 | the number written for a category name leads back to the name, duplicate names included |
| `MihonBackup.WriteThenRead` | internal/backupimport/mihon.go:153-214 | for every backup, every order the maps are walked in and any preferences, reading what was written gives its image, or the error of the first entry without a url, or of having no entry |
| `MihonPortable.RoundTrip` | internal/backupimport/write.go:24-103 | reading what was written gives the backup back, up to the fields the format lacks, exactly when the backup is portable |
| `MihonPortable.LeadingZeroIsLost` | internal/backupimport/write.go:24-103 | a backup, with a source id written 01, that is read without error and differs |
| `MihonPortable.TrackerKeeps` | internal/backupimport/write.go:58-66 | a tracker survives exactly when it is known and its id is a canonical positive number, or a slash-free MangaUpdates slug that parses to 0 |
| `MihonPortable.ChaptersKeep` | internal/backupimport/write.go:45-48 | chapters survive exactly when numbers are float32 values other than -0, read times are positive whole milliseconds, and chapters of one url share theirs |
| `MihonPortable.SourcesKeep` | internal/backupimport/write.go:87-90 | the source map survives exactly when every id is canonical |
| `Decimal.CanonicalRoundTrip` | internal/backupimport/mihon.go:221-223 | an id survives being parsed and written exactly when it is the decimal form of an int64 |
| `Float.SingleExactly` | internal/backupimport/write.go:46 | a float64 narrowed to float32 and widened again is itself exactly when its exponent and its lowest bits fit a float32, normal or not, or it is infinite or a quiet NaN of few bits |
| `Float.NearestIsNearest` | internal/backupimport/write.go:46 | narrowing rounds to the nearest, ties to even |
| `Float.CountKeeps` | internal/backupimport/mihon.go:93-98 | a number sent as a count of up to 53 bits becomes the float64 of that value |
| `MihonEncoder.Enc.Varint` | internal/backupimport/write.go:109-115 | appends the field, or nothing for 0 |
| `MihonEncoder.Enc.StrAlways` | internal/backupimport/write.go:137-142 | appends key, length and bytes |
| `MihonEncoder.Enc.Float` | internal/backupimport/write.go:151-158 | appends the 32-bit field, or nothing for either zero |
| `MihonEncoder.WriteManga` | internal/backupimport/write.go:31-81 | the fields of one manga in the order they are written |
| `MihonEncoder.MarshalMihon` | internal/backupimport/write.go:24-98 | the bytes before compression: entries, categories, sources and preferences, with some order of each map |
| `MihonEncoder.SortedKeys` | internal/backupimport/write.go:92-96 | preference keys are written in byte order however the map was walked |
| `MihonPreferences.PreferencesRead` | internal/backupimport/write.go:80-97 | the message of a source’s preferences has its name in field 1 and then, in byte order of the keys, settings with the key in field 1 and in field 2 the class name and the value |
| `MihonEncoder.WriteAndRead` | internal/backupimport/write.go:24-98 | writer and reader together: the backup comes back exactly when it is readable and portable |
| `Dispatch.Manager.Dispatch` | internal/downloads/dispatch.go:77-149 | one pass under the lock starts the admitted entries in order, each seen by the checks of the next, and none while held |
| `DispatchProgress.PassIsWorkConserving` | internal/downloads/dispatch.go:77-149 | in any reachable state that is not held, a pass starts entries in the order read, each with nothing to wait for at its turn, and every entry not started is, at the end, running, on a worker, in quiet hours of its kind, at the limit of its kind, or a download from a source that is cooling or at its limit |
| `Dispatch.Manager.TakeLocal` | internal/downloads/dispatch.go:185-197 | takes a slot unless local work is off for downloads or the limit is reached |
| `DispatchProgress.SlotGivenExactly` | internal/downloads/dispatch.go:185-197 | a waiting goroutine gets a local slot exactly when its kind may run here and fewer than maxLocal goroutines hold one |
| `Dispatch.Manager.ReleaseLocal` | internal/downloads/dispatch.go:200-205 | gives the slot back |
| `Dispatch.Manager.Exit` | internal/downloads/dispatch.go:117-128 | a leaving goroutine gives up its job, kind and source count |
| `DispatchSafety.StepKeeps` | internal/downloads/dispatch.go:61-149 | every step, whatever a pass read, keeps one goroutine for each running job, each counter equal to the goroutines it stands for, and every limit |
| `DispatchSafety.RunsAreSafe` | internal/downloads/dispatch.go:77-149 | in every reachable state no job is in two local runs, running downloads, reprocess jobs and runs of one source are within their limits, and local counts the slots held and stays within its limit |
| `DispatchSafety.ClaimsNeverOutnumberQueues` | internal/downloads/queue_control.go:100-112 | over any run a job is claimed no more often than its row became queued |
| `DispatchOverlap.UpToDateNeverOverlaps` | internal/downloads/dispatch.go:72-91 | if each pass reads the workers’ tasks up to date, no local run ever overlaps the open task of its job |
| `DispatchOverlap.OverlapExactly` | internal/downloads/dispatch.go:88-149 | a goroutine about to decide can come to run its job beside an open task, with every other write as its statement allows, exactly when the task is open now, the job has a row, and local downloads are allowed |
| `DispatchOverlap.StaleReadOverlaps` | internal/downloads/offload.go:34-99 | a run, each other write as its statement allows, in which a pass acts on what it read before a pause and a resume, and the overlap happens |
| `Retry.Job.Fail` | internal/downloads/retry.go:42-123 | case by case what a failed attempt writes and what it blocklists; a paused row keeps all but its upgrade mark, which is written without that condition |
| `RetryOutcomes.InfraWaits` | internal/downloads/retry.go:77-85 | trouble of our own always requeues the copy’s release, five minutes more each time up to an hour, and blocklists nothing |
| `RetryOutcomes.CoolingWaits` | internal/downloads/retry.go:57-64 | a throttled catalog requeues until its cooldown ends, without counting the attempt |
| `RetryOutcomes.OrdinaryTriesAgain` | internal/downloads/retry.go:86-88 | an ordinary failure of a download under maxAttempts requeues after 30 seconds, two or ten minutes |
| `RetryOutcomes.FallsBack` | internal/downloads/retry.go:90-104 | else the release is blocklisted and the first choice without it is queued from the start in five seconds |
| `RetryOutcomes.EndsExactly` | internal/downloads/retry.go:77-113 | an unpaused job fails exactly when the failure is permanent or out of tries, or no download’s, and there is no release to fall back to |
| `RetryOutcomes.PausedKeeps` | internal/downloads/retry.go:58-106 | on a paused row only the upgrade mark and the blocklist can change, and when they do |
| `Retry.FailureCounts` | internal/downloads/retry.go:78-105 | a failure that counts ends the job or lowers (releases left, attempts left) |
| `Retry.FailureElse` | internal/downloads/retry.go:57-97 | cooldowns, failures of our side, cancellations and failures of a paused row never raise it |
| `Retry.LadderTerminates` | internal/downloads/retry.go:42-123 | over any run of readings, claims, picks, status writes and failures, at most maxAttempts times (1 + unblocked releases) failures count before the job is failed, plus 2·maxAttempts − 1 for each failure that worked from an older copy of the row |
| `Retry.StaleCopyExactly` | internal/downloads/retry.go:67-105 | for any copy of the row, a failure that counts and does not end the job lowers the measure exactly when the copy’s release is open or the row’s is not, and, for a retry with both or neither open, the copy’s attempt count is no lower |
| `Retry.CopyCosts` | internal/downloads/retry.go:57-105 | no failure on an older copy raises the measure by more than 2·maxAttempts − 1, counting itself |
| `Retry.WorstSetback` | internal/downloads/retry.go:74-97 | and a retry of a blocklisted release, for a job at the last attempt on an open one, raises it by all of that |
| `Retry.StaleCopyRaises` | internal/downloads/queue_control.go:100-112 | a run of two passes in which an attempt from an older copy puts the job back on the release just blocklisted and raises the measure from 3 to 5 |
| `RetryExcess.ExceedsExactly` | internal/downloads/queue_control.go:100-112 | with a given number of failures on older copies of its row, a job can fail more often than maxAttempts times (1 + unblocked releases) exactly when there is one |
| `RetryExcess.StaleExceeds` | internal/downloads/retry.go:42-123 | runs of two releases and three attempts in which eleven failures count against a bound of nine |
| `Decision.Decide` | internal/decision/decision.go:51-121 | chapter specifications, then each release’s, then the sort and the comparison with the file there is, with every rejection in order |
| `DecisionFields.ApprovedExactly` | internal/decision/decision.go:51-121 | a release is approved exactly when the chapter is wanted, it is the first of the survivors by source priority, scanlator, upload and id, and it is wanted over the file there is, all in the fields of settings and candidates |
| `DecisionFields.RejectionsExactly` | internal/decision/decision.go:51-121 | the rejections: the chapter for its first reason; or each release that does not survive, in order and for its first reason, and then the first choice when the file stays |
| `Decision.LessTotal` | internal/decision/decision.go:142-159 | the ranking is strict and total on distinct release ids |
| `Decision.LessChains` | internal/decision/decision.go:142-159 | and transitive |
| `Decision.ApprovesTheBest` | internal/decision/decision.go:83-121 | a release is approved exactly when the chapter is not turned down, it is the least of the survivors, and the file there is does not speak against it |
| `Decision.OrderDoesNotMatter` | internal/decision/decision.go:107-121 | the order in which releases are given does not matter |
| `Decision.UpgradesClimb` | internal/decision/decision.go:109-118 | an upgrade from a known release strictly lowers (source priority, scanlator preference) |
| `Decision.Converges` | internal/decision/decision.go:109-118 | after importing the approved release nothing is approved of the same releases |
| `Decision.NextIsNotBlocklisted` | internal/downloads/search.go:178-187 | the release to fall back to is not blocklisted |
| `Decision.NextExists` | internal/downloads/search.go:178-187 | and there is one whenever a release survives and the chapter has no file |
| `CrashLoop.File.MarkProcessFailed` | internal/downloads/process.go:162-174 | counts the attempt and postpones the file, twice as long each time up to 32 hours |
| `CrashLoop.File.MarkProcessRetry` | internal/downloads/process.go:152-160 | postpones the file by half an hour and counts nothing |
| `CrashLoop.DelaysGrow` | internal/downloads/process.go:168-169 | the delays never shrink and stay between one and 32 hours |
| `CrashLoop.DelaysDouble` | internal/downloads/process.go:168-169 | an hour after the first failure, twice as long after each, 32 hours from the sixth on |
| `CrashLoop.CrashLoopsEnd` | internal/downloads/manager.go:115-149 | while every counted failure fails its job and nobody queues the file by hand, no file’s count passes five through any mix of failures, kills, recoveries, stops, pauses, resumes, removals, lost writes and resets |
| `CrashRecovery.CrashLoopIsOver` | internal/app/wire_process.go:174-182 | a file counted five times, with no job and nobody processing it, is not processed again until somebody queues it or resets it, whatever else happens |
| `CrashRecovery.BacklogQueues` | internal/app/wire_process.go:174-182 | the backlog queues a file without a job exactly while it is counted less than five times |
| `CrashRecovery.SuccessForgets` | internal/downloads/process.go:136-150 | a file that is processed, or needs no change, counts anew |
| `CrashRecovery.KillCountedOnce` | internal/downloads/manager.go:115-149 | a kill while the file is processed is counted once, at the restart, and ends the job |
| `CrashRecovery.NeverWorn` | internal/downloads/process.go:152-160 | temporary failures in any number leave the file as it was |
| `CrashLoop.AttemptsBounded` | internal/downloads/process.go:99-107 | each failure that is counted but leaves its job alive, or belongs to a removed one, and each queueing by hand adds at most one |
| `CrashLoop.ExceedsExactly` | internal/downloads/process.go:99-107 | with a given number of these the count can pass five exactly when there is one |
| `CrashLoop.BoundIsReached` | internal/downloads/manager.go:122-149 | any number of them, at removed jobs, then at pauses, stops, lost writes and retries by hand in any order, then at kills in processing and recovery, does add that many attempts |
| `CrashLoop.SixthAttempt` | internal/downloads/queue_control.go:132-138 | a failure whose two writes fall together between a pause’s write and its cancellation gives a sixth attempt, without any kill |
| `Updates.ListUpdates` | internal/api/updates.go:214-256 | both bounded queries, the merge, the slice and the cursor |
| `Updates.CursorIsOrder` | internal/api/updates.go:180-183 | the SQL condition of a cursor says just what the sort order says |
| `Updates.TopOfUnion` | internal/api/updates.go:218-250 | the first n of the merge of the queries’ first n are the first n of all rows |
| `Updates.CursorPage` | internal/api/updates.go:214-256 | a cursor page shows the rows right after its cursor |
| `Updates.NextExactly` | internal/api/updates.go:357-361 | a cursor is returned exactly when rows remain, and stands right after the page |
| `Updates.ListingIsFeed` | internal/api/updates.go:132-140 | the unpaged listing holds each visible row once, in order |
| `UpdatesFields.PagesAreOfOneList` | internal/api/updates.go:125-140 | one list of the rows the filter leaves, newest first, chapters before series, higher ids first: the k-th page shows the rows from (k − 1) sizes on, a cursor’s page those after its row, each with the right next cursor |
| `Updates.WholeFeed` | internal/api/updates.go:214-256 | following the cursors to the end, with any page sizes, gives the unpaged listing |
| `Updates.OffsetPagesAreCursorPages` | internal/api/updates.go:216-222 | while rows remain, an offset page equals the page after as many cursors |
| `Discover.PopularPage` | internal/api/discover_shelves.go:313-386 | the nested loops, changing the cursor’s own map of seen titles: cards, errors, fetches and the next cursor state, also when time runs out between fetches or inside one |
| `Discover.TakePending` | internal/api/discover_shelves.go:354-376 | the inner loop over pending titles |
| `DiscoverWalk.FreshIsFirst` | internal/api/discover_shelves.go:355-361 | exactly the first entries of new titles are kept, at strictly rising places |
| `DiscoverWalk.FreshHasAll` | internal/api/discover_shelves.go:355-361 | and none is left out |
| `DiscoverWalk.PageIsPrefix` | internal/api/discover_shelves.go:313-386 | a request shows the first of the cards still to come and leaves the others ahead of its cursor |
| `DiscoverWalk.FetchesAllowed` | internal/api/discover_shelves.go:325-329 | and starts no more fetches than it may |
| `DiscoverProgress.PageFills` | internal/api/discover_shelves.go:313-386 | a page is full unless the catalogs are all read, or eight fetches, or all that time allowed, are made and another is needed |
| `DiscoverProgress.EveryShelfEnds` | internal/api/discover_shelves.go:209-227 | where the catalogs end after n fetches, more requests than n and the listed titles reach the end, whatever their sizes and deadlines, as long as each asks for a card and begins a fetch |
| `DiscoverWalk.WholeShelf` | internal/api/discover_shelves.go:209-227 | a chain that runs to its end shows one walk over all catalogs and pages, as if the fetches that time cut off had failed, that keeps first titles and then filters by membership, and tells of all its errors once and in order, whatever the page sizes, the eight-fetch cuts and the deadlines |
| `DiscoverWalk.ShelfBeginsSo` | internal/api/discover_shelves.go:209-227 | before the end, what was shown is the beginning of that walk |
| `DiscoverWalk.ChainsAgree` | internal/api/discover_shelves.go:209-227 | two chains that run to their ends, with no fetch or the same fetches cut off, show the same cards |
| `DiscoverShelf.WalkLists` | internal/api/discover_shelves.go:325-386 | a walk that ends passes every title listed on every page reached, once, by catalog, page and place |
| `DiscoverShelf.ShelfShows` | internal/api/discover_shelves.go:313-386 | a finished chain shows exactly the first listing of each title that was asked for, in order, with the series the library has for it |
| `DiscoverCuts.CutWalk` | internal/api/discover_shelves.go:346-350 | with fetches cut off the walk keeps exactly the entries before the cut of their catalog |
| `DiscoverCuts.WholeShelfExactly` | internal/api/discover_shelves.go:325-350 | where the walk ends, a finished chain shows the whole shelf exactly when each card’s entry is on a page before any cut of its catalog |
| `DiscoverCuts.UncutIsWhole` | internal/api/discover_shelves.go:325-350 | and always when no fetch was cut off |
| `DiscoverCuts.CutShelfEmpty` | internal/api/discover_shelves.go:325-350 | one catalog, one title and a cut first fetch: the chain ends with nothing shown |
| `DiscoverStore.Cache.Serve` | internal/api/discover_shelves.go:129-228 | answers a request from the cursor stored under its token, stores the next one under a new token, and leaves every other stored cursor as it was, though each holds a map that pages write to |
| `DiscoverBrowse.RefusedExactly` | internal/api/discover_shelves.go:129-165 | when a token is refused, and as what; a request without one starts from the first page |
| `DiscoverStore.CursorsStay` | internal/api/discover_shelves.go:151-221 | over any requests and evictions a cursor that is still stored is what it was |
| `DiscoverStore.ReplayShowsTheSame` | internal/api/discover_shelves.go:138-152 | so a token answers the same page whenever it is used |
| `DiscoverStore.NextGoesOn` | internal/api/discover_shelves.go:214-226 | and the token of a page goes on exactly where that page ended, with the first request’s catalogs and expiry |
| `DiscoverBrowse.BrowsingShowsTheShelf` | internal/api/discover_shelves.go:129-228 | a reader who follows tokens through the cache, whatever others ask and the cache drops meanwhile, sees the beginning of the shelf, and all of it exactly when no further token is given |
| `Cleanup.Evaluate` | internal/cleanup/cleanup.go:72-152 | the loops, the sort, the cut and the reasons |
| `CleanupSafety.EvaluateExactly` | internal/cleanup/cleanup.go:72-152 | a chapter is a candidate exactly when all effective readers, at least one, finished it, KeepLastRead finished ones stand above it, and the last of them read it the grace period ago |
| `CleanupFields.PlansWhatMayGo` | internal/cleanup/cleanup.go:72-152 | in the fields of rules and progress: a chapter is planned exactly when every required reader, where asked only those who completed a chapter or turned a page, completed it the grace period ago by readAt or else syncedAt, and at least keepLastRead chapters above it are so completed |
| `CleanupFields.PlanInOrder` | internal/cleanup/cleanup.go:72-152 | a plan stands in rising order of numbers, and an empty one has the first reason that applies |
| `CleanupSafety.CleanupIsAntitone` | internal/cleanup/cleanup.go:79-147 | the same effective readers, at least one, and more, more kept or more grace only shrinks the candidates |
| `CleanupSafety.StricterByRules` | internal/cleanup/cleanup.go:79-94 | which rules with more required readers ask for, with readers not started counted or, once one of them has started, ignored |
| `CleanupSafety.MoreReadersCanDelete` | internal/cleanup/cleanup.go:79-94 | without the one reader it fails: requiring a first reader lets a chapter go |
| `CleanupRuns.Shelf.Clean` | internal/cleanup/cleanup.go:336-368 | a run with nothing between plans, and removes its candidates but those whose removal fails, or on a dry run nothing; it returns how many it removed |
| `CleanupRuns.Shelf.Remove` | internal/cleanup/cleanup.go:370-400 | one removal: the chapter of the candidate loses the file it has then, whichever that is |
| `CleanupSafety.DeletedWasRead` | internal/cleanup/cleanup.go:95-118 | whatever is deleted was finished by every effective required reader, each at least the grace period ago |
| `CleanupSafety.LastOnesStay` | internal/cleanup/cleanup.go:124-131 | a run leaves the KeepLastRead highest finished chapters that still had files |
| `CleanupFields.LastKeepTheirFiles` | internal/cleanup/cleanup.go:124-138 | with keepLastRead itself: a completed chapter with fewer than that many above it keeps its file whatever part of a plan is removed |
| `CleanupRuns.RunsKeepLast` | internal/cleanup/cleanup.go:336-408 | in any sequence of plans, single removals and changes of states, files and rules, the last finished chapters of a plan keep the files they have through its removals |
| `CleanupFields.RunsLeaveTheLast` | internal/cleanup/cleanup.go:336-408 | and over any sequence of plans, removals and changes |
| `CleanupRuns.RunsDeleteOnlyRead` | internal/cleanup/cleanup.go:336-408 | in any such sequence a removal takes a chapter’s file only when, under the rules and states of the last plan, all effective readers had finished it the grace period before and KeepLastRead finished ones stood above it |
| `CleanupFields.RunsDeleteOnlyWhatMightGo` | internal/cleanup/cleanup.go:336-408 | what a removal takes might go, in those fields, when it was planned |
| `CleanupRuns.RunsTakeExactly` | internal/cleanup/cleanup.go:336-408 | and a chapter that nothing else gives or takes has its file at the end exactly when it had it and no removal was of a candidate for it |
| `CleanupRuns.UndisturbedIsDue` | internal/cleanup/cleanup.go:336-368 | while only removals follow a plan, what is still to be removed is earned and spare at that very moment |
| `CleanupRuns.NewFileIsTaken` | internal/cleanup/cleanup.go:370-400 | otherwise a removal can take a file that was imported after the plan and that nobody has read |
| `CleanupSafety.SecondRunFindsNothing` | internal/cleanup/cleanup.go:336-368 | a second run at the same time finds nothing |
| `Remap.RemapPage` | internal/downloads/import.go:213-229 | the search for the first page that shows the old one or a later one |
| `Remap.RemapsExactly` | internal/downloads/import.go:213-229 | where a page goes: nowhere if not begun or without pages, to the last if done or past all, else to the first that shows it or a later one |
| `Remap.RemapStates` | internal/downloads/import.go:161-175 | every reader’s page is remapped, and only rows that change are written |
| `Remap.StaysInRange` | internal/downloads/import.go:213-229 | progress that had begun stays within the new file |
| `Remap.IsMonotone` | internal/downloads/import.go:213-229 | readers keep their order, finished or not, but for a finished reader who moves to the last page past an unfinished one further on: exactly when that one does not land there too |
| `Remap.LandsOnFirstSegment` | internal/downloads/import.go:213-229 | an in-progress reader lands on the first segment of the page, or of the next one left |
| `Remap.TwoSplitsExactly` | internal/downloads/import.go:213-229 | remapping through two splits is remapping through the composed map exactly when the page is at most one past the first map’s last entry or the second split left that entry’s last page whole |
| `Remap.TwoSplitsDiffer` | internal/downloads/import.go:213-229 | a page after all the first map shows, for which two steps give 1 and one gives 2 |
| `Remap.CompletedStaysLast` | internal/downloads/import.go:213-229 | finished readers are at the last page after any splits |

## Left out

- Database engines: SQL text, isolation, migrations and locking. Tables are maps, each transaction is one step, and a transaction that fails leaves no trace. Row ids count up without gaps, where PostgreSQL burns an id on a skipped conflict.
- DownloadQueue.Queue.EnqueuePriority: the chapter's state, the release and the upgrade flag are not in the row, and the lost race with a concurrent insert does not arise, because the check and the insert are one step.
- DownloadQueue.RevisionFixesRanks: filters, counts and page slices of the queue listing are not modelled, only what equal revisions promise about ranks.
- RankSort.ByChapterOrders: chapter numbers are reals, so a NaN number is not modelled.
- Events, the wake channel and history records of every operation.
- Mihon.ParseMihon: gzip, the size limit and the format detection before it; a backup whose first manga message is 123 bytes long starts like JSON and is not recognised as Mihon's there.
- MihonPortable.RoundTrip: float64 values are compared by their bits, and a NaN is made quiet by either conversion, as processors do. Nil and empty lists and maps are one. Encoded backups are shorter than 2^63 bytes.
- Aidoku backups and the JSON formats.
- DispatchSafety.RunsAreSafe: settings stay fixed during a run, cooldowns are a flag on the entry, and restarts of the process are not steps. A cancelled goroutine may still take any step that an uncancelled one may, so that its failing writes are one of the behaviours covered.
- DispatchOverlap.UpToDateNeverOverlaps: a worker's finished task enters the second half of the pipeline outside the running map, so that half is not counted as a local run.
- DispatchOverlap.OverlapExactly: what other writers' statements ask of a row is `DispatchOverlap.MayWrite`; who writes, and when, is not followed, and neither is the removal of rows.
- Paused jobs: requeueing after a failed hand-over and the commit of an import write the row without a paused guard, and a clean stop hands back only jobs still running; nothing is claimed about paused staying paused.
- Retry.LadderTerminates: errors come classified, and manual retries and changes of the release list are outside the run. How many attempts can work from older copies is not bounded.
- Decision.Decide: scanlator patterns and a series' blocked names are predicates on names, and the clock is an input.
- Updates.WholeFeed: the feed and the cutoff stand still while pages are read; visibility, titles, languages and read states of the rows are not modelled, nor is the cursor's encoding.
- DiscoverWalk.WholeShelf: providers and library membership stand still, a fetch that time cuts off gives an error, and title keys are given.
- DiscoverCuts.WholeShelfExactly: says nothing of catalogs whose walk never ends.
- DiscoverStore.Cache.Serve: the caller, the filters and the settings are one string, errors of the database, thumbnails and the library shelves are left out, the cache may drop entries at any time, and where replays are claimed a token is not drawn twice.
- Cleanup.Evaluate: settings, profiles, tags and free space are already resolved into the rules, and durations do not overflow. Chapter numbers of a series are distinct where `CleanupSafety` says so, because the original sort is not stable.
- CleanupRuns.Shelf.Clean: recycling and restoring are left out, a removal either happens or fails.
- CrashLoop.CrashLoopsEnd: only the count of attempts is followed, not the time of the next one. The backlog's choice of a file and its queueing are one step. A process that dies while it works on a paused or handed-back row is not counted, as in the code.
- Remap.RemapStates: the import that writes the file, the chapter and the job in one transaction is not modelled around it.
- HTTP handlers, permissions, the web interface, image processing, encoders and source clients: outcomes are inputs.
