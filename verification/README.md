# RotoWeave: a verified model of its queue, downloads, bundles and planners

RotoWeave runs matting jobs on a remote server. This project models the parts of it where several
programs, several failures or several representations of one thing meet, and proves what keeps them in
step. `dafny verify dfyconfig.toml` checks everything.

**The remote job queue.** `QueueTables` states every transaction of `RemoteQueueRepository` as a function
on its tables and proves that each job row is always exactly what its event log replays to.
`QueueRepository` is the class itself: loops and row updates, each method proved against its transaction.
`QueueOrder` shows that rows plus `ORDER BY queue_order,created_at` are an abstract waiting line.
`ServiceSystem` turns `RemoteService` into interleaved programs (submit, retry, delete, the three-step
cleanup, the queue worker, model operations) with one action per transaction, directory operation or
control read and a crash between any two of them; `ServiceInvariants` proves an invariant of every
reachable state and `ServiceTheorems` draws the promises from it. `ServiceInputs` says when a live job is
without its archive, `ServiceOrphans` which steps leave a directory behind for good, and `ServiceRuns`
gives runs that reach such states. `RemoteService` writes the calls as the code does and proves that an
undisturbed call takes exactly the steps of its program. `EventStream` adds the server-sent event
generator and a client that reconnects.

**Downloads.** `SegmentTiling` and `SegmentedDownload` cover the segmented download: nonlinear tiling,
part files under every interleaving of segment threads, retries and crashes, and assembly.
`VerifiedDownload` is the sequential resume loop, `PartDownload` the downloader of the validation scripts.
`RangeServer` says what an honest range server may answer.

**Deployment bundles.** `BundleTree` relates the tree digest computed from a directory, from the archive,
and from what the archive extracts to. `MemberPaths` validates member names and shows where extraction
puts them; `BundleInspection` shows that an accepted bundle is a partition. `BundleExport` writes one
archive from several trees, which its inspection accepts and which extracts to those trees. `BundleImport`
is the promotion of components with backups and rollback.

**Planners and printers.** `MemoryModes` (the memory plan and the out-of-memory fallback), `ModelCenter`
(assets, bindings, the single configuration, garbage collection), `ClientRoutes` with `PercentCoding` and
`Splitting` (the client's hash routes), `ImportGraph` (the import worklist). `Decimal`, `Arithmetic`,
`Sequences` and `Options` are shared helpers.

Assumptions: a `with self.transaction()` body is atomic, and one that raises has no effect; `uuid4` never
repeats; renames are atomic; one server process owns the data directory. Model operations are single:
`_start` looks for a running one and inserts the new one in two separate connections
(model_center.py:742-758), which excludes a second one only because every caller is an async handler on
one event loop. `shutil.rmtree(..., ignore_errors=True)` removes its directory. A file is its digest in
the queue modules and its bytes in the download and bundle modules. SHA-256 is a function about which
nothing else is assumed, except where a lemma asks that two given trees contain no colliding pair of
files. The digest of a tree is represented by the text that is hashed. Exact ties in `ORDER BY` fall back
to insertion order. Clock readings, replies of servers, operating-system failures and worker outcomes are
parameters.

Five results are worth knowing beforehand, because the code and its intent part ways:

* A bundle import is all-or-nothing exactly when no component that is moved aside finds a *directory*
  at its backup path. Backup directories are named by the second, and `shutil.move` puts a source
  *into* an existing directory. A failing import moves its own backups back, so the path is occupied only
  by an earlier successful promotion, or by an overlapping import, within the same second; a failing import
  after such a success returns the wrong tree (`BundleImport.AllOrNothing`,
  `BundleImport.OccupiedBackupBreaksRollback`, and the two imports of `BundleImport.Project.ImportTwice`).
* A route is read back only when its identifiers are not empty; otherwise the page name is taken for
  the identifier or the route reads as empty (`ClientRoutes.ParsePrint`).
* A member whose relative name looks like a drive, such as `payload/assets/server-runtimes/c:y`, passes
  validation and inspection and is refused only when it is extracted (`MemberPaths.ExtractableIff`,
  `MemberPaths.DriveLikePartRefusedLate`).
* A retry inserts its row in one transaction and logs it in a second one, inside a `try` whose handler removes
  the new job's directory (repository.py:506-511, service.py:446-450). If the second one raises, a queued job
  is left without its input. In every reachable state a live job lacks its archive exactly if this has
  happened to it (`ServiceTheorems.LiveJobsKeepTheirInput`, `ServiceTheorems.StarvedArises`); no other failure
  leads there (`ServiceInputs.DoomedByLog`), so a run in which no such transaction raises keeps every input
  (`ServiceTheorems.QuietRunsKeepInputs`), and a run from the initial state reaches it
  (`ServiceRuns.FailedLogReached`).
* A new job directory is made before the `try` that would remove it. A submit whose `archive_path.replace`
  raises (service.py:199) and a retry whose copy raises or finds its source gone (service.py:444) leave it
  for good, and so does a crash while it is being filled. These are exactly the ways
  (`ServiceTheorems.OrphanArises`), nothing ever removes such a directory (`ServiceOrphans.OrphanStays`), and
  runs from the initial state reach it (`ServiceRuns.FailedMoveLeavesOrphan`,
  `ServiceRuns.VanishingSourceReached`).

## Model

| member | source | states |
|---|---|---|
| `QueueTables.ApplyOk` | RotoWeaveServer/server/repository.py:317-528 | every transaction keeps every row equal to the replay of its own log (numbered walk, last state and stage, attempts, started), the optional columns set exactly when the state demands, and keys unique |
| `QueueTables.RunOk` | RotoWeaveServer/server/repository.py:317-528 | the same after any run of transactions |
| `QueueTables.ReplayIffWalk` | RotoWeaveServer/server/repository.py:346-357 | a log replays exactly when its sequences are 0..n-1 and its states walk queued, running, then queued, running or terminal, or queued, cancelled |
| `QueueTables.TerminalEventIsLast` | RotoWeaveServer/server/repository.py:438-473 | at most one terminal event, and it is the last |
| `QueueTables.ApplyEvolves` | RotoWeaveServer/server/repository.py:317-528 | logs only grow, terminal rows are frozen, identity columns never change, rows disappear only by delete, and with terminal_only only when terminal |
| `QueueTables.NextSequenceOfReplay` | RotoWeaveServer/server/repository.py:346-348 | COALESCE(MAX(sequence),-1)+1 is the length of the log |
| `QueueOrder.QueueExistsOnce` | RotoWeaveServer/server/repository.py:415-426 | the ORDER BY over the queued rows has exactly one answer |
| `QueueOrder.HeadIsFirst` | RotoWeaveServer/server/repository.py:415-426 | the row claim_next selects is the first of the line |
| `QueueOrder.DistinctLength` | RotoWeaveServer/server/repository.py:488-500 | a list is as long as its set of elements if and only if it has no duplicates |
| `QueueOrder.ReorderAcceptsPermutations` | RotoWeaveServer/server/repository.py:488-500 | the set-and-length check accepts exactly the permutations of the current line at the expected revision |
| `QueueOrder.StepRefines` | RotoWeaveServer/server/repository.py:328-500 | enqueue appends, claim pops the head, cancel and delete remove, an accepted reorder installs the given list, recover returns the active job |
| `QueueOrder.RunRefines` | RotoWeaveServer/server/repository.py:328-500 | the table refines the line over whole runs of a single worker |
| `QueueOrder.InterruptedJobReturnsToHead` | RotoWeaveServer/server/repository.py:384-393 | recover puts the interrupted job back at the head unless a reorder was accepted since its claim; refused reorders do not matter |
| `QueueOrder.ClaimPins` | RotoWeaveServer/server/repository.py:415-426 | a claim begins such a run: the claimed job stays numbered before every waiting one |
| `QueueRepository.NewJobGoesLast` | RotoWeaveServer/server/repository.py:328-343 | a new row has the given columns and the log [0 queued], goes behind every job there is, and nothing else changes |
| `QueueRepository.ReorderNumbers` | RotoWeaveServer/server/repository.py:488-500 | an accepted reorder numbers the given jobs from one and changes nothing else but the revision |
| `QueueRepository.RemoteQueueRepository.SelectByKey` | RotoWeaveServer/server/repository.py:313-315 | the row holding the key, if any |
| `QueueRepository.RemoteQueueRepository.SelectMaxOrder` | RotoWeaveServer/server/repository.py:328-337 | the largest queue_order over all rows, 0 for an empty table |
| `QueueRepository.RemoteQueueRepository.SelectHead` | RotoWeaveServer/server/repository.py:415-426 | the queued row before all other queued rows |
| `QueueRepository.RemoteQueueRepository.SelectNextSequence` | RotoWeaveServer/server/repository.py:346-348 | the next sequence of a log |
| `QueueRepository.RemoteQueueRepository.SelectExpired` | RotoWeaveServer/server/repository.py:514-517 | exactly the terminal jobs whose expiry has passed, each once |
| `QueueRepository.RemoteQueueRepository.EnqueueJob` | RotoWeaveServer/server/repository.py:317-344 | the enqueue transaction; the answer is the row that holds the key, a conflict that changes nothing, or the new queued row |
| `QueueRepository.RemoteQueueRepository.SetQueueControl` | RotoWeaveServer/server/repository.py:401-413 | the control transaction; refused exactly on a stale revision, else the revision grows by one |
| `QueueRepository.RemoteQueueRepository.Claim` | RotoWeaveServer/server/repository.py:415-426 | claims the head exactly when neither paused nor in maintenance and something is queued |
| `QueueRepository.RemoteQueueRepository.ReportJobProgress` | RotoWeaveServer/server/repository.py:428-436 | the progress transaction; accepted exactly while the row runs |
| `QueueRepository.RemoteQueueRepository.Finish` | RotoWeaveServer/server/repository.py:438-453 | the shared finish transaction; accepted exactly while the row runs |
| `QueueRepository.RemoteQueueRepository.CompleteJob` | RotoWeaveServer/server/repository.py:455-456 | the running row gets path, digest, finish and expiry times; refused when the row no longer runs |
| `QueueRepository.RemoteQueueRepository.FailJob` | RotoWeaveServer/server/repository.py:458-459 | the running row gets the error record, finish and expiry times; refused when the row no longer runs |
| `QueueRepository.RemoteQueueRepository.CancelById` | RotoWeaveServer/server/repository.py:461-473 | cancels a queued or running job, leaves a terminal one, and answers with a terminal row |
| `QueueRepository.RemoteQueueRepository.RecoverInterrupted` | RotoWeaveServer/server/repository.py:384-393 | the loop over the running rows puts back exactly those and leaves none running |
| `QueueRepository.RemoteQueueRepository.ReorderQueue` | RotoWeaveServer/server/repository.py:488-500 | stale revisions and non-permutations change nothing; an accepted list is numbered in order |
| `QueueRepository.RemoteQueueRepository.DeleteJob` | RotoWeaveServer/server/repository.py:519-528 | removes the row with its events, except a live one under terminal_only |
| `ServiceInvariants.NextKeeps` | RotoWeaveServer/server/service.py:78-581 | every action of every program, every step that raises, and every crash keeps the invariant of files, rows, worker and model operation |
| `ServiceInvariants.ReachableOk` | RotoWeaveServer/server/service.py:78-581 | the invariant holds after any interleaving |
| `ServiceInvariants.ExecuteEndsItsJob` | RotoWeaveServer/server/service.py:303-399 | when _execute returns by completing, failing, being cancelled or losing to a canceller, its job is terminal or gone |
| `ServiceTheorems.LiveJobsKeepTheirInput` | RotoWeaveServer/server/service.py:195-218 | in every reachable state a queued or running job has its own input archive on disk if and only if its own retry did not take it back |
| `ServiceTheorems.StarvedArises` | RotoWeaveServer/server/service.py:433-452 | from any reachable state a live job is without its archive after a step if and only if it was before, or the step is a retry removing the directory of the job it inserted |
| `ServiceInputs.DoomedByLog` | RotoWeaveServer/server/service.py:445-450 | a retry comes to remove the directory of a job with a row if and only if its log transaction raised; a refused or failed insertion never leads there |
| `ServiceInputs.NeverRefilled` | RotoWeaveServer/server/service.py:78-581 | no action puts the archive of a job that had a row back |
| `ServiceTheorems.QuietRunsKeepInputs` | RotoWeaveServer/server/service.py:78-581 | in any run in which no log transaction of a retry raises, every live job has its input, whatever else fails |
| `ServiceRuns.FailedLogStarvesJob` | RotoWeaveServer/server/repository.py:502-511 | from any reachable state with a finished job, a retry whose log transaction raises leaves a queued job without input |
| `ServiceRuns.FailedLogReached` | RotoWeaveServer/server/repository.py:502-511 | a run from the initial state that does so: submit, cancel, retry with a failing log transaction |
| `ServiceTheorems.RowsEndOnlyAfterTheirJob` | RotoWeaveServer/server/service.py:568-581 | no live row is ever deleted although cleanup deletes without terminal_only, and terminal rows never change |
| `ServiceTheorems.OneRunningJob` | RotoWeaveServer/server/service.py:294-399 | at most one row runs and a live worker executes exactly that one |
| `ServiceTheorems.CrashThenStartRequeues` | RotoWeaveServer/server/service.py:78-87 | after a crash anywhere and a restart nothing runs and every interrupted job waits again, with its input unless its own retry had taken it back |
| `ServiceTheorems.SelfTestExcludesJobs` | RotoWeaveServer/server/service.py:549-566 | from the return of _begin_model_self_test to its end no job row is running |
| `ServiceTheorems.OperationCloses` | RotoWeaveServer/server/service.py:487-550 | a self-test begins by closing the queue, a switch by letting it drain |
| `ServiceTheorems.SelfTestReopens` | RotoWeaveServer/server/service.py:549-566 | a self-test that returns, aborted or not, leaves the queue open, and until then leaves the control row alone |
| `ServiceTheorems.SwitchReopens` | RotoWeaveServer/server/service.py:484-547 | a switch closes the queue at its drained check, leaves it open when it succeeds or is given up before it started, and in maintenance exactly when it fails after that |
| `ServiceTheorems.WorkerCompletes` | RotoWeaveServer/server/service.py:363-366 | completing a running job stores path, digest, finish and expiry times and frees the worker |
| `ServiceTheorems.WorkerGivesUp` | RotoWeaveServer/server/service.py:367-399 | failing stores the error, a noticed cancellation cancels, and both free the worker |
| `ServiceTheorems.WorkerLoses` | RotoWeaveServer/server/service.py:363-399 | a row that was cancelled or deleted behind the worker stays as it is, however the execution ends |
| `ServiceTheorems.WorkerWrites` | RotoWeaveServer/server/service.py:331-338 | writing makes the directory of the executed job again when it is gone, and touches no archive |
| `ServiceTheorems.WorkerTakesHead` | RotoWeaveServer/server/service.py:294-301 | an idle worker starts the head of an open queue and otherwise changes nothing |
| `ServiceTheorems.SubmitsAgree` | RotoWeaveServer/server/service.py:121-220 | any two interleaved submits of one key that returned present jobs returned the same job for the same request digest |
| `ServiceTheorems.LosersLeaveNothing` | RotoWeaveServer/server/service.py:195-218 | a submit that ended without its own job leaves no row, and leaves its directory if and only if the archive could not be moved into it |
| `ServiceTheorems.ReusedKeyChangesNothing` | RotoWeaveServer/server/service.py:121-220 | over any run without a crash, a submit that does not end with a job it created never changed the tables in any of its steps, whatever interleaved |
| `ServiceTheorems.KnownKeyStep` | RotoWeaveServer/server/service.py:138-144 | either check of a known key leaves the tables alone and refuses exactly a different digest, unless the transaction itself raises |
| `ServiceTheorems.DirectoriesAreAccountedFor` | RotoWeaveServer/server/service.py:195-218 | every job directory belongs to a job that was accepted, a program filling it, or is recorded as abandoned |
| `ServiceTheorems.OrphanArises` | RotoWeaveServer/server/service.py:195-218 | from any reachable state a step leaves a rowless, unowned directory if and only if it was one before, or the step is a move into it or a copy into it that raises (a vanished source included), or a crash while a program filled it |
| `ServiceTheorems.OrphansAreLeaked` | RotoWeaveServer/server/service.py:433-452 | in every reachable state the directories recorded as abandoned are exactly those that never got a row and have no program |
| `ServiceOrphans.OrphanStays` | RotoWeaveServer/server/service.py:78-581 | no action of any program removes such a directory, gives it a row or takes it over |
| `ServiceRuns.FailedMoveLeavesOrphan` | RotoWeaveServer/server/service.py:197-199 | a run from the initial state: a submit whose archive move raises leaves its directory |
| `ServiceRuns.VanishingSourceLeavesOrphan` | RotoWeaveServer/server/service.py:433-452 | from any reachable state with a finished job, a retry overtaken by a delete between its check and its copy leaves its new directory |
| `ServiceRuns.VanishingSourceReached` | RotoWeaveServer/server/service.py:433-452 | a run from the initial state that does so: submit, cancel, retry, delete before the copy |
| `ServiceTheorems.TransactionsAreSingleWorker` | RotoWeaveServer/server/service.py:294-399 | the transactions of any interleaving are a run in which claims find nothing running |
| `ServiceTheorems.ServiceRefinesLine` | RotoWeaveServer/server/service.py:78-581 | the table of the whole service, under every interleaving, is the abstract waiting line |
| `RemoteService.RemoteService.Submit` | RotoWeaveServer/server/service.py:121-220 | in maintenance and while draining every submit is refused and changes nothing; otherwise a known key is answered with its job, or with a conflict on another digest, and a new key gets a row and a directory unless a check, the move or the insertion fails, each with its own outcome; undisturbed, these are exactly the steps of its program |
| `ServiceTheorems.ClosedQueueRefuses` | RotoWeaveServer/server/service.py:127-133 | in any interleaving the control check of a submit refuses exactly in maintenance or while draining, and changes nothing |
| `ServiceTheorems.RefusedForGood` | RotoWeaveServer/server/service.py:127-133 | a submit that ended stays as it ended: none of its later steps draws an identifier, writes or inserts anything, whatever else happens |
| `RemoteService.RemoteService.RetryJob` | RotoWeaveServer/server/service.py:433-452 | undisturbed, retry takes exactly the steps of its program and ends as RetryFate says: retried, refused without a trace, with an empty directory after a raising copy, or with a queued row and no directory after a raising log transaction |
| `RemoteService.RemoteService.DeleteTerminalJob` | RotoWeaveServer/server/service.py:454-460 | row first, then directory, only for a terminal job |
| `RemoteService.RemoteService.CleanupExpired` | RotoWeaveServer/server/service.py:568-581 | undisturbed, the loop removes exactly the rows and directories of the expired jobs, in the steps of its program |
| `EventStream.EventsAfterIsSuffix` | RotoWeaveServer/server/repository.py:475-478 | on a job's log the query returns exactly what follows the cursor, in sequence order |
| `EventStream.SelectEventsAfter` | RotoWeaveServer/server/repository.py:475-478 | the row loop computes that query |
| `EventStream.Stream` | RotoWeaveServer/server/api.py:235-251 | the generator yields a gap-free run of the log starting right after its cursor and stops at a terminal event; short of one it reaches the end of every log it queried, and it goes on exactly while the job is there and not over |
| `EventStream.ReceivedIsPrefix` | RotoWeaveServer/server/api.py:233-254 | over any number of reconnects with the last delivered id, the delivered events are a gap-free, duplicate-free prefix of the log |
| `EventStream.TerminalMeansComplete` | RotoWeaveServer/server/api.py:239-244 | a client that received a terminal event has the whole log |
| `EventStream.CatchesUp` | RotoWeaveServer/server/api.py:233-254 | a client that connects to an existing job and is left alone receives the whole rest of its log, and the stream ends with it exactly if the job is over |
| `EventStream.Refusals` | RotoWeaveServer/server/api.py:227-251 | no stream for a deleted job, none replaced, nothing after its end, and an end when the job was deleted |
| `Decimal.ParsePrint` | RotoWeaveServer/server/api.py:233-243 | reading a printed number gives it back |
| `SegmentTiling.LastStartInside` | scripts/rotoweave_bootstrap.py:2298-2299 | (s-1)^2 < n puts the last segment's start inside the file |
| `SegmentTiling.SegmentsTile` | scripts/rotoweave_bootstrap.py:2255-2308 | for n > 0 and at most 32 declared segments every segment is non-empty and they tile [0, n) |
| `SegmentTiling.TooManySegmentsLeaveOneEmpty` | scripts/rotoweave_bootstrap.py:2298-2299 | without the bounds a segment can be empty |
| `SegmentTiling.SegmentCountExactly` | scripts/rotoweave_bootstrap.py:2255-2260 | as many segments as declared if each gets 32 MiB, else as many as do, and at least one |
| `SegmentTiling.PlanRanges` | validation/scripts/download-verified-file.py:106-118 | for any requested count the ranges built before the break tile the whole file |
| `SegmentedDownload.NextKeepsPrefixes` | scripts/rotoweave_bootstrap.py:2366-2433 | any step of any segment thread, retry or crash keeps every part a prefix of its slice, given an honest server |
| `SegmentedDownload.RunKeepsPrefixes` | scripts/rotoweave_bootstrap.py:2366-2437 | the same over every interleaving |
| `SegmentedDownload.AssemblyIsSource` | scripts/rotoweave_bootstrap.py:2455-2463 | complete parts assemble to exactly the source |
| `SegmentedDownload.Workspace.AttemptOnce` | scripts/rotoweave_bootstrap.py:2376-2414 | a reply over HTTPS for exactly the rest of the segment under the recorded tag, with the right or no length and all its bytes, completes the part; one for anything else or of another length leaves it alone; a length that is no number raises |
| `SegmentedDownload.Workspace.DownloadSegment` | scripts/rotoweave_bootstrap.py:2366-2433 | at most four requests on the own part only; the first useful reply decides: a delivery completes the part with its body, a malformed length fails at once; four useless replies fail and leave the part; honest replies keep it a prefix of its slice |
| `SegmentedDownload.AttemptAsEvents` | scripts/rotoweave_bootstrap.py:2376-2414 | one attempt, as a run of the events that interleave, writes the whole chunks that fit of a useful reply and nothing otherwise, and touches no other segment |
| `SegmentedDownload.Workspace.Assemble` | scripts/rotoweave_bootstrap.py:2455-2463 | concatenates the parts in index order |
| `SegmentedDownload.Workspace.Download` | scripts/rotoweave_bootstrap.py:2242-2480 | the target holds verified bytes or nothing; a verified target is reused; when every segment is delivered by an honest server it is done with the source; a failed digest clears parts and metadata; honest failures keep the parts |
| `VerifiedDownload.Files.TryOnce` | scripts/rotoweave_bootstrap.py:854-920 | by class of reply: ignored and caught, discarding on a changed tag, escaping on a length that is no number, appending, or restarting; what is written, the metadata and how the attempt ended are stated exactly; honest replies keep the partial a prefix |
| `VerifiedDownload.WholeIsUsed` | scripts/rotoweave_bootstrap.py:866-920 | a whole 200, or a 206 from the offset, is used and makes the file of what was there and its body |
| `VerifiedDownload.Files.Settle` | scripts/rotoweave_bootstrap.py:922-952 | publishes exactly a full verified partial, discards a full or oversized unverified one, keeps a shorter one |
| `VerifiedDownload.Files.OpenLeftover` | scripts/rotoweave_bootstrap.py:782-794 | keeps a leftover exactly when its metadata names this source and it is not too long |
| `VerifiedDownload.Files.Round` | scripts/rotoweave_bootstrap.py:803-952 | a verified full leftover is published; otherwise the reply decides exactly: published, kept, discarded or stopped; one round leaves a verified target, or no target and nothing or a strictly shorter partial |
| `VerifiedDownload.Files.Download` | scripts/rotoweave_bootstrap.py:752-982 | at most four requests; a target only when length and digest match; a first useful reply that is whole and verified publishes it, one with a length that is no number gives up at once; giving up leaves no target and nothing or a strictly shorter partial; honest replies keep it a prefix |
| `VerifiedDownload.Files.Resume` | scripts/rotoweave_bootstrap.py:752-982 | the next run starts with a request at exactly the length the first one left |
| `PartDownload.Folder.AttemptOnce` | validation/scripts/download-verified-file.py:50-78 | a partial reply for exactly the rest of the range is appended whole, any other leaves the part |
| `PartDownload.Folder.DownloadPart` | validation/scripts/download-verified-file.py:36-84 | the first reply for the rest decides: all of it completes the part with its body; none leaves the part and fails; a part too long fails; truthful replies keep it following its range although appends are unguarded |
| `PartDownload.JoinedIsSource` | validation/scripts/download-verified-file.py:154-163 | whole parts that follow their ranges join to the source |
| `PartDownload.Folder.DownloadVerified` | validation/scripts/download-verified-file.py:85-176 | an existing output is reused exactly when it matches, never overwritten; a new one is published only verified; it is published when every range is delivered by a truthful server, and is the source |
| `BundleTree.PrefixKeepsOrder` | scripts/rotoweave_bootstrap.py:1660-1672 | a common prefix does not change the order of names |
| `BundleTree.SortedUnique` | scripts/rotoweave_bootstrap.py:193-206 | a sorted listing of distinct names is determined by its members |
| `BundleTree.SortOrderFree` | scripts/rotoweave_bootstrap.py:185-206 | the tree digest does not depend on the order of the walk or of the archive |
| `BundleTree.InspectAgreesWithExtract` | scripts/rotoweave_bootstrap.py:1656-1689 | for any archive the digest inspected in place is the tree digest of what it extracts to |
| `BundleTree.ExportRoundTrip` | scripts/rotoweave_bootstrap.py:1296-1306 | an archive that holds a tree under a prefix extracts to the same files, and all three summaries agree |
| `BundleExport.ExportPacks` | scripts/rotoweave_bootstrap.py:1492-1497 | in the archive written from several trees, each prefix holds exactly its own tree, which extracts back with the same summary |
| `BundleExport.ExportAccepted` | scripts/rotoweave_bootstrap.py:1440-1499 | the archive and manifest of an export meet every condition of a full inspection |
| `BundleExport.ExportBundle` | scripts/rotoweave_bootstrap.py:1440-1499 | the loops write that archive and those entries; the inspection that follows accepts them, and every component extracts to its source tree |
| `BundleExport.RoleSourcesOk` | scripts/rotoweave_bootstrap.py:46-60 | for every role of the product, with or without its environment, whatever trees are exported meet what the export needs |
| `BundleExport.RoleTables` | scripts/rotoweave_bootstrap.py:46-60 | which assets and environments each role exports |
| `BundleTree.TextInjective` | scripts/rotoweave_bootstrap.py:193-206 | listings without colliding files and with equal digested text are equal |
| `BundleTree.SummaryDeterminesTree` | scripts/rotoweave_bootstrap.py:1664-1673 | a component that matches an exported summary extracts to the exported tree |
| `BundleInspection.InspectBundle` | scripts/rotoweave_bootstrap.py:1614-1676 | the loop accepts exactly the archives that meet the whole-bundle conditions; count, bytes and digested text of every component are the declared ones |
| `BundleInspection.InspectComponent` | scripts/rotoweave_bootstrap.py:1632-1672 | one component passes exactly with its algorithm, path, target, count, bytes and digest as prescribed |
| `BundleInspection.ManifestDeterminesTrees` | scripts/rotoweave_bootstrap.py:1656-1673 | of all archives without colliding files that pass under one manifest, each component extracts to one and the same tree |
| `BundleInspection.LegalIdExactly` | scripts/rotoweave_bootstrap.py:1619-1620 | which identifiers are legal, character by character |
| `BundleInspection.PrefixFree` | scripts/rotoweave_bootstrap.py:1635-1645 | no member name starts with two different permitted prefixes |
| `BundleInspection.AcceptedIsPartition` | scripts/rotoweave_bootstrap.py:1614-1676 | every member of an accepted bundle is the manifest or belongs to exactly one declared component |
| `BundleInspection.AcceptedAccountsForEveryByte` | scripts/rotoweave_bootstrap.py:1652-1659 | declared component sizes and the manifest add up to all bytes of the archive |
| `MemberPaths.ValidateMembers` | scripts/rotoweave_bootstrap.py:1514-1539 | the loop accepts exactly bounded member lists of safe names, distinct up to letter case, without links or inflated members |
| `MemberPaths.MemberOkExactly` | scripts/rotoweave_bootstrap.py:1514-1538 | one member passes exactly when it is no link, is not inflated beyond the ratio, and its name is relative, in plain parts, without backslash or drive, up to the slashes of a directory |
| `MemberPaths.ValidatedFiles` | scripts/rotoweave_bootstrap.py:1523-1539 | the files of a validated archive have distinct safe names |
| `MemberPaths.MemberTarget` | scripts/rotoweave_bootstrap.py:242-251 | a validated member resolves below the target directory to exactly its relative parts, unless its relative name looks like a drive |
| `MemberPaths.TargetStaysBelow` | scripts/rotoweave_bootstrap.py:242-251 | whatever the name, a target that is given lies at or below the root |
| `MemberPaths.LeavingRefused` | scripts/rotoweave_bootstrap.py:242-251 | leaving the root and absolute names are refused |
| `MemberPaths.TargetsDistinct` | scripts/rotoweave_bootstrap.py:1679-1689 | different members of a component never share a target |
| `MemberPaths.ExtractableIff` | scripts/rotoweave_bootstrap.py:1679-1689 | extraction refuses a validated component exactly when a relative name looks like a drive |
| `MemberPaths.DriveLikePartRefusedLate` | scripts/rotoweave_bootstrap.py:1514-1520 | under any safe directory there is a name that passes validation and is refused at extraction |
| `MemberPaths.RuntimesDirectorySafe` | scripts/rotoweave_bootstrap.py:1635-1641 | the directory of the one component that bundles must contain is such a directory |
| `BundleImport.MoveSwallows` | scripts/rotoweave_bootstrap.py:1761-1768 | a move keeps its source at the destination exactly when no directory is there |
| `BundleImport.MoveRefused` | scripts/rotoweave_bootstrap.py:1761-1768 | a move is refused exactly onto an entry of its name in a directory, or of a directory onto a file |
| `BundleImport.StagedMatches` | scripts/rotoweave_bootstrap.py:1719-1728 | the check after extraction cannot fail for a bundle that passed inspection |
| `BundleImport.InstalledAsDeclared` | scripts/rotoweave_bootstrap.py:1719-1728 | what is installed is a directory whose every walk gives the count, the bytes and the digested text of the manifest |
| `BundleImport.Project.Stage` | scripts/rotoweave_bootstrap.py:1718-1728 | stages every missing component's extracted tree; fails exactly on an extraction error or a drive-like relative name |
| `BundleImport.Project.Promote` | scripts/rotoweave_bootstrap.py:1761-1775 | backup then promotion, or the backup put back when the second move is refused |
| `BundleImport.Project.RollBack` | scripts/rotoweave_bootstrap.py:1793-1803 | undoes every promoted component, last first, and touches no other target |
| `BundleImport.Project.PromoteAll` | scripts/rotoweave_bootstrap.py:1761-1803 | either every component is promoted and checked, or every tried target returns through its backup and the others are untouched |
| `BundleImport.AllOrNothing` | scripts/rotoweave_bootstrap.py:1754-1803 | after a failure all targets are as before if and only if no component moved aside found a directory at its backup path |
| `BundleImport.OccupiedBackupBreaksRollback` | scripts/rotoweave_bootstrap.py:1711-1711 | an occupied backup path makes a failing import leave a different tree |
| `BundleImport.Project.Import` | scripts/rotoweave_bootstrap.py:1692-1807 | succeeds if and only if the bundle is valid and accepted, every missing component extracts, may be replaced, can be moved and passes its product check, and the environment can be published; success leaves every selected component ready and every missing one at its target with the extracted tree; failure leaves every target as the moves back leave it, which is unchanged when backup paths hold no directories; without replacement no existing target changes |
| `BundleImport.Project.ImportTwice` | scripts/rotoweave_bootstrap.py:1692-1807 | an import that succeeds over an invalid target and one that fails in the same second leave the new tree nested in the old one |
| `MemoryModes.LastPassedExists` | RotoWeaveContracts/contracts/hardware.py:218-222 | by_mode has an entry exactly for the passed modes |
| `MemoryModes.LastPassedIsLast` | RotoWeaveContracts/contracts/hardware.py:218-222 | it is the last passed receipt of the mode |
| `MemoryModes.FirstPassedExists` | RotoWeaveServer/server/processor.py:700-705 | the processor finds a receipt exactly for the passed modes |
| `MemoryModes.FirstPassedIsFirst` | RotoWeaveServer/server/processor.py:700-705 | it is the first passed receipt of the mode |
| `MemoryModes.RequiredVram` | RotoWeaveContracts/contracts/hardware.py:226-234 | the larger peak in whole MiB, bounded by both peaks, beside the headroom |
| `MemoryModes.RequiredRam` | RotoWeaveContracts/contracts/hardware.py:232-239 | nothing for the two fast modes, else a quarter more than the measured MiB, rounded up, and one GiB |
| `MemoryModes.Plan` | RotoWeaveContracts/contracts/hardware.py:209-268 | selects the first passed mode that fits, and reports the passed modes examined up to it with their requirements and comparisons |
| `MemoryModes.PlanMonotone` | RotoWeaveContracts/contracts/hardware.py:205-268 | more free VRAM or RAM, or less total VRAM, never selects a slower mode |
| `MemoryModes.Headroom` | RotoWeaveContracts/contracts/hardware.py:205-206 | between 2048 and 6144 MiB, and a rounded-up fifth of the card in between |
| `MemoryModes.Processor.RunOnce` | RotoWeaveServer/server/processor.py:711-750 | one attempt in its own worker ends completed exactly on a finished run, cancelled exactly on a reported cancellation or one noticed during the restart, failed exactly on a worker that cannot be replaced or restarted or another error, and moves on exactly after an out-of-memory error with a successful restart |
| `MemoryModes.Processor.RunWithFallback` | RotoWeaveServer/server/processor.py:694-767 | attempts the passed modes from the planned one in order; the result, each of the four exactly, follows from how the last attempted mode ended, a cancellation noticed before the next one, or all of them having run out of memory |
| `MemoryModes.FallbackFollowsPlan` | RotoWeaveServer/server/processor.py:694-706 | the attempts start at the planned mode, get strictly slower and skip no passed mode |
| `ModelCenter.ModelCenter.CollectAssets` | RotoWeaveServer/server/model_center.py:192-195 | deletes exactly the unreferenced assets and never meets a RESTRICT key |
| `ModelCenter.ModelCenter.CollectRoots` | RotoWeaveServer/server/model_center.py:196-199 | deletes exactly the writable roots without assets; no asset goes with them |
| `ModelCenter.ModelCenter.CleanupSingleActiveState` | RotoWeaveServer/server/model_center.py:177-199 | keeps exactly the most recently activated active configuration, or none, and collects what nothing needs |
| `ModelCenter.NewestExists` | RotoWeaveServer/server/model_center.py:181-184 | among active configurations one is newest |
| `ModelCenter.ModelCenter.UpsertRoot` | RotoWeaveServer/server/model_center.py:226-248 | the folder's root row; fails exactly when its derived identifier belongs to another path |
| `ModelCenter.ModelCenter.UpsertSelectedAsset` | RotoWeaveServer/server/model_center.py:250-287 | the file's row becomes a candidate of the role and is bound to it; bindings displaced by a change of role go |
| `ModelCenter.ModelCenter.SelectFolder` | RotoWeaveServer/server/model_center.py:344-363 | all keys hold; each found role is bound to its file, other roles keep their bindings unless displaced, nothing unreferenced remains, roots are the old and the new writable one as far as needed, configurations are untouched; a failure changes nothing |
| `ModelCenter.ModelCenter.SelectFile` | RotoWeaveServer/server/model_center.py:391-404 | the same for one file |
| `ModelCenter.ModelCenter.Bind` | RotoWeaveServer/server/model_center.py:951-966 | binds exactly an existing asset of the role in a bindable state |
| `ModelCenter.ModelCenter.Unbind` | RotoWeaveServer/server/model_center.py:968-973 | removes the binding and nothing else |
| `ModelCenter.ModelCenter.DeleteRoot` | RotoWeaveServer/server/model_center.py:683-695 | deletes a writable root exactly when neither a binding nor the configuration needs one of its assets |
| `ModelCenter.ModelCenter.Activate` | RotoWeaveServer/server/model_center.py:1272-1291 | exactly one configuration, active, with one row per role of the snapshot naming its asset, which is kept; the creation time of a known digest stays; rolled back exactly when an asset of the snapshot is gone |
| `ModelCenter.ModelCenter.Run` | RotoWeaveServer/server/model_center.py:174-1291 | over any run of calls all keys hold and the configuration is the initial one or a single active one; without an activation it is the initial one |
| `PercentCoding.CombineUtf8` | RotoWeaveClient/app/client-shell-v4.tsx:47-50 | decoding the UTF-8 octets of a scalar value gives it back |
| `PercentCoding.CombineExactly` | RotoWeaveClient/app/client-shell-v4.tsx:47-50 | an announced group of octets decodes exactly when it is the UTF-8 form of a scalar value, and to that value |
| `PercentCoding.UnreservedExactly` | RotoWeaveClient/app/client-shell-v4.tsx:76-79 | which characters are left alone, by code point |
| `PercentCoding.HexValueExactly` | RotoWeaveClient/app/client-shell-v4.tsx:47-50 | hexadecimal digits are read in either case, and nothing else is |
| `PercentCoding.DecodeEncode` | RotoWeaveClient/app/client-shell-v4.tsx:47-50 | percent-decoding undoes percent-encoding on every string |
| `PercentCoding.EncodePlain` | RotoWeaveClient/app/client-shell-v4.tsx:76-79 | an encoded identifier holds no separator and is empty exactly when the identifier is |
| `ClientRoutes.PrintSplits` | RotoWeaveClient/app/client-shell-v4.tsx:53-79 | the parts of a printed hash are its encoded fields, with empty ones gone |
| `ClientRoutes.ParsePrint` | RotoWeaveClient/app/client-shell-v4.tsx:52-80 | a printed route reads back as its normal form if and only if its identifiers are not empty |
| `ClientRoutes.ShortHashes` | RotoWeaveClient/app/client-shell-v4.tsx:52-72 | what a hash with few parts or another head reads as |
| `ClientRoutes.PrintInjective` | RotoWeaveClient/app/client-shell-v4.tsx:74-80 | routes with different normal forms have different hashes |
| `ImportGraph.Reach` | validation/scripts/audit-source-integrity.py:162-171 | terminates with duplicates queued and returns exactly the reachable modules, the least closed set holding the entries |
| `ImportGraph.ClosedHoldsReachable` | validation/scripts/audit-source-integrity.py:162-171 | a closed set with the entries holds everything reachable |

## Left out

- SQLite, FastAPI, sockets, subprocesses, CUDA, image processing and the user interface: foreign code or input/output.
- Operational logs, redaction, progress percentages, startup stages, license inventories and version checks: no deep property.
- The service's threads are values: interleaving needs the machine of `ServiceSystem`; `RemoteService` covers submit, retry, delete and cleanup as methods on fields. `_run` and `_execute` are the worker's actions only.
- A graceful stop: `check_control` turns it into a cancellation, so only crashes are recovered.
- Activation drain as mutual exclusion: the drained check and the maintenance flag are separate steps, so no such claim is made; the machine has these steps.
- Guaranteed delivery of a terminal event on one connection: the status check may end the stream first.
- `Last-Event-ID` headers made of non-ASCII digits: `isdigit` accepts some of them.
- The error record of a failed job is its code, message and retryable flag.
- ServiceTheorems.OrphanArises: about directories that never got a row; one whose row was deleted and whose removal a crash cut short stays too, and counts as belonging to its accepted job.
- EventStream.Stream: disconnection checks, heartbeats and waiting between rounds.
- SegmentedDownload.Workspace.Download: segments run in one schedule in this method; the interleavings are those of `RunKeepsPrefixes`. Zero-length sources are outside the manifest rules.
- VerifiedDownload.Files.Download: no claim that bytes of two entity tags are never mixed, since metadata is written before truncation; the final digest decides. Failures to open the partial file itself are not separate outcomes.
- BundleExport.ExportBundle: compression, disk checks, the JSON text of the manifest and its reading back; the check of member names and sizes inside its own inspection, which depends on the files exported, may still refuse.
- BundleInspection.InspectBundle: manifest field formats and the fast inspection without hashing.
- BundleImport.Project.Import: the removed old environment payload is not rolled back by the code and not claimed; environment extraction is one value; the free-space and archive digest checks, and failing moves during rollback, are absent.
- BundleTree.ExportRoundTrip: directories without files, file modes and path conflicts on disk.
- MemoryModes.Processor.RunWithFallback: cancellation after the loop and the import of the candidate.
- MemoryModes.Headroom: `total * 0.20` is exact rational arithmetic.
- ModelCenter: scanning, registration, verification, self-tests, migrated settings and the default root.
- PercentCoding: lone surrogates, on which `encodeURIComponent` throws.
- ClientRoutes.ParsePrint: `Number` also reads forms such as `1e3` or `0x10` that `routeHash` never prints for the indices modelled; frame indices are integers.
- `DeploymentBundleManager` and the launchers: smaller copies of the queue, dominated by process handling.
