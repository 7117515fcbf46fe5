# A verified model of the AI system's core

This project models the parts of the system that decide what happens to a job,
to the files of a repository and to an approval, and proves what those parts
keep, over every run, every input and every interleaving.

- **The leased job queue.** External workers, in-process runs, cancellers, the
  stale-lease detector and an operator act on the same job records, each under
  the job's lock. `JobRecords` gives what each locked section decides;
  `JobHistory` and `JobSafety` state and prove what every history of whole
  operations keeps; `JobLaws` tells field by field and answer by answer what the
  sections do, and how long a lease protects its worker; `JobInterleaving` splits each operation into acquire, read,
  write and release and shows that every interleaving of any number of actors is
  such a history; `JobLinearization` places each operation at one moment between
  taking and releasing its lock; `JobDetection` follows a detection pass among
  other actors; `JobFallback` is the one write without the lock; `JobWorkspaces`
  models the drain timer, drain passes, exclusive runs and shutdown as steps
  between awaits, `WorkspaceLaws` when each of them starts anything; `JobSections` holds the callbacks that run under a lock and
  detection passes nobody interrupts; `JobQueue` is the object itself. Its methods are
  events of those histories and steps of those lives, and its `Valid()` contains
  their invariants, so the object carries the theorems.
- **The import graph and refactor batches.** `DependencyGraph` is the worklist
  that builds the graph and the bounded breadth-first search over it, `Paths`
  the independent definition of distance; `RefactorAnalysis` is the extraction
  of connected components and their split into batches, `BatchLaws` what each batch
  of that split holds.
- **Approval by hash.** `JsonText` is the serialiser with the quoting of section
  7 of RFC 8259, `JsonLaws` a reader of that section which gets every string back,
  `JsonCanonical` the proof that its output tells the value,
  `ApprovalProof` the binding and validation built on it.
- **The rate limiter.** `RateLimit` holds the object, the specification without
  sweeping that it refines, and bounds over whole call histories.
- **The generate, check and review loop.** `ReviewIssues` and `CandidateFiles`
  are the helpers that decide what blocks and what may be written, `RunLoop` is
  the loop against oracles for the generator, the tools, the reviewers, the
  budgets and the user, `RunResume` the resume dispatch and whole chains of
  sessions. `CandidateLaws`, `LoopLaws` and `RunDispatch` tell paths, iterations and
  resumes by their outcomes.
- **Algorithms.** `ReviewPanel` and `PanelLaws` (quorum merging), `Chunking` (windows, line
  lookup, joining), `ContextTrim` (budgeted selection), `ExecutionStages` (the
  stage machine and its reconstruction), `FileWrites` (writes with rollback).

`Common` and `Texts` hold shared vocabulary: optional values, JavaScript strings
as sequences of 16-bit code units with their default order, and the stable sort.

## How the model is cut

Times are integers in milliseconds. A locked queue section reads the clock twice,
once to judge and once to stamp, and the model keeps both readings. Whether another
actor holds a job's lock when a method of the queue object asks for it is an input
of that method. Lease ids are drawn fresh. Result patches given to the queue hold no control fields of a record
(job id, lease, worker, checkpoint). Import parsing, UTF-8, category folding, the
digest, white space and the density order of context files are parameters. The
generator, tools, reviewers, budgets, confirmations and every stage that may raise
an exception are oracles, so each statement holds for whatever they answer.

Some intended properties do not hold as one might first state them. The code is
modelled as it is, and what does hold is proved with its exact condition:

- `activeJobs <= concurrency` holds in all lives of a server with at most `k`
  overlapping drain passes if and only if `k` is one
  (`JobWorkspaces.LimitHoldsExactlyWithoutOverlap`). The bound for `k` passes,
  `concurrency - 1 + k`, is attained for every concurrency and every `k`.
- Expiry is asymmetric. After the detector has stalled a job, its lease can be
  renewed exactly at the instant of expiry
  (`JobSafety.StalledLeaseRenewableOnlyAtExpiry`).
- `finishRun` falls back to a write without the lock. It spares a job that has
  finished meanwhile if and only if it had already finished when it was read
  (`JobFallback.UnlockedFinishLosesWhatFinishedMeanwhile`); in every run where a
  cancel lands in between, and there are such runs
  (`JobFallback.UnlockedFinishCanLoseACancel`), the cancel is lost.
- A saved retry hint does not always lead back to a result. When the loop raises
  an exception its working state is lost; `RunResume.DispatchFailsExactly` gives
  the condition under which the dispatch fails,
  `RunResume.FailedWriteCannotBeResumed` the family of runs it hits, and
  `RunResume.SavedHintCanFail` a run of that family.
- A finished run that is not dry has written its candidate, unless the user forced
  a resume at the memory stage (`RunResume.FinishedHasWritten`). That resume writes
  nothing, and a run can count as a success, and be reported as having written its
  files (ai-system/core/run-executor-finalize.ts:153), when nothing was ever
  written (`RunResume.SuccessCanBeUnwritten`).
- A rollback rewrites the text it has read. It is exact if and only if decoding
  and encoding preserve every file that was written over
  (`FileWrites.RollbackIsExactIffTextPreserved`), and a file of the one byte FF is
  not preserved by any codec that replaces that byte as UTF-8 decoding does
  (`FileWrites.RollbackCanChangeBytes`).
- Making a candidate safe is not idempotent. A resumed check filters the candidate
  again, and it stays as it is if and only if none of its paths begins "./"
  (`CandidateLaws.MadeSafeAgain`, `CandidateLaws.DotSlashCanRemain`).
- The rate limiter's comment speaks of the keys seen within one window. Entries
  can be two windows less two milliseconds old, and no older
  (`RateLimit.EntriesOutliveTheirWindow`, `RateLimit.StoredEntriesAreRecent`), and
  a stretch of one window's length can hold up to `2 * limit - 1` allowed hits.

## Model

| member | source | states |
|---|---|---|
| JobHistory.StepKeepsInv | ai-system/core/job-queue.ts:302-579 | every locked operation keeps the store's invariant: a checkpoint names the lease on its record, a queued record has no lease, worker or checkpoint, no lease is on two records, and a job run in-process has no lease |
| JobHistory.InvAt | ai-system/core/job-queue.ts:160-188 | the invariant holds after every event of every history of the store |
| JobSafety.FinishedRefusesEveryOp | ai-system/core/job-queue.ts:14 | no locked operation of any actor writes a completed, failed or cancelled record |
| JobSafety.FinishedForever | ai-system/core/job-queue.ts:201-233 | over any history, a finished job keeps every field of its record |
| JobSafety.WorkerWritesExactly | ai-system/core/job-queue.ts:335-507 | complete, fail, start, renew and checkpoint write exactly when the caller's lease is the one on the record, is not past expiry where that is asked, and the status allows it; what else they leave unchanged |
| JobSafety.FencedForever | ai-system/core/job-queue.ts:335-507 | once a lease has left a record, nothing sent under it ever changes the job again |
| JobSafety.FencedAfterRelease | ai-system/core/job-queue.ts:509-579 | after a requeue or a recovery the old worker's operations are refused for the rest of the history |
| JobSafety.HeldUntilReleased | ai-system/core/job-queue.ts:302-333 | a claimed job stays out of the queue and under its lease until it is requeued at or after expiry or recovered by an operator |
| JobSafety.ClaimsSeparated | ai-system/core/job-queue.ts:302-579 | between two successful claims of a job lies a requeue at or after the first lease's recorded expiry, or an operator recovery |
| JobSafety.MutatedRequeueWasSettled | ai-system/core/job-queue.ts:479-579 | a job that reported a mutation is back in the queue only after an operator recovery or a later clean checkpoint |
| JobSafety.MutatedRequeueNeedsOperator | ai-system/core/job-queue.ts:479-579 | a job whose latest checkpoint says the filesystem was mutated is back in the queue only after an operator recovery |
| JobSafety.InProcessNeverLeased | ai-system/core/job-queue.ts:685-707 | a job this server has run in-process never carries a lease again and is never claimed |
| JobSafety.RunningHasOneOwner | ai-system/core/job-queue.ts:418-445 | a running job belongs to an in-process run or to the holder of its lease, never to both or neither, and two jobs never share a lease |
| JobSafety.AttemptsConserved | ai-system/core/job-queue.ts:302-333 | the attempt counter equals the number of claims and operator recoveries that took effect |
| JobSafety.StalledLeaseRenewableOnlyAtExpiry | ai-system/core/job-queue.ts:447-477 | a stalled job's lease can be renewed if and only if no time has passed since its expiry |
| JobLaws.RenewalHoldsFiveMinutes | ai-system/core/job-queue.ts:447-477 | after a renewal and with no other write to the job in between, the detector takes the lease away if and only if it looks five minutes after the renewal or later, and the job was assigned or running; the lease keeps its worker, its id and the time of its claim |
| JobLaws.ClaimHoldsUntilItsExpiry | ai-system/core/job-queue.ts:302-333 | after a claim and with no other write in between, the detector takes the lease away if and only if it looks at or after the expiry the claim came with |
| JobLaws.FinalReportStays | ai-system/core/job-queue.ts:335-416 | what a worker reports at the end stays on the job for the rest of the history, over what was there before, with when the job ended and how long it ran |
| JobLaws.OthersWriteExactly | ai-system/core/job-queue.ts:201-333 | when claiming, detecting, recovering, cancelling and in-process runs write a record |
| JobLaws.AbsentRecord | ai-system/core/job-queue.ts:810-817 | of a job that is not there only the end of its own run is ever written |
| JobLaws.StatusAfter | ai-system/core/job-queue.ts:201-579 | the status each operation leaves |
| JobLaws.TimesAfter | ai-system/core/job-queue.ts:335-445 | a job keeps its id, workspace and creation; which operation sets the start, the wait, the end and the running time, and to what |
| JobLaws.LeaseAfter | ai-system/core/job-queue.ts:302-579 | which operation gives, extends, drops or leaves the lease, the worker and the checkpoint |
| JobLaws.ReportsAreKept | ai-system/core/job-queue.ts:201-416 | a record ends with everything the operation reported over what it held, and nothing else |
| JobLaws.RefusalsExactly | ai-system/core/job-queue.ts:335-579 | when a worker or an operator is told that a job is not found, not stalled, cancelled, without lease, or already ended the other way |
| JobLaws.LeaseRefusalsExactly | ai-system/core/job-queue.ts:335-507 | when a worker is told that its lease is wrong or has expired |
| JobLaws.LateReportsAreAccepted | ai-system/core/job-queue.ts:335-416 | which reports are accepted without changing anything: repeated ones, and those under an old lease once the job has completed or failed |
| JobLaws.WriteAnswers | ai-system/core/job-queue.ts:201-579 | the answer that comes with each write |
| JobLaws.SilentAnswers | ai-system/core/job-queue.ts:201-333 | the answer of the operations that are never refused when they write nothing |
| JobLaws.StartAnswers | ai-system/core/job-queue.ts:418-445 | a repeated start is accepted, one in any other status is refused with that status |
| JobLaws.FinishedAnswers | ai-system/core/job-queue.ts:447-507 | a renewal or checkpoint of an ended job is refused with its status |
| JobLaws.NewJobExact | ai-system/core/job-queue.ts:160-188 | a new job waits in the queue with no lease, worker, attempt or times |
| JobLaws.SafeJobIdExact | ai-system/core/job-queue.ts:907-909 | a job id is one or more letters, digits or hyphens |
| JobInterleaving.WriteIsWholeOperation | ai-system/core/job-queue.ts:824-854 | the write of a locked operation, decided earlier, has the effect of the whole operation at the moment of the write |
| JobInterleaving.RunIsAHistory | ai-system/core/job-queue.ts:824-854 | every interleaving of acquire, read, write and release steps of any number of actors leaves the store as a history of whole operations does |
| JobLinearization.HistoryGrows | ai-system/core/job-queue.ts:824-854 | the history up to one move is the beginning of the history up to any later one |
| JobLinearization.OperationsAreLinearizable | ai-system/core/job-queue.ts:824-854 | each operation that releases its lock is one event of the history, placed and timed between taking and releasing the lock, and its answer is that event's, however the other actors moved meanwhile |
| JobDetection.RoundJudgesCurrentRecord | ai-system/core/job-queue.ts:509-558 | among any other actors and however old its listing is, a detection pass stalls or requeues a job if and only if the lease on its current record has run out, and reports just that |
| JobDetection.ReportedTwiceOnlyIfClaimedAnew | ai-system/core/job-queue.ts:509-558 | a pass reports a job twice only if a worker's claim of it took effect in between |
| JobInterleaving.NoLostUpdate | ai-system/core/job-queue.ts:302-579 | the record an operation overwrites is the one it read |
| JobInterleaving.ClaimVerifies | ai-system/core/job-queue.ts:302-333 | the re-read that verifies a claim always finds the claimed record |
| JobInterleaving.InterleavedFinishedForever | ai-system/core/job-queue.ts:810-817 | a finished job keeps every field under every interleaving of steps |
| JobFallback.UnlockedFinishSparesOnlyWhatItSaw | ai-system/core/job-queue.ts:818-822 | the unlocked fallback spares a finished record exactly when it had read a finished one |
| JobFallback.UnlockedFinishLosesWhatFinishedMeanwhile | ai-system/core/job-queue.ts:810-822 | in every run, a job finished by the time the fallback writes keeps its record if and only if it had finished when the fallback read it; otherwise, as after a cancel in between, the outcome of the run replaces it |
| JobFallback.UnlockedFinishCanLoseACancel | ai-system/core/job-queue.ts:818-822 | there are such runs: a job is created, taken in-process, read by the fallback, cancelled under the lock, and the cancel is overwritten |
| JobWorkspaces.WorkspacesAlwaysExact | ai-system/core/job-queue.ts:241-265 | across overlapping drain passes and exclusive runs, the active workspaces are exactly those held, each by one run, and the job counter counts exactly the queued runs |
| JobWorkspaces.NothingStartsAfterStop | ai-system/core/job-queue.ts:589-602 | once stop has begun no run starts, and when it resolves none is in flight |
| JobWorkspaces.StopAlwaysSound | ai-system/core/job-queue.ts:589-602 | while stop waits it waits for every run there is |
| JobWorkspaces.ConcurrencyBound | ai-system/core/job-queue.ts:647-683 | with at most k overlapping passes at most concurrency - 1 + k queued jobs run, so passes that do not overlap respect the limit |
| JobWorkspaces.ConcurrencyBoundIsReached | ai-system/core/job-queue.ts:647-683 | for every concurrency and every k there is a life with at most k overlapping passes in which concurrency - 1 + k queued jobs run |
| JobWorkspaces.LimitHoldsExactlyWithoutOverlap | ai-system/core/job-queue.ts:647-683 | the configured concurrency is respected in all lives with at most k overlapping passes if and only if k is one |
| JobWorkspaces.WakeupsAreHeard | ai-system/core/job-queue.ts:622-683 | no wake-up is lost: after a new job, a settled run, a failed pass or the end of a pause, a queue neither paused nor stopped has looked through a listing with nothing to start, or a drain is scheduled or listing, or a run is going whose end schedules one |
| JobWorkspaces.FindNextIsOldest | ai-system/core/job-queue.ts:653-662 | a pass takes the oldest queued job of its listing whose workspace is free |
| WorkspaceLaws.BootExact | ai-system/core/job-queue.ts:121-143 | a new queue runs nothing and has room for at least one job |
| WorkspaceLaws.DrainStartsExactly | ai-system/core/job-queue.ts:622-652 | a drain becomes a pass exactly when the queue is neither paused nor stopped and has a free slot |
| WorkspaceLaws.PassLaunchesExactly | ai-system/core/job-queue.ts:647-683 | a pass launches a run exactly when nothing forbids it and some listed job can be started, namely the oldest, and goes on only if there is still room |
| WorkspaceLaws.ExclusiveStartsExactly | ai-system/core/job-queue.ts:241-256 | exclusive work starts exactly when the queue is neither paused nor stopped and its workspace is free, and is not counted as a job |
| WorkspaceLaws.NothingStartsWhilePaused | ai-system/core/job-queue.ts:145-150 | from a pause until its end no run starts, whatever passes are under way |
| WorkspaceLaws.PauseEnds | ai-system/core/job-queue.ts:145-150 | the end of a pause takes effect and schedules a drain |
| WorkspaceLaws.TrackedIsLatest | ai-system/core/job-queue.ts:629-643 | the pass that stop would wait for is the one started last, as long as it waits |
| WorkspaceLaws.StopWaitsForItsPass | ai-system/core/job-queue.ts:589-602 | stop takes effect at once, clears the timer, and neither turns to the runs nor resolves before the pass it found is over |
| JobSections.SweepJudgesCurrentRecords | ai-system/core/job-queue.ts:509-558 | a detection pass that nobody interrupts, over an out-of-date listing, does to each listed, unlocked job what the first section that finds its current record stale does to that record, and touches no other record |
| JobSections.SweepReportsOnce | ai-system/core/job-queue.ts:509-558 | in such a pass each job changed is reported once, as requeued or stalled according to what became of it, however often it is listed, and no other job is reported |
| JobQueue.FileBackedJobQueue.Enqueue | ai-system/core/job-queue.ts:160-188 | a new job is stored queued, a drain is scheduled, and the object stays valid |
| JobQueue.FileBackedJobQueue.ClaimJob | ai-system/core/job-queue.ts:302-333 | is the claim event of the history on the current record and keeps the object valid, or does nothing while the lock is taken; the verifying re-read answers the claimed record |
| JobQueue.FileBackedJobQueue.CompleteJob | ai-system/core/job-queue.ts:335-375 | is the completion event of the history, with its refusals and repeats, and keeps the object valid |
| JobQueue.FileBackedJobQueue.FailJob | ai-system/core/job-queue.ts:377-416 | is the failure event of the history, with its refusals and repeats, and keeps the object valid |
| JobQueue.FileBackedJobQueue.StartJob | ai-system/core/job-queue.ts:418-445 | is the start event of the history and keeps the object valid |
| JobQueue.FileBackedJobQueue.RenewLease | ai-system/core/job-queue.ts:447-477 | is the renewal event of the history and keeps the object valid |
| JobQueue.FileBackedJobQueue.SaveMutationCheckpoint | ai-system/core/job-queue.ts:479-507 | is the checkpoint event of the history and keeps the object valid |
| JobQueue.FileBackedJobQueue.DetectStaleLeases | ai-system/core/job-queue.ts:509-558 | the loop over a listing keeps the object valid through every section, each at its own time, and has the effect and the reports of the pass specified by Sweep |
| JobQueue.FileBackedJobQueue.RecoverStalledJob | ai-system/core/job-queue.ts:560-579 | is the recovery event of the history and keeps the object valid |
| JobQueue.AcquireRetrying | ai-system/core/job-queue.ts:841-854 | the lock is had unless all eight attempts find it taken |
| JobQueue.FileBackedJobQueue.CancelJob | ai-system/core/job-queue.ts:201-233 | aborts the run's controller if one is registered, lock or no lock; is the cancel event of the history unless the lock is taken at every attempt; answers an unsafe id before anything else |
| JobQueue.FileBackedJobQueue.MarkWaitingForApproval | ai-system/core/job-queue.ts:272-280 | is the waiting event of the history, for a job run in-process, and keeps the object valid |
| JobQueue.FileBackedJobQueue.BeginJobRun | ai-system/core/job-queue.ts:685-715 | is the begin event of an in-process run, unless the lock is taken at every attempt, keeps the object valid, and drops the controller when the job is not begun |
| JobQueue.OutcomeOf | ai-system/core/job-queue.ts:733-796 | a run is recorded as completed exactly when it returns a success and was not aborted |
| JobQueue.FileBackedJobQueue.FinishJobRun | ai-system/core/job-queue.ts:730-822 | is the finish event of an in-process run with the outcome that its ending and an abort determine, keeps the object valid, and drops the controller |
| JobQueue.FileBackedJobQueue.SetPausedFlag | ai-system/core/job-queue.ts:145-150 | sets the flag, schedules a drain when the pause ends and the queue is not stopped, and changes nothing else |
| JobQueue.FileBackedJobQueue.BeginDrain | ai-system/core/job-queue.ts:622-645 | the timer is spent, and a pass starts, and is the one stop waits for, exactly when the queue runs and has a free slot |
| JobQueue.FileBackedJobQueue.SettleRun | ai-system/core/job-queue.ts:665-681 | a run that settles gives back its slot and its workspace and schedules a drain |
| JobQueue.FileBackedJobQueue.ContinueDrain | ai-system/core/job-queue.ts:647-683 | what a drain pass does to the in-memory fields when its listing arrives; the controller of a launched run is registered at once |
| JobQueue.FileBackedJobQueue.RunExclusiveBegin | ai-system/core/job-queue.ts:241-265 | an exclusive run begins exactly when the queue is neither paused nor stopped and the workspace is free |
| JobQueue.FileBackedJobQueue.Stop | ai-system/core/job-queue.ts:589-602 | stopping sets the flag, clears the timer and waits for the tracked pass |
| JobQueue.FileBackedJobQueue.AbandonDrain | ai-system/core/job-queue.ts:629-643 | a pass that fails schedules another and leaves as one that is over |
| JobQueue.FileBackedJobQueue.StopAwaitsRuns | ai-system/core/job-queue.ts:589-602 | once the pass has settled, stop waits for every run there is |
| JobQueue.FileBackedJobQueue.StopResolves | ai-system/core/job-queue.ts:589-602 | when stop resolves no run is in flight and no workspace is held |
| DependencyGraph.DependencyGraph.BuildGraph | ai-system/core/dependency-graph.ts:19-46 | terminates on cycles and repeats, adds exactly the files reachable from the entries, each with its resolved imports in order, and keeps each edge recorded equally often at both ends |
| DependencyGraph.WithEdgesBalanced | ai-system/core/dependency-graph.ts:33-42 | adding any edges keeps b as often among a's imports as a among b's importers |
| DependencyGraph.ResolvedExact | ai-system/core/dependency-graph.ts:27-42 | imports that resolve are kept in order, the others left out |
| DependencyGraph.ReachIsLeast | ai-system/core/dependency-graph.ts:19-46 | the reachable files are the least set that holds the entries and is closed under imports |
| DependencyGraph.DependencyGraph.GetRelatedFiles | ai-system/core/dependency-graph.ts:48-71 | returns, each once, exactly the files within the given distance of an entry over edges in both directions |
| DependencyGraph.ExploredIsComplete | ai-system/core/dependency-graph.ts:48-71 | with an empty queue every file at the end of a short enough path has been found, at no more than the path's length |
| DependencyGraph.NeighboursExact | ai-system/core/dependency-graph.ts:73-79 | the neighbours of a file are those it imports and those that import it |
| DependencyGraph.DependencyGraph.GetConnections | ai-system/core/dependency-graph.ts:73-79 | returns the neighbours of a file, each once |
| RefactorAnalysis.ConnectedSymmetric | ai-system/core/refactor-analysis.ts:47-74 | connection within the affected files is symmetric, because edges are recorded at both ends |
| RefactorAnalysis.BuildDependencyClusters | ai-system/core/refactor-analysis.ts:47-74 | the clusters are exactly the connected components of the graph induced on the affected files, every file in one, sorted, larger ones first |
| RefactorAnalysis.GrowCluster | ai-system/core/refactor-analysis.ts:51-70 | the search from an unvisited file collects exactly its component |
| RefactorAnalysis.BatchesPartitionClusters | ai-system/core/refactor-analysis.ts:99-150 | batches hold exactly the files of the clusters, as often; each has one to five sorted files of one cluster and is named after a module only if all its files are in it |
| RefactorAnalysis.ProposeRefactorBatches | ai-system/core/refactor-analysis.ts:99-132 | the loops compute Batches: small clusters stay whole, larger ones are split by directory and then by five, in order, numbered from one |
| BatchLaws.BatchesExact | ai-system/core/refactor-analysis.ts:99-132 | a cluster of at most three files is one batch without a module; a larger one gives, for each directory in order of first appearance, one batch for every five of its files there and one for the rest, named after the directory unless that is "root"; batches follow the order of the clusters and are numbered through |
| BatchLaws.DirectoryExact | ai-system/core/refactor-analysis.ts:114 | the directory of a file is what stands before its first slash, or "root" without one |
| RefactorAnalysis.PerformRefactorAnalysis | ai-system/core/refactor-analysis.ts:7-45 | the affected files are those within one step of a change, and each is in exactly one batch |
| JsonCanonical.StableStringifyCanonical | ai-system/approvals/approval-proof.ts:69-81 | two values have the same text if and only if they are equal up to the order of object members |
| JsonCanonical.QuoteDetermines | ai-system/approvals/approval-proof.ts:69-81 | a quoted string tells the string and where it ends, surrogate pairs and escapes included |
| JsonLaws.EscapedReadsBack | ai-system/approvals/approval-proof.ts:69-81 | reading a quoted string back by section 7 of RFC 8259 gives the string |
| JsonLaws.EscapesAreShortest | ai-system/approvals/approval-proof.ts:69-81 | exactly quotes, backslashes, control characters and lone surrogates are escaped, each in its shortest form |
| JsonLaws.EscapedUnitByUnit | ai-system/approvals/approval-proof.ts:69-81 | surrogate pairs are kept, every other unit is written by itself |
| JsonLaws.DigitsExact | ai-system/approvals/approval-proof.ts:69-81 | a number is written with its decimal digits and no leading zero |
| JsonLaws.DecimalExact | ai-system/approvals/approval-proof.ts:69-81 | a negative number has a sign before its digits |
| JsonLaws.TextExact | ai-system/approvals/approval-proof.ts:69-81 | the text of each kind of value: literals, items and members with commas between, members in the order of their keys |
| ApprovalProof.AcceptedExactlyForTheArtifactShown | ai-system/approvals/approval-proof.ts:20-67 | with a collision-free digest, a full proof of what was shown is accepted exactly when the pending artifact is equal to it and of the same type, and is a conflict otherwise |
| ApprovalProof.AcceptedOnlyInFull | ai-system/approvals/approval-proof.ts:48-63 | any proof is accepted exactly when complete and for this binding, and none is accepted only where none is required |
| ApprovalProof.RejectedExactly | ai-system/approvals/approval-proof.ts:40-63 | a missing or incomplete proof is a bad request, one for something else a conflict, and an accepted one is returned |
| ApprovalProof.BindingExact | ai-system/approvals/approval-proof.ts:20-38 | a binding carries the digest of the canonical text and is named after the type and the first sixteen characters of the digest |
| RateLimit.RefinesUnsweptWindows | ai-system/security/rate-limit.ts:24-59 | for every sequence of calls under a monotone clock, expiry and sweeping never change an answer |
| RateLimit.StoredEntriesAreRecent | ai-system/security/rate-limit.ts:36-55 | every stored entry was created at most two windows less two milliseconds ago |
| RateLimit.EntriesOutliveTheirWindow | ai-system/security/rate-limit.ts:36-55 | for every limit and every window of two milliseconds or more that age is attained |
| RateLimit.AllowedInAnyStretch | ai-system/security/rate-limit.ts:24-59 | in any half-open stretch of one window's length the limiter, with its expiry and sweeping, allows at most 2 * limit - 1 hits of a key |
| RateLimit.StretchBoundIsReached | ai-system/security/rate-limit.ts:24-59 | for every limit from one up and every window of two milliseconds or more some calls attain that bound |
| RateLimit.RetryAfterReachesReset | ai-system/security/rate-limit.ts:57-59 | the advised wait reaches the reset and is the least whole number of seconds that does |
| RateLimit.AdvisedWaitSuffices | ai-system/security/rate-limit.ts:24-59 | after any history ending in a refusal, a hit after the advised wait is allowed exactly when the limit admits any |
| RateLimit.CheckForetellsHit | ai-system/security/rate-limit.ts:24-34 | asking foretells the answer to a hit made at the same time, except for a key without a window under a limit that admits nothing |
| RateLimit.CheckIsNotCounted | ai-system/security/rate-limit.ts:31-34 | asking changes no later answer |
| RateLimit.FixedWindowRateLimiter.CountHit | ai-system/security/rate-limit.ts:24-29 | a hit changes the fields and answers as the step function says |
| RateLimit.FixedWindowRateLimiter.CheckOnly | ai-system/security/rate-limit.ts:31-34 | a check counts nothing and answers as the step function says |
| RateLimit.FixedWindowRateLimiter.FindCurrent | ai-system/security/rate-limit.ts:36-55 | the sweeping loop, lazy expiry and creation |
| ReviewIssues.MergeKeepsBlocking | ai-system/core/reviewer.ts:18-34 | merged issues block if and only if some input finding says something and is of high, medium or no given severity |
| ReviewIssues.BlockingSeverities | ai-system/core/reviewer.ts:3-34 | a list of issues blocks if and only if one is of high or medium severity |
| ReviewIssues.NormalForm | ai-system/core/reviewer.ts:95-131 | what normalising drops, keeps and fills in |
| ReviewIssues.FirstOfEachKeyKeepsKeys | ai-system/core/reviewer.ts:18-30 | merging drops an issue only in favour of one with the same key |
| ReviewIssues.FirstOfEachKeyDistinct | ai-system/core/reviewer.ts:18-30 | no two merged issues share a key |
| ReviewIssues.KeyExact | ai-system/core/reviewer.ts:23 | issues are told apart by severity, category, path and description |
| ReviewIssues.SameKeySameSeverity | ai-system/core/reviewer.ts:23 | issues whose keys collide have the same severity |
| ReviewIssues.NormalizeIdempotent | ai-system/core/reviewer.ts:95-131 | normalising a second time changes nothing |
| ReviewIssues.MergeIssueLists | ai-system/core/reviewer.ts:18-30 | the pass with a set of seen keys computes the merge |
| CandidateFiles.SanitizedFilesAreSafe | ai-system/core/run-executor-utils.ts:79-106 | what may be written has distinct relative paths without "..", all planned if there is a plan, at most the limit, each in the generator's last version |
| CandidateFiles.DedupeExact | ai-system/core/run-executor-utils.ts:128-134 | deduplication keeps each path once, in its last version |
| CandidateFiles.SafeFilesExact | ai-system/core/run-executor-utils.ts:79-106 | the answer is rejected as a whole exactly when some entry passes the filters and cannot be resolved; otherwise exactly the safe entries remain |
| CandidateFiles.NoneMissing | ai-system/core/run-executor-utils.ts:108-115 | no target is reported missing if and only if every planned target is among the files |
| CandidateFiles.TooManyTargets | ai-system/core/run-executor-utils.ts:105-115 | with more planned targets than files allowed, no sanitised candidate is complete |
| CandidateFiles.ValidatesIffDistinct | ai-system/core/reviewer.ts:46-70 | validation reports nothing exactly when paths are distinct, so never on a sanitised candidate |
| CandidateFiles.SanitizeGeneratedFiles | ai-system/core/run-executor-utils.ts:79-106 | the filtering loop and the map by path compute the sanitised files |
| CandidateLaws.SafePathExact | ai-system/core/run-executor-utils.ts:88-91 | a path is safe when it is not empty, not absolute and has no two dots in a row |
| CandidateLaws.ClimbingIsUnsafe | ai-system/core/run-executor-utils.ts:88-91 | a path with ".." in it is never safe |
| CandidateLaws.NormalizeExact | ai-system/core/run-executor-utils.ts:88 | backslashes become slashes and one leading "./" goes with the slashes that follow it, nothing else |
| CandidateLaws.JudgeExact | ai-system/core/run-executor-utils.ts:83-102 | which entries are skipped, kept or make the whole answer fail, and what is kept of them |
| CandidateLaws.DedupeKeepsPlaces | ai-system/core/run-executor-utils.ts:128-134 | each path keeps the place at which it first came |
| CandidateLaws.SanitizeExact | ai-system/core/run-executor-utils.ts:105 | the first files are kept, as many as may be written |
| CandidateLaws.RepeatsAreReported | ai-system/core/reviewer.ts:46-70 | validation reports exactly the paths given more than once |
| CandidateLaws.ReportsAreHigh | ai-system/core/reviewer.ts:46-70 | each of these reports is a high validation issue |
| CandidateLaws.MadeSafeAgain | ai-system/core/run-executor-utils.ts:79-106 | a candidate that is checked again stays as it is if and only if none of its paths begins "./" |
| CandidateLaws.DotSlashCanRemain | ai-system/core/run-executor-utils.ts:88 | a generator that writes "././a" leaves such a path |
| RunLoop.SuccessOnlyAfterCleanCheck | ai-system/core/run-executor.ts:127-539 | a success is finalised only in an iteration within the limit that ran tools and review on the very candidate, complete, with distinct safe paths, nothing high or medium reported by tools, validation or review, no budget exceeded and no pause refused |
| RunLoop.SucceedsExactlyWhenClean | ai-system/core/run-executor.ts:127-539 | an iteration finalises a success if and only if its candidate is safe and complete, tools and review answered with nothing blocking, no budget is exceeded and the pause is confirmed |
| RunLoop.LoopNeedsCandidate | ai-system/core/run-executor.ts:157-199 | without a candidate, a loop that starts later than iteration one or with the checks raises an exception |
| RunLoop.AcceptedBlocksIffFound | ai-system/core/run-executor.ts:299-366 | the issues after two merges block if and only if something tools, validation or reviewers reported does |
| RunLoop.TooManyTargetsNeverSucceed | ai-system/core/run-executor.ts:127-539 | with more planned targets than files allowed no run of the loop succeeds, whatever the oracles answer |
| RunLoop.LoopIsBounded | ai-system/core/run-executor.ts:127 | the loop stops within max_iterations, with at most one check in each iteration |
| RunLoop.LoopKeepsVetted | ai-system/core/run-executor.ts:114-539 | whatever way the loop ends, a candidate it leaves without blocking issues has passed a check |
| RunLoop.WriteHintIffReady | ai-system/core/run-executor-utils.ts:48-77 | the hint a budget stop leaves is to write files if and only if there is a candidate and no blocking issue, to generate if and only if there is no candidate, else to fix |
| LoopLaws.BudgetHintExact | ai-system/core/run-executor-utils.ts:48-77 | when a budget stop leaves no hint, and which stage and iteration the hint names otherwise |
| LoopLaws.CandidateExact | ai-system/core/run-executor.ts:157-209 | where the files of an iteration come from and when there are none |
| LoopLaws.UncheckedIteration | ai-system/core/run-executor.ts:127-260 | how an iteration ends that is stopped by a budget, has no candidate, an incomplete one or a stage that raises an exception, and what it leaves |
| LoopLaws.CheckedIteration | ai-system/core/run-executor.ts:260-539 | how an iteration that checks its candidate ends: budget, pause, objections, budget again, success, in that order, and what it leaves |
| LoopLaws.AcceptedKeys | ai-system/core/run-executor.ts:299-366 | the issues an iteration leaves are exactly those tools, coverage check and reviewers reported, each key once |
| LoopLaws.IncompleteIsSerious | ai-system/core/run-executor-utils.ts:117-126 | an incomplete candidate is a high generation issue of the first planned file that is missing |
| LoopLaws.MissingAreNamed | ai-system/core/run-executor-utils.ts:117-126 | its description names all missing targets, with commas between |
| LoopLaws.LoopIsItsIterations | ai-system/core/run-executor.ts:114-539 | the loop is one iteration after another, each on the state the one before left, only the first may check without generating, and it ends as the last one does or after the limit |
| RunLoop.ExecuteGenerationLoop | ai-system/core/run-executor.ts:56-540 | the loop computes the run specified by Loop |
| RunResume.EveryWriteWasCheckedClean | ai-system/core/orchestrator-resume.ts:36-295 | over a run and any chain of resumes, files are written only if the same files for the same plan, with distinct safe planned paths, passed tools and review with nothing blocking; a dry run never writes |
| RunResume.FinishedOnlyClean | ai-system/core/orchestrator-resume.ts:160-192 | over any such chain a run, dry or not, is finished as a success only with a candidate that passed such a check and with no blocking issue |
| RunResume.ResumeIsSound | ai-system/core/orchestrator-resume.ts:36-295 | one resume of a saved state keeps what makes these hold: a clean candidate is a checked one, a finished state has one, and no saved hint skips the writes of one |
| RunResume.FinishingWritesExactly | ai-system/core/run-executor-finalize.ts:70-91 | the session that finishes a run writes its candidate, or nothing exactly when the run is dry or the resume goes on at the memory stage |
| RunResume.FinishedHasWritten | ai-system/core/orchestrator-resume.ts:36-295 | a finished run that is not dry has written exactly its candidate, last of all, unless the user forced the memory stage |
| RunResume.ForcedMemoryStageSkipsWrites | ai-system/core/orchestrator-resume.ts:352-354 | forcing the memory stage after a first session that a budget stopped with a clean candidate finishes the run with nothing ever written |
| RunResume.SuccessCanBeUnwritten | ai-system/core/orchestrator-resume.ts:352-354 | there is such a run |
| RunResume.DispatchFailsExactly | ai-system/core/orchestrator-resume.ts:160-234 | resuming fails as unexpected exactly when the stage asked for finalises a success and there is nothing clean to finalise |
| RunResume.ForcedStageGoesOn | ai-system/core/orchestrator-resume.ts:382-422 | which iteration a forced stage goes on with, and whether it checks the candidate at hand or generates a new one |
| RunResume.ForcedCheckNeedsCandidate | ai-system/core/orchestrator-resume.ts:358-364 | forcing a check without a candidate raises an exception and changes nothing |
| RunDispatch.NotResumableExactly | ai-system/core/orchestrator-resume.ts:297-299 | a run cannot be resumed exactly when it is over, was never saved, or has failed with no hint and no forced stage; then nothing happens |
| RunDispatch.UnpreparedChangesNothing | ai-system/core/orchestrator-resume.ts:36-160 | an exception before the loop leaves the saved run as it is |
| RunDispatch.AfterPlanLoopsOnEditedPlan | ai-system/core/orchestrator-resume.ts:82-148 | a run paused after its plan goes through the loop from iteration one on the plan as edited, whatever stage is forced |
| RunDispatch.AfterGenerateWrites | ai-system/core/orchestrator-resume.ts:160-192 | a run paused after a generation with a clean candidate writes exactly that and finishes |
| RunDispatch.AfterGenerateGoesOn | ai-system/core/orchestrator-resume.ts:331-340 | with no clean candidate it goes through the loop from the iteration after the last |
| RunDispatch.OtherPauseGoesOn | ai-system/core/orchestrator-resume.ts:342-349 | any other pause without a hint likewise |
| RunDispatch.SavedStageGoesOn | ai-system/core/orchestrator-resume.ts:351-380 | which iteration a saved hint goes on with, and whether the candidate at hand is checked first |
| RunDispatch.BlockedMemoryStageFailsAgain | ai-system/core/orchestrator-resume.ts:194-230 | going on at the memory stage with blocking issues fails again and keeps candidate, issues and hint |
| RunDispatch.UsedUpRunGoesOn | ai-system/core/orchestrator-resume.ts:301-311 | a run that used up its iterations resumes after the last of them with the candidate and the issues it had |
| RunDispatch.PausedRunWritesWhatWasShown | ai-system/core/run-executor.ts:432-475 | a run the user paused after a generation is saved with what was shown, and the next resume writes exactly that when it was clean |
| RunDispatch.StoppedLoopSaves | ai-system/core/run-executor.ts:127-539 | what a pause, a failure, used-up iterations and an exception leave saved |
| RunDispatch.SuccessIsFinalized | ai-system/core/run-executor-finalize.ts:70-160 | what a success writes and leaves saved, also when the writes or what follows raise an exception |
| RunDispatch.FirstSessionStopsEarly | ai-system/core/orchestrator-run.ts:440-563 | what a first session leaves that stops after its plan, is refused for its cost or fails before its loop |
| RunDispatch.FirstSessionLoops | ai-system/core/orchestrator-run.ts:440-563 | otherwise it ends as its loop does, and an exception is recorded with an empty state, except after used-up iterations |
| RunDispatch.ChainExact | ai-system/core/orchestrator-resume.ts:36-295 | a chain is the first session and each resume of what was saved before, with checks and writes in order |
| RunResume.BudgetStopResumesToWrite | ai-system/core/orchestrator-resume.ts:160-192 | a run stopped by a budget with a clean candidate in hand resumes by writing exactly that candidate and finishes |
| RunResume.FailedWriteCannotBeResumed | ai-system/core/orchestrator-run.ts:542-563 | when the writes of a first session fail, nothing is left to finalise and each resume without a forced stage fails |
| RunResume.SavedHintCanFail | ai-system/core/orchestrator-resume.ts:232-234 | there is a first session whose writes fail and whose saved hint makes every prepared resume fail |
| RunResume.FinishedIsFinal | ai-system/core/orchestrator-resume.ts:297-299 | a finished run is never resumed or written again, forced or not |
| RunResume.ResumeOrchestrator | ai-system/core/orchestrator-resume.ts:36-295 | of a saved state that a chain can reach, the dispatch makes a sound one again: what it writes and what it finishes passed a check with nothing blocking, and a dry run writes nothing |
| ReviewPanel.BucketsConserve | ai-system/core/review-panel.ts:159-180 | every finding is absorbed into exactly one group |
| ReviewPanel.BucketsHoldOneDefect | ai-system/core/review-panel.ts:225-235 | the findings of a group agree on file, category and on having a line |
| PanelLaws.JoinsFirstNear | ai-system/core/review-panel.ts:159-180 | a finding joins the first group whose lead is of the same file and folded category and, like it, without a line or at most three lines away, and opens a new group only when there is none |
| PanelLaws.TwoFindings | ai-system/core/review-panel.ts:225-235 | two findings are one group if they are that near and two otherwise |
| PanelLaws.TwoLensesBlockWhenNear | ai-system/core/review-panel.ts:159-202 | findings of two lenses block under a quorum of two exactly when they are that near and one is serious |
| PanelLaws.LeadIsFirstGravest | ai-system/core/review-panel.ts:165-177 | a group is led by the first of its gravest findings |
| ReviewPanel.BlocksExactlyByQuorum | ai-system/core/review-panel.ts:182-202 | a merged finding blocks exactly when at least a quorum of distinct lenses raised it and one rated it above low; with a quorum it has the gravest severity, without one it is low |
| ReviewPanel.MergeIsExact | ai-system/core/review-panel.ts:159-215 | one verdict for each group, gravest first, and the review blocks exactly when some group has a quorum and a blocking finding |
| PanelLaws.VerdictTells | ai-system/core/review-panel.ts:182-202 | a group becomes its lead, rated low when too few lenses agree, with the lenses that raised it once each and sorted |
| PanelLaws.MergedGravestFirst | ai-system/core/review-panel.ts:203 | high verdicts come before medium ones and those before low ones |
| PanelLaws.MergedKeepsOrder | ai-system/core/review-panel.ts:203 | verdicts of one severity keep the order of their groups |
| PanelLaws.QuorumAsked | ai-system/core/review-panel.ts:68-94 | the quorum is the one asked for or two, and never more than the lenses |
| PanelLaws.AnsweringExact | ai-system/core/review-panel.ts:117-140 | the answers of exactly the lenses that did not fail are merged |
| PanelLaws.AllFindingsExact | ai-system/core/review-panel.ts:165-180 | every finding of every answer is merged, under its lens |
| PanelLaws.PanelExact | ai-system/core/review-panel.ts:108-151 | a panel fails only when every lens does, and its quorum is at most the number of lenses that answered |
| ReviewPanel.UnanimousIsNeverDowngraded | ai-system/core/review-panel.ts:108-151 | a finding of all answering lenses keeps the gravest severity, however many lenses failed |
| ReviewPanel.OneLensBlocksOnlyAlone | ai-system/core/review-panel.ts:68-151 | with the configured quorum one lens blocks exactly if it alone answered, is the only lens, or the quorum was set to one |
| ReviewPanel.MergeReviews | ai-system/core/review-panel.ts:159-215 | the nested loops over lenses, findings and groups compute the merge |
| Chunking.WindowsCover | ai-system/core/vector-index.ts:404-432 | the windows cover every offset, neighbours overlap by exactly the clamped overlap, no offset is in three, and their number is the least possible |
| Chunking.SettingsExact | ai-system/core/vector-index.ts:409-410 | windows are as large as asked for but at least 200, and overlap as asked for but by at most half |
| Chunking.WindowChunkExact | ai-system/core/vector-index.ts:415-427 | a window with anything visible gives its text from the first to the last visible character and the lines of its first and last character; any other gives none |
| Chunking.CollectInOrder | ai-system/core/vector-index.ts:415-431 | the chunks come in the order of their windows |
| Chunking.LineExact | ai-system/core/vector-index.ts:473-501 | lines are counted from one and change after each line feed |
| Chunking.EveryVisibleCharacterIsIndexed | ai-system/core/vector-index.ts:404-432 | the offset of every character that is not white space lies in the stretch of text that some chunk is, and that chunk's line range contains its line |
| Chunking.OffsetToLine | ai-system/core/vector-index.ts:483-500 | the binary search equals one plus the newlines before the offset |
| Chunking.LineOffsetsExact | ai-system/core/vector-index.ts:473-481 | the offsets increase and offset i starts the line that has i newlines before it |
| Chunking.ChunkTextFixed | ai-system/core/vector-index.ts:404-432 | the loop produces the trimmed chunk of each window with its exact line range and terminates |
| Chunking.RunsPartition | ai-system/core/vector-index.ts:434-471 | joining keeps every chunk, in order, in exactly one run |
| Chunking.RunsAreMaximal | ai-system/core/vector-index.ts:434-471 | symbols stay alone, and neighbouring runs are kept apart only where joining was not allowed |
| Chunking.RunsAreSmall | ai-system/core/vector-index.ts:447-457 | every chunk that was joined was, with those before it, below the chunk size |
| Chunking.JoinedText | ai-system/core/vector-index.ts:454-457 | a joined chunk has all the texts of its run, a line feed between neighbours |
| Chunking.JoinedLines | ai-system/core/vector-index.ts:453-457 | a joined chunk reports the lines from its first to its last |
| Chunking.MergeAdjacentSmallChunks | ai-system/core/vector-index.ts:434-471 | the loop with a buffer computes the joined runs |
| ContextTrim.SelectionIsExactAndMaximal | ai-system/core/context-intelligence.ts:263-351 | selected and trimmed split the candidates in rank order, the file limit holds, the byte sum is exact, no trimmed file would fit, and the bytes are exceeded only by pinned files or a single one |
| ContextTrim.ConsiderPinnedFirst | ai-system/core/context-intelligence.ts:290-305 | a pinned file is trimmed only when pinned files alone fill the context |
| ContextTrim.OfferedInOrder | ai-system/core/context-intelligence.ts:288-320 | pinned files are offered first by rank, then the others by density and by rank among equals |
| ContextTrim.SelectedExactly | ai-system/core/context-intelligence.ts:295-345 | an offered file is selected if and only if there is room for one more and it is pinned, the first, or fits in bytes with those selected before it |
| ContextTrim.SumExact | ai-system/core/context-intelligence.ts:278-304 | sizes add up, and one unreadable file makes the sum infinite |
| ContextTrim.TrimRankedCandidatesByBudget | ai-system/core/context-intelligence.ts:263-351 | the two selection loops compute the selection |
| ExecutionStages.ActiveIffLastEntered | ai-system/core/execution-state-machine.ts:59-71 | in a log where every entry is followed by its own finish, the active stage is told by the last entry alone |
| ExecutionStages.StepsCountFinishes | ai-system/core/execution-state-machine.ts:45-57 | there is one derived step for each transition that is not an entry |
| ExecutionStages.StepsAreFinishes | ai-system/core/execution-state-machine.ts:45-57 | the steps are those of the finishes in the order of the log |
| ExecutionStages.StepExact | ai-system/core/execution-state-machine.ts:36-57 | what a step tells of its finish: name, duration, status and detail |
| ExecutionStages.TransitionExact | ai-system/core/execution-state-machine.ts:12-30 | what a transition tells of the call |
| ExecutionStages.CurrentStageExact | ai-system/core/execution-state-machine.ts:59-71 | in any log the active stage is the one entered and since then neither finished nor left |
| ExecutionStages.TotalDurationAdds | ai-system/core/execution-summary.ts:86 | the total is the sum over the steps |
| ExecutionStages.StageStepsExact | ai-system/core/execution-state-machine.ts:188-215 | how many steps a run of a stage records, with which statuses, times and details |
| ExecutionStages.ComputeTerminalStage | ai-system/core/execution-summary.ts:169-176 | the scan from the end finds the last finished stage, and none exactly when there are no steps |
| ExecutionStages.ExecutionStateMachine.EnterStage | ai-system/core/execution-state-machine.ts:108-126 | entering keeps the fields equal to what is derived from the log, records nothing when already active, and is refused while another stage is |
| ExecutionStages.ExecutionStateMachine.FinishStage | ai-system/core/execution-state-machine.ts:128-151 | finishing appends one transition and its step and leaves the machine idle, or is refused while another stage is active |
| ExecutionStages.ExecutionStateMachine.RunStage | ai-system/core/execution-state-machine.ts:188-215 | an action that runs leaves the machine idle with its step recorded; a failing listener after a completed action adds a failed step |
| ExecutionStages.ExecutionStateMachine.SaveAndRestore | ai-system/core/execution-state-machine.ts:79-94 | rebuilding from the summary of steps and transitions gives back the same state |
| FileWrites.RollbackRestores | ai-system/core/context.ts:217-231 | rolling back all written paths leaves every place as it was, up to recoding, also with repeated or aliased paths |
| FileWrites.RollbackIsExactIffTextPreserved | ai-system/core/context.ts:85-125 | the rollback is exact if and only if every overwritten file survives decoding and encoding |
| FileWrites.RollbackCanChangeBytes | ai-system/core/context.ts:85-125 | with every codec that reads the byte FF as the replacement character, writing over a file of that byte and rolling back leaves three other bytes, and nothing else changed |
| FileWrites.LastEntryWins | ai-system/core/context.ts:105-125 | once all is written each place holds the content of its last entry and every other place is unchanged |
| FileWrites.WrittenIsFirstFault | ai-system/core/context.ts:105-125 | exactly the entries before the first fault are written |
| FileWrites.Repository.WriteFilesAtomically | ai-system/core/context.ts:105-125 | all files or none: success, rollback and the one temporary file that may stay |
| FileWrites.Repository.ReadOriginalFiles | ai-system/core/context.ts:85-103 | the originals are what the paths hold, absence included, or the whole read fails |
| FileWrites.Repository.RollbackWrittenFiles | ai-system/core/context.ts:217-231 | the loop restores the written paths in reverse, all of them or down to the last that cannot be put back |

## Left out

- Storage and locks: file, SQLite and Postgres records, the lock files and their break after 30 seconds; the model has one abstract store and an atomic try-lock.
- Writes outside the lock: `updateJob` from `approveJob`, appended worker logs and `cleanupHungJobs`; the `finishRun` fallback is stated as an exception, not as a step.
- The pauses between attempts to take a lock, and the delays of the drain timer; what other actors do while a method of the queue object retries comes before its state.
- Queue housekeeping: deletion, retention, legacy migration, restart after stop, and whether `drain` ever reaches an old job beyond the newest 100.
- A result patch that carries control fields of a record, and listeners or run functions that raise synchronously.
- `waitForApproval` and the map of pending approvals.
- Import parsing and resolution, TypeScript and tree-sitter: a finite function from files to resolved imports.
- `identifyRiskAreas`, `identifyRelatedTests` and the texts of a batch (goal, rationale, commands).
- Numbers in approved artifacts that are not integers, and values that are not JSON or `undefined`.
- `normalizeApprovalProof`, the client-address helpers and HTTP.
- The text a review panel adds to a description, its summary and missing tests; trimming and lower-casing of categories is a parameter.
- Keyword coverage of a task, blast radius and missing-test detection: their issues are part of the oracle's answer; fields of an issue that never decide anything.
- Provider metrics, failure classification and cost estimates; a budget is an oracle that says whether it is exceeded.
- RunResume.EveryWriteWasCheckedClean: speaks of the files handed to the writer; that they reach the disk all or none is stated separately by `FileWrites`.
- RunResume.Begin: planning, memory, context and routing stages before the loop are one oracle that may raise an exception.
- ContextTrim.SelectionIsExactAndMaximal: assumes each path is ranked once, as the ranking by path guarantees.
- `rankContextCandidates` scores, semantic scores, symbol ranges and embeddings; the density order is any comparison.
- Snapshot reuse in `indexWorkspace` and previews.
- Directories created for a write stay after a rollback, and a changed disk between reading originals and writing is not modelled.
- Timestamps and metadata of transitions.
