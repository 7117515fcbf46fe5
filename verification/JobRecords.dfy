/** Job records of the leased queue, and what each locked queue operation
    decides from the record it has just read under the job lock. */
module JobRecords {
  import opened Common

  type JobId = string
  type LeaseId = string

  datatype Status =
    | Queued | Assigned | Running | WaitingForApproval
    | Completed | Failed | CancelRequested | Cancelled | Stalled

  datatype Lease = Lease(workerId: string, leaseId: LeaseId, claimedAt: int, expiresAt: int, lastHeartbeatAt: int)

  datatype Checkpoint = Checkpoint(
    jobId: JobId, leaseId: LeaseId, stage: string, filesystemMutated: bool,
    worktreePath: Option<string>, timestamp: int)

  /** Times are milliseconds. `fields` holds every remaining field of the record
      (summary, error, artifact path, diffs, ...) by name. */
  datatype Job = Job(
    jobId: JobId, status: Status, workerId: Option<string>, cwd: string,
    createdAt: int, updatedAt: int, startedAt: Option<int>, finishedAt: Option<int>,
    waitTimeMs: Option<int>, executionTimeMs: Option<int>,
    lease: Option<Lease>, attempt: Option<nat>, checkpoint: Option<Checkpoint>,
    fields: map<string, string>)

  /** The two moments at which one locked section reads the clock: when it
      judges the record, and when it stamps the new one. */
  datatype Reading = Reading(check: int, stamp: int)

  datatype Op =
    | Claim(lease: Lease)
    | Complete(leaseId: LeaseId, result: map<string, string>)
    | Fail(leaseId: LeaseId, error: string, result: map<string, string>)
    | Start(workerId: string, leaseId: LeaseId)
    | Renew(leaseId: LeaseId)
    | SaveCheckpoint(leaseId: LeaseId, stage: string, filesystemMutated: bool, worktreePath: Option<string>)
    | DetectStale
    | Recover
    | Cancel
    | MarkWaiting(result: map<string, string>)
    | BeginRun
    | FinishRun(running: Job, outcome: Status, endedAt: int, elapsedMs: int, result: map<string, string>)

  datatype Refusal =
    | NotFound | WasCancelled | NoActiveLease | InvalidLeaseId | LeaseExpired
    | AlreadyCompleted | AlreadyFailed | AlreadyFinished(status: Status)
    | NotAssigned(status: Status) | NotStalled

  datatype Answer =
    | NoJob
    | Record(job: Job)
    | Accepted
    | AcceptedLease(lease: Lease)
    | Refused(reason: Refusal)
    | Requeued
    | MarkedStalled
    | Skipped

  /** What a locked section does: the record it writes, if any, and its answer. */
  datatype Effect = Effect(write: Option<Job>, answer: Answer)

  const LEASE_DURATION_MS := 5 * 60 * 1000

  predicate Finished(s: Status) {
    s == Completed || s == Failed || s == Cancelled
  }

  predicate Leased(s: Status) {
    s == Assigned || s == Running || s == WaitingForApproval
  }

  predicate SafeChar(c: char) {
    'a' <= c <= 'z' || 'A' <= c <= 'Z' || '0' <= c <= '9' || c == '-'
  }

  predicate SafeJobId(id: JobId) {
    id != "" && forall i :: 0 <= i < |id| ==> SafeChar(id[i])
  }

  function Get(records: map<JobId, Job>, id: JobId): Option<Job> {
    if SafeJobId(id) && id in records then Some(records[id]) else None
  }

  predicate LeaseIs(job: Job, leaseId: LeaseId) {
    job.lease.Some? && job.lease.value.leaseId == leaseId
  }

  function Attempts(job: Job): nat {
    if job.attempt.Some? then job.attempt.value else 0
  }

  function Nothing(answer: Answer): Effect {
    Effect(None, answer)
  }

  function DecideClaim(record: Option<Job>, lease: Lease, t: Reading): Effect {
    if record.None? || record.value.status != Queued then Nothing(NoJob)
    else if record.value.lease.Some? && record.value.lease.value.expiresAt > t.check then Nothing(NoJob)
    else
      var claimed := record.value.(
        status := Assigned, workerId := Some(lease.workerId), lease := Some(lease),
        attempt := Some(Attempts(record.value) + 1), updatedAt := t.stamp);
      Effect(Some(claimed), Record(claimed))
  }

  function FinishedBy(job: Job, outcome: Status, fields: map<string, string>, t: Reading): Job {
    var startedAt := if job.startedAt.Some? then job.startedAt.value else t.stamp;
    job.(status := outcome, finishedAt := Some(t.stamp), executionTimeMs := Some(t.stamp - startedAt),
         updatedAt := t.stamp, fields := fields)
  }

  function DecideComplete(record: Option<Job>, leaseId: LeaseId, result: map<string, string>, t: Reading): Effect {
    if record.None? then Nothing(Refused(NotFound))
    else
      var job := record.value;
      if job.status == Cancelled then Nothing(Refused(WasCancelled))
      else if job.lease.None? then Nothing(Refused(NoActiveLease))
      else if job.lease.value.leaseId != leaseId then
        Nothing(if job.status == Completed || job.status == Failed then Accepted else Refused(InvalidLeaseId))
      else if job.status == Completed then Nothing(Accepted)
      else if job.status == Failed then Nothing(Refused(AlreadyFailed))
      else if job.lease.value.expiresAt < t.check then Nothing(Refused(LeaseExpired))
      else Effect(Some(FinishedBy(job, Completed, job.fields + result, t)), Accepted)
  }

  function DecideFail(record: Option<Job>, leaseId: LeaseId, error: string, result: map<string, string>, t: Reading): Effect {
    if record.None? then Nothing(Refused(NotFound))
    else
      var job := record.value;
      if job.status == Cancelled then Nothing(Refused(WasCancelled))
      else if job.lease.None? then Nothing(Refused(NoActiveLease))
      else if job.lease.value.leaseId != leaseId then
        Nothing(if job.status == Completed || job.status == Failed then Accepted else Refused(InvalidLeaseId))
      else if job.status == Failed then Nothing(Accepted)
      else if job.status == Completed then Nothing(Refused(AlreadyCompleted))
      else if job.lease.value.expiresAt < t.check then Nothing(Refused(LeaseExpired))
      else Effect(Some(FinishedBy(job, Failed, (job.fields + result)["error" := error], t)), Accepted)
  }

  function DecideStart(record: Option<Job>, workerId: string, leaseId: LeaseId, t: Reading): Effect {
    if record.None? then Nothing(Refused(NotFound))
    else
      var job := record.value;
      if job.lease.None? then Nothing(Refused(NoActiveLease))
      else if job.lease.value.workerId != workerId || job.lease.value.leaseId != leaseId then Nothing(Refused(InvalidLeaseId))
      else if job.lease.value.expiresAt < t.check then Nothing(Refused(LeaseExpired))
      else if job.status == Running then Nothing(Accepted)
      else if job.status != Assigned then Nothing(Refused(NotAssigned(job.status)))
      else
        var started := job.(
          status := Running,
          startedAt := if job.startedAt.Some? then job.startedAt else Some(t.stamp),
          waitTimeMs := if job.waitTimeMs.Some? then job.waitTimeMs else Some(t.stamp - job.createdAt),
          updatedAt := t.stamp);
        Effect(Some(started), Accepted)
  }

  function DecideRenew(record: Option<Job>, leaseId: LeaseId, t: Reading): Effect {
    if record.None? then Nothing(Refused(NotFound))
    else
      var job := record.value;
      if job.lease.None? then Nothing(Refused(NoActiveLease))
      else if job.lease.value.leaseId != leaseId then Nothing(Refused(InvalidLeaseId))
      else if job.lease.value.expiresAt < t.check then Nothing(Refused(LeaseExpired))
      else if Finished(job.status) then Nothing(Refused(AlreadyFinished(job.status)))
      else
        var renewed := job.lease.value.(lastHeartbeatAt := t.stamp, expiresAt := t.stamp + LEASE_DURATION_MS);
        Effect(Some(job.(lease := Some(renewed), updatedAt := t.stamp)), AcceptedLease(renewed))
  }

  function DecideSaveCheckpoint(record: Option<Job>, id: JobId, leaseId: LeaseId, stage: string,
                                filesystemMutated: bool, worktreePath: Option<string>, t: Reading): Effect {
    if record.None? then Nothing(Refused(NotFound))
    else
      var job := record.value;
      if !LeaseIs(job, leaseId) then Nothing(Refused(InvalidLeaseId))
      else if Finished(job.status) then Nothing(Refused(AlreadyFinished(job.status)))
      else
        var saved := Checkpoint(id, leaseId, stage, filesystemMutated, worktreePath, t.stamp);
        Effect(Some(job.(checkpoint := Some(saved), updatedAt := t.stamp)), Accepted)
  }

  predicate Mutated(job: Job) {
    job.checkpoint.Some? && job.checkpoint.value.filesystemMutated
  }

  function BackToQueue(job: Job, t: Reading): Job {
    job.(status := Queued, lease := None, workerId := None, checkpoint := None, updatedAt := t.stamp)
  }

  function DecideDetectStale(record: Option<Job>, t: Reading): Effect {
    if record.None? || record.value.lease.None? then Nothing(Skipped)
    else if record.value.lease.value.expiresAt > t.check then Nothing(Skipped)
    else if !Leased(record.value.status) then Nothing(Skipped)
    else if Mutated(record.value) then
      Effect(Some(record.value.(status := Stalled, updatedAt := t.stamp)), MarkedStalled)
    else
      Effect(Some(BackToQueue(record.value, t)), Requeued)
  }

  function DecideRecover(record: Option<Job>, t: Reading): Effect {
    if record.None? then Nothing(Refused(NotFound))
    else if record.value.status != Stalled then Nothing(Refused(NotStalled))
    else
      Effect(Some(BackToQueue(record.value, t).(attempt := Some(Attempts(record.value) + 1))), Accepted)
  }

  function DecideCancel(record: Option<Job>, t: Reading): Effect {
    if record.None? then Nothing(NoJob)
    else if Finished(record.value.status) then Nothing(Record(record.value))
    else
      var summary := if record.value.status == Queued then "Job cancelled before it started." else "Job cancelled by user.";
      var cancelled := record.value.(
        status := Cancelled, finishedAt := Some(t.stamp), updatedAt := t.stamp,
        fields := record.value.fields["resultSummary" := summary]);
      Effect(Some(cancelled), Record(cancelled))
  }

  function DecideMarkWaiting(record: Option<Job>, result: map<string, string>, t: Reading): Effect {
    if record.None? || Finished(record.value.status) then Nothing(Skipped)
    else
      var waiting := record.value.(
        status := WaitingForApproval, updatedAt := t.stamp, fields := record.value.fields + result);
      Effect(Some(waiting), Accepted)
  }

  function DecideBeginRun(record: Option<Job>, t: Reading): Effect {
    if record.None? || record.value.status != Queued then Nothing(NoJob)
    else
      var running := record.value.(
        status := Running, startedAt := Some(t.check), waitTimeMs := Some(t.check - record.value.createdAt),
        updatedAt := t.stamp, fields := record.value.fields["error" := "null"]);
      Effect(Some(running), Record(running))
  }

  function DecideFinishRun(record: Option<Job>, running: Job, outcome: Status, endedAt: int, elapsedMs: int,
                           result: map<string, string>, t: Reading): Effect {
    var current := if record.Some? then record.value else running;
    if Finished(current.status) then Nothing(Skipped)
    else
      var ended := current.(
        status := outcome, finishedAt := Some(endedAt), executionTimeMs := Some(elapsedMs),
        updatedAt := t.stamp, fields := current.fields + result);
      Effect(Some(ended), Accepted)
  }

  function Decide(id: JobId, op: Op, record: Option<Job>, t: Reading): Effect {
    match op
    case Claim(lease) => DecideClaim(record, lease, t)
    case Complete(leaseId, result) => DecideComplete(record, leaseId, result, t)
    case Fail(leaseId, error, result) => DecideFail(record, leaseId, error, result, t)
    case Start(workerId, leaseId) => DecideStart(record, workerId, leaseId, t)
    case Renew(leaseId) => DecideRenew(record, leaseId, t)
    case SaveCheckpoint(leaseId, stage, mutated, path) => DecideSaveCheckpoint(record, id, leaseId, stage, mutated, path, t)
    case DetectStale => DecideDetectStale(record, t)
    case Recover => DecideRecover(record, t)
    case Cancel => DecideCancel(record, t)
    case MarkWaiting(result) => DecideMarkWaiting(record, result, t)
    case BeginRun => DecideBeginRun(record, t)
    case FinishRun(running, outcome, endedAt, elapsedMs, result) =>
      DecideFinishRun(record, running, outcome, endedAt, elapsedMs, result, t)
  }
}
