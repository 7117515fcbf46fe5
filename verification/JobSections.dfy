/** The locked sections of the queue: the callback each operation runs on the
    record it has just read, and what a whole detection pass comes to. */
module JobSections {
  import opened Common
  import opened JobRecords

  function Stored(records: map<JobId, Job>, id: JobId, eff: Effect): map<JobId, Job> {
    if eff.write.Some? then records[id := eff.write.value] else records
  }

  /** A listed job that looks as if its worker is gone. */
  predicate Suspect(job: Job, now: int) {
    job.lease.Some? && job.lease.value.expiresAt <= now && Leased(job.status)
  }

  /** The clock readings of the sections of one detection pass. */
  type Readings = nat -> Reading

  /** Each section starts after the one before it has ended. */
  ghost predicate InOrder(ts: Readings) {
    forall n: nat, m: nat | n <= m :: ts(n).check <= ts(m).stamp && (n < m ==> ts(n).stamp <= ts(m).check)
  }

  /** The record of one listed job after its section, if it gets one. */
  function Round(records: map<JobId, Job>, locked: set<JobId>, job: Job, now: int, t: Reading): map<JobId, Job> {
    if Suspect(job, now) && job.jobId !in locked
    then Stored(records, job.jobId, DecideDetectStale(Get(records, job.jobId), t))
    else records
  }

  predicate Reports(records: map<JobId, Job>, locked: set<JobId>, job: Job, now: int, t: Reading, wanted: Answer) {
    Suspect(job, now) && job.jobId !in locked && DecideDetectStale(Get(records, job.jobId), t).answer == wanted
  }

  /** The records after a detection pass over `all`, and the jobs whose section
      gave the answer `wanted`. */
  function Sweep(records: map<JobId, Job>, locked: set<JobId>, all: seq<Job>, now: int, ts: Readings): map<JobId, Job> {
    if all == [] then records
    else
      var n := |all| - 1;
      Round(Sweep(records, locked, all[..n], now, ts), locked, all[n], now, ts(n))
  }

  function SweptIds(records: map<JobId, Job>, locked: set<JobId>, all: seq<Job>, now: int, ts: Readings, wanted: Answer): seq<JobId> {
    if all == [] then []
    else
      var n := |all| - 1;
      SweptIds(records, locked, all[..n], now, ts, wanted) +
      if Reports(Sweep(records, locked, all[..n], now, ts), locked, all[n], now, ts(n), wanted) then [all[n].jobId] else []
  }

  lemma SweepSnoc(records: map<JobId, Job>, locked: set<JobId>, all: seq<Job>, now: int, ts: Readings, n: nat)
    requires n < |all|
    ensures Sweep(records, locked, all[..n + 1], now, ts) ==
              Round(Sweep(records, locked, all[..n], now, ts), locked, all[n], now, ts(n))
    ensures forall wanted :: SweptIds(records, locked, all[..n + 1], now, ts, wanted) ==
              SweptIds(records, locked, all[..n], now, ts, wanted) +
              if Reports(Sweep(records, locked, all[..n], now, ts), locked, all[n], now, ts(n), wanted) then [all[n].jobId] else []
  {
    assert all[..n + 1][..n] == all[..n];
  }

  /** A listed job whose section at `t` changes the record `id` has at the start
      of the pass. */
  predicate TakesEffect(record: Option<Job>, locked: set<JobId>, job: Job, now: int, t: Reading, id: JobId) {
    job.jobId == id && Suspect(job, now) && id !in locked && DecideDetectStale(record, t).write.Some?
  }

  /** The first entry of the listing that does. */
  function FirstEffect(record: Option<Job>, locked: set<JobId>, all: seq<Job>, now: int, ts: Readings, id: JobId): (k: Option<nat>)
    ensures k.Some? ==> k.value < |all| && TakesEffect(record, locked, all[k.value], now, ts(k.value), id)
    ensures forall n | 0 <= n < (if k.Some? then k.value else |all|) :: !TakesEffect(record, locked, all[n], now, ts(n), id)
  {
    if all == [] then None
    else
      var m := |all| - 1;
      var before := FirstEffect(record, locked, all[..m], now, ts, id);
      assert forall n | 0 <= n < m :: all[..m][n] == all[n];
      if before.Some? then before
      else if TakesEffect(record, locked, all[m], now, ts(m), id) then Some(m)
      else None
  }

  /** Judging a job again later in the pass changes nothing. */
  lemma DetectStaleTwice(record: Option<Job>, t: Reading, later: Reading)
    ensures var eff := DecideDetectStale(record, t);
            if eff.write.Some? then DecideDetectStale(eff.write, later) == Effect(None, Skipped) else eff.answer == Skipped
  {
  }

  /** A detection pass over an out-of-date listing does to each listed, unlocked
      job exactly what the first section that finds its current record stale does
      to that record, and leaves every other record alone. */
  lemma {:induction false} SweepJudgesCurrentRecords(records: map<JobId, Job>, locked: set<JobId>, all: seq<Job>, now: int,
                                                     ts: Readings, id: JobId)
    ensures Get(Sweep(records, locked, all, now, ts), id) ==
              match FirstEffect(Get(records, id), locked, all, now, ts, id)
              case Some(k) => DecideDetectStale(Get(records, id), ts(k)).write
              case None => Get(records, id)
  {
    if all != [] {
      var n := |all| - 1;
      SweepJudgesCurrentRecords(records, locked, all[..n], now, ts, id);
      var before := FirstEffect(Get(records, id), locked, all[..n], now, ts, id);
      if before.Some? { DetectStaleTwice(Get(records, id), ts(before.value), ts(n)); }
    }
  }

  lemma LastReport(records: map<JobId, Job>, locked: set<JobId>, all: seq<Job>, now: int, ts: Readings, job: Job, t: Reading, wanted: Answer)
    requires wanted == Requeued || wanted == MarkedStalled
    ensures Reports(Sweep(records, locked, all, now, ts), locked, job, now, t, wanted) <==>
              Reports(records, locked, job, now, t, wanted) && FirstEffect(Get(records, job.jobId), locked, all, now, ts, job.jobId).None?
  {
    SweepJudgesCurrentRecords(records, locked, all, now, ts, job.jobId);
    var k := FirstEffect(Get(records, job.jobId), locked, all, now, ts, job.jobId);
    if k.Some? { DetectStaleTwice(Get(records, job.jobId), ts(k.value), t); }
  }

  /** A pass reports each job it changed once, under what became of it. */
  lemma {:induction false} SweepReportsOnce(records: map<JobId, Job>, locked: set<JobId>, all: seq<Job>, now: int,
                                            ts: Readings, id: JobId, wanted: Answer)
    requires wanted == Requeued || wanted == MarkedStalled
    ensures multiset(SweptIds(records, locked, all, now, ts, wanted))[id] ==
              match FirstEffect(Get(records, id), locked, all, now, ts, id)
              case Some(k) => if DecideDetectStale(Get(records, id), ts(k)).answer == wanted then 1 else 0
              case None => 0
  {
    if all != [] {
      var n := |all| - 1;
      SweepReportsOnce(records, locked, all[..n], now, ts, id, wanted);
      LastReport(records, locked, all[..n], now, ts, all[n], ts(n), wanted);
      DetectStaleTwice(Get(records, id), ts(n), ts(n));
    }
  }

  // ---------------------------------------------------------------------
  // The callbacks that run under a job's lock, on the record just read

  method ClaimSection(record: Option<Job>, lease: Lease, t: Reading) returns (write: Option<Job>)
    ensures DecideClaim(record, lease, t) == Effect(write, if write.Some? then Record(write.value) else NoJob)
  {
    if record.None? { return None; }
    var job := record.value;
    if job.status != Queued { return None; }
    if job.lease.Some? && job.lease.value.expiresAt > t.check { return None; }
    var attempt := if job.attempt.Some? then job.attempt.value else 0;
    write := Some(job.(status := Assigned, workerId := Some(lease.workerId), lease := Some(lease),
                       attempt := Some(attempt + 1), updatedAt := t.stamp));
  }

  method CompleteSection(record: Option<Job>, leaseId: LeaseId, result: map<string, string>, t: Reading)
    returns (write: Option<Job>, answer: Answer)
    ensures Effect(write, answer) == DecideComplete(record, leaseId, result, t)
  {
    if record.None? { return None, Refused(NotFound); }
    var job := record.value;
    if job.status == Cancelled { return None, Refused(WasCancelled); }
    if job.lease.None? { return None, Refused(NoActiveLease); }
    if job.lease.value.leaseId != leaseId {
      if job.status == Completed || job.status == Failed { return None, Accepted; }
      return None, Refused(InvalidLeaseId);
    }
    if job.status == Completed { return None, Accepted; }
    if job.status == Failed { return None, Refused(AlreadyFailed); }
    if job.lease.value.expiresAt < t.check { return None, Refused(LeaseExpired); }
    var startedAt := if job.startedAt.Some? then job.startedAt.value else t.stamp;
    write := Some(job.(status := Completed, finishedAt := Some(t.stamp), fields := job.fields + result,
                       executionTimeMs := Some(t.stamp - startedAt), updatedAt := t.stamp));
    answer := Accepted;
  }

  method FailSection(record: Option<Job>, leaseId: LeaseId, error: string, result: map<string, string>, t: Reading)
    returns (write: Option<Job>, answer: Answer)
    ensures Effect(write, answer) == DecideFail(record, leaseId, error, result, t)
  {
    if record.None? { return None, Refused(NotFound); }
    var job := record.value;
    if job.status == Cancelled { return None, Refused(WasCancelled); }
    if job.lease.None? { return None, Refused(NoActiveLease); }
    if job.lease.value.leaseId != leaseId {
      if job.status == Completed || job.status == Failed { return None, Accepted; }
      return None, Refused(InvalidLeaseId);
    }
    if job.status == Failed { return None, Accepted; }
    if job.status == Completed { return None, Refused(AlreadyCompleted); }
    if job.lease.value.expiresAt < t.check { return None, Refused(LeaseExpired); }
    var startedAt := if job.startedAt.Some? then job.startedAt.value else t.stamp;
    write := Some(job.(status := Failed, finishedAt := Some(t.stamp), fields := (job.fields + result)["error" := error],
                       executionTimeMs := Some(t.stamp - startedAt), updatedAt := t.stamp));
    answer := Accepted;
  }

  method StartSection(record: Option<Job>, workerId: string, leaseId: LeaseId, t: Reading) returns (write: Option<Job>, answer: Answer)
    ensures Effect(write, answer) == DecideStart(record, workerId, leaseId, t)
  {
    if record.None? { return None, Refused(NotFound); }
    var job := record.value;
    if job.lease.None? { return None, Refused(NoActiveLease); }
    if job.lease.value.workerId != workerId || job.lease.value.leaseId != leaseId { return None, Refused(InvalidLeaseId); }
    if job.lease.value.expiresAt < t.check { return None, Refused(LeaseExpired); }
    if job.status == Running { return None, Accepted; }
    if job.status != Assigned { return None, Refused(NotAssigned(job.status)); }
    if job.startedAt.None? { job := job.(startedAt := Some(t.stamp)); }
    if job.waitTimeMs.None? { job := job.(waitTimeMs := Some(t.stamp - job.createdAt)); }
    write, answer := Some(job.(status := Running, updatedAt := t.stamp)), Accepted;
  }

  method RenewSection(record: Option<Job>, leaseId: LeaseId, t: Reading) returns (write: Option<Job>, answer: Answer)
    ensures Effect(write, answer) == DecideRenew(record, leaseId, t)
  {
    if record.None? { return None, Refused(NotFound); }
    var job := record.value;
    if job.lease.None? { return None, Refused(NoActiveLease); }
    if job.lease.value.leaseId != leaseId { return None, Refused(InvalidLeaseId); }
    if job.lease.value.expiresAt < t.check { return None, Refused(LeaseExpired); }
    if job.status == Completed || job.status == Failed || job.status == Cancelled { return None, Refused(AlreadyFinished(job.status)); }
    var renewed := job.lease.value.(lastHeartbeatAt := t.stamp, expiresAt := t.stamp + LEASE_DURATION_MS);
    write, answer := Some(job.(lease := Some(renewed), updatedAt := t.stamp)), AcceptedLease(renewed);
  }

  method CheckpointSection(record: Option<Job>, id: JobId, leaseId: LeaseId, stage: string, filesystemMutated: bool,
                           worktreePath: Option<string>, t: Reading)
    returns (write: Option<Job>, answer: Answer)
    ensures Effect(write, answer) == DecideSaveCheckpoint(record, id, leaseId, stage, filesystemMutated, worktreePath, t)
  {
    if record.None? { return None, Refused(NotFound); }
    var job := record.value;
    if job.lease.None? || job.lease.value.leaseId != leaseId { return None, Refused(InvalidLeaseId); }
    if job.status == Completed || job.status == Failed || job.status == Cancelled { return None, Refused(AlreadyFinished(job.status)); }
    var saved := Checkpoint(id, leaseId, stage, filesystemMutated, worktreePath, t.stamp);
    write, answer := Some(job.(checkpoint := Some(saved), updatedAt := t.stamp)), Accepted;
  }

  method DetectSection(record: Option<Job>, t: Reading) returns (write: Option<Job>, answer: Answer)
    ensures Effect(write, answer) == DecideDetectStale(record, t)
  {
    if record.None? || record.value.lease.None? { return None, Skipped; }
    if record.value.lease.value.expiresAt > t.check { return None, Skipped; }
    var job := record.value;
    if job.status != Assigned && job.status != Running && job.status != WaitingForApproval { return None, Skipped; }
    if job.checkpoint.Some? && job.checkpoint.value.filesystemMutated {
      return Some(job.(status := Stalled, updatedAt := t.stamp)), MarkedStalled;
    }
    write := Some(job.(status := Queued, lease := None, workerId := None, checkpoint := None, updatedAt := t.stamp));
    answer := Requeued;
  }

  method RecoverSection(record: Option<Job>, t: Reading) returns (write: Option<Job>, answer: Answer)
    ensures Effect(write, answer) == DecideRecover(record, t)
  {
    if record.None? { return None, Refused(NotFound); }
    var job := record.value;
    if job.status != Stalled { return None, Refused(NotStalled); }
    var attempt := if job.attempt.Some? then job.attempt.value else 0;
    write := Some(job.(status := Queued, lease := None, workerId := None, checkpoint := None,
                       attempt := Some(attempt + 1), updatedAt := t.stamp));
    answer := Accepted;
  }

  method CancelSection(record: Option<Job>, t: Reading) returns (write: Option<Job>, answer: Answer)
    ensures Effect(write, answer) == DecideCancel(record, t)
  {
    if record.None? { return None, NoJob; }
    var job := record.value;
    if Finished(job.status) { return None, Record(job); }
    var summary := "Job cancelled by user.";
    if job.status == Queued { summary := "Job cancelled before it started."; }
    job := job.(status := Cancelled, finishedAt := Some(t.stamp), updatedAt := t.stamp,
                fields := job.fields["resultSummary" := summary]);
    write, answer := Some(job), Record(job);
  }

  method MarkWaitingSection(record: Option<Job>, result: map<string, string>, t: Reading) returns (write: Option<Job>, answer: Answer)
    ensures Effect(write, answer) == DecideMarkWaiting(record, result, t)
  {
    if record.None? || Finished(record.value.status) { return None, Skipped; }
    var job := record.value;
    write := Some(job.(status := WaitingForApproval, updatedAt := t.stamp, fields := job.fields + result));
    answer := Accepted;
  }

  method BeginRunSection(record: Option<Job>, t: Reading) returns (write: Option<Job>, answer: Answer)
    ensures Effect(write, answer) == DecideBeginRun(record, t)
  {
    if record.None? || record.value.status != Queued { return None, NoJob; }
    var job := record.value;
    job := job.(status := Running, startedAt := Some(t.check), waitTimeMs := Some(t.check - job.createdAt),
                updatedAt := t.stamp, fields := job.fields["error" := "null"]);
    write, answer := Some(job), Record(job);
  }

  method FinishRunSection(record: Option<Job>, running: Job, outcome: Status, endedAt: int, elapsedMs: int,
                          result: map<string, string>, t: Reading)
    returns (write: Option<Job>, answer: Answer)
    ensures Effect(write, answer) == DecideFinishRun(record, running, outcome, endedAt, elapsedMs, result, t)
  {
    var current := running;
    if record.Some? { current := record.value; }
    if Finished(current.status) { return None, Skipped; }
    write := Some(current.(status := outcome, finishedAt := Some(endedAt), executionTimeMs := Some(elapsedMs),
                           updatedAt := t.stamp, fields := current.fields + result));
    answer := Accepted;
  }

  lemma RoundIsTimely(records: map<JobId, Job>, locked: set<JobId>, job: Job, now: int, ts: Readings, n: nat)
    requires InOrder(ts) && forall id | id in records :: records[id].updatedAt <= ts(n).check
    ensures ts(n).check <= ts(n).stamp
    ensures var after := Round(records, locked, job, now, ts(n));
            forall id | id in after :: after[id].updatedAt <= ts(n + 1).check
  {
    assert ts(n).check <= ts(n).stamp && ts(n).stamp <= ts(n + 1).check;
  }
}
