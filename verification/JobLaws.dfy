/** What each locked operation does to a job, told by field and by answer rather
    than by operation, and how long a lease protects its worker. */
module JobLaws {
  import opened Common
  import opened JobRecords
  import opened JobHistory
  import opened JobSafety

  function WrittenBy(id: JobId, op: Op, job: Job, t: Reading): Job {
    var eff := Decide(id, op, Some(job), t);
    if eff.write.Some? then eff.write.value else job
  }

  predicate Unfinished(job: Job) {
    job.status != Completed && job.status != Failed && job.status != Cancelled
  }

  /** When the operations of everybody but the lease's holder write a record. */
  lemma OthersWriteExactly(id: JobId, op: Op, job: Job, t: Reading)
    ensures op.Claim? ==> (Decide(id, op, Some(job), t).write.Some? <==>
              job.status == Queued && (job.lease.None? || job.lease.value.expiresAt <= t.check))
    ensures op.DetectStale? ==> (Decide(id, op, Some(job), t).write.Some? <==>
              && job.lease.Some? && job.lease.value.expiresAt <= t.check
              && (job.status == Assigned || job.status == Running || job.status == WaitingForApproval))
    ensures op.Recover? ==> (Decide(id, op, Some(job), t).write.Some? <==> job.status == Stalled)
    ensures op.BeginRun? ==> (Decide(id, op, Some(job), t).write.Some? <==> job.status == Queued)
    ensures op.Cancel? || op.MarkWaiting? || op.FinishRun? ==> (Decide(id, op, Some(job), t).write.Some? <==> Unfinished(job))
  {
  }

  /** Nothing but the last write of a vanished record's own run goes to a job that
      is not there. */
  lemma AbsentRecord(id: JobId, op: Op, t: Reading)
    ensures Decide(id, op, None, t).write.Some? <==> op.FinishRun? && Unfinished(op.running)
    ensures op.FinishRun? ==> Decide(id, op, None, t) == Decide(id, op, Some(op.running), t)
  {
  }

  lemma StatusAfter(id: JobId, op: Op, job: Job, t: Reading)
    requires Decide(id, op, Some(job), t).write.Some?
    ensures WrittenBy(id, op, job, t).status ==
              match op
              case Claim(_) => Assigned
              case Complete(_, _) => Completed
              case Fail(_, _, _) => Failed
              case Start(_, _) => Running
              case Renew(_) => job.status
              case SaveCheckpoint(_, _, _, _) => job.status
              case DetectStale => if job.checkpoint.Some? && job.checkpoint.value.filesystemMutated then Stalled else Queued
              case Recover => Queued
              case Cancel => Cancelled
              case MarkWaiting(_) => WaitingForApproval
              case BeginRun => Running
              case FinishRun(_, outcome, _, _, _) => outcome
  {
  }

  /** A job keeps its identity; its time stamps are set once, each by its own
      event, and say how long the job waited and ran. */
  lemma TimesAfter(id: JobId, op: Op, job: Job, t: Reading)
    requires Decide(id, op, Some(job), t).write.Some?
    ensures var job' := WrittenBy(id, op, job, t);
            && job'.jobId == job.jobId && job'.cwd == job.cwd && job'.createdAt == job.createdAt && job'.updatedAt == t.stamp
            && job'.startedAt == (if op.BeginRun? then Some(t.check) else if op.Start? && job.startedAt.None? then Some(t.stamp) else job.startedAt)
            && job'.waitTimeMs == (if op.BeginRun? then Some(t.check - job.createdAt)
                                   else if op.Start? && job.waitTimeMs.None? then Some(t.stamp - job.createdAt) else job.waitTimeMs)
            && job'.finishedAt == (if op.Complete? || op.Fail? || op.Cancel? then Some(t.stamp)
                                   else if op.FinishRun? then Some(op.endedAt) else job.finishedAt)
            && job'.executionTimeMs == (if op.Complete? || op.Fail? then Some(if job.startedAt.Some? then t.stamp - job.startedAt.value else 0)
                                        else if op.FinishRun? then Some(op.elapsedMs) else job.executionTimeMs)
  {
  }

  /** The lease and all that goes with it. */
  lemma LeaseAfter(id: JobId, op: Op, job: Job, t: Reading)
    requires Decide(id, op, Some(job), t).write.Some?
    ensures var job' := WrittenBy(id, op, job, t);
            var released := op.Recover? || (op.DetectStale? && job'.status == Queued);
            && (released ==> job'.lease.None? && job'.workerId.None? && job'.checkpoint.None?)
            && (op.Claim? ==> job'.lease == Some(op.lease) && job'.workerId == Some(op.lease.workerId))
            && (op.Renew? ==> job.lease.Some? && job'.lease == Some(job.lease.value.(expiresAt := t.stamp + 300000, lastHeartbeatAt := t.stamp)))
            && (!released && !op.Claim? && !op.Renew? ==> job'.lease == job.lease)
            && (!released && !op.Claim? ==> job'.workerId == job.workerId)
            && (!released && !op.SaveCheckpoint? ==> job'.checkpoint == job.checkpoint)
            && (op.SaveCheckpoint? ==>
                  job'.checkpoint == Some(Checkpoint(id, op.leaseId, op.stage, op.filesystemMutated, op.worktreePath, t.stamp)))
  {
  }

  /** What an operation reports on the job. */
  function Report(op: Op, job: Job): map<string, string> {
    match op
    case Complete(_, result) => result
    case Fail(_, error, result) => result["error" := error]
    case Cancel => map["resultSummary" := if job.status == Queued then "Job cancelled before it started." else "Job cancelled by user."]
    case MarkWaiting(result) => result
    case BeginRun => map["error" := "null"]
    case FinishRun(_, _, _, _, result) => result
    case _ => map[]
  }

  /** Whatever an operation reports is on the record afterwards, over what was
      there before, and nothing else. */
  lemma ReportsAreKept(id: JobId, op: Op, job: Job, t: Reading)
    requires Decide(id, op, Some(job), t).write.Some?
    ensures WrittenBy(id, op, job, t).fields == job.fields + Report(op, job)
  {
  }

  /** Job ids are made of letters, digits and hyphens, at least one of them. */
  lemma SafeJobIdExact(id: JobId)
    ensures SafeJobId(id) <==>
              |id| > 0 && forall i | 0 <= i < |id| ::
                var u := id[i] as int; 97 <= u <= 122 || 65 <= u <= 90 || 48 <= u <= 57 || u == 45
  {
  }

  /** A new job waits in the queue, unclaimed and untouched. */
  lemma NewJobExact(id: JobId, cwd: string, fields: map<string, string>, now: int)
    ensures var job := NewJob(id, cwd, fields, now);
            && job.status == Queued && job.jobId == id && job.cwd == cwd && job.fields == fields
            && job.createdAt == now && job.updatedAt == now
            && job.workerId.None? && job.lease.None? && job.attempt.None? && job.checkpoint.None?
            && job.startedAt.None? && job.finishedAt.None? && job.waitTimeMs.None? && job.executionTimeMs.None?
  {
  }

  // ---------------------------------------------------------------------
  // Answers

  predicate ByWorker(op: Op) {
    op.Complete? || op.Fail? || op.Start? || op.Renew? || op.SaveCheckpoint?
  }

  /** When each reason is given for refusing a worker or an operator. A wrong lease
      is only told from an ended job when a result comes late. */
  lemma RefusalsExactly(id: JobId, op: Op, record: Option<Job>, t: Reading)
    requires ByWorker(op) || op.Recover?
    ensures var answer := Decide(id, op, record, t).answer;
            && (answer == Refused(NotFound) <==> record.None?)
            && (answer == Refused(NotStalled) <==> op.Recover? && record.Some? && record.value.status != Stalled)
            && (answer == Refused(WasCancelled) <==> (op.Complete? || op.Fail?) && record.Some? && record.value.status == Cancelled)
            && (answer == Refused(NoActiveLease) <==>
                  && (op.Complete? || op.Fail? || op.Start? || op.Renew?) && record.Some? && record.value.lease.None?
                  && !((op.Complete? || op.Fail?) && record.value.status == Cancelled))
            && (answer == Refused(AlreadyFailed) <==>
                  op.Complete? && record.Some? && record.value.status == Failed && LeaseIs(record.value, op.leaseId))
            && (answer == Refused(AlreadyCompleted) <==>
                  op.Fail? && record.Some? && record.value.status == Completed && LeaseIs(record.value, op.leaseId))
  {
  }

  /** The right lease, asked about by its operation. */
  predicate NamesLease(op: Op, job: Job)
    requires ByWorker(op)
  {
    LeaseIs(job, op.leaseId) && (op.Start? ==> job.lease.value.workerId == op.workerId)
  }

  lemma LeaseRefusalsExactly(id: JobId, op: Op, job: Job, t: Reading)
    requires ByWorker(op) && job.lease.Some?
    ensures var answer, reporting := Decide(id, op, Some(job), t).answer, op.Complete? || op.Fail?;
            && (answer == Refused(InvalidLeaseId) <==>
                  !NamesLease(op, job) && !(reporting && (job.status == Completed || job.status == Failed || job.status == Cancelled)))
            && (answer == Refused(LeaseExpired) <==>
                  NamesLease(op, job) && job.lease.value.expiresAt < t.check && !op.SaveCheckpoint? && !(reporting && !Unfinished(job)))
  {
  }

  /** A report that is repeated, or comes under an old lease once the job has
      ended, is accepted and changes nothing. */
  lemma LateReportsAreAccepted(id: JobId, op: Op, job: Job, t: Reading)
    requires (op.Complete? || op.Fail?) && job.lease.Some?
    ensures var eff := Decide(id, op, Some(job), t);
            eff.write.None? && eff.answer == Accepted <==>
              if LeaseIs(job, op.leaseId) then job.status == (if op.Complete? then Completed else Failed)
              else job.status == Completed || job.status == Failed
  {
  }

  /** What is answered when the record is written. */
  lemma WriteAnswers(id: JobId, op: Op, record: Option<Job>, t: Reading)
    ensures var eff := Decide(id, op, record, t);
            eff.write.Some? ==>
              eff.answer ==
                match op
                case Claim(_) => Record(eff.write.value)
                case Cancel => Record(eff.write.value)
                case BeginRun => Record(eff.write.value)
                case Renew(_) => AcceptedLease(eff.write.value.lease.value)
                case DetectStale => if eff.write.value.status == Stalled then MarkedStalled else Requeued
                case _ => Accepted
  {
  }

  /** And when it is not, of the operations that are never refused. */
  lemma SilentAnswers(id: JobId, op: Op, record: Option<Job>, t: Reading)
    requires Decide(id, op, record, t).write.None? && !ByWorker(op) && !op.Recover?
    ensures Decide(id, op, record, t).answer ==
              match op
              case Cancel => (if record.Some? then Record(record.value) else NoJob)
              case DetectStale => Skipped
              case MarkWaiting(_) => Skipped
              case FinishRun(_, _, _, _, _) => Skipped
              case _ => NoJob
  {
  }

  /** A start is repeated without effect, comes too early or too late. */
  lemma StartAnswers(id: JobId, op: Op, job: Job, t: Reading)
    requires op.Start? && NamesLease(op, job) && t.check <= job.lease.value.expiresAt && job.status != Assigned
    ensures Decide(id, op, Some(job), t) == Effect(None, if job.status == Running then Accepted else Refused(NotAssigned(job.status)))
  {
  }

  lemma FinishedAnswers(id: JobId, op: Op, job: Job, t: Reading)
    requires (op.Renew? || op.SaveCheckpoint?) && NamesLease(op, job) && !Unfinished(job)
    requires op.Renew? ==> t.check <= job.lease.value.expiresAt
    ensures Decide(id, op, Some(job), t) == Effect(None, Refused(AlreadyFinished(job.status)))
  {
  }

  // ---------------------------------------------------------------------
  // Over histories

  ghost predicate UnwrittenBetween(tr: Trace, i: nat, j: nat, id: JobId)
    requires IsTrace(tr) && j <= |tr.events|
  {
    forall k | i < k < j :: !Wrote(tr, k, id)
  }

  lemma {:induction false} RecordUntouched(tr: Trace, i: nat, j: nat, id: JobId)
    requires IsTrace(tr) && i < j <= |tr.events| && id in tr.states[i + 1].records && UnwrittenBetween(tr, i, j, id)
    ensures id in tr.states[j].records && tr.states[j].records[id] == tr.states[i + 1].records[id]
  {
    if i + 1 < j {
      RecordUntouched(tr, i, j - 1, id);
      assert !Wrote(tr, j - 1, id);
      Unwritten(tr, j - 1, id);
    }
  }

  /** A renewal protects its worker for five minutes: with no other write to the job
      in between, the detector takes the lease away if and only if it looks at or
      after that, and the job was assigned or running. The lease keeps its worker,
      its id and the time of its claim. */
  lemma RenewalHoldsFiveMinutes(tr: Trace, i: nat, j: nat, id: JobId)
    requires IsTrace(tr) && i < j < |tr.events| && Wrote(tr, i, id) && tr.events[i].op.Renew? && UnwrittenBetween(tr, i, j, id)
    requires tr.events[j].Act? && tr.events[j].id == id && tr.events[j].op.DetectStale?
    ensures id in tr.states[i].records && id in tr.states[i + 1].records
    ensures var before, after := tr.states[i].records[id], tr.states[i + 1].records[id];
            && before.lease.Some? && after.lease.Some?
            && after.lease.value.workerId == before.lease.value.workerId && after.lease.value.leaseId == before.lease.value.leaseId
            && after.lease.value.claimedAt == before.lease.value.claimedAt
            && (Wrote(tr, j, id) <==>
                  tr.events[j].t.check >= tr.events[i].t.stamp + 300000 && (before.status == Assigned || before.status == Running))
  {
    Written(tr, i, id);
    InvAt(tr, i);
    assert RecordOk(id, tr.states[i].records[id], tr.states[i].issued, tr.states[i].inProcess);
    RecordUntouched(tr, i, j, id);
    LeaseAfter(id, tr.events[i].op, tr.states[i].records[id], tr.events[i].t);
    OthersWriteExactly(id, DetectStale, tr.states[j].records[id], tr.events[j].t);
  }

  /** A claim protects its worker until the expiry it came with. */
  lemma ClaimHoldsUntilItsExpiry(tr: Trace, i: nat, j: nat, id: JobId)
    requires IsTrace(tr) && i < j < |tr.events| && ClaimedAt(tr, i, id) && UnwrittenBetween(tr, i, j, id)
    requires tr.events[j].Act? && tr.events[j].id == id && tr.events[j].op.DetectStale?
    ensures Wrote(tr, j, id) <==> tr.events[j].t.check >= tr.events[i].op.lease.expiresAt
  {
    Written(tr, i, id);
    RecordUntouched(tr, i, j, id);
    LeaseAfter(id, tr.events[i].op, tr.states[i].records[id], tr.events[i].t);
    OthersWriteExactly(id, DetectStale, tr.states[j].records[id], tr.events[j].t);
  }

  /** What a worker reports at the end stays on the job for good, with when the job
      ended and how long it ran. */
  lemma FinalReportStays(tr: Trace, i: nat, j: nat, id: JobId)
    requires IsTrace(tr) && i < j < |tr.states| && Wrote(tr, i, id) && (tr.events[i].op.Complete? || tr.events[i].op.Fail?)
    ensures id in tr.states[i].records && id in tr.states[j].records
    ensures var op, stamp, before, after := tr.events[i].op, tr.events[i].t.stamp, tr.states[i].records[id], tr.states[j].records[id];
            && after.status == (if op.Complete? then Completed else Failed) && after.finishedAt == Some(stamp)
            && after.executionTimeMs == Some(if before.startedAt.Some? then stamp - before.startedAt.value else 0)
            && (forall k | k in op.result && !(op.Fail? && k == "error") :: k in after.fields && after.fields[k] == op.result[k])
            && (op.Fail? ==> "error" in after.fields && after.fields["error"] == op.error)
            && (forall k | k in before.fields && k !in op.result && !(op.Fail? && k == "error") ::
                  k in after.fields && after.fields[k] == before.fields[k])
  {
    var e := tr.events[i];
    Written(tr, i, id);
    StatusAfter(id, e.op, tr.states[i].records[id], e.t);
    TimesAfter(id, e.op, tr.states[i].records[id], e.t);
    ReportsAreKept(id, e.op, tr.states[i].records[id], e.t);
    FinishedForever(tr, i + 1, j, id);
  }
}
