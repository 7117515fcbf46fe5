/** Safety of the leased queue over every history of locked operations. */
module JobSafety {
  import opened Common
  import opened JobRecords
  import opened JobHistory

  ghost predicate Wrote(tr: Trace, k: nat, id: JobId)
    requires IsTrace(tr) && k < |tr.events|
  {
    tr.events[k].Act? && tr.events[k].id == id && EffectOf(tr.states[k], id, tr.events[k].op, tr.events[k].t).write.Some?
  }

  /** A record that an event does not write is the same record afterwards. */
  lemma Unwritten(tr: Trace, k: nat, id: JobId)
    requires IsTrace(tr) && k < |tr.events| && id in tr.states[k].records && !Wrote(tr, k, id)
    ensures id in tr.states[k + 1].records && tr.states[k + 1].records[id] == tr.states[k].records[id]
  {
    assert Enabled(tr.states[k], tr.events[k]);
  }

  lemma Written(tr: Trace, k: nat, id: JobId)
    requires IsTrace(tr) && k < |tr.events| && Wrote(tr, k, id)
    ensures SafeJobId(id) && id in tr.states[k].records && id in tr.states[k + 1].records
    ensures var e := tr.events[k];
            Decide(id, e.op, Some(tr.states[k].records[id]), e.t).write == Some(tr.states[k + 1].records[id])
    ensures Enabled(tr.states[k], tr.events[k])
  {
    InvAt(tr, k);
    assert Enabled(tr.states[k], tr.events[k]);
    AbsentNeverWritten(tr.states[k], tr.events[k]);
  }

  // ---------------------------------------------------------------------
  // Finished jobs

  /** No locked operation overwrites a finished record. */
  lemma FinishedRefusesEveryOp(id: JobId, op: Op, job: Job, t: Reading)
    requires Finished(job.status)
    ensures Decide(id, op, Some(job), t).write.None?
  {
  }

  /** Once a job is completed, failed or cancelled, no later operation changes
      any field of its record. */
  lemma {:induction false} FinishedForever(tr: Trace, i: nat, j: nat, id: JobId)
    requires IsTrace(tr) && i <= j < |tr.states|
    requires id in tr.states[i].records && Finished(tr.states[i].records[id].status)
    ensures id in tr.states[j].records && tr.states[j].records[id] == tr.states[i].records[id]
  {
    if i < j {
      FinishedForever(tr, i, j - 1, id);
      if Wrote(tr, j - 1, id) {
        Written(tr, j - 1, id);
        FinishedRefusesEveryOp(id, tr.events[j - 1].op, tr.states[j - 1].records[id], tr.events[j - 1].t);
      } else {
        Unwritten(tr, j - 1, id);
      }
    }
  }

  // ---------------------------------------------------------------------
  // Fencing by lease id

  predicate Carries(op: Op, leaseId: LeaseId) {
    match op
    case Complete(l, _) => l == leaseId
    case Fail(l, _, _) => l == leaseId
    case Start(_, l) => l == leaseId
    case Renew(l) => l == leaseId
    case SaveCheckpoint(l, _, _, _) => l == leaseId
    case _ => false
  }

  /** When a worker's operation under `leaseId` may change the record: its
      lease is the one on the record, the job is unfinished, the lease has not
      passed its expiry (a checkpoint ignores expiry), and a start also names
      the right worker and finds the job assigned. */
  predicate Admitted(op: Op, job: Job, t: Reading)
    requires exists l :: Carries(op, l)
  {
    && !Finished(job.status)
    && job.lease.Some? && Carries(op, job.lease.value.leaseId)
    && (!op.SaveCheckpoint? ==> t.check <= job.lease.value.expiresAt)
    && (op.Start? ==> job.status == Assigned && op.workerId == job.lease.value.workerId)
  }

  /** A worker operation writes exactly when it is admitted, and a write keeps
      its own lease id on the record. */
  lemma WorkerWritesExactly(id: JobId, op: Op, job: Job, t: Reading)
    requires exists l :: Carries(op, l)
    ensures Decide(id, op, Some(job), t).write.Some? <==> Admitted(op, job, t)
    ensures Admitted(op, job, t) ==>
              var job' := Decide(id, op, Some(job), t).write.value;
              && LeaseIs(job', job.lease.value.leaseId) && job'.workerId == job.workerId && job'.attempt == job.attempt
              && (op.Renew? || job'.lease == job.lease)
              && (op.SaveCheckpoint? || job'.checkpoint == job.checkpoint)
              && (op.Complete? <==> job'.status == Completed) && (op.Fail? <==> job'.status == Failed)
  {
  }

  ghost predicate LeaseGone(s: State, id: JobId, leaseId: LeaseId) {
    leaseId in s.issued && (id in s.records ==> !LeaseIs(s.records[id], leaseId))
  }

  lemma {:induction false} LeaseStaysGone(tr: Trace, i: nat, j: nat, id: JobId, leaseId: LeaseId)
    requires IsTrace(tr) && i <= j < |tr.states| && LeaseGone(tr.states[i], id, leaseId)
    ensures LeaseGone(tr.states[j], id, leaseId)
  {
    if i < j {
      LeaseStaysGone(tr, i, j - 1, id, leaseId);
      assert Enabled(tr.states[j - 1], tr.events[j - 1]);
      if Wrote(tr, j - 1, id) {
        Written(tr, j - 1, id);
        WriteKeepsLeaseId(id, tr.states[j - 1].records[id], tr.events[j - 1].op, tr.events[j - 1].t);
      } else if id in tr.states[j - 1].records {
        Unwritten(tr, j - 1, id);
      }
    }
  }

  /** A worker whose lease has left the record is fenced off for good: nothing
      it sends under that lease ever changes the job again. */
  lemma FencedForever(tr: Trace, i: nat, j: nat, id: JobId, leaseId: LeaseId)
    requires IsTrace(tr) && i <= j < |tr.events| && LeaseGone(tr.states[i], id, leaseId)
    requires tr.events[j].Act? && tr.events[j].id == id && Carries(tr.events[j].op, leaseId)
    ensures !Wrote(tr, j, id)
  {
    LeaseStaysGone(tr, i, j, id, leaseId);
    if Wrote(tr, j, id) {
      Written(tr, j, id);
      WorkerWritesExactly(id, tr.events[j].op, tr.states[j].records[id], tr.events[j].t);
    }
  }

  // ---------------------------------------------------------------------
  // Exclusive claims

  ghost predicate ClaimedAt(tr: Trace, k: nat, id: JobId)
    requires IsTrace(tr) && k < |tr.events|
  {
    Wrote(tr, k, id) && tr.events[k].op.Claim?
  }

  /** Event `k` takes the lease `leaseId` off the job: the detector requeues it
      at or after the expiry then on the record, or an operator recovers it. */
  ghost predicate ReleasedAt(tr: Trace, k: nat, id: JobId, leaseId: LeaseId)
    requires IsTrace(tr) && k < |tr.events|
  {
    && Wrote(tr, k, id) && id in tr.states[k].records && LeaseIs(tr.states[k].records[id], leaseId)
    && var job := tr.states[k].records[id];
       (tr.events[k].op.DetectStale? && !Mutated(job) && job.lease.value.expiresAt <= tr.events[k].t.check)
       || (tr.events[k].op.Recover? && job.status == Stalled)
  }

  lemma HeldOrReleasedStep(id: JobId, op: Op, job: Job, t: Reading, leaseId: LeaseId)
    requires job.status != Queued && LeaseIs(job, leaseId)
    requires Decide(id, op, Some(job), t).write.Some?
    requires !(op.DetectStale? && !Mutated(job)) && !op.Recover?
    requires op.FinishRun? ==> Finished(op.outcome)
    ensures var job' := Decide(id, op, Some(job), t).write.value; job'.status != Queued && LeaseIs(job', leaseId)
  {
  }

  lemma {:induction false} HeldUntilReleased(tr: Trace, i: nat, m: nat, id: JobId)
    requires IsTrace(tr) && i < m < |tr.states| && ClaimedAt(tr, i, id)
    requires forall k | i < k < m :: !ReleasedAt(tr, k, id, tr.events[i].op.lease.leaseId)
    ensures id in tr.states[m].records && tr.states[m].records[id].status != Queued
    ensures LeaseIs(tr.states[m].records[id], tr.events[i].op.lease.leaseId)
  {
    if m == i + 1 {
      Written(tr, i, id);
    } else {
      HeldUntilReleased(tr, i, m - 1, id);
      if Wrote(tr, m - 1, id) {
        Written(tr, m - 1, id);
        var e := tr.events[m - 1];
        assert !ReleasedAt(tr, m - 1, id, tr.events[i].op.lease.leaseId);
        HeldOrReleasedStep(id, e.op, tr.states[m - 1].records[id], e.t, tr.events[i].op.lease.leaseId);
      } else {
        Unwritten(tr, m - 1, id);
      }
    }
  }

  /** Between any two successful claims of one job, the first claim's lease was
      released, by expiry or by an operator. */
  lemma ClaimsSeparated(tr: Trace, i: nat, j: nat, id: JobId)
    requires IsTrace(tr) && i < j < |tr.events| && ClaimedAt(tr, i, id) && ClaimedAt(tr, j, id)
    ensures exists k :: i < k < j && ReleasedAt(tr, k, id, tr.events[i].op.lease.leaseId)
  {
    if forall k | i < k < j :: !ReleasedAt(tr, k, id, tr.events[i].op.lease.leaseId) {
      HeldUntilReleased(tr, i, j, id);
      Written(tr, j, id);
    }
  }

  /** Releasing a lease fences its worker off for the rest of the history. */
  lemma FencedAfterRelease(tr: Trace, k: nat, j: nat, id: JobId, leaseId: LeaseId)
    requires IsTrace(tr) && k < j < |tr.events| && ReleasedAt(tr, k, id, leaseId)
    requires tr.events[j].Act? && tr.events[j].id == id && Carries(tr.events[j].op, leaseId)
    ensures !Wrote(tr, j, id)
  {
    Written(tr, k, id);
    InvAt(tr, k);
    assert RecordOk(id, tr.states[k].records[id], tr.states[k].issued, tr.states[k].inProcess);
    assert LeaseGone(tr.states[k + 1], id, leaseId);
    FencedForever(tr, k + 1, j, id, leaseId);
  }

  // ---------------------------------------------------------------------
  // Work whose effects may already be on disk

  ghost predicate MutationReported(tr: Trace, k: nat, id: JobId)
    requires IsTrace(tr) && k < |tr.events|
  {
    Wrote(tr, k, id) && tr.events[k].op.SaveCheckpoint? && tr.events[k].op.filesystemMutated
  }

  ghost predicate MutationSettled(tr: Trace, k: nat, id: JobId)
    requires IsTrace(tr) && k < |tr.events|
  {
    Wrote(tr, k, id)
    && (tr.events[k].op.Recover? || (tr.events[k].op.SaveCheckpoint? && !tr.events[k].op.filesystemMutated))
  }

  lemma MutatedStep(id: JobId, op: Op, job: Job, t: Reading)
    requires job.status != Queued && Mutated(job)
    requires Decide(id, op, Some(job), t).write.Some?
    requires !op.Recover? && !(op.SaveCheckpoint? && !op.filesystemMutated)
    requires op.FinishRun? ==> Finished(op.outcome)
    ensures var job' := Decide(id, op, Some(job), t).write.value; job'.status != Queued && Mutated(job')
  {
  }

  lemma {:induction false} MutatedUntilSettled(tr: Trace, i: nat, m: nat, id: JobId)
    requires IsTrace(tr) && i < m < |tr.states| && MutationReported(tr, i, id)
    requires forall k | i < k < m :: !MutationSettled(tr, k, id)
    ensures id in tr.states[m].records && tr.states[m].records[id].status != Queued && Mutated(tr.states[m].records[id])
  {
    if m == i + 1 {
      Written(tr, i, id);
      InvAt(tr, i);
      assert RecordOk(id, tr.states[i].records[id], tr.states[i].issued, tr.states[i].inProcess);
    } else {
      MutatedUntilSettled(tr, i, m - 1, id);
      assert !MutationSettled(tr, m - 1, id);
      if Wrote(tr, m - 1, id) {
        Written(tr, m - 1, id);
        MutatedStep(id, tr.events[m - 1].op, tr.states[m - 1].records[id], tr.events[m - 1].t);
      } else {
        Unwritten(tr, m - 1, id);
      }
    }
  }

  /** A job that reported a mutation is back in the queue only if the report was
      settled in between: by an operator, or by a later clean checkpoint. */
  lemma MutatedRequeueWasSettled(tr: Trace, i: nat, j: nat, id: JobId)
    requires IsTrace(tr) && i < j < |tr.states| && MutationReported(tr, i, id)
    requires id in tr.states[j].records && tr.states[j].records[id].status == Queued
    ensures exists k :: i < k < j && MutationSettled(tr, k, id)
  {
    if forall k | i < k < j :: !MutationSettled(tr, k, id) {
      MutatedUntilSettled(tr, i, j, id);
    }
  }

  ghost predicate RecoveredAt(tr: Trace, k: nat, id: JobId)
    requires IsTrace(tr) && k < |tr.events|
  {
    Wrote(tr, k, id) && tr.events[k].op.Recover?
  }

  ghost predicate CheckpointedAt(tr: Trace, k: nat, id: JobId)
    requires IsTrace(tr) && k < |tr.events|
  {
    Wrote(tr, k, id) && tr.events[k].op.SaveCheckpoint?
  }

  /** A job whose latest checkpoint says the filesystem was mutated is back in
      the queue only if an operator recovered it in between. */
  lemma MutatedRequeueNeedsOperator(tr: Trace, i: nat, j: nat, id: JobId)
    requires IsTrace(tr) && i < j < |tr.states| && MutationReported(tr, i, id)
    requires forall k | i < k < j :: !CheckpointedAt(tr, k, id)
    requires id in tr.states[j].records && tr.states[j].records[id].status == Queued
    ensures exists k :: i < k < j && RecoveredAt(tr, k, id)
  {
    MutatedRequeueWasSettled(tr, i, j, id);
    var k :| i < k < j && MutationSettled(tr, k, id);
    assert !CheckpointedAt(tr, k, id);
    assert RecoveredAt(tr, k, id);
  }

  // ---------------------------------------------------------------------
  // One owner

  /** A job this server once ran in-process never carries a lease again, and no
      claim of it ever succeeds. */
  lemma {:induction false} InProcessNeverLeased(tr: Trace, i: nat, j: nat, id: JobId)
    requires IsTrace(tr) && i <= j < |tr.states| && id in tr.states[i].inProcess
    ensures id in tr.states[j].inProcess && id in tr.states[j].records && tr.states[j].records[id].lease.None?
    ensures j < |tr.events| ==> !ClaimedAt(tr, j, id)
  {
    InvAt(tr, j);
    if i < j {
      InProcessNeverLeased(tr, i, j - 1, id);
      assert Enabled(tr.states[j - 1], tr.events[j - 1]);
    }
    assert RecordOk(id, tr.states[j].records[id], tr.states[j].issued, tr.states[j].inProcess);
  }

  /** A running job belongs to an in-process run or to the holder of its lease,
      never to both and never to neither; two jobs never share a lease. */
  lemma RunningHasOneOwner(tr: Trace, i: nat, id: JobId)
    requires IsTrace(tr) && i < |tr.states| && id in tr.states[i].records && tr.states[i].records[id].status == Running
    ensures id in tr.states[i].inProcess <==> tr.states[i].records[id].lease.None?
    ensures forall other | other in tr.states[i].records && other != id && tr.states[i].records[id].lease.Some? ::
              !LeaseIs(tr.states[i].records[other], tr.states[i].records[id].lease.value.leaseId)
  {
    InvAt(tr, i);
    assert RecordOk(id, tr.states[i].records[id], tr.states[i].issued, tr.states[i].inProcess);
  }

  // ---------------------------------------------------------------------
  // Attempts are conserved

  ghost predicate CountsAsAttempt(tr: Trace, k: nat, id: JobId)
    requires IsTrace(tr) && k < |tr.events|
  {
    Wrote(tr, k, id) && (tr.events[k].op.Claim? || tr.events[k].op.Recover?)
  }

  ghost function AttemptEvents(tr: Trace, n: nat, id: JobId): nat
    requires IsTrace(tr) && n <= |tr.events|
  {
    if n == 0 then 0 else AttemptEvents(tr, n - 1, id) + if CountsAsAttempt(tr, n - 1, id) then 1 else 0
  }

  lemma AttemptStep(id: JobId, op: Op, job: Job, t: Reading)
    requires Decide(id, op, Some(job), t).write.Some?
    ensures Attempts(Decide(id, op, Some(job), t).write.value)
            == Attempts(job) + if op.Claim? || op.Recover? then 1 else 0
  {
  }

  ghost function AttemptsAt(s: State, id: JobId): nat {
    if id in s.records then Attempts(s.records[id]) else 0
  }

  lemma AttemptsAfter(tr: Trace, k: nat, id: JobId)
    requires IsTrace(tr) && k < |tr.events|
    ensures AttemptsAt(tr.states[k + 1], id)
            == AttemptsAt(tr.states[k], id) + if CountsAsAttempt(tr, k, id) then 1 else 0
  {
    assert Enabled(tr.states[k], tr.events[k]);
    if Wrote(tr, k, id) {
      Written(tr, k, id);
      AttemptStep(id, tr.events[k].op, tr.states[k].records[id], tr.events[k].t);
    } else if id in tr.states[k].records {
      Unwritten(tr, k, id);
    }
  }

  /** The attempt counter is the number of claims plus the number of operator
      recoveries that ever took effect on the job. */
  lemma {:induction false} AttemptsConserved(tr: Trace, n: nat, id: JobId)
    requires IsTrace(tr) && n < |tr.states|
    ensures AttemptEvents(tr, n, id) == AttemptsAt(tr.states[n], id)
  {
    if n > 0 {
      AttemptsConserved(tr, n - 1, id);
      AttemptsAfter(tr, n - 1, id);
    }
  }

  // ---------------------------------------------------------------------
  // The one instant at which expiry is judged differently

  /** After the detector has stalled a job, its lease can still be renewed at
      one instant only: the expiry itself, with no time passing in between. */
  lemma StalledLeaseRenewableOnlyAtExpiry(id: JobId, job: Job, leaseId: LeaseId, t: Reading, t': Reading)
    requires t.check <= t.stamp <= t'.check <= t'.stamp
    requires Decide(id, DetectStale, Some(job), t).answer == MarkedStalled
    ensures var stalled := Decide(id, DetectStale, Some(job), t).write;
            && stalled.Some? && stalled.value.updatedAt == t.stamp && stalled.value.status == Stalled
            && (Decide(id, Renew(leaseId), stalled, t').write.Some? <==>
                  LeaseIs(job, leaseId) && t.check == t'.check == job.lease.value.expiresAt)
  {
  }
}
