/** Whole histories of the job store: any interleaving of whole locked
    operations by workers, cancellers, in-process runs, the stale-lease
    detector and the operator, and what every such history keeps. */
module JobHistory {
  import opened Common
  import opened JobRecords

  /** `issued` are the lease ids ever offered to a claim; `inProcess` are the
      jobs this server has itself taken from queued to running. */
  datatype State = State(records: map<JobId, Job>, issued: set<LeaseId>, inProcess: set<JobId>)

  datatype Event =
    | Enqueue(id: JobId, cwd: string, fields: map<string, string>, now: int)
    | Act(id: JobId, op: Op, t: Reading)

  datatype Trace = Trace(states: seq<State>, events: seq<Event>)

  const Empty := State(map[], {}, {})

  function NewJob(id: JobId, cwd: string, fields: map<string, string>, now: int): Job {
    Job(id, Queued, None, cwd, now, now, None, None, None, None, None, None, None, fields)
  }

  function EffectOf(s: State, id: JobId, op: Op, t: Reading): Effect {
    Decide(id, op, Get(s.records, id), t)
  }

  /** Job ids and lease ids are drawn fresh; the clock never runs backwards on
      one record; only an in-process run marks its job waiting or finishes it. */
  ghost predicate Enabled(s: State, e: Event) {
    match e
    case Enqueue(id, _, _, _) => SafeJobId(id) && id !in s.records
    case Act(id, op, t) =>
      && t.check <= t.stamp
      && (Get(s.records, id).Some? ==> s.records[id].updatedAt <= t.check)
      && (op.Claim? ==> op.lease.leaseId !in s.issued)
      && (op.MarkWaiting? || op.FinishRun? ==> id in s.inProcess)
      && (op.FinishRun? ==> Finished(op.outcome))
  }

  function Next(s: State, e: Event): State {
    match e
    case Enqueue(id, cwd, fields, now) => s.(records := s.records[id := NewJob(id, cwd, fields, now)])
    case Act(id, op, t) =>
      var write := EffectOf(s, id, op, t).write;
      State(if write.Some? then s.records[id := write.value] else s.records,
            if op.Claim? then s.issued + {op.lease.leaseId} else s.issued,
            if op.BeginRun? && write.Some? then s.inProcess + {id} else s.inProcess)
  }

  ghost predicate IsTrace(tr: Trace) {
    && |tr.states| == |tr.events| + 1
    && tr.states[0] == Empty
    && forall i {:trigger tr.events[i]} :: 0 <= i < |tr.events| ==>
         Enabled(tr.states[i], tr.events[i]) && tr.states[i + 1] == Next(tr.states[i], tr.events[i])
  }

  // ---------------------------------------------------------------------
  // The invariant of every reachable store

  ghost predicate RecordOk(id: JobId, job: Job, issued: set<LeaseId>, inProcess: set<JobId>) {
    && SafeJobId(id)
    && job.jobId == id
    && job.status != CancelRequested
    && (job.lease.Some? ==>
          && job.lease.value.leaseId in issued
          && job.workerId == Some(job.lease.value.workerId)
          && job.status != WaitingForApproval)
    && (job.checkpoint.Some? ==> LeaseIs(job, job.checkpoint.value.leaseId) && job.checkpoint.value.jobId == id)
    && (job.status == Queued ==> job.lease.None? && job.workerId.None? && job.checkpoint.None?)
    && (job.status == Assigned || job.status == Stalled ==> job.lease.Some?)
    && (id in inProcess ==> job.lease.None? && job.status != Queued)
    && (job.status == Running && job.lease.None? ==> id in inProcess)
  }

  ghost predicate LeasesApart(records: map<JobId, Job>) {
    forall a, b | a in records && b in records && a != b && records[a].lease.Some? ::
      !LeaseIs(records[b], records[a].lease.value.leaseId)
  }

  ghost predicate Inv(s: State) {
    && (forall id | id in s.records :: RecordOk(id, s.records[id], s.issued, s.inProcess))
    && s.inProcess <= s.records.Keys
    && LeasesApart(s.records)
  }

  lemma WriteKeepsRecordOk(id: JobId, job: Job, op: Op, t: Reading, issued: set<LeaseId>, inProcess: set<JobId>)
    requires RecordOk(id, job, issued, inProcess)
    requires op.MarkWaiting? || op.FinishRun? ==> id in inProcess
    requires op.FinishRun? ==> Finished(op.outcome)
    requires Decide(id, op, Some(job), t).write.Some?
    ensures RecordOk(id, Decide(id, op, Some(job), t).write.value,
                     if op.Claim? then issued + {op.lease.leaseId} else issued,
                     if op.BeginRun? then inProcess + {id} else inProcess)
  {
  }

  /** A write either keeps the lease id that was on the record, drops it, or is
      a claim bringing its own. */
  lemma WriteKeepsLeaseId(id: JobId, job: Job, op: Op, t: Reading)
    requires Decide(id, op, Some(job), t).write.Some?
    ensures var job' := Decide(id, op, Some(job), t).write.value;
            forall l | LeaseIs(job', l) :: LeaseIs(job, l) || (op.Claim? && l == op.lease.leaseId)
  {
  }

  /** Replacing one record by a well-formed one, with no foreign lease id,
      keeps the whole store well formed. */
  lemma ReplaceKeepsInv(s: State, id: JobId, job: Job, issued: set<LeaseId>, inProcess: set<JobId>)
    requires Inv(s) && id in s.records && RecordOk(id, job, issued, inProcess)
    requires s.issued <= issued && s.inProcess <= inProcess <= s.inProcess + {id}
    requires forall l | LeaseIs(job, l) :: LeaseIs(s.records[id], l) || l !in s.issued
    ensures Inv(State(s.records[id := job], issued, inProcess))
  {
    var records := s.records[id := job];
    forall other | other in records
      ensures RecordOk(other, records[other], issued, inProcess)
    {
      if other != id { assert RecordOk(other, s.records[other], s.issued, s.inProcess); }
    }
    forall a, b | a in records && b in records && a != b && records[a].lease.Some?
      ensures !LeaseIs(records[b], records[a].lease.value.leaseId)
    {
      if a != id { assert RecordOk(a, s.records[a], s.issued, s.inProcess); }
      if b != id { assert RecordOk(b, s.records[b], s.issued, s.inProcess); }
      if a == id { assert LeaseIs(job, job.lease.value.leaseId); }
    }
  }

  lemma StepKeepsInv(s: State, e: Event)
    requires Inv(s) && Enabled(s, e)
    ensures Inv(Next(s, e))
  {
    if e.Act? {
      var eff := EffectOf(s, e.id, e.op, e.t);
      if eff.write.Some? {
        AbsentNeverWritten(s, e);
        assert RecordOk(e.id, s.records[e.id], s.issued, s.inProcess);
        WriteKeepsRecordOk(e.id, s.records[e.id], e.op, e.t, s.issued, s.inProcess);
        WriteKeepsLeaseId(e.id, s.records[e.id], e.op, e.t);
        ReplaceKeepsInv(s, e.id, eff.write.value, Next(s, e).issued, Next(s, e).inProcess);
      } else {
        assert forall id | id in s.records :: RecordOk(id, s.records[id], s.issued, s.inProcess);
      }
    } else {
      assert forall id | id in s.records :: RecordOk(id, s.records[id], s.issued, s.inProcess);
    }
  }

  /** Only an in-process run could write a record that is not there, and its
      record always is. */
  lemma AbsentNeverWritten(s: State, e: Event)
    requires Inv(s) && Enabled(s, e) && e.Act?
    requires EffectOf(s, e.id, e.op, e.t).write.Some?
    ensures SafeJobId(e.id) && e.id in s.records
  {
    if e.op.FinishRun? { assert RecordOk(e.id, s.records[e.id], s.issued, s.inProcess); }
  }

  lemma {:induction false} InvAt(tr: Trace, i: nat)
    requires IsTrace(tr) && i < |tr.states|
    ensures Inv(tr.states[i])
  {
    if i > 0 {
      InvAt(tr, i - 1);
      StepKeepsInv(tr.states[i - 1], tr.events[i - 1]);
    }
  }
}
