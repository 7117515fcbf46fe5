/** The queue object itself. Each method is the code the server runs between
    two awaits, or between taking and releasing a job's lock. Its ghost state
    ties the object to the histories of the store, so that what holds of every
    history and of every life of the server holds of the object. */
module JobQueue {
  import opened Common
  import opened JobRecords
  import opened JobHistory
  import opened JobSections
  import opened JobWorkspaces

  /** What a locked operation promises: nothing at all while the lock is taken,
      and otherwise exactly the event of the history. */
  ghost predicate Performed(before: State, locked: bool, after: State, id: JobId, op: Op, t: Reading, answer: Option<Answer>) {
    if locked then answer == None && after == before
    else answer == Some(EffectOf(before, id, op, t).answer) && after == Next(before, Act(id, op, t))
  }

  const LOCK_RETRY_ATTEMPTS := 8

  /** Another actor holds the lock at every attempt to take it. */
  ghost predicate LockedOut(busy: nat -> bool) {
    forall n | 0 <= n < LOCK_RETRY_ATTEMPTS :: busy(n)
  }

  method AcquireRetrying(busy: nat -> bool) returns (acquired: bool)
    ensures acquired <==> !LockedOut(busy)
  {
    for attempt := 0 to LOCK_RETRY_ATTEMPTS
      invariant forall n | 0 <= n < attempt :: busy(n)
    {
      if !busy(attempt) { return true; }
    }
    return false;
  }

  /** How the runner of an in-process run comes back. */
  datatype Ending = Returned(ok: bool) | Raised(isAbort: bool)

  function OutcomeOf(ending: Ending, aborted: bool): (outcome: Status)
    ensures Finished(outcome)
    ensures outcome == Completed <==> ending == Returned(true) && !aborted
    ensures outcome == Cancelled <==> if ending.Returned? then aborted else ending.isAbort
  {
    match ending
    case Returned(ok) => if aborted then Cancelled else if ok then Completed else Failed
    case Raised(isAbort) => if isAbort then Cancelled else Failed
  }

  ghost function JobIds(job: Option<Job>): set<JobId> {
    if job.Some? then {job.value.jobId} else {}
  }

  /** `controllers` are the jobs whose runs a cancel can reach, `aborted` those it
      has reached. Whether another actor holds a job's lock is up to each call. */
  class FileBackedJobQueue {
    const concurrency: nat
    var records: map<JobId, Job>
    ghost var issued: set<LeaseId>
    ghost var inProcess: set<JobId>
    var activeJobs: int
    var activeWorkspaces: set<string>
    var activeRuns: map<RunId, ActiveRun>
    var waitingPasses: set<PassId>
    var drainPromise: Option<PassId>
    var drainTimer: bool
    var controllers: set<JobId>
    var aborted: set<JobId>
    var isPaused: bool
    var isStopped: bool
    var stopPhase: StopPhase

    constructor (limit: nat)
      ensures Valid() && Store() == Empty && Memory() == Boot(limit) && controllers == aborted == {}
    {
      concurrency := Max(1, limit);
      records := map[];
      issued, inProcess := {}, {};
      activeJobs, activeWorkspaces, activeRuns := 0, {}, map[];
      waitingPasses, drainPromise, drainTimer, stopPhase := {}, None, false, NotStopping;
      controllers, aborted := {}, {};
      isPaused, isStopped := false, false;
      new;
      assert Held(activeRuns) == {} && QueuedRuns(activeRuns) == {};
    }

    function Memory(): Server
      reads this
    {
      Server(concurrency, isPaused, isStopped, activeJobs, activeWorkspaces, activeRuns, waitingPasses, drainPromise, drainTimer, stopPhase)
    }

    ghost function Store(): State
      reads this
    {
      State(records, issued, inProcess)
    }

    /** The store is one that histories reach, the workspaces are exactly held and
        a stop waits for every run. */
    ghost predicate Valid()
      reads this
    {
      Inv(Store()) && WorkspacesExact(Memory()) && StopSound(Memory())
    }

    method Enqueue(id: JobId, cwd: string, fields: map<string, string>, now: int)
      requires Valid() && Enabled(Store(), JobHistory.Enqueue(id, cwd, fields, now))
      modifies this`records, this`drainTimer
      ensures Valid() && Store() == Next(old(Store()), JobHistory.Enqueue(id, cwd, fields, now))
      ensures Memory() == Take(old(Memory()), Wake)
    {
      StepKeepsInv(Store(), JobHistory.Enqueue(id, cwd, fields, now));
      records := records[id := NewJob(id, cwd, fields, now)];
      ScheduleDrain();
    }

    method ScheduleDrain()
      modifies this`drainTimer
      ensures Memory() == Schedule(old(Memory()))
    {
      if isStopped || drainTimer { return; }
      drainTimer := true;
    }

    /** Writes what a locked section decided on the record it has read. */
    method Land(id: JobId, ghost op: Op, ghost t: Reading, write: Option<Job>, ghost answer: Answer)
      requires Valid() && Enabled(Store(), Act(id, op, t)) && Effect(write, answer) == EffectOf(Store(), id, op, t)
      modifies this`records, this`issued, this`inProcess
      ensures Valid() && Store() == Next(old(Store()), Act(id, op, t))
    {
      StepKeepsInv(Store(), Act(id, op, t));
      ghost var after := Next(Store(), Act(id, op, t));
      issued, inProcess := after.issued, after.inProcess;
      if write.Some? { records := records[id := write.value]; }
      assert Store() == after && Memory() == old(Memory());
    }

    /** Claims and then reads the record back to verify the claim. */
    method ClaimJob(id: JobId, lease: Lease, t: Reading, busy: bool) returns (answer: Option<Answer>)
      requires Valid() && Enabled(Store(), Act(id, Claim(lease), t))
      modifies this`records, this`issued, this`inProcess
      ensures Valid() && Performed(old(Store()), SafeJobId(id) && busy, Store(), id, Claim(lease), t, answer)
    {
      if SafeJobId(id) && busy { return None; }
      var record := Get(records, id);
      var write := ClaimSection(record, lease, t);
      Land(id, Claim(lease), t, write, if write.Some? then Record(write.value) else NoJob);
      if write.None? { return Some(NoJob); }
      var verify := Get(records, id);
      answer := Some(if verify.Some? && LeaseIs(verify.value, lease.leaseId) then Record(verify.value) else NoJob);
    }

    method CompleteJob(id: JobId, leaseId: LeaseId, result: map<string, string>, t: Reading, busy: bool) returns (answer: Option<Answer>)
      requires Valid() && Enabled(Store(), Act(id, Complete(leaseId, result), t))
      modifies this`records, this`issued, this`inProcess
      ensures Valid() && Performed(old(Store()), busy, Store(), id, Complete(leaseId, result), t, answer)
    {
      if busy { return None; }
      var record := Get(records, id);
      var write, a := CompleteSection(record, leaseId, result, t);
      Land(id, Complete(leaseId, result), t, write, a);
      answer := Some(a);
    }

    method FailJob(id: JobId, leaseId: LeaseId, error: string, result: map<string, string>, t: Reading, busy: bool) returns (answer: Option<Answer>)
      requires Valid() && Enabled(Store(), Act(id, Fail(leaseId, error, result), t))
      modifies this`records, this`issued, this`inProcess
      ensures Valid() && Performed(old(Store()), busy, Store(), id, Fail(leaseId, error, result), t, answer)
    {
      if busy { return None; }
      var record := Get(records, id);
      var write, a := FailSection(record, leaseId, error, result, t);
      Land(id, Fail(leaseId, error, result), t, write, a);
      answer := Some(a);
    }

    method StartJob(id: JobId, workerId: string, leaseId: LeaseId, t: Reading, busy: bool) returns (answer: Option<Answer>)
      requires Valid() && Enabled(Store(), Act(id, Start(workerId, leaseId), t))
      modifies this`records, this`issued, this`inProcess
      ensures Valid() && Performed(old(Store()), busy, Store(), id, Start(workerId, leaseId), t, answer)
    {
      if busy { return None; }
      var record := Get(records, id);
      var write, a := StartSection(record, workerId, leaseId, t);
      Land(id, Start(workerId, leaseId), t, write, a);
      answer := Some(a);
    }

    method RenewLease(id: JobId, leaseId: LeaseId, t: Reading, busy: bool) returns (answer: Option<Answer>)
      requires Valid() && Enabled(Store(), Act(id, Renew(leaseId), t))
      modifies this`records, this`issued, this`inProcess
      ensures Valid() && Performed(old(Store()), busy, Store(), id, Renew(leaseId), t, answer)
    {
      if busy { return None; }
      var record := Get(records, id);
      var write, a := RenewSection(record, leaseId, t);
      Land(id, Renew(leaseId), t, write, a);
      answer := Some(a);
    }

    method SaveMutationCheckpoint(id: JobId, leaseId: LeaseId, stage: string, filesystemMutated: bool,
                                  worktreePath: Option<string>, t: Reading, busy: bool) returns (answer: Option<Answer>)
      requires Valid() && Enabled(Store(), Act(id, SaveCheckpoint(leaseId, stage, filesystemMutated, worktreePath), t))
      modifies this`records, this`issued, this`inProcess
      ensures Valid() && Performed(old(Store()), busy, Store(), id,
                                   SaveCheckpoint(leaseId, stage, filesystemMutated, worktreePath), t, answer)
    {
      if busy { return None; }
      var record := Get(records, id);
      var write, a := CheckpointSection(record, id, leaseId, stage, filesystemMutated, worktreePath, t);
      Land(id, SaveCheckpoint(leaseId, stage, filesystemMutated, worktreePath), t, write, a);
      answer := Some(a);
    }

    method DetectStaleLease(id: JobId, t: Reading, busy: bool) returns (answer: Option<Answer>)
      requires Valid() && Enabled(Store(), Act(id, DetectStale, t))
      modifies this`records, this`issued, this`inProcess
      ensures Valid() && Performed(old(Store()), busy, Store(), id, DetectStale, t, answer)
    {
      if busy { return None; }
      var record := Get(records, id);
      var write, a := DetectSection(record, t);
      Land(id, DetectStale, t, write, a);
      answer := Some(a);
    }

    /** One listed job of a detection pass. */
    method DetectRound(job: Job, now: int, t: Reading, locked: set<JobId>) returns (transition: Option<Answer>)
      requires Valid() && Enabled(Store(), Act(job.jobId, DetectStale, t))
      modifies this`records, this`issued, this`inProcess
      ensures Valid() && Store() == old(Store()).(records := records) && records == Round(old(records), locked, job, now, t)
      ensures forall wanted | wanted == Requeued || wanted == MarkedStalled ::
                transition == Some(wanted) <==> Reports(old(records), locked, job, now, t, wanted)
    {
      if job.lease.None? { return None; }
      if job.lease.value.expiresAt > now { return None; }
      if job.status != Assigned && job.status != Running && job.status != WaitingForApproval { return None; }
      transition := DetectStaleLease(job.jobId, t, job.jobId in locked);
    }

    /** One detection pass over a listing `all` that was taken without any lock
        and may be out of date. The jobs in `locked` are found locked. */
    method DetectStaleLeases(all: seq<Job>, now: int, ts: Readings, locked: set<JobId>) returns (requeued: seq<JobId>, stalled: seq<JobId>)
      requires Valid() && InOrder(ts) && forall id | id in records :: records[id].updatedAt <= ts(0).check
      modifies this`records, this`issued, this`inProcess
      ensures Valid() && Store() == old(Store()).(records := records) && records == Sweep(old(records), locked, all, now, ts)
      ensures requeued == SweptIds(old(records), locked, all, now, ts, Requeued)
      ensures stalled == SweptIds(old(records), locked, all, now, ts, MarkedStalled)
    {
      requeued, stalled := [], [];
      for n := 0 to |all|
        invariant Valid() && Store() == old(Store()).(records := records)
        invariant forall id | id in records :: records[id].updatedAt <= ts(n).check
        invariant records == Sweep(old(records), locked, all[..n], now, ts)
        invariant requeued == SweptIds(old(records), locked, all[..n], now, ts, Requeued)
        invariant stalled == SweptIds(old(records), locked, all[..n], now, ts, MarkedStalled)
      {
        SweepSnoc(old(records), locked, all, now, ts, n);
        RoundIsTimely(records, locked, all[n], now, ts, n);
        var transition := DetectRound(all[n], now, ts(n), locked);
        if transition == Some(MarkedStalled) {
          stalled := stalled + [all[n].jobId];
        } else if transition == Some(Requeued) {
          requeued := requeued + [all[n].jobId];
        }
      }
      assert all[..|all|] == all;
    }

    method RecoverStalledJob(id: JobId, t: Reading, busy: bool) returns (answer: Option<Answer>)
      requires Valid() && Enabled(Store(), Act(id, Recover, t))
      modifies this`records, this`issued, this`inProcess
      ensures Valid() && Performed(old(Store()), busy, Store(), id, Recover, t, answer)
    {
      if busy { return None; }
      var record := Get(records, id);
      var write, a := RecoverSection(record, t);
      Land(id, Recover, t, write, a);
      answer := Some(a);
    }

    /** Aborts the job's run if there is one to reach, whether or not the lock can
        be had; an unsafe id is answered before anything else. */
    method CancelJob(id: JobId, t: Reading, busy: nat -> bool) returns (answer: Option<Answer>)
      requires Valid() && Enabled(Store(), Act(id, Cancel, t))
      modifies this`records, this`issued, this`inProcess, this`controllers, this`aborted
      ensures Valid() && Performed(old(Store()), SafeJobId(id) && LockedOut(busy), Store(), id, Cancel, t, answer)
      ensures controllers == old(controllers) - (if SafeJobId(id) then {id} else {})
      ensures aborted == old(aborted) + (if SafeJobId(id) && id in old(controllers) then {id} else {})
    {
      if !SafeJobId(id) { return Some(NoJob); }
      if id in controllers {
        aborted := aborted + {id};
        controllers := controllers - {id};
      }
      var acquired := AcquireRetrying(busy);
      if !acquired { return None; }
      var record := Get(records, id);
      var write, a := CancelSection(record, t);
      Land(id, Cancel, t, write, a);
      answer := Some(a);
    }

    method MarkWaitingForApproval(id: JobId, result: map<string, string>, t: Reading, busy: nat -> bool) returns (answer: Option<Answer>)
      requires Valid() && Enabled(Store(), Act(id, MarkWaiting(result), t))
      modifies this`records, this`issued, this`inProcess
      ensures Valid() && Performed(old(Store()), LockedOut(busy), Store(), id, MarkWaiting(result), t, answer)
    {
      var acquired := AcquireRetrying(busy);
      if !acquired { return None; }
      var record := Get(records, id);
      var write, a := MarkWaitingSection(record, result, t);
      Land(id, MarkWaiting(result), t, write, a);
      answer := Some(a);
    }

    /** The first locked section of an in-process run, whose controller is dropped
        when the job cannot be begun. */
    method BeginJobRun(id: JobId, t: Reading, busy: nat -> bool) returns (answer: Option<Answer>)
      requires Valid() && Enabled(Store(), Act(id, BeginRun, t))
      modifies this`records, this`issued, this`inProcess, this`controllers
      ensures Valid() && Performed(old(Store()), LockedOut(busy), Store(), id, BeginRun, t, answer)
      ensures controllers == old(controllers) - (if answer.Some? && answer.value.Record? then {} else {id})
    {
      var acquired := AcquireRetrying(busy);
      if acquired {
        var record := Get(records, id);
        var write, a := BeginRunSection(record, t);
        Land(id, BeginRun, t, write, a);
        answer := Some(a);
      } else {
        answer := None;
      }
      if answer.None? || !answer.value.Record? { controllers := controllers - {id}; }
    }

    /** The last section of an in-process run. When its lock cannot be had the same
        section runs without it. */
    method RecordOutcome(running: Job, outcome: Status, endedAt: int, elapsedMs: int, result: map<string, string>, t: Reading)
      returns (answer: Answer)
      requires Valid() && Enabled(Store(), Act(running.jobId, FinishRun(running, outcome, endedAt, elapsedMs, result), t))
      modifies this`records, this`issued, this`inProcess
      ensures Valid() && Performed(old(Store()), false, Store(), running.jobId,
                                   FinishRun(running, outcome, endedAt, elapsedMs, result), t, Some(answer))
    {
      var record := Get(records, running.jobId);
      var write, a := FinishRunSection(record, running, outcome, endedAt, elapsedMs, result, t);
      Land(running.jobId, FinishRun(running, outcome, endedAt, elapsedMs, result), t, write, a);
      answer := a;
    }

    /** The end of an in-process run. An aborted run that returns is never recorded
        as completed. */
    method FinishJobRun(running: Job, ending: Ending, endedAt: int, elapsedMs: int, result: map<string, string>, t: Reading)
      returns (answer: Answer)
      requires Valid()
      requires Enabled(Store(), Act(running.jobId, FinishRun(running, OutcomeOf(ending, running.jobId in aborted), endedAt, elapsedMs, result), t))
      modifies this`records, this`issued, this`inProcess, this`controllers
      ensures Valid() && controllers == old(controllers) - {running.jobId}
      ensures Performed(old(Store()), false, Store(), running.jobId,
                        FinishRun(running, OutcomeOf(ending, running.jobId in aborted), endedAt, elapsedMs, result), t, Some(answer))
    {
      var outcome := OutcomeOf(ending, running.jobId in aborted);
      answer := RecordOutcome(running, outcome, endedAt, elapsedMs, result, t);
      controllers := controllers - {running.jobId};
    }

    // -------------------------------------------------------------------
    // Between awaits

    method SetPausedFlag(paused: bool)
      requires Valid() && Allowed(Memory(), SetPaused(paused))
      modifies this`isPaused, this`drainTimer
      ensures Valid() && Memory() == Take(old(Memory()), SetPaused(paused))
    {
      StepKeepsWorkspacesExact(Memory(), SetPaused(paused));
      StepKeepsStopSound(Memory(), SetPaused(paused));
      isPaused := paused;
      if !paused && !isStopped { ScheduleDrain(); }
    }

    /** The drain timer fires. */
    method BeginDrain(pass: PassId)
      requires Valid() && Allowed(Memory(), StartPass(pass))
      modifies this`waitingPasses, this`drainPromise, this`drainTimer
      ensures Valid() && Memory() == Take(old(Memory()), StartPass(pass))
    {
      StepKeepsWorkspacesExact(Memory(), StartPass(pass));
      StepKeepsStopSound(Memory(), StartPass(pass));
      drainPromise, drainTimer := None, false;
      if isPaused || isStopped { return; }
      if activeJobs < concurrency {
        drainPromise := Some(pass);
        waitingPasses := waitingPasses + {pass};
      }
    }

    /** The run's controller is registered at once, before the job turns running. */
    method LaunchRun(job: Job, run: RunId)
      requires run !in activeRuns
      modifies this`activeJobs, this`activeWorkspaces, this`activeRuns, this`controllers, this`aborted
      ensures activeJobs == old(activeJobs) + 1 && activeWorkspaces == old(activeWorkspaces) + {job.cwd}
      ensures activeRuns == old(activeRuns)[run := ActiveRun(job.cwd, true)]
      ensures controllers == old(controllers) + {job.jobId} && aborted == old(aborted) - {job.jobId}
    {
      activeJobs := activeJobs + 1;
      activeWorkspaces := activeWorkspaces + {job.cwd};
      activeRuns := activeRuns[run := ActiveRun(job.cwd, true)];
      controllers, aborted := controllers + {job.jobId}, aborted - {job.jobId};
    }

    /** Looks through a listing, launches at most one job, and ends the pass when
        there is nothing or no room left to launch. */
    method LookThrough(pass: PassId, listing: seq<Job>, run: RunId)
      requires Allowed(Memory(), ResumePass(pass, listing, run))
      modifies this`waitingPasses, this`drainPromise, this`activeJobs, this`activeWorkspaces, this`activeRuns,
               this`controllers, this`aborted
      ensures Memory() == Take(old(Memory()), ResumePass(pass, listing, run))
      ensures var next := if isPaused || isStopped then None else FindNext(listing, old(activeWorkspaces));
              controllers == old(controllers) + JobIds(next) && aborted == old(aborted) - JobIds(next)
    {
      var done := isPaused || isStopped;
      if !done {
        var next := FindNext(listing, activeWorkspaces);
        if next.Some? { LaunchRun(next.value, run); }
        done := next.None? || activeJobs >= concurrency;
      }
      if done {
        waitingPasses := waitingPasses - {pass};
        if drainPromise == Some(pass) { drainPromise := None; }
      }
    }

    /** The pass comes back from its listing. */
    method ContinueDrain(pass: PassId, listing: seq<Job>, run: RunId)
      requires Valid() && Allowed(Memory(), ResumePass(pass, listing, run))
      modifies this`waitingPasses, this`drainPromise, this`activeJobs, this`activeWorkspaces, this`activeRuns,
               this`controllers, this`aborted
      ensures Valid() && Memory() == Take(old(Memory()), ResumePass(pass, listing, run))
      ensures var next := if isPaused || isStopped then None else FindNext(listing, old(activeWorkspaces));
              controllers == old(controllers) + JobIds(next) && aborted == old(aborted) - JobIds(next)
    {
      StepKeepsWorkspacesExact(Memory(), ResumePass(pass, listing, run));
      StepKeepsStopSound(Memory(), ResumePass(pass, listing, run));
      LookThrough(pass, listing, run);
    }

    method RunExclusiveBegin(cwd: string, run: RunId) returns (ok: bool)
      requires Valid() && Allowed(Memory(), BeginExclusive(cwd, run))
      modifies this`activeWorkspaces, this`activeRuns
      ensures Valid() && Memory() == Take(old(Memory()), BeginExclusive(cwd, run))
      ensures ok <==> !isPaused && !isStopped && cwd !in old(activeWorkspaces)
    {
      StepKeepsWorkspacesExact(Memory(), BeginExclusive(cwd, run));
      StepKeepsStopSound(Memory(), BeginExclusive(cwd, run));
      if isPaused || isStopped { return false; }
      if cwd in activeWorkspaces { return false; }
      activeWorkspaces := activeWorkspaces + {cwd};
      activeRuns := activeRuns[run := ActiveRun(cwd, false)];
      return true;
    }

    /** A run settles, whether drained from the queue or exclusive. */
    method SettleRun(run: RunId)
      requires Valid() && Allowed(Memory(), EndRun(run))
      modifies this`activeJobs, this`activeWorkspaces, this`activeRuns, this`drainTimer
      ensures Valid() && Memory() == Take(old(Memory()), EndRun(run))
    {
      StepKeepsWorkspacesExact(Memory(), EndRun(run));
      StepKeepsStopSound(Memory(), EndRun(run));
      if activeRuns[run].queued { activeJobs := activeJobs - 1; }
      activeWorkspaces := activeWorkspaces - {activeRuns[run].cwd};
      activeRuns := activeRuns - {run};
      ScheduleDrain();
    }

    method Stop()
      requires Valid() && Allowed(Memory(), BeginStop)
      modifies this`isStopped, this`drainTimer, this`stopPhase
      ensures Valid() && Memory() == Take(old(Memory()), BeginStop)
    {
      StepKeepsWorkspacesExact(Memory(), BeginStop);
      StepKeepsStopSound(Memory(), BeginStop);
      isStopped, drainTimer := true, false;
      stopPhase := AwaitingPass(drainPromise);
    }

    /** A drain pass that failed schedules another and leaves as one that is over. */
    method AbandonDrain(pass: PassId)
      requires Valid() && Allowed(Memory(), FailPass(pass))
      modifies this`waitingPasses, this`drainPromise, this`drainTimer
      ensures Valid() && Memory() == Take(old(Memory()), FailPass(pass))
    {
      StepKeepsWorkspacesExact(Memory(), FailPass(pass));
      StepKeepsStopSound(Memory(), FailPass(pass));
      ScheduleDrain();
      waitingPasses := waitingPasses - {pass};
      if drainPromise == Some(pass) { drainPromise := None; }
    }

    /** The pass stop() waited for has settled; it now waits for the runs. */
    method StopAwaitsRuns()
      requires Valid() && Allowed(Memory(), PassSettled)
      modifies this`stopPhase
      ensures Valid() && Memory() == Take(old(Memory()), PassSettled)
    {
      StepKeepsWorkspacesExact(Memory(), PassSettled);
      StepKeepsStopSound(Memory(), PassSettled);
      stopPhase := AwaitingRuns(activeRuns.Keys);
    }

    /** stop() resolves: nothing is in flight. */
    method StopResolves()
      requires Valid() && Allowed(Memory(), RunsSettled)
      modifies this`stopPhase
      ensures Valid() && Memory() == Take(old(Memory()), RunsSettled) && activeRuns == map[] && activeWorkspaces == {}
    {
      StepKeepsWorkspacesExact(Memory(), RunsSettled);
      StepKeepsStopSound(Memory(), RunsSettled);
      stopPhase := Resolved;
    }
  }
}
