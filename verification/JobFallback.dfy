/** The exception to the locking: when a job stays locked, the result of an
    in-process run is recorded without the lock. */
module JobFallback {
  import opened Common
  import opened JobRecords
  import opened JobHistory
  import opened JobInterleaving

  /** The store record after the unlocked fallback that read `seen` and now
      finds `stored` on the store. */
  function AfterUnlockedFinish(id: JobId, op: Op, seen: Job, stored: Job, t: Reading): Job
    requires op.FinishRun?
  {
    var eff := Decide(id, op, Some(seen), t);
    if eff.write.Some? then eff.write.value else stored
  }

  /** The fallback spares a job that has finished meanwhile exactly when it had
      already finished at the time the fallback read it. */
  lemma UnlockedFinishSparesOnlyWhatItSaw(id: JobId, op: Op, seen: Job, stored: Job, t: Reading)
    requires op.FinishRun? && Finished(stored.status) && stored.updatedAt < t.stamp
    ensures AfterUnlockedFinish(id, op, seen, stored, t) == stored <==> Finished(seen.status)
  {
  }

  lemma {:induction false} RecordsStay(r: Run, i: nat, j: nat, id: JobId)
    requires IsRun(r) && i <= j <= |r.moves| && id in r.worlds[i].store
    ensures id in r.worlds[j].store
  {
    if i < j {
      RecordsStay(r, i, j - 1, id);
      assert Possible(r.worlds[j - 1], r.moves[j - 1]);
    }
  }

  /** In any run in which the fallback reads a record in world `i` and writes in
      world `j`: a job finished by then keeps its record if and only if it had
      finished at the read, and otherwise, as after a cancel in between, ends with
      the outcome of the run. */
  lemma UnlockedFinishLosesWhatFinishedMeanwhile(r: Run, i: nat, j: nat, id: JobId, op: Op, t: Reading)
    requires IsRun(r) && i <= j <= |r.moves| && id in r.worlds[i].store && op.FinishRun? && r.worlds[j].clock < t.stamp
    ensures id in r.worlds[j].store
    ensures var seen, stored := r.worlds[i].store[id], r.worlds[j].store[id];
            var after := AfterUnlockedFinish(id, op, seen, stored, t);
            Finished(stored.status) ==>
              && (after == stored <==> Finished(seen.status))
              && (if Finished(seen.status) then stored == seen else after.status == op.outcome)
  {
    RecordsStay(r, i, j, id);
    RunIsAHistory(r, j);
    if Finished(r.worlds[i].store[id].status) { InterleavedFinishedForever(r, i, j, id); }
    if Finished(r.worlds[j].store[id].status) {
      UnlockedFinishSparesOnlyWhatItSaw(id, op, r.worlds[i].store[id], r.worlds[j].store[id], t);
    }
  }

  ghost function LastWorld(r: Run): World
    requires |r.worlds| > 0
  {
    r.worlds[|r.worlds| - 1]
  }

  lemma MoveOn(r: Run, m: Move) returns (r': Run)
    requires IsRun(r) && Possible(LastWorld(r), m)
    ensures IsRun(r') && r.worlds <= r'.worlds && r.moves <= r'.moves && |r'.moves| == |r.moves| + 1
    ensures LastWorld(r') == After(LastWorld(r), m)
  {
    r' := Run(r.worlds + [After(LastWorld(r), m)], r.moves + [m]);
    forall i {:trigger r'.moves[i]} | 0 <= i < |r'.moves|
      ensures Possible(r'.worlds[i], r'.moves[i]) && r'.worlds[i + 1] == After(r'.worlds[i], r'.moves[i])
    {
      if i < |r.moves| { assert r'.moves[i] == r.moves[i]; }
    }
    var clock :| r.worlds[0] == JobInterleaving.Start(clock);
    assert r'.worlds[0] == JobInterleaving.Start(clock);
  }

  /** One operation, all four of its steps, with no other actor in between. */
  lemma PerformAlone(r: Run, a: Actor, id: JobId, op: Op) returns (r': Run)
    requires IsRun(r) && LastWorld(r).locks == map[] && LastWorld(r).actors == map[] && (op.BeginRun? || op.Cancel?)
    requires id in LastWorld(r).store && SafeJobId(id)
    ensures IsRun(r') && r.worlds <= r'.worlds && |r'.moves| == |r.moves| + 4
    ensures LastWorld(r').locks == map[] && LastWorld(r').actors == map[]
    ensures var w := LastWorld(r);
            var eff := Decide(id, op, Some(w.store[id]), Reading(w.clock, w.clock));
            && LastWorld(r').store == (if eff.write.Some? then w.store[id := eff.write.value] else w.store)
            && LastWorld(r').inProcess == if op.BeginRun? && eff.write.Some? then w.inProcess + {id} else w.inProcess
  {
    var held := MoveOn(r, Acquire(a, id, op));
    var loaded := MoveOn(held, Read(a));
    var written := MoveOn(loaded, Write(a));
    r' := MoveOn(written, Release(a));
    assert LastWorld(r').actors == map[] && LastWorld(r').locks == map[];
  }

  /** The fallback reads the unfinished record of an in-process job in world `i`,
      and by world `j` the job has been cancelled under the lock. */
  ghost predicate CancelledMeanwhile(r: Run, i: nat, j: nat, id: JobId) {
    && IsRun(r) && i < j <= |r.moves| && id in r.worlds[i].inProcess && id in r.worlds[i].store && id in r.worlds[j].store
    && !Finished(r.worlds[i].store[id].status) && r.worlds[j].store[id].status == Cancelled
  }

  lemma BeginsWhenQueued(id: JobId, job: Job, t: Reading)
    requires job.status == Queued
    ensures var eff := Decide(id, BeginRun, Some(job), t); eff.write.Some? && eff.write.value.status == Running
  {
  }

  lemma CancelsWhenRunning(id: JobId, job: Job, t: Reading)
    requires job.status == Running
    ensures var eff := Decide(id, Cancel, Some(job), t); eff.write.Some? && eff.write.value.status == Cancelled
  {
  }

  /** A job is created and taken in-process, with nobody else about. */
  lemma RunningSample(id: JobId) returns (r: Run)
    requires SafeJobId(id)
    ensures IsRun(r) && LastWorld(r).locks == map[] && LastWorld(r).actors == map[]
    ensures id in LastWorld(r).store && LastWorld(r).store[id].status == Running && id in LastWorld(r).inProcess
  {
    var start := Run([JobInterleaving.Start(0)], []);
    assert start.worlds[0] == JobInterleaving.Start(0);
    var created := MoveOn(start, Create(id, "w", map[]));
    BeginsWhenQueued(id, LastWorld(created).store[id], Reading(0, 0));
    r := PerformAlone(created, 0, id, BeginRun);
  }

  /** There are runs in which a cancel lands in between: a job is created, taken
      in-process, read by the fallback, and cancelled; whatever the outcome of the
      run, it replaces the cancel. */
  lemma UnlockedFinishCanLoseACancel(id: JobId) returns (r: Run, i: nat, j: nat)
    requires SafeJobId(id)
    ensures CancelledMeanwhile(r, i, j, id)
    ensures forall op: Op, t: Reading | op.FinishRun? ::
              AfterUnlockedFinish(id, op, r.worlds[i].store[id], r.worlds[j].store[id], t).status == op.outcome
  {
    var running := RunningSample(id);
    var w := LastWorld(running);
    CancelsWhenRunning(id, w.store[id], Reading(w.clock, w.clock));
    r := PerformAlone(running, 1, id, Cancel);
    i, j := |running.moves|, |r.moves|;
    assert r.worlds[i] == w && r.worlds[j] == LastWorld(r);
  }
}
