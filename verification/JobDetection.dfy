/** Detection passes among other actors: a pass goes through a listing that may
    be out of date while workers, cancellers and in-process runs move between
    and inside its sections. */
module JobDetection {
  import opened Common
  import opened JobRecords
  import opened JobHistory
  import opened JobInterleaving
  import JobSections

  /** What a pass does with one listed job, and at which move. */
  datatype Round =
    | PassedOver
    | FoundLocked(at: nat)
    | Judged(at: nat)

  /** Move `k` is the write of a detection section of actor `d` on job `id`. */
  ghost predicate Judges(r: Run, d: Actor, k: nat, id: JobId)
    requires IsRun(r)
  {
    && k < |r.moves| && r.moves[k] == Write(d)
    && d in r.worlds[k].actors && r.worlds[k].actors[d].Loaded?
    && r.worlds[k].actors[d].id == id && r.worlds[k].actors[d].op == DetectStale
  }

  /** `d` makes a detection pass over `all`: one round for each listed job that
      looked as if its worker was gone, in the order of the listing. */
  ghost predicate IsPass(r: Run, d: Actor, all: seq<Job>, now: int, rounds: seq<Round>) {
    && IsRun(r) && |rounds| == |all|
    && (forall n | 0 <= n < |all| :: rounds[n].PassedOver? <==> !JobSections.Suspect(all[n], now))
    && (forall n | 0 <= n < |all| && rounds[n].FoundLocked? ::
          rounds[n].at < |r.moves| && r.moves[rounds[n].at] == FindLocked(d, all[n].jobId, DetectStale))
    && (forall n | 0 <= n < |all| && rounds[n].Judged? :: Judges(r, d, rounds[n].at, all[n].jobId))
    && (forall n, m | 0 <= n < m < |all| && !rounds[n].PassedOver? && !rounds[m].PassedOver? :: rounds[n].at < rounds[m].at)
  }

  /** The answer of the section that writes at move `k`. */
  function AnswerAt(r: Run, d: Actor, k: nat): Answer
    requires k < |r.worlds| && d in r.worlds[k].actors && r.worlds[k].actors[d].Loaded?
  {
    DecisionAt(r.worlds[k], r.worlds[k].actors[d]).answer
  }

  /** The worker of the job as it stands is gone at the time of the check. */
  predicate Lapsed(record: Option<Job>, check: int) {
    && record.Some? && record.value.lease.Some? && record.value.lease.value.expiresAt <= check
    && (record.value.status == Assigned || record.value.status == Running || record.value.status == WaitingForApproval)
  }

  /** However old the listing is and whatever moves in between, a round acts on
      the record as it stands at that moment: the record changes if and only if its
      lease has run out when the section checks it; it is stalled if the work has
      touched files, and queued without lease, worker and checkpoint otherwise. The
      pass reports just that, and no other record changes. */
  lemma RoundJudgesCurrentRecord(r: Run, d: Actor, all: seq<Job>, now: int, rounds: seq<Round>, n: nat)
    requires IsPass(r, d, all, now, rounds) && n < |all| && rounds[n].Judged?
    ensures var k, id := rounds[n].at, all[n].jobId;
            var w, w' := r.worlds[k], r.worlds[k + 1];
            var record, check := Get(w.store, id), w.actors[d].check;
            && check <= w.clock
            && (AnswerAt(r, d, k) == Requeued <==> Lapsed(record, check) && !Mutated(record.value))
            && (AnswerAt(r, d, k) == MarkedStalled <==> Lapsed(record, check) && Mutated(record.value))
            && w'.store == if !Lapsed(record, check) then w.store
                           else if Mutated(record.value) then w.store[id := record.value.(status := Stalled, updatedAt := w.clock)]
                           else w.store[id := record.value.(status := Queued, lease := None, workerId := None, checkpoint := None,
                                                            updatedAt := w.clock)]
  {
    var k := rounds[n].at;
    assert Judges(r, d, k, all[n].jobId);
    NoLostUpdate(r, k);
    RunIsAHistory(r, k);
    assert Possible(r.worlds[k], r.moves[k]) && r.worlds[k + 1] == After(r.worlds[k], r.moves[k]);
  }

  // ---------------------------------------------------------------------
  // How often a job is reported

  /** A claim of `id` takes effect at move `c`. */
  ghost predicate ClaimLands(r: Run, c: nat, id: JobId)
    requires IsRun(r)
  {
    && c < |r.moves| && r.moves[c].Write?
    && ClaimWrites(r.worlds[c], r.moves[c].actor, id)
  }

  predicate ClaimWrites(w: World, a: Actor, id: JobId) {
    && a in w.actors && w.actors[a].Loaded? && w.actors[a].id == id && w.actors[a].op.Claim?
    && DecisionAt(w, w.actors[a]).write.Some?
  }

  /** No detection section changes such a record. */
  predicate Parked(job: Job) {
    !Leased(job.status) || job.lease.None?
  }

  lemma DecisionKeepsParked(id: JobId, op: Op, job: Job, t: Reading)
    requires Parked(job) && (op.MarkWaiting? || job.status == Queued ==> job.lease.None?) && (op.FinishRun? ==> Finished(op.outcome))
    requires Decide(id, op, Some(job), t).write.Some? && !op.Claim?
    ensures Parked(Decide(id, op, Some(job), t).write.value)
  {
  }

  lemma MoveKeepsParked(w: World, m: Move, id: JobId)
    requires WorldOk(w) && Inv(Abstract(w)) && Possible(w, m) && id in w.store && Parked(w.store[id])
    requires m.Write? ==> !ClaimWrites(w, m.actor, id)
    ensures id in After(w, m).store && Parked(After(w, m).store[id])
  {
    assert RecordOk(id, Abstract(w).records[id], Abstract(w).issued, Abstract(w).inProcess);
    if m.Write? && w.actors[m.actor].id == id && DecisionAt(w, w.actors[m.actor]).write.Some? {
      var p := w.actors[m.actor];
      assert p.seen == Some(w.store[id]);
      DecisionKeepsParked(id, p.op, w.store[id], Reading(p.check, w.clock));
    }
  }

  lemma {:induction false} StaysParked(r: Run, i: nat, j: nat, id: JobId)
    requires IsRun(r) && i <= j <= |r.moves| && id in r.worlds[i].store && Parked(r.worlds[i].store[id])
    requires forall c | i <= c < j :: !ClaimLands(r, c, id)
    ensures id in r.worlds[j].store && Parked(r.worlds[j].store[id])
  {
    if i < j {
      StaysParked(r, i, j - 1, id);
      RunIsAHistory(r, j - 1);
      InvAt(History(r, j - 1), |History(r, j - 1).states| - 1);
      assert Possible(r.worlds[j - 1], r.moves[j - 1]) && !ClaimLands(r, j - 1, id);
      MoveKeepsParked(r.worlds[j - 1], r.moves[j - 1], id);
    }
  }

  predicate Reports(r: Run, d: Actor, k: nat)
    requires k < |r.worlds| && d in r.worlds[k].actors && r.worlds[k].actors[d].Loaded?
  {
    AnswerAt(r, d, k) == Requeued || AnswerAt(r, d, k) == MarkedStalled
  }

  /** A pass reports one job twice only if in between a worker has claimed it
      anew; with no such claim each job is reported at most once. */
  lemma ReportedTwiceOnlyIfClaimedAnew(r: Run, d: Actor, all: seq<Job>, now: int, rounds: seq<Round>, n: nat, m: nat)
    requires IsPass(r, d, all, now, rounds) && n < m < |all| && all[n].jobId == all[m].jobId
    requires rounds[n].Judged? && rounds[m].Judged? && Reports(r, d, rounds[n].at) && Reports(r, d, rounds[m].at)
    ensures exists c | rounds[n].at < c < rounds[m].at :: ClaimLands(r, c, all[n].jobId)
  {
    var id, i, j := all[n].jobId, rounds[n].at + 1, rounds[m].at;
    RoundJudgesCurrentRecord(r, d, all, now, rounds, n);
    RoundJudgesCurrentRecord(r, d, all, now, rounds, m);
    assert id in r.worlds[i].store && Parked(r.worlds[i].store[id]);
    if forall c | i <= c < j :: !ClaimLands(r, c, id) {
      StaysParked(r, i, j, id);
      assert false;
    }
  }
}
