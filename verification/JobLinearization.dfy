/** The locked operations are linearizable: each takes effect, whole and with
    the answer it gives, at one moment between taking and releasing its lock. */
module JobLinearization {
  import opened Common
  import opened JobRecords
  import opened JobHistory
  import opened JobInterleaving

  /** What has happened stays: histories only grow. */
  lemma {:induction false} HistoryGrows(r: Run, i: nat, j: nat)
    requires i <= j <= |r.moves| <= |r.worlds|
    ensures History(r, i).states <= History(r, j).states && History(r, i).events <= History(r, j).events
  {
    if i < j { HistoryGrows(r, i, j - 1); }
  }

  lemma ClockAdvances(w: World, m: Move)
    requires Possible(w, m)
    ensures w.clock <= After(w, m).clock
  {
  }

  lemma {:induction false} ClockNeverTurnsBack(r: Run, i: nat, j: nat)
    requires IsRun(r) && i <= j <= |r.moves|
    ensures r.worlds[i].clock <= r.worlds[j].clock
  {
    if i < j {
      ClockNeverTurnsBack(r, i, j - 1);
      assert Possible(r.worlds[j - 1], r.moves[j - 1]);
      ClockAdvances(r.worlds[j - 1], r.moves[j - 1]);
    }
  }

  /** Event `n` of the history is the operation, done between `from` and `to`, and
      gives this answer there. */
  ghost predicate TakesEffectAs(h: Trace, n: nat, id: JobId, op: Op, answer: Answer, from: int, to: int) {
    && n < |h.events| && n < |h.states| && h.events[n].Act? && h.events[n].id == id && h.events[n].op == op
    && from <= h.events[n].t.check <= h.events[n].t.stamp <= to
    && answer == EffectOf(h.states[n], id, op, h.events[n].t).answer
  }

  /** How far the operation that actor `a` began at move `i` has come. */
  ghost predicate UnderWay(r: Run, i: nat, j: nat, a: Actor, id: JobId, op: Op)
    requires IsRun(r) && i < j <= |r.moves|
  {
    var w := r.worlds[j];
    && a in w.actors && w.actors[a].id == id && w.actors[a].op == op
    && (w.actors[a].Loaded? ==> r.worlds[i].clock <= w.actors[a].check)
    && (w.actors[a].Stored? ==>
          exists n :: |History(r, i).events| <= n
                      && TakesEffectAs(History(r, j), n, id, op, w.actors[a].answer, r.worlds[i].clock, w.clock))
  }

  lemma OwnWrite(r: Run, i: nat, j: nat, a: Actor, id: JobId, op: Op)
    requires IsRun(r) && i < j < |r.moves| && UnderWay(r, i, j, a, id, op) && r.moves[j] == Write(a)
    ensures UnderWay(r, i, j + 1, a, id, op)
  {
    var w, h := r.worlds[j], History(r, j);
    assert Possible(w, r.moves[j]) && r.worlds[j + 1] == After(w, r.moves[j]);
    RunIsAHistory(r, j);
    HistoryGrows(r, i, j);
    ClockNeverTurnsBack(r, i, j);
    WriteIsWholeOperation(w, a);
    var h' := Extend(h, Whole(w, a));
    assert History(r, j + 1) == h';
    assert h'.events[|h.events|] == Whole(w, a) && h'.states[|h.events|] == Last(h) == Abstract(w);
    assert TakesEffectAs(h', |h.events|, id, op, r.worlds[j + 1].actors[a].answer, r.worlds[i].clock, w.clock);
  }

  lemma OtherMove(r: Run, i: nat, j: nat, a: Actor, id: JobId, op: Op)
    requires IsRun(r) && i < j < |r.moves| && UnderWay(r, i, j, a, id, op)
    requires r.moves[j] != Write(a) && r.moves[j] != Release(a)
    ensures UnderWay(r, i, j + 1, a, id, op)
  {
    var w, h, h' := r.worlds[j], History(r, j), History(r, j + 1);
    assert Possible(w, r.moves[j]) && r.worlds[j + 1] == After(w, r.moves[j]);
    HistoryGrows(r, j, j + 1);
    ClockNeverTurnsBack(r, i, j);
    ClockAdvances(w, r.moves[j]);
    if w.actors[a].Stored? {
      var n :| |History(r, i).events| <= n && TakesEffectAs(h, n, id, op, w.actors[a].answer, r.worlds[i].clock, w.clock);
      assert h'.events[n] == h.events[n] && h'.states[n] == h.states[n];
      assert TakesEffectAs(h', n, id, op, w.actors[a].answer, r.worlds[i].clock, r.worlds[j + 1].clock);
    }
  }

  /** The operation `a` takes the lock for at move `i` has not yet released it. */
  ghost predicate Unreleased(r: Run, i: nat, j: nat, a: Actor, id: JobId, op: Op) {
    && IsRun(r) && i < j <= |r.moves| && r.moves[i] == Acquire(a, id, op)
    && forall m | i < m < j :: r.moves[m] != Release(a)
  }

  lemma {:induction false} StaysUnderWay(r: Run, i: nat, j: nat, a: Actor, id: JobId, op: Op)
    requires Unreleased(r, i, j, a, id, op)
    ensures UnderWay(r, i, j, a, id, op)
  {
    if j == i + 1 {
      assert Possible(r.worlds[i], r.moves[i]) && r.worlds[j] == After(r.worlds[i], r.moves[i]);
    } else {
      StaysUnderWay(r, i, j - 1, a, id, op);
      if r.moves[j - 1] == Write(a) { OwnWrite(r, i, j - 1, a, id, op); } else { OtherMove(r, i, j - 1, a, id, op); }
    }
  }

  /** Every operation that releases its lock at move `k`, however the others moved
      meanwhile, is event `n` of the history, placed and timed between the moves at
      which it took and released the lock, and answers what that event answers. */
  lemma OperationsAreLinearizable(r: Run, i: nat, k: nat, a: Actor, id: JobId, op: Op) returns (n: nat)
    requires Unreleased(r, i, k, a, id, op) && k < |r.moves| && r.moves[k] == Release(a)
    ensures a in r.worlds[k].actors && r.worlds[k].actors[a].Stored?
    ensures |History(r, i).events| <= n < |History(r, k).events|
    ensures TakesEffectAs(History(r, k), n, id, op, r.worlds[k].actors[a].answer, r.worlds[i].clock, r.worlds[k].clock)
  {
    StaysUnderWay(r, i, k, a, id, op);
    assert Possible(r.worlds[k], r.moves[k]);
    n :| |History(r, i).events| <= n
         && TakesEffectAs(History(r, k), n, id, op, r.worlds[k].actors[a].answer, r.worlds[i].clock, r.worlds[k].clock);
  }
}
