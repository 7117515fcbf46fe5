/** The queue as it really runs: every operation is an acquire, a read, a write
    and a release, interleaved with those of any number of other actors. Each
    such run does to the store what a history of whole operations does. */
module JobInterleaving {
  import opened Common
  import opened JobRecords
  import opened JobHistory
  import JobSafety

  type Actor = nat

  /** Where an actor stands inside one locked operation. */
  datatype Phase =
    | Holding(id: JobId, op: Op)
    | Loaded(id: JobId, op: Op, seen: Option<Job>, check: int)
    | Stored(id: JobId, op: Op, answer: Answer)

  /** `reserved` are all lease ids drawn so far, `spent` those whose claim has
      been decided. */
  datatype World = World(
    store: map<JobId, Job>, locks: map<JobId, Actor>, actors: map<Actor, Phase>, clock: int,
    reserved: set<LeaseId>, spent: set<LeaseId>, inProcess: set<JobId>)

  datatype Move =
    | Tick(elapsed: nat)
    | Create(id: JobId, cwd: string, fields: map<string, string>)
    | Acquire(actor: Actor, id: JobId, op: Op)
    | FindLocked(actor: Actor, id: JobId, op: Op)
    | Read(actor: Actor)
    | Write(actor: Actor)
    | Release(actor: Actor)

  datatype Run = Run(worlds: seq<World>, moves: seq<Move>)

  function Start(clock: int): World {
    World(map[], map[], map[], clock, {}, {}, {})
  }

  function DecisionAt(w: World, p: Phase): Effect
    requires p.Loaded?
  {
    Decide(p.id, p.op, p.seen, Reading(p.check, w.clock))
  }

  /** Actor `a` carries out its decision. */
  function Apply(w: World, a: Actor, eff: Effect): World
    requires a in w.actors
  {
    var p := w.actors[a];
    w.(store := if eff.write.Some? then w.store[p.id := eff.write.value] else w.store,
       actors := w.actors[a := Stored(p.id, p.op, eff.answer)],
       spent := if p.op.Claim? then w.spent + {p.op.lease.leaseId} else w.spent,
       inProcess := if p.op.BeginRun? && eff.write.Some? then w.inProcess + {p.id} else w.inProcess)
  }

  ghost predicate Possible(w: World, m: Move) {
    match m
    case Tick(_) => true
    case Create(id, _, _) => SafeJobId(id) && id !in w.store && id !in w.locks
    case Acquire(a, id, op) =>
      && a !in w.actors && id !in w.locks
      && (op.Claim? ==> op.lease.leaseId !in w.reserved)
      && (op.MarkWaiting? || op.FinishRun? ==> id in w.inProcess)
      && (op.FinishRun? ==> Finished(op.outcome))
    case FindLocked(a, id, op) => a !in w.actors && id in w.locks
    case Read(a) => a in w.actors && w.actors[a].Holding?
    case Write(a) => a in w.actors && w.actors[a].Loaded?
    case Release(a) => a in w.actors && w.actors[a].Stored?
  }

  function After(w: World, m: Move): World
    requires Possible(w, m)
  {
    match m
    case Tick(elapsed) => w.(clock := w.clock + elapsed)
    case Create(id, cwd, fields) => w.(store := w.store[id := NewJob(id, cwd, fields, w.clock)])
    case Acquire(a, id, op) =>
      w.(locks := w.locks[id := a], actors := w.actors[a := Holding(id, op)],
         reserved := if op.Claim? then w.reserved + {op.lease.leaseId} else w.reserved)
    case FindLocked(_, _, _) => w
    case Read(a) =>
      var p := w.actors[a];
      w.(actors := w.actors[a := Loaded(p.id, p.op, Get(w.store, p.id), w.clock)])
    case Write(a) => Apply(w, a, DecisionAt(w, w.actors[a]))
    case Release(a) =>
      w.(locks := w.locks - {w.actors[a].id}, actors := w.actors - {a})
  }

  ghost predicate IsRun(r: Run) {
    && |r.worlds| == |r.moves| + 1
    && (exists clock :: r.worlds[0] == Start(clock))
    && forall i {:trigger r.moves[i]} :: 0 <= i < |r.moves| ==>
         Possible(r.worlds[i], r.moves[i]) && r.worlds[i + 1] == After(r.worlds[i], r.moves[i])
  }

  // ---------------------------------------------------------------------
  // What locking guarantees

  ghost predicate LocksHeld(w: World) {
    && (forall a | a in w.actors :: w.actors[a].id in w.locks && w.locks[w.actors[a].id] == a)
    && (forall id | id in w.locks :: w.locks[id] in w.actors && w.actors[w.locks[id]].id == id)
  }

  ghost predicate ClockAhead(w: World) {
    forall id | id in w.store :: w.store[id].updatedAt <= w.clock
  }

  /** What an actor has read under the lock is still what the store holds. */
  ghost predicate SnapshotsCurrent(w: World) {
    forall a | a in w.actors && w.actors[a].Loaded? ::
      var p := w.actors[a];
      p.seen == Get(w.store, p.id) && p.check <= w.clock && (p.seen.Some? ==> p.seen.value.updatedAt <= p.check)
  }

  predicate Pending(p: Phase) {
    (p.Holding? || p.Loaded?) && p.op.Claim?
  }

  ghost predicate ClaimsFresh(w: World) {
    && w.spent <= w.reserved
    && (forall a | a in w.actors && Pending(w.actors[a]) ::
          w.actors[a].op.lease.leaseId in w.reserved - w.spent)
    && (forall a, b | a in w.actors && b in w.actors && a != b && Pending(w.actors[a]) && Pending(w.actors[b]) ::
          w.actors[a].op.lease.leaseId != w.actors[b].op.lease.leaseId)
  }

  ghost predicate RunOpsAllowed(w: World) {
    forall a | a in w.actors ::
      && (w.actors[a].op.MarkWaiting? || w.actors[a].op.FinishRun? ==> w.actors[a].id in w.inProcess)
      && (w.actors[a].op.FinishRun? ==> Finished(w.actors[a].op.outcome))
  }

  ghost predicate ClaimsVisible(w: World) {
    forall a | a in w.actors && w.actors[a].Stored? && w.actors[a].op.Claim? && w.actors[a].answer.Record? ::
      Get(w.store, w.actors[a].id) == Some(w.actors[a].answer.job)
      && LeaseIs(w.actors[a].answer.job, w.actors[a].op.lease.leaseId)
  }

  ghost predicate WorldOk(w: World) {
    LocksHeld(w) && ClockAhead(w) && SnapshotsCurrent(w) && ClaimsFresh(w) && RunOpsAllowed(w) && ClaimsVisible(w)
  }

  function Abstract(w: World): State {
    State(w.store, w.spent, w.inProcess)
  }

  lemma WriteIsStamped(id: JobId, op: Op, record: Option<Job>, t: Reading)
    ensures Decide(id, op, record, t).write.Some? ==> Decide(id, op, record, t).write.value.updatedAt == t.stamp
  {
  }

  lemma ClaimAnswers(id: JobId, op: Op, record: Option<Job>, t: Reading)
    requires op.Claim? && Decide(id, op, record, t).answer.Record?
    ensures Decide(id, op, record, t).write == Some(Decide(id, op, record, t).answer.job)
    ensures LeaseIs(Decide(id, op, record, t).answer.job, op.lease.leaseId)
  {
  }

  /** The whole operation that a write amounts to. */
  function Whole(w: World, a: Actor): Event
    requires a in w.actors && w.actors[a].Loaded?
  {
    Act(w.actors[a].id, w.actors[a].op, Reading(w.actors[a].check, w.clock))
  }

  /** A write takes effect as one whole operation on the store as it stands. */
  lemma WriteIsWholeOperation(w: World, a: Actor)
    requires WorldOk(w) && Possible(w, Write(a))
    ensures Enabled(Abstract(w), Whole(w, a))
    ensures Abstract(After(w, Write(a))) == Next(Abstract(w), Whole(w, a))
    ensures After(w, Write(a)).actors[a].answer
            == EffectOf(Abstract(w), w.actors[a].id, w.actors[a].op, Whole(w, a).t).answer
  {
  }

  ghost predicate Orderly(w: World, a: Actor, eff: Effect) {
    && a in w.actors && w.actors[a].Loaded?
    && (eff.write.Some? ==> eff.write.value.updatedAt == w.clock && SafeJobId(w.actors[a].id))
    && (w.actors[a].op.Claim? && eff.answer.Record? ==>
          eff.write == Some(eff.answer.job) && LeaseIs(eff.answer.job, w.actors[a].op.lease.leaseId))
  }

  lemma ApplyKeepsLocks(w: World, a: Actor, eff: Effect)
    requires LocksHeld(w) && ClockAhead(w) && RunOpsAllowed(w) && Orderly(w, a, eff)
    ensures var w' := Apply(w, a, eff); LocksHeld(w') && ClockAhead(w') && RunOpsAllowed(w')
  {
  }

  /** Writing the record one holds the lock of leaves every other actor's
      snapshot current. */
  lemma ApplyKeepsSnapshots(w: World, a: Actor, eff: Effect)
    requires LocksHeld(w) && SnapshotsCurrent(w) && ClaimsVisible(w) && Orderly(w, a, eff)
    ensures var w' := Apply(w, a, eff); SnapshotsCurrent(w') && ClaimsVisible(w')
  {
    assert forall b | b in w.actors && b != a :: w.actors[b].id != w.actors[a].id;
  }

  lemma ApplyKeepsClaims(w: World, a: Actor, eff: Effect)
    requires ClaimsFresh(w) && Orderly(w, a, eff)
    ensures ClaimsFresh(Apply(w, a, eff))
  {
  }

  lemma WriteKeepsWorldOk(w: World, a: Actor)
    requires WorldOk(w) && Possible(w, Write(a)) && Inv(Abstract(w))
    ensures WorldOk(After(w, Write(a)))
  {
    var p := w.actors[a];
    var eff := DecisionAt(w, p);
    WriteIsStamped(p.id, p.op, p.seen, Reading(p.check, w.clock));
    if p.op.Claim? && eff.answer.Record? { ClaimAnswers(p.id, p.op, p.seen, Reading(p.check, w.clock)); }
    if eff.write.Some? {
      WriteIsWholeOperation(w, a);
      AbsentNeverWritten(Abstract(w), Whole(w, a));
    }
    ApplyKeepsLocks(w, a, eff);
    ApplyKeepsSnapshots(w, a, eff);
    ApplyKeepsClaims(w, a, eff);
  }

  predicate Quiet(m: Move) {
    !m.Write? && !m.Create?
  }

  lemma QuietKeepsLocks(w: World, m: Move)
    requires LocksHeld(w) && ClockAhead(w) && RunOpsAllowed(w) && Possible(w, m) && Quiet(m)
    ensures var w' := After(w, m); LocksHeld(w') && ClockAhead(w') && RunOpsAllowed(w')
  {
  }

  lemma QuietKeepsSnapshots(w: World, m: Move)
    requires ClockAhead(w) && SnapshotsCurrent(w) && ClaimsVisible(w) && Possible(w, m) && Quiet(m)
    ensures var w' := After(w, m); SnapshotsCurrent(w') && ClaimsVisible(w')
  {
  }

  lemma QuietKeepsClaims(w: World, m: Move)
    requires ClaimsFresh(w) && Possible(w, m) && Quiet(m)
    ensures ClaimsFresh(After(w, m))
  {
  }

  lemma CreateKeepsWorldOk(w: World, m: Move)
    requires WorldOk(w) && Possible(w, m) && m.Create?
    ensures WorldOk(After(w, m))
  {
  }

  lemma MoveKeepsWorldOk(w: World, m: Move)
    requires WorldOk(w) && Possible(w, m) && Inv(Abstract(w))
    ensures WorldOk(After(w, m))
  {
    if m.Write? {
      WriteKeepsWorldOk(w, m.actor);
    } else if m.Create? {
      CreateKeepsWorldOk(w, m);
    } else {
      QuietKeepsLocks(w, m);
      QuietKeepsSnapshots(w, m);
      QuietKeepsClaims(w, m);
    }
  }

  // ---------------------------------------------------------------------
  // Every interleaved run is a history of whole operations

  ghost function Last(h: Trace): State
    requires |h.states| > 0
  {
    h.states[|h.states| - 1]
  }

  ghost function Extend(h: Trace, e: Event): Trace
    requires |h.states| > 0
  {
    Trace(h.states + [Next(Last(h), e)], h.events + [e])
  }

  /** The whole operation, if any, that a move carries out. */
  function EventAt(w: World, m: Move): Option<Event> {
    match m
    case Create(id, cwd, fields) => Some(Enqueue(id, cwd, fields, w.clock))
    case Write(a) => if a in w.actors && w.actors[a].Loaded? then Some(Whole(w, a)) else None
    case _ => None
  }

  /** The whole operations of the first `n` moves, each placed at its write. */
  ghost function History(r: Run, n: nat): (h: Trace)
    requires n <= |r.moves| <= |r.worlds|
    ensures |h.states| == |h.events| + 1
  {
    if n == 0 then Trace([Empty], [])
    else
      var h, e := History(r, n - 1), EventAt(r.worlds[n - 1], r.moves[n - 1]);
      if e.Some? then Extend(h, e.value) else h
  }

  lemma ExtendIsTrace(h: Trace, e: Event)
    requires IsTrace(h) && Enabled(Last(h), e)
    ensures IsTrace(Extend(h, e)) && Last(Extend(h, e)) == Next(Last(h), e)
  {
    var h' := Extend(h, e);
    forall i {:trigger h'.events[i]} | 0 <= i < |h'.events|
      ensures Enabled(h'.states[i], h'.events[i]) && h'.states[i + 1] == Next(h'.states[i], h'.events[i])
    {
      if i < |h.events| { assert h'.events[i] == h.events[i]; }
    }
  }

  lemma MoveIsItsEvent(w: World, m: Move)
    requires WorldOk(w) && Possible(w, m)
    ensures match EventAt(w, m)
            case Some(e) => Enabled(Abstract(w), e) && Abstract(After(w, m)) == Next(Abstract(w), e)
            case None => Abstract(After(w, m)) == Abstract(w)
  {
    if m.Write? { WriteIsWholeOperation(w, m.actor); }
  }

  /** Any interleaving of any number of actors has, after every move, exactly
      the effect on the store of its history of whole operations. */
  lemma {:induction false} RunIsAHistory(r: Run, n: nat)
    requires IsRun(r) && n <= |r.moves|
    ensures IsTrace(History(r, n)) && Last(History(r, n)) == Abstract(r.worlds[n])
    ensures WorldOk(r.worlds[n])
  {
    if n > 0 {
      RunIsAHistory(r, n - 1);
      var w, m, h := r.worlds[n - 1], r.moves[n - 1], History(r, n - 1);
      assert Possible(w, m);
      InvAt(h, |h.states| - 1);
      MoveKeepsWorldOk(w, m);
      MoveIsItsEvent(w, m);
      if EventAt(w, m).Some? { ExtendIsTrace(h, EventAt(w, m).value); }
    }
  }

  /** No update is lost: a write always replaces the very record it was decided
      from, however the other actors moved in between. */
  lemma NoLostUpdate(r: Run, k: nat)
    requires IsRun(r) && k < |r.moves| && r.moves[k].Write?
    ensures var w, a := r.worlds[k], r.moves[k].actor;
            a in w.actors && w.actors[a].Loaded? && w.actors[a].seen == Get(w.store, w.actors[a].id)
  {
    RunIsAHistory(r, k);
    assert Possible(r.worlds[k], r.moves[k]);
  }

  /** A claim that is about to report success still finds on the store the
      record it wrote, under its own lease: its verifying re-read never fails. */
  lemma ClaimVerifies(r: Run, k: nat)
    requires IsRun(r) && k < |r.moves| && r.moves[k].Release?
    ensures var w, a := r.worlds[k], r.moves[k].actor;
            && a in w.actors && w.actors[a].Stored?
            && (w.actors[a].op.Claim? && w.actors[a].answer.Record? ==>
                  var stored := Get(w.store, w.actors[a].id);
                  stored == Some(w.actors[a].answer.job) && LeaseIs(stored.value, w.actors[a].op.lease.leaseId))
  {
    RunIsAHistory(r, k);
    assert Possible(r.worlds[k], r.moves[k]);
  }

  lemma MoveSparesFinished(w: World, m: Move, id: JobId)
    requires WorldOk(w) && Possible(w, m) && id in w.store && SafeJobId(id) && Finished(w.store[id].status)
    ensures id in After(w, m).store && After(w, m).store[id] == w.store[id]
  {
    if m.Write? && w.actors[m.actor].id == id {
      var p := w.actors[m.actor];
      JobSafety.FinishedRefusesEveryOp(id, p.op, w.store[id], Reading(p.check, w.clock));
    }
  }

  /** A finished job keeps every field, however the steps of the operations that
      follow interleave. */
  lemma {:induction false} InterleavedFinishedForever(r: Run, i: nat, j: nat, id: JobId)
    requires IsRun(r) && i <= j <= |r.moves|
    requires id in r.worlds[i].store && Finished(r.worlds[i].store[id].status)
    ensures id in r.worlds[j].store && r.worlds[j].store[id] == r.worlds[i].store[id]
  {
    if i < j {
      InterleavedFinishedForever(r, i, j - 1, id);
      StoreIsSafe(r, j - 1, id);
      assert Possible(r.worlds[j - 1], r.moves[j - 1]);
      MoveSparesFinished(r.worlds[j - 1], r.moves[j - 1], id);
    }
  }

  lemma StoreIsSafe(r: Run, n: nat, id: JobId)
    requires IsRun(r) && n <= |r.moves| && id in r.worlds[n].store
    ensures WorldOk(r.worlds[n]) && SafeJobId(id)
  {
    RunIsAHistory(r, n);
    InvAt(History(r, n), |History(r, n).states| - 1);
    assert RecordOk(id, Abstract(r.worlds[n]).records[id], Abstract(r.worlds[n]).issued, Abstract(r.worlds[n]).inProcess);
  }
}
