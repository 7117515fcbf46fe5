/** The queue's in-memory side: overlapping drain passes, exclusive runs and
    shutdown, as steps between the awaits of a single-threaded server. */
module JobWorkspaces {
  import opened Common
  import opened JobRecords

  type RunId = nat
  type PassId = nat

  /** A run holds its workspace; `queued` runs count against the concurrency. */
  datatype ActiveRun = ActiveRun(cwd: string, queued: bool)

  datatype StopPhase =
    | NotStopping
    | AwaitingPass(pass: Option<PassId>)
    | AwaitingRuns(runs: set<RunId>)
    | Resolved

  /** `passes` are the drain passes waiting for their listing; `tracked` is the
      one that stop() knows about, namely the latest. `timer` says that a drain is
      scheduled. */
  datatype Server = Server(
    concurrency: nat, paused: bool, stopped: bool, activeJobs: int, workspaces: set<string>,
    runs: map<RunId, ActiveRun>, passes: set<PassId>, tracked: Option<PassId>, timer: bool, stop: StopPhase)

  /** `Wake` is whatever schedules a drain and changes nothing else here: starting
      the server, a new job, imported jobs. */
  datatype Step =
    | Wake
    | SetPaused(paused: bool)
    | StartPass(pass: PassId)
    | ResumePass(pass: PassId, listing: seq<Job>, run: RunId)
    | FailPass(pass: PassId)
    | BeginExclusive(cwd: string, run: RunId)
    | EndRun(run: RunId)
    | BeginStop
    | PassSettled
    | RunsSettled

  function Boot(concurrency: nat): Server {
    Server(Max(1, concurrency), false, false, 0, {}, map[], {}, None, false, NotStopping)
  }

  predicate Startable(job: Job, workspaces: set<string>) {
    job.status == Queued && job.cwd !in workspaces
  }

  /** The oldest queued job whose workspace is free: listings are newest first. */
  function FindNext(listing: seq<Job>, workspaces: set<string>): (next: Option<Job>)
    ensures next.Some? ==> next.value in listing && Startable(next.value, workspaces)
    ensures next.None? ==> forall job | job in listing :: !Startable(job, workspaces)
  {
    if listing == [] then None
    else
      var last := listing[|listing| - 1];
      if Startable(last, workspaces) then Some(last) else FindNext(listing[..|listing| - 1], workspaces)
  }

  lemma {:induction false} FindNextIsOldest(listing: seq<Job>, workspaces: set<string>) returns (k: nat)
    requires FindNext(listing, workspaces).Some?
    ensures k < |listing| && FindNext(listing, workspaces) == Some(listing[k])
    ensures forall i | k < i < |listing| :: !Startable(listing[i], workspaces)
  {
    k := |listing| - 1;
    if !Startable(listing[k], workspaces) { k := FindNextIsOldest(listing[..k], workspaces); }
  }

  function EndPass(s: Server, pass: PassId): Server {
    s.(passes := s.passes - {pass}, tracked := if s.tracked == Some(pass) then None else s.tracked)
  }

  /** One timer at most, and none once the queue is stopped. */
  function Schedule(s: Server): Server {
    if s.stopped then s else s.(timer := true)
  }

  ghost predicate Allowed(s: Server, e: Step) {
    match e
    case Wake => true
    case SetPaused(_) => true
    case StartPass(pass) => s.timer && pass !in s.passes
    case ResumePass(pass, _, run) => pass in s.passes && run !in s.runs
    case FailPass(pass) => pass in s.passes
    case BeginExclusive(_, run) => run !in s.runs
    case EndRun(run) => run in s.runs
    case BeginStop => s.stop == NotStopping
    case PassSettled => s.stop.AwaitingPass? && (s.stop.pass.Some? ==> s.stop.pass.value !in s.passes)
    case RunsSettled => s.stop.AwaitingRuns? && s.stop.runs !! s.runs.Keys
  }

  function Take(s: Server, e: Step): Server
    requires Allowed(s, e)
  {
    match e
    case Wake => Schedule(s)
    case SetPaused(paused) => if paused then s.(paused := true) else Schedule(s.(paused := false))
    case StartPass(pass) =>
      if s.paused || s.stopped || s.activeJobs >= s.concurrency then s.(timer := false, tracked := None)
      else s.(timer := false, passes := s.passes + {pass}, tracked := Some(pass))
    case ResumePass(pass, listing, run) =>
      var next := FindNext(listing, s.workspaces);
      if s.paused || s.stopped || next.None? then EndPass(s, pass)
      else
        var launched := s.(activeJobs := s.activeJobs + 1, workspaces := s.workspaces + {next.value.cwd},
                           runs := s.runs[run := ActiveRun(next.value.cwd, true)]);
        if launched.activeJobs < s.concurrency then launched else EndPass(launched, pass)
    case FailPass(pass) => Schedule(EndPass(s, pass))
    case BeginExclusive(cwd, run) =>
      if s.paused || s.stopped || cwd in s.workspaces then s
      else s.(workspaces := s.workspaces + {cwd}, runs := s.runs[run := ActiveRun(cwd, false)])
    case EndRun(run) =>
      Schedule(s.(activeJobs := if s.runs[run].queued then s.activeJobs - 1 else s.activeJobs,
                  workspaces := s.workspaces - {s.runs[run].cwd},
                  runs := s.runs - {run}))
    case BeginStop => s.(stopped := true, timer := false, stop := AwaitingPass(s.tracked))
    case PassSettled => s.(stop := AwaitingRuns(s.runs.Keys))
    case RunsSettled => s.(stop := Resolved)
  }

  datatype Life = Life(servers: seq<Server>, steps: seq<Step>)

  ghost predicate IsLife(l: Life) {
    && |l.servers| == |l.steps| + 1
    && (exists concurrency :: l.servers[0] == Boot(concurrency))
    && forall i {:trigger l.steps[i]} :: 0 <= i < |l.steps| ==>
         Allowed(l.servers[i], l.steps[i]) && l.servers[i + 1] == Take(l.servers[i], l.steps[i])
  }

  // ---------------------------------------------------------------------
  // Workspaces are held exactly

  ghost function Held(runs: map<RunId, ActiveRun>): set<string> {
    set r | r in runs :: runs[r].cwd
  }

  ghost function QueuedRuns(runs: map<RunId, ActiveRun>): set<RunId> {
    set r | r in runs && runs[r].queued
  }

  ghost predicate Apart(runs: map<RunId, ActiveRun>) {
    forall r, q | r in runs && q in runs && r != q :: runs[r].cwd != runs[q].cwd
  }

  ghost predicate WorkspacesExact(s: Server) {
    s.workspaces == Held(s.runs) && Apart(s.runs) && s.activeJobs == |QueuedRuns(s.runs)|
  }

  lemma HeldAfterLaunch(runs: map<RunId, ActiveRun>, run: RunId, a: ActiveRun)
    requires run !in runs
    ensures Held(runs[run := a]) == Held(runs) + {a.cwd}
  {
    var runs' := runs[run := a];
    assert runs'.Keys == runs.Keys + {run};
    assert runs'[run].cwd in Held(runs');
    forall r | r in runs
      ensures runs[r].cwd in Held(runs')
    {
      assert runs'[r] == runs[r];
    }
  }

  lemma ApartAfterLaunch(runs: map<RunId, ActiveRun>, run: RunId, a: ActiveRun)
    requires Apart(runs) && run !in runs && a.cwd !in Held(runs)
    ensures Apart(runs[run := a])
  {
    forall r | r in runs
      ensures runs[r].cwd != a.cwd
    {
      assert runs[r].cwd in Held(runs);
    }
  }

  lemma QueuedAfterLaunch(runs: map<RunId, ActiveRun>, run: RunId, a: ActiveRun)
    requires run !in runs
    ensures |QueuedRuns(runs[run := a])| == |QueuedRuns(runs)| + if a.queued then 1 else 0
  {
    if a.queued {
      assert QueuedRuns(runs[run := a]) == QueuedRuns(runs) + {run};
    } else {
      assert QueuedRuns(runs[run := a]) == QueuedRuns(runs);
    }
  }

  lemma Launch(runs: map<RunId, ActiveRun>, run: RunId, a: ActiveRun)
    requires Apart(runs) && run !in runs && a.cwd !in Held(runs)
    ensures Held(runs[run := a]) == Held(runs) + {a.cwd} && Apart(runs[run := a])
    ensures |QueuedRuns(runs[run := a])| == |QueuedRuns(runs)| + if a.queued then 1 else 0
  {
    HeldAfterLaunch(runs, run, a);
    ApartAfterLaunch(runs, run, a);
    QueuedAfterLaunch(runs, run, a);
  }

  lemma Retire(runs: map<RunId, ActiveRun>, run: RunId)
    requires Apart(runs) && run in runs
    ensures Held(runs - {run}) == Held(runs) - {runs[run].cwd} && Apart(runs - {run})
    ensures |QueuedRuns(runs - {run})| == |QueuedRuns(runs)| - if runs[run].queued then 1 else 0
  {
    var runs' := runs - {run};
    forall c | c in Held(runs) - {runs[run].cwd}
      ensures c in Held(runs')
    {
      var r :| r in runs && runs[r].cwd == c;
      assert runs'[r].cwd == c;
    }
    assert QueuedRuns(runs') == QueuedRuns(runs) - {run};
  }

  lemma StepKeepsWorkspacesExact(s: Server, e: Step)
    requires WorkspacesExact(s) && Allowed(s, e)
    ensures WorkspacesExact(Take(s, e))
  {
    match e
    case EndRun(run) => Retire(s.runs, run);
    case ResumePass(_, listing, run) =>
      var next := FindNext(listing, s.workspaces);
      if next.Some? { Launch(s.runs, run, ActiveRun(next.value.cwd, true)); }
    case BeginExclusive(cwd, run) =>
      if cwd !in s.workspaces { Launch(s.runs, run, ActiveRun(cwd, false)); }
    case _ =>
  }

  /** Across overlapping drain passes and exclusive runs, the active workspaces
      are exactly those held by a run, each by one run, and `activeJobs` counts
      exactly the queued ones. */
  lemma {:induction false} WorkspacesAlwaysExact(l: Life, i: nat)
    requires IsLife(l) && i < |l.servers|
    ensures WorkspacesExact(l.servers[i])
  {
    if i == 0 {
      assert QueuedRuns(map[]) == {} && Held(map[]) == {};
    } else {
      WorkspacesAlwaysExact(l, i - 1);
      assert Allowed(l.servers[i - 1], l.steps[i - 1]);
      StepKeepsWorkspacesExact(l.servers[i - 1], l.steps[i - 1]);
    }
  }

  // ---------------------------------------------------------------------
  // Shutdown

  ghost predicate StopSound(s: Server) {
    && (s.stop != NotStopping ==> s.stopped)
    && (s.stop.AwaitingRuns? ==> s.runs.Keys <= s.stop.runs)
    && (s.stop.Resolved? ==> s.runs == map[])
  }

  lemma StepKeepsStopSound(s: Server, e: Step)
    requires StopSound(s) && Allowed(s, e)
    ensures StopSound(Take(s, e))
  {
    if e.RunsSettled? { assert s.runs.Keys == {}; }
  }

  lemma {:induction false} StopAlwaysSound(l: Life, i: nat)
    requires IsLife(l) && i < |l.servers|
    ensures StopSound(l.servers[i])
  {
    if i > 0 {
      StopAlwaysSound(l, i - 1);
      assert Allowed(l.servers[i - 1], l.steps[i - 1]);
      StepKeepsStopSound(l.servers[i - 1], l.steps[i - 1]);
    }
  }

  /** Once stop() has begun no run starts, not even from a pass that was waiting
      for its listing; when stop() has resolved none is in flight. */
  lemma {:induction false} NothingStartsAfterStop(l: Life, i: nat, j: nat)
    requires IsLife(l) && i <= j < |l.servers| && l.servers[i].stopped
    ensures l.servers[j].stopped && l.servers[j].runs.Keys <= l.servers[i].runs.Keys
    ensures l.servers[j].stop.Resolved? ==> l.servers[j].runs == map[]
  {
    StopAlwaysSound(l, j);
    if i < j {
      NothingStartsAfterStop(l, i, j - 1);
      assert Allowed(l.servers[j - 1], l.steps[j - 1]);
    }
  }

  // ---------------------------------------------------------------------
  // Waking up

  /** Steps that schedule a drain unless the queue is stopped. */
  predicate Wakes(e: Step) {
    e.Wake? || e.FailPass? || e.EndRun? || (e.SetPaused? && !e.paused)
  }

  /** Step `k` looks through a listing and finds no job that can be started. */
  predicate FindsNothing(l: Life, k: nat)
    requires k < |l.steps| && k < |l.servers|
  {
    l.steps[k].ResumePass? && FindNext(l.steps[k].listing, l.servers[k].workspaces).None?
  }

  /** Something is still going on that leads to a look at the queue. */
  predicate Astir(s: Server) {
    s.timer || s.passes != {} || s.runs != map[]
  }

  lemma StepStaysAstir(s: Server, e: Step)
    requires WorkspacesExact(s) && s.concurrency >= 1 && Allowed(s, e)
    requires Astir(s) || Wakes(e)
    requires !Take(s, e).paused && !Take(s, e).stopped
    ensures Astir(Take(s, e)) || (e.ResumePass? && FindNext(e.listing, s.workspaces).None?)
  {
    if e.StartPass? && s.activeJobs >= s.concurrency { assert QueuedRuns(s.runs) != {}; }
    if e.ResumePass? && FindNext(e.listing, s.workspaces).Some? { assert e.run in Take(s, e).runs; }
  }

  lemma {:induction false} ConcurrencyPositive(l: Life, i: nat)
    requires IsLife(l) && i < |l.servers|
    ensures l.servers[i].concurrency >= 1
  {
    if i > 0 {
      ConcurrencyPositive(l, i - 1);
      assert Allowed(l.servers[i - 1], l.steps[i - 1]);
    }
  }

  /** No wake-up is lost: whatever happens after it, the queue, unless paused or
      stopped, has since looked through a listing that held nothing to start, or a
      drain is scheduled or listing, or a run is going whose end schedules one. */
  lemma {:induction false} WakeupsAreHeard(l: Life, i: nat, j: nat)
    requires IsLife(l) && i < j < |l.servers| && Wakes(l.steps[i])
    ensures !l.servers[j].paused && !l.servers[j].stopped ==> Astir(l.servers[j]) || exists k | i < k < j :: FindsNothing(l, k)
  {
    var s, e := l.servers[j - 1], l.steps[j - 1];
    assert Allowed(s, e);
    if !l.servers[j].paused && !l.servers[j].stopped {
      if i < j - 1 { WakeupsAreHeard(l, i, j - 1); }
      WorkspacesAlwaysExact(l, j - 1);
      ConcurrencyPositive(l, j - 1);
      if Astir(s) || Wakes(e) {
        StepStaysAstir(s, e);
        assert Astir(l.servers[j]) || FindsNothing(l, j - 1);
      }
    }
  }

  // ---------------------------------------------------------------------
  // Concurrency

  ghost predicate AtMostPasses(l: Life, k: nat) {
    forall i | 0 <= i < |l.servers| :: |l.servers[i].passes| <= k
  }

  ghost predicate Budgeted(s: Server, k: nat) {
    s.concurrency >= 1 && s.activeJobs + |s.passes| <= s.concurrency - 1 + k
  }

  lemma StepKeepsBudget(s: Server, e: Step, k: nat)
    requires Budgeted(s, k) && Allowed(s, e) && |Take(s, e).passes| <= k
    ensures Budgeted(Take(s, e), k) && Take(s, e).concurrency == s.concurrency
  {
  }

  /** When at most `k` drain passes ever overlap, at most `concurrency - 1 + k`
      queued jobs run at once; with passes that do not overlap the configured
      concurrency is respected. */
  lemma {:induction false} ConcurrencyBound(l: Life, k: nat, i: nat)
    requires IsLife(l) && AtMostPasses(l, k) && k >= 1 && i < |l.servers|
    ensures Budgeted(l.servers[i], k) && l.servers[i].concurrency == l.servers[0].concurrency
    ensures l.servers[i].activeJobs <= l.servers[i].concurrency - 1 + k
  {
    if i > 0 {
      ConcurrencyBound(l, k, i - 1);
      assert Allowed(l.servers[i - 1], l.steps[i - 1]);
      assert |l.servers[i].passes| <= k;
      StepKeepsBudget(l.servers[i - 1], l.steps[i - 1], k);
    }
  }

  // The bound is reached: one pass launches all but one job, then `k` passes
  // wait for their listings together and launch one each.

  function Named(n: nat): string {
    seq(n, i => 'x')
  }

  function QueuedJob(n: nat): Job {
    Job(Named(n), Queued, None, Named(n), 0, 0, None, None, None, None, None, None, None, map[])
  }

  /** `launched` runs are going, each in its own workspace, and the passes from
      `low` up to `high` are waiting. */
  ghost predicate Staged(s: Server, concurrency: nat, launched: nat, low: nat, high: nat) {
    && s.concurrency == concurrency && !s.paused && !s.stopped && s.activeJobs == launched
    && (forall cwd | cwd in s.workspaces :: |cwd| < launched)
    && (forall r | r in s.runs :: r < launched)
    && (forall p :: p in s.passes <==> low <= p < high)
  }

  ghost function LastServer(l: Life): Server
    requires |l.servers| > 0
  {
    l.servers[|l.servers| - 1]
  }

  lemma Prolong(l: Life, e: Step, k: nat) returns (l': Life)
    requires IsLife(l) && AtMostPasses(l, k) && Allowed(LastServer(l), e) && |Take(LastServer(l), e).passes| <= k
    ensures IsLife(l') && AtMostPasses(l', k) && LastServer(l') == Take(LastServer(l), e) && l'.servers[0] == l.servers[0]
  {
    l' := Life(l.servers + [Take(LastServer(l), e)], l.steps + [e]);
    forall i {:trigger l'.steps[i]} | 0 <= i < |l'.steps|
      ensures Allowed(l'.servers[i], l'.steps[i]) && l'.servers[i + 1] == Take(l'.servers[i], l'.steps[i])
    {
      if i < |l.steps| { assert l'.steps[i] == l.steps[i]; }
    }
    var concurrency :| l.servers[0] == Boot(concurrency);
    assert l'.servers[0] == Boot(concurrency);
  }

  lemma {:induction false} PassCount(passes: set<PassId>, low: nat, high: nat)
    requires low <= high && forall p :: p in passes <==> low <= p < high
    ensures |passes| == high - low
  {
    if low == high {
      assert passes == {};
    } else {
      PassCount(passes - {high - 1}, low, high - 1);
      assert passes == (passes - {high - 1}) + {high - 1};
    }
  }

  /** A waiting pass launches one more job; it goes on waiting while there is
      room and is over otherwise. */
  lemma LaunchStage(s: Server, concurrency: nat, launched: nat, low: nat, high: nat)
    requires Staged(s, concurrency, launched, low, high) && low < high
    ensures var e := ResumePass(low, [QueuedJob(launched)], launched);
            && Allowed(s, e)
            && Staged(Take(s, e), concurrency, launched + 1, if launched + 1 < concurrency then low else low + 1, high)
  {
    var listing := [QueuedJob(launched)];
    assert Named(launched) !in s.workspaces && Startable(listing[0], s.workspaces);
    assert FindNext(listing, s.workspaces) == Some(listing[0]);
  }

  /** The first drain is scheduled and begins. */
  lemma FirstPass(concurrency: nat, k: nat) returns (l: Life)
    requires concurrency >= 1 && k >= 1
    ensures IsLife(l) && AtMostPasses(l, k) && l.servers[0] == Boot(concurrency) && Staged(LastServer(l), concurrency, 0, 0, 1)
  {
    var boot := Life([Boot(concurrency)], []);
    assert boot.servers[0] == Boot(concurrency);
    l := Prolong(boot, Wake, k);
    assert Take(LastServer(l), StartPass(0)).passes == {0};
    l := Prolong(l, StartPass(0), k);
  }

  /** One pass launches `n` jobs, fewer than the concurrency. */
  lemma {:induction false} FillUp(concurrency: nat, k: nat, n: nat) returns (l: Life)
    requires concurrency >= 1 && k >= 1 && n < concurrency
    ensures IsLife(l) && AtMostPasses(l, k) && l.servers[0] == Boot(concurrency) && Staged(LastServer(l), concurrency, n, 0, 1)
  {
    if n == 0 {
      l := FirstPass(concurrency, k);
    } else {
      var before := FillUp(concurrency, k, n - 1);
      LaunchStage(LastServer(before), concurrency, n - 1, 0, 1);
      var e := ResumePass(0, [QueuedJob(n - 1)], n - 1);
      PassCount(Take(LastServer(before), e).passes, 0, 1);
      l := Prolong(before, e, k);
    }
  }

  /** Then `p` passes wait together. */
  lemma {:induction false} LineUp(concurrency: nat, k: nat, p: nat) returns (l: Life)
    requires concurrency >= 1 && 1 <= p <= k
    ensures IsLife(l) && AtMostPasses(l, k) && l.servers[0] == Boot(concurrency)
    ensures Staged(LastServer(l), concurrency, concurrency - 1, 0, p)
  {
    if p == 1 {
      l := FillUp(concurrency, k, concurrency - 1);
    } else {
      var before := LineUp(concurrency, k, p - 1);
      PassCount(LastServer(before).passes, 0, p - 1);
      before := Prolong(before, Wake, k);
      PassCount(Take(LastServer(before), StartPass(p - 1)).passes, 0, p);
      l := Prolong(before, StartPass(p - 1), k);
    }
  }

  /** And each launches one job more. */
  lemma {:induction false} Overrun(concurrency: nat, k: nat, n: nat) returns (l: Life)
    requires concurrency >= 1 && k >= 1 && n <= k
    ensures IsLife(l) && AtMostPasses(l, k) && l.servers[0] == Boot(concurrency)
    ensures Staged(LastServer(l), concurrency, concurrency - 1 + n, n, k)
  {
    if n == 0 {
      l := LineUp(concurrency, k, k);
    } else {
      var before := Overrun(concurrency, k, n - 1);
      var launched := concurrency - 1 + (n - 1);
      LaunchStage(LastServer(before), concurrency, launched, n - 1, k);
      var e := ResumePass(n - 1, [QueuedJob(launched)], launched);
      PassCount(Take(LastServer(before), e).passes, n, k);
      l := Prolong(before, e, k);
    }
  }

  /** The bound of `ConcurrencyBound` is attained for every concurrency and every
      number of overlapping passes. */
  lemma ConcurrencyBoundIsReached(concurrency: nat, k: nat) returns (l: Life)
    requires concurrency >= 1 && k >= 1
    ensures IsLife(l) && AtMostPasses(l, k) && l.servers[0].concurrency == concurrency
    ensures LastServer(l).activeJobs == concurrency - 1 + k
  {
    l := Overrun(concurrency, k, k);
  }

  ghost predicate KeepsLimit(l: Life) {
    forall i | 0 <= i < |l.servers| :: l.servers[i].activeJobs <= l.servers[0].concurrency
  }

  /** The configured concurrency is respected in all lives with at most `k`
      overlapping passes if and only if passes never overlap. */
  lemma LimitHoldsExactlyWithoutOverlap(concurrency: nat, k: nat)
    requires concurrency >= 1 && k >= 1
    ensures (forall l | IsLife(l) && AtMostPasses(l, k) && l.servers[0].concurrency == concurrency :: KeepsLimit(l)) <==> k == 1
  {
    if k == 1 {
      forall l | IsLife(l) && AtMostPasses(l, k) && l.servers[0].concurrency == concurrency
        ensures KeepsLimit(l)
      {
        forall i | 0 <= i < |l.servers| ensures l.servers[i].activeJobs <= l.servers[0].concurrency {
          ConcurrencyBound(l, k, i);
        }
      }
    } else {
      var l := ConcurrencyBoundIsReached(concurrency, k);
      assert !KeepsLimit(l);
    }
  }
}
