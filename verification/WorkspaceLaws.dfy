/** When passes and runs start, and what pausing and stopping do, step by step and
    over whole lives of the server. */
module WorkspaceLaws {
  import opened Common
  import opened JobRecords
  import opened JobWorkspaces

  /** A new queue runs nothing, waits for nothing and has room for at least one job. */
  lemma BootExact(concurrency: nat)
    ensures var s := Boot(concurrency);
            && s.concurrency == (if concurrency == 0 then 1 else concurrency) && s.activeJobs == 0
            && s.workspaces == {} && s.runs == map[] && s.passes == {} && s.tracked.None?
            && !s.paused && !s.stopped && !s.timer && s.stop == NotStopping
  {
  }

  /** A drain becomes a pass exactly when the queue is neither paused nor stopped
      and has a free slot. */
  lemma DrainStartsExactly(s: Server, pass: PassId)
    requires Allowed(s, StartPass(pass))
    ensures var s' := Take(s, StartPass(pass));
            && (pass in s'.passes <==> !s.paused && !s.stopped && s.activeJobs < s.concurrency)
            && s'.passes - {pass} == s.passes && s'.tracked == (if pass in s'.passes then Some(pass) else None)
            && !s'.timer && s'.runs == s.runs
  {
  }

  /** A pass launches a run exactly when the queue is neither paused nor stopped and
      some listed job is queued with its workspace free: the oldest such job. It
      goes on waiting only if it launched one and there is still room. */
  lemma PassLaunchesExactly(s: Server, pass: PassId, listing: seq<Job>, run: RunId)
    requires Allowed(s, ResumePass(pass, listing, run))
    ensures var s' := Take(s, ResumePass(pass, listing, run));
            && (run in s'.runs <==> !s.paused && !s.stopped && CanStart(listing, s.workspaces))
            && (run in s'.runs ==>
                  && s'.activeJobs == s.activeJobs + 1 && s'.runs[run].queued
                  && exists k :: 0 <= k < |listing| && IsOldest(listing, k, s.workspaces) && s'.runs == s.runs[run := ActiveRun(listing[k].cwd, true)])
            && (run !in s'.runs ==> s'.runs == s.runs && s'.activeJobs == s.activeJobs)
            && (pass in s'.passes <==> run in s'.runs && s.activeJobs + 1 < s.concurrency)
  {
    var next := FindNext(listing, s.workspaces);
    if next.Some? {
      var k := FindNextIsOldest(listing, s.workspaces);
      assert IsOldest(listing, k, s.workspaces);
    }
    if k :| 0 <= k < |listing| && listing[k].status == Queued && listing[k].cwd !in s.workspaces {
      assert listing[k] in listing && Startable(listing[k], s.workspaces);
    }
  }

  ghost predicate CanStart(listing: seq<Job>, workspaces: set<string>) {
    exists k :: 0 <= k < |listing| && listing[k].status == Queued && listing[k].cwd !in workspaces
  }

  /** Listings are newest first, so the oldest is the last that can be started. */
  predicate IsOldest(listing: seq<Job>, k: nat, workspaces: set<string>) {
    && k < |listing| && listing[k].status == Queued && listing[k].cwd !in workspaces
    && forall i | k < i < |listing| :: listing[i].status != Queued || listing[i].cwd in workspaces
  }

  /** Work outside the queue starts exactly when nothing forbids it, and does not
      count against the concurrency. */
  lemma ExclusiveStartsExactly(s: Server, cwd: string, run: RunId)
    requires Allowed(s, BeginExclusive(cwd, run))
    ensures var s' := Take(s, BeginExclusive(cwd, run));
            && s'.activeJobs == s.activeJobs
            && s'.runs == if s.paused || s.stopped || cwd in s.workspaces then s.runs else s.runs[run := ActiveRun(cwd, false)]
  {
  }

  /** No run starts while the queue is paused, whatever is under way. */
  lemma {:induction false} NothingStartsWhilePaused(l: Life, i: nat, j: nat)
    requires IsLife(l) && i < j < |l.servers| && l.steps[i] == SetPaused(true)
    requires forall k | i < k < j :: l.steps[k] != SetPaused(false)
    ensures l.servers[j].paused && l.servers[j].runs.Keys <= l.servers[i].runs.Keys
  {
    assert Allowed(l.servers[j - 1], l.steps[j - 1]);
    if i < j - 1 {
      NothingStartsWhilePaused(l, i, j - 1);
      assert l.steps[j - 1] != SetPaused(false);
    }
  }

  /** The end of a pause takes effect and schedules a drain, unless stopped. */
  lemma PauseEnds(s: Server)
    ensures var s' := Take(s, SetPaused(false)); !s'.paused && (s.stopped || s'.timer) && s'.stopped == s.stopped
  {
  }

  /** From its start until the next drain, the tracked pass is the one that was
      started last, as long as it waits. */
  lemma {:induction false} TrackedIsLatest(l: Life, i: nat, j: nat)
    requires IsLife(l) && i < j < |l.servers| && l.steps[i].StartPass? && l.steps[i].pass in l.servers[i + 1].passes
    requires forall k | i < k < j :: !l.steps[k].StartPass?
    ensures l.servers[j].tracked == if l.steps[i].pass in l.servers[j].passes then Some(l.steps[i].pass) else None
  {
    assert Allowed(l.servers[j - 1], l.steps[j - 1]);
    if i < j - 1 {
      TrackedIsLatest(l, i, j - 1);
      assert !l.steps[j - 1].StartPass?;
    }
  }

  /** What stop() is waiting for: the pass that was tracked when it was called,
      until that is over, and from then on every run there was. */
  ghost predicate WaitsFor(s: Server, tracked: Option<PassId>) {
    && s.stopped && !s.timer
    && match s.stop
       case NotStopping => false
       case AwaitingPass(pass) => pass == tracked
       case _ => tracked.Some? ==> tracked.value !in s.passes
  }

  /** stop() takes effect at once, clears the timer, and neither asks for the runs nor
      resolves before the pass it found is over. */
  lemma {:induction false} StopWaitsForItsPass(l: Life, i: nat, j: nat)
    requires IsLife(l) && i < j < |l.servers| && l.steps[i].BeginStop?
    ensures WaitsFor(l.servers[j], l.servers[i].tracked)
  {
    assert Allowed(l.servers[j - 1], l.steps[j - 1]);
    if i < j - 1 { StopWaitsForItsPass(l, i, j - 1); }
  }
}
