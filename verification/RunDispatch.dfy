/** What resuming a run does, told by the status it was saved with. */
module RunDispatch {
  import opened Common
  import opened ReviewIssues
  import opened CandidateFiles
  import opened RunLoop
  import opened RunResume

  lemma LoopIsNeverRefused(saved: Saved, plan: Plan, run: Run, outside: Outside)
    ensures Conclude(saved, plan, run, outside).failure != Some(NotResumable)
  {
  }

  /** A run cannot be resumed exactly when it is over, was never saved, or has
      failed with no hint where to go on and none is forced. Then nothing happens. */
  lemma {:induction false} NotResumableExactly(saved: Saved, forced: Option<Stage>, outside: Outside)
    ensures var e := Resume(saved, forced, outside);
            e.failure == Some(NotResumable) <==>
              || saved.status == Finished || saved.status == Unsaved
              || (saved.status == FailedStatus && saved.hint.None? && forced.None?)
    ensures var e := Resume(saved, forced, outside);
            e.failure == Some(NotResumable) ==> e == Effect(saved, None, [], Some(NotResumable))
  {
    var strategy := ResolveResumeStrategy(saved, forced);
    if strategy.LoopFrom? {
      var c := SettingOf(saved, outside, strategy.start);
      LoopIsNeverRefused(saved, c.plan, Loop(c, strategy.resumeTools, StateOf(saved, outside)), outside);
    }
  }

  /** A stage before the loop that raises an exception leaves the saved run as it is. */
  lemma UnpreparedChangesNothing(saved: Saved, forced: Option<Stage>, outside: Outside)
    requires !outside.prepared && saved.status != Finished && saved.status != Unsaved
    requires saved.status == FailedStatus ==> saved.hint.Some? || forced.Some?
    ensures Resume(saved, forced, outside) == Effect(saved, None, [], Some(Exception))
  {
  }

  /** What the loop leads to when it is run for a saved run. */
  function LoopedFrom(saved: Saved, plan: Plan, outside: Outside, start: int, checkFirst: bool, state: LoopState): Effect {
    Conclude(saved, plan, Loop(Setting(outside.rules, plan, outside.oracle, saved.pauseAfterGenerate, start), checkFirst, state), outside)
  }

  /** After the plan: the loop from iteration one on the plan as edited meanwhile,
      whatever stage is forced. Without its context files the state starts empty. */
  lemma AfterPlanLoopsOnEditedPlan(saved: Saved, forced: Option<Stage>, outside: Outside)
    requires saved.status == PausedAfterPlan && outside.prepared
    ensures Resume(saved, forced, outside) ==
              LoopedFrom(saved, outside.editedPlan, outside, 1, false,
                         if outside.contextMissing then LoopState(None, [], 0) else saved.state)
  {
    assert ResolveResumeStrategy(saved, forced) == LoopFrom(1, false);
  }

  /** After a generation with a clean candidate: writes exactly that and finishes. */
  lemma AfterGenerateWrites(saved: Saved, forced: Option<Stage>, outside: Outside)
    requires saved.status == PausedAfterGenerate && outside.prepared && outside.finalized
    requires saved.state.candidate.Some? && forall i | i in saved.state.issues :: i.severity == Low
    ensures Resume(saved, forced, outside) ==
              if !saved.dryRun && !outside.writes then Effect(saved, None, [], Some(Exception))
              else Effect(saved.(status := Finished, hint := None), if saved.dryRun then None else saved.state.candidate, [], None)
  {
    BlockingSeverities(saved.state.issues);
    assert ResolveResumeStrategy(saved, forced) == FinalizeSuccess(WriteFiles);
  }

  /** Otherwise: the loop from the iteration after the last, generating anew. */
  lemma AfterGenerateGoesOn(saved: Saved, forced: Option<Stage>, outside: Outside)
    requires saved.status == PausedAfterGenerate && outside.prepared
    requires saved.state.candidate.None? || exists i :: i in saved.state.issues && i.severity != Low
    ensures Resume(saved, forced, outside) ==
              LoopedFrom(saved, saved.plan, outside, if saved.state.candidate.Some? then saved.state.iterations + 1 else 1, false, saved.state)
  {
    BlockingSeverities(saved.state.issues);
    assert !Ready(saved.state);
  }

  /** Any other pause, with neither a saved nor a forced stage, likewise. */
  lemma OtherPauseGoesOn(saved: Saved, outside: Outside)
    requires saved.status == PausedOtherwise && saved.hint.None? && outside.prepared
    ensures Resume(saved, None, outside) ==
              LoopedFrom(saved, saved.plan, outside, if saved.state.candidate.Some? then saved.state.iterations + 1 else 1, false, saved.state)
  {
    assert ResolveResumeStrategy(saved, None) == LoopFrom(NextIteration(saved.state), false);
  }

  /** The stage that is forced, or else the saved one, decides for a failed run and
      for any other pause: which iteration comes first, and whether it checks the
      candidate at hand. A saved iteration number is followed where there is one. */
  lemma SavedStageGoesOn(saved: Saved, outside: Outside)
    requires saved.status == FailedStatus || saved.status == PausedOtherwise
    requires saved.hint.Some? && saved.hint.value.stage != WriteFiles && saved.hint.value.stage != MemoryStore && outside.prepared
    ensures var hint, last, some := saved.hint.value, saved.state.iterations, saved.state.candidate.Some?;
            var checks := hint.stage == IterationTools || hint.stage == IterationReview;
            var numbered := checks || hint.stage == IterationGenerate || hint.stage == IterationFix;
            Resume(saved, None, outside) ==
              LoopedFrom(saved, saved.plan, outside,
                         if numbered && hint.iteration.Some? then hint.iteration.value
                         else if checks then (if last == 0 then 1 else last)
                         else if some then last + 1 else 1,
                         checks, saved.state)
  {
    assert ResolveResumeStrategy(saved, None) == StrategyOfHint(saved.hint.value, saved.state);
  }

  /** Going on at the memory stage with blocking issues fails the run again, with
      the candidate, the issues and the hint it had. */
  lemma BlockedMemoryStageFailsAgain(saved: Saved, forced: Option<Stage>, outside: Outside)
    requires saved.status == FailedStatus || saved.status == PausedOtherwise
    requires (if forced.Some? then forced.value == MemoryStore else saved.hint.Some? && saved.hint.value.stage == MemoryStore)
    requires outside.prepared && outside.finalized && exists i :: i in saved.state.issues && i.severity != Low
    ensures var e := Resume(saved, forced, outside);
            && e.failure.None? && e.wrote.None? && e.checks == []
            && e.saved.status == FailedStatus && e.saved.state == saved.state && e.saved.plan == saved.plan
            && (saved.hint.Some? ==> e.saved.hint == saved.hint)
            && (saved.hint.None? ==>
                  e.saved.hint == if saved.state.candidate.Some? then Some(Hint(IterationFix, Some(saved.state.iterations + 1))) else None)
  {
    BlockingSeverities(saved.state.issues);
    assert ResolveResumeStrategy(saved, forced) == FinalizeFailure;
  }

  lemma UsedUpSaves(saved: Saved, plan: Plan, run: Run, outside: Outside)
    requires run.outcome.Exhausted? && outside.finalized && run.state.candidate.Some? && Blocking(run.state)
    ensures Conclude(saved, plan, run, outside).saved ==
              Saved(FailedStatus, plan, run.state, Some(Hint(IterationFix, Some(run.state.iterations + 1))), saved.dryRun, saved.pauseAfterGenerate)
  {
  }

  lemma FixGoesOn(stopped: Saved, n: int, later: Outside)
    requires stopped.status == FailedStatus && stopped.hint == Some(Hint(IterationFix, Some(n))) && later.prepared
    ensures Resume(stopped, None, later) == LoopedFrom(stopped, stopped.plan, later, n, false, stopped.state)
  {
    SavedStageGoesOn(stopped, later);
  }

  /** A run that used up its iterations goes on after the last of them, with the
      candidate and the issues it had. */
  lemma {:induction false} UsedUpRunGoesOn(saved: Saved, c: Setting, skip: bool, state: LoopState, outside: Outside, later: Outside)
    requires outside.finalized && later.prepared && c.start <= c.rules.maxIterations && Loop(c, skip, state).outcome.Exhausted?
    ensures var run := Loop(c, skip, state);
            var stopped := Conclude(saved, c.plan, run, outside).saved;
            && stopped.status == FailedStatus && stopped.plan == c.plan && stopped.state == run.state
            && Resume(stopped, None, later) == LoopedFrom(stopped, c.plan, later, run.state.iterations + 1, false, run.state)
  {
    var run := Loop(c, skip, state);
    SuccessOnlyAfterCleanCheck(c, skip, state);
    UsedUpSaves(saved, c.plan, run, outside);
    FixGoesOn(Conclude(saved, c.plan, run, outside).saved, run.state.iterations + 1, later);
  }

  lemma PausedSaves(saved: Saved, plan: Plan, run: Run, outside: Outside)
    requires run.outcome.Paused? && outside.finalized
    ensures Conclude(saved, plan, run, outside).saved ==
              Saved(PausedAfterGenerate, plan, run.state, None, saved.dryRun, saved.pauseAfterGenerate)
  {
  }

  /** A run that the user paused after a generation is saved with what was shown;
      when that was clean, the next resume writes exactly it. */
  lemma PausedRunWritesWhatWasShown(saved: Saved, plan: Plan, run: Run, outside: Outside, later: Outside)
    requires run.outcome.Paused? && outside.finalized && later.prepared && later.writes && later.finalized
    requires run.state.candidate.Some? && forall i | i in run.state.issues :: i.severity == Low
    ensures Resume(Conclude(saved, plan, run, outside).saved, None, later) ==
              Effect(Saved(Finished, plan, run.state, None, saved.dryRun, saved.pauseAfterGenerate),
                     if saved.dryRun then None else run.state.candidate, [], None)
  {
    PausedSaves(saved, plan, run, outside);
    AfterGenerateWrites(Conclude(saved, plan, run, outside).saved, None, later);
  }

  // ---------------------------------------------------------------------
  // How a session ends

  /** What an ended loop leaves saved: a pause and a failure keep the plan, the state
      and, for a failure, the hint; an exception keeps the run as it was saved. */
  lemma StoppedLoopSaves(saved: Saved, plan: Plan, run: Run, outside: Outside)
    requires !run.outcome.Succeeded?
    ensures var e := Conclude(saved, plan, run, outside);
            && e.wrote.None? && e.checks == run.checks
            && (e.failure == Some(Exception) <==> run.outcome.Threw? || !outside.finalized) && (e.failure.Some? ==> e.saved == saved)
            && (e.failure.None? ==>
                  && e.saved.plan == plan && e.saved.state == run.state
                  && e.saved.dryRun == saved.dryRun && e.saved.pauseAfterGenerate == saved.pauseAfterGenerate
                  && e.saved.status == (if run.outcome.Paused? then PausedAfterGenerate else FailedStatus)
                  && (run.outcome.Paused? ==> e.saved.hint.None?) && (run.outcome.Failed? ==> e.saved.hint == run.outcome.hint))
            && (e.failure.Some? ==> e.failure == Some(Exception))
  {
  }

  /** A success is written unless the run is dry; when the writes raise an exception
      nothing counts as written, and when only what follows does, it has been. */
  lemma SuccessIsFinalized(saved: Saved, plan: Plan, run: Run, outside: Outside)
    requires run.outcome.Succeeded? && run.state.candidate.Some?
    ensures var e, failed := Conclude(saved, plan, run, outside), !saved.dryRun && !outside.writes;
            && e.checks == run.checks
            && e.wrote == (if saved.dryRun || failed then None else run.state.candidate)
            && e.failure == (if failed || !outside.finalized then Some(Exception) else None)
            && e.saved == if e.failure.Some? then saved
                          else Saved(Finished, plan, run.state, None, saved.dryRun, saved.pauseAfterGenerate)
  {
  }

  /** What a first session leaves when it does not get as far as its loop. */
  lemma FirstSessionStopsEarly(b: Start)
    requires !ReachesLoop(b)
    ensures var e := Begin(b);
            var raised := !b.planned || !b.outside.prepared || !b.outside.finalized;
            && e.wrote.None? && e.checks == [] && e.failure == (if raised then Some(Exception) else None)
            && e.saved.plan == b.plan && e.saved.state == LoopState(None, [], 0)
            && e.saved.dryRun == b.dryRun && e.saved.pauseAfterGenerate == b.pauseAfterGenerate
            && e.saved.status == (if !raised && b.stopsAfterPlan then PausedAfterPlan
                                  else if !raised then FailedStatus
                                  else if b.planned && b.errorSaved && (!b.outside.prepared || b.stopsAfterPlan) then FailedStatus
                                  else Unsaved)
            && e.saved.hint == (if e.saved.status != FailedStatus then None
                                else if raised then Some(b.errorHint)
                                else Some(Hint(IterationGenerate, None)))
  {
  }

  /** Otherwise it ends as its loop does. Unless the loop used up its iterations, an
      exception on the way is recorded with an empty state, if it can be. */
  lemma FirstSessionLoops(b: Start)
    requires ReachesLoop(b)
    ensures var run := Loop(Setting(b.outside.rules, b.plan, b.outside.oracle, b.pauseAfterGenerate, 1), false, LoopState(None, [], 0));
            var fallback := if b.errorSaved && !run.outcome.Exhausted?
                            then Saved(FailedStatus, b.plan, LoopState(None, [], 0), Some(b.errorHint), b.dryRun, b.pauseAfterGenerate)
                            else Saved(Unsaved, b.plan, LoopState(None, [], 0), None, b.dryRun, b.pauseAfterGenerate);
            Begin(b) == Conclude(fallback, b.plan, run, b.outside)
  {
    BeginIsConclude(b);
  }

  /** A chain of resumes is the first session and then each resume of what was saved,
      with all checks and writes in order. */
  lemma ChainExact(b: Start, agains: seq<Again>, forced: Option<Stage>, outside: Outside)
    ensures Chain(b, []).saved == Begin(b).saved && Chain(b, []).checks == Begin(b).checks
    ensures Chain(b, []).writes == if Begin(b).wrote.Some? then [(b.plan, Begin(b).wrote.value)] else []
    ensures var past, more := Chain(b, agains), Chain(b, agains + [Again(forced, outside)]);
            var e := Resume(past.saved, forced, outside);
            var plan := if past.saved.status == PausedAfterPlan then outside.editedPlan else past.saved.plan;
            && more.saved == e.saved && more.checks == past.checks + e.checks
            && more.writes == past.writes + if e.wrote.Some? then [(plan, e.wrote.value)] else []
  {
    assert (agains + [Again(forced, outside)])[..|agains|] == agains;
  }
}
