/** Resuming a saved run: which strategy a saved state leads to, what each
    strategy does, and what holds over a run with any chain of resumes. */
module RunResume {
  import opened Common
  import opened ReviewIssues
  import opened CandidateFiles
  import opened RunLoop

  /** `Unsaved` stands for a run of which no state was saved. */
  datatype Status = PausedAfterPlan | PausedAfterGenerate | PausedOtherwise | FailedStatus | Finished | Unsaved

  datatype Saved = Saved(status: Status, plan: Plan, state: LoopState, hint: Option<Hint>, dryRun: bool, pauseAfterGenerate: bool)

  datatype Strategy =
    | LoopFrom(start: int, resumeTools: bool)
    | FinalizeSuccess(stage: Stage)
    | FinalizeFailure

  /** What the session depends on besides the saved state. `prepared`, `writes`
      and `finalized` say that the stages before the loop, the file writes and
      the rest of finalising raise no exception. */
  datatype Outside = Outside(rules: Rules, oracle: Oracle, editedPlan: Plan, contextMissing: bool,
                             prepared: bool, writes: bool, finalized: bool)

  datatype Failure = NotResumable | UnexpectedNonLoop | Exception

  /** What a session leaves on disk, what it wrote to the repository, which
      checks it made, and the error it raised. */
  datatype Effect = Effect(saved: Saved, wrote: Option<seq<GeneratedFile>>, checks: seq<Check>, failure: Option<Failure>)

  const NOTHING_YET: LoopState := LoopState(None, [], 0)

  predicate IsResumable(status: Status, hint: Option<Hint>, forced: Option<Stage>) {
    || status == PausedAfterPlan || status == PausedAfterGenerate || status == PausedOtherwise
    || (status == FailedStatus && (hint.Some? || forced.Some?))
  }

  function ForcedRetryHint(stage: Stage, state: LoopState): Hint {
    var latest := Max(1, state.iterations);
    var next := if state.candidate.Some? then latest + 1 else latest;
    match stage
    case Planner => Hint(IterationGenerate, Some(1))
    case Context | ImplementationMemory | ContextRestore => Hint(Context, None)
    case IterationTools | IterationReview => Hint(IterationTools, Some(if state.candidate.Some? then latest else 1))
    case IterationFix => Hint(IterationFix, Some(if state.candidate.Some? then next else 1))
    case WriteFiles => Hint(WriteFiles, None)
    case MemoryStore => Hint(MemoryStore, None)
    case _ => Hint(IterationGenerate, Some(if state.candidate.Some? then next else 1))
  }

  function EffectiveHint(saved: Saved, forced: Option<Stage>): Option<Hint> {
    if forced.Some? then Some(ForcedRetryHint(forced.value, saved.state)) else saved.hint
  }

  function NextIteration(state: LoopState): int {
    if state.candidate.Some? then state.iterations + 1 else 1
  }

  predicate Ready(state: LoopState) {
    state.candidate.Some? && !Blocking(state)
  }

  function StrategyOfHint(hint: Hint, state: LoopState): Strategy {
    match hint.stage
    case WriteFiles => FinalizeSuccess(WriteFiles)
    case MemoryStore => if Blocking(state) then FinalizeFailure else FinalizeSuccess(MemoryStore)
    case IterationTools | IterationReview => LoopFrom(OrElse(hint.iteration, Max(1, state.iterations)), true)
    case IterationGenerate | IterationFix => LoopFrom(OrElse(hint.iteration, Max(1, NextIteration(state))), false)
    case _ => LoopFrom(NextIteration(state), false)
  }

  function ResolveResumeStrategy(saved: Saved, forced: Option<Stage>): Strategy {
    var state, hint := saved.state, EffectiveHint(saved, forced);
    if saved.status == PausedAfterPlan then LoopFrom(1, false)
    else if saved.status == PausedAfterGenerate then
      if Ready(state) then FinalizeSuccess(WriteFiles) else LoopFrom(NextIteration(state), false)
    else if hint.None? then LoopFrom(NextIteration(state), false)
    else StrategyOfHint(hint.value, state)
  }

  function IterationLimitHint(state: LoopState): Option<Hint> {
    if Ready(state) || state.candidate.None? then None else Some(Hint(IterationFix, Some(state.iterations + 1)))
  }

  /** Finalises a success, which raises an exception without a candidate: files are
      written unless the run is dry or resumes after the writes. */
  function Finalize(saved: Saved, plan: Plan, state: LoopState, stage: Stage, outside: Outside, checks: seq<Check>): Effect {
    var writing := !saved.dryRun && stage != MemoryStore;
    if state.candidate.None? || (writing && !outside.writes) then Effect(saved, None, checks, Some(Exception))
    else
      var wrote := if writing then state.candidate else None;
      if outside.finalized then Effect(saved.(status := Finished, plan := plan, state := state, hint := None), wrote, checks, None)
      else Effect(saved, wrote, checks, Some(Exception))
  }

  /** What becomes of a loop that was run for `saved`. */
  function Conclude(saved: Saved, plan: Plan, run: Run, outside: Outside): Effect {
    match run.outcome
    case Threw => Effect(saved, None, run.checks, Some(Exception))
    case Succeeded(_) => Finalize(saved, plan, run.state, WriteFiles, outside, run.checks)
    case Paused =>
      if !outside.finalized then Effect(saved, None, run.checks, Some(Exception))
      else Effect(saved.(status := PausedAfterGenerate, plan := plan, state := run.state, hint := None), None, run.checks, None)
    case Failed(hint) =>
      if !outside.finalized then Effect(saved, None, run.checks, Some(Exception))
      else Effect(saved.(status := FailedStatus, plan := plan, state := run.state, hint := hint), None, run.checks, None)
    case Exhausted =>
      if !outside.finalized then Effect(saved, None, run.checks, Some(Exception))
      else Effect(saved.(status := FailedStatus, plan := plan, state := run.state, hint := IterationLimitHint(run.state)), None, run.checks, None)
  }

  function PlanOf(saved: Saved, outside: Outside): Plan {
    if saved.status == PausedAfterPlan then outside.editedPlan else saved.plan
  }

  function StateOf(saved: Saved, outside: Outside): LoopState {
    if saved.status == PausedAfterPlan && outside.contextMissing then NOTHING_YET else saved.state
  }

  function SettingOf(saved: Saved, outside: Outside, start: int): Setting {
    Setting(outside.rules, PlanOf(saved, outside), outside.oracle, saved.pauseAfterGenerate, start)
  }

  /** One call of resume. */
  function Resume(saved: Saved, forced: Option<Stage>, outside: Outside): Effect {
    if !IsResumable(saved.status, saved.hint, forced) then Effect(saved, None, [], Some(NotResumable))
    else if !outside.prepared then Effect(saved, None, [], Some(Exception))
    else
      var strategy, plan, state := ResolveResumeStrategy(saved, forced), PlanOf(saved, outside), StateOf(saved, outside);
      if (saved.status == PausedAfterGenerate || strategy.FinalizeSuccess?) && Ready(state) then
        Finalize(saved, plan, state, if strategy.FinalizeSuccess? then strategy.stage else WriteFiles, outside, [])
      else if strategy.FinalizeFailure? then
        if !outside.finalized then Effect(saved, None, [], Some(Exception))
        else
          var hint := if saved.hint.Some? then saved.hint else IterationLimitHint(state);
          Effect(saved.(status := FailedStatus, plan := plan, state := state, hint := hint), None, [], None)
      else if !strategy.LoopFrom? then Effect(saved, None, [], Some(UnexpectedNonLoop))
      else
        Conclude(saved, plan, Loop(SettingOf(saved, outside, strategy.start), strategy.resumeTools, state), outside)
  }

  // ---------------------------------------------------------------------
  // The dispatch

  /** Exactly when resuming fails with "Unexpected non-loop": the stage asked for
      finalises a success, and there is nothing clean to finalise. */
  lemma DispatchFailsExactly(saved: Saved, forced: Option<Stage>, outside: Outside)
    requires IsResumable(saved.status, saved.hint, forced) && outside.prepared
    ensures Resume(saved, forced, outside).failure == Some(UnexpectedNonLoop) <==>
              && saved.status != PausedAfterPlan && saved.status != PausedAfterGenerate
              && EffectiveHint(saved, forced).Some?
              && var stage := EffectiveHint(saved, forced).value.stage;
                 || (stage == WriteFiles && !Ready(saved.state))
                 || (stage == MemoryStore && saved.state.candidate.None? && !Blocking(saved.state))
  {
    if ResolveResumeStrategy(saved, forced).LoopFrom? { LoopFailsOtherwise(saved, forced, outside); }
  }

  lemma {:induction false} LoopFailsOtherwise(saved: Saved, forced: Option<Stage>, outside: Outside)
    requires IsResumable(saved.status, saved.hint, forced) && outside.prepared
    requires ResolveResumeStrategy(saved, forced).LoopFrom?
    ensures Resume(saved, forced, outside).failure != Some(UnexpectedNonLoop)
  {
    var strategy := ResolveResumeStrategy(saved, forced);
    var c := SettingOf(saved, outside, strategy.start);
    ConcludeFailsOtherwise(saved, c.plan, Loop(c, strategy.resumeTools, StateOf(saved, outside)), outside);
  }

  lemma ConcludeFailsOtherwise(saved: Saved, plan: Plan, run: Run, outside: Outside)
    ensures Conclude(saved, plan, run, outside).failure != Some(UnexpectedNonLoop)
  {
  }

  /** Where forcing a stage of a failed run goes on. Checking again repeats the
      last iteration on the candidate at hand; generating and fixing follow after
      it; planning starts over; without a candidate everything starts at one. */
  lemma ForcedStageGoesOn(saved: Saved, stage: Stage)
    requires saved.status == FailedStatus && (saved.state.candidate.Some? ==> saved.state.iterations >= 1)
    ensures var strategy, checks := ResolveResumeStrategy(saved, Some(stage)), stage == IterationTools || stage == IterationReview;
            && (strategy.LoopFrom? <==> stage != WriteFiles && stage != MemoryStore)
            && (strategy.LoopFrom? ==>
                  && (strategy.resumeTools <==> checks)
                  && strategy.start ==
                       if saved.state.candidate.None? || stage == Planner then 1
                       else if checks then saved.state.iterations
                       else saved.state.iterations + 1)
  {
  }

  /** Forcing a check without a candidate raises an exception and changes nothing. */
  lemma {:induction false} ForcedCheckNeedsCandidate(saved: Saved, stage: Stage, outside: Outside)
    requires saved.status == FailedStatus && saved.state.candidate.None? && (stage == IterationTools || stage == IterationReview)
    requires outside.prepared && outside.rules.maxIterations >= 1 && !outside.oracle(1).budgetBefore
    ensures Resume(saved, Some(stage), outside) == Effect(saved, None, [], Some(Exception))
  {
    LoopNeedsCandidate(SettingOf(saved, outside, 1), true, saved.state);
  }

  /** A run that a budget stopped with something clean in hand leaves a hint that
      works: the next resume writes exactly that candidate, with no new
      generation, and finishes. */
  lemma {:induction false} BudgetStopResumesToWrite(saved: Saved, outside: Outside, c: Setting, skip: bool, state: LoopState, later: Outside)
    requires outside.finalized && later.prepared && later.writes && later.finalized
    ensures var run := Loop(c, skip, state);
            run.outcome.Failed? && run.outcome.hint.Some? && Ready(run.state) ==>
              var e := Resume(Conclude(saved, c.plan, run, outside).saved, None, later);
              && e.failure.None? && e.saved.status == Finished && e.checks == []
              && e.wrote == if saved.dryRun then None else run.state.candidate
  {
    var run := Loop(c, skip, state);
    if run.outcome.Failed? && run.outcome.hint.Some? && Ready(run.state) {
      WriteHintIffReady(c, skip, state);
      ReadyResume(Conclude(saved, c.plan, run, outside).saved, later);
    }
  }

  lemma ReadyResume(saved: Saved, later: Outside)
    requires saved.status == FailedStatus && saved.hint.Some? && saved.hint.value.stage == WriteFiles && Ready(saved.state)
    requires later.prepared && later.writes && later.finalized
    ensures var e := Resume(saved, None, later);
            && e.failure.None? && e.saved.status == Finished && e.checks == []
            && e.wrote == if saved.dryRun then None else saved.state.candidate
  {
  }

  // ---------------------------------------------------------------------
  // A run and all its resumes

  /** What the first session depends on. `planned` says that the stages before the
      guarded part raise no exception, `errorSaved` that an exception in that part
      is recorded, `errorHint` what hint is drawn from the failed stage. */
  datatype Start = Start(plan: Plan, dryRun: bool, pauseAfterGenerate: bool, planned: bool, stopsAfterPlan: bool,
                         costRefused: bool, errorSaved: bool, errorHint: Hint, outside: Outside)

  function Blank(b: Start): Saved {
    Saved(FailedStatus, b.plan, NOTHING_YET, Some(b.errorHint), b.dryRun, b.pauseAfterGenerate)
  }

  function Nothing(b: Start): Saved {
    Blank(b).(status := Unsaved, hint := None)
  }

  function FirstSetting(b: Start): Setting {
    Setting(b.outside.rules, b.plan, b.outside.oracle, b.pauseAfterGenerate, 1)
  }

  function FirstLoop(b: Start): Run {
    Loop(FirstSetting(b), false, NOTHING_YET)
  }

  /** The first session of a run. An exception in its guarded part loses the
      working state: what is saved then is an empty state with a hint drawn from
      the failed stage. Failing after a refused cost or after the last iteration
      is not awaited there, so an exception in it saves nothing. */
  function Begin(b: Start): Effect {
    var errored := if b.errorSaved then Blank(b) else Nothing(b);
    if !b.planned then Effect(Nothing(b), None, [], Some(Exception))
    else if !b.outside.prepared || (b.stopsAfterPlan && !b.outside.finalized) then Effect(errored, None, [], Some(Exception))
    else if b.stopsAfterPlan then Effect(Blank(b).(status := PausedAfterPlan, hint := None), None, [], None)
    else if b.costRefused then
      if b.outside.finalized then Effect(Blank(b).(hint := Some(Hint(IterationGenerate, None))), None, [], None)
      else Effect(Nothing(b), None, [], Some(Exception))
    else
      var run := FirstLoop(b);
      Conclude(if run.outcome.Exhausted? then Nothing(b) else errored, b.plan, run, b.outside)
  }

  datatype Again = Again(forced: Option<Stage>, outside: Outside)

  /** All writes so far, each with the plan it was made for. */
  datatype Past = Past(saved: Saved, checks: seq<Check>, writes: seq<(Plan, seq<GeneratedFile>)>)

  function WritesOf(plan: Plan, e: Effect): seq<(Plan, seq<GeneratedFile>)> {
    if e.wrote.Some? then [(plan, e.wrote.value)] else []
  }

  function Chain(b: Start, agains: seq<Again>): Past {
    if agains == [] then
      var e := Begin(b);
      Past(e.saved, e.checks, WritesOf(b.plan, e))
    else
      var past, again := Chain(b, agains[..|agains| - 1]), agains[|agains| - 1];
      var e := Resume(past.saved, again.forced, again.outside);
      Past(e.saved, past.checks + e.checks, past.writes + WritesOf(PlanOf(past.saved, again.outside), e))
  }

  ghost predicate CheckedClean(plan: Plan, files: seq<GeneratedFile>, checks: seq<Check>) {
    exists k :: 0 <= k < |checks| && checks[k].plan == plan && checks[k].files == files && Passed(checks[k])
  }

  /** What a session keeps of the saved state, given all checks so far: a clean
      candidate has been checked, a finished run has one, and a saved hint to go
      on after the writes never comes with a candidate. */
  ghost predicate Sane(saved: Saved, checks: seq<Check>) {
    && Vetted(saved.plan, saved.state, checks)
    && (saved.status == PausedAfterPlan ==> saved.state.candidate.None?)
    && (saved.status == Finished ==> Ready(saved.state))
    && (saved.hint.Some? && saved.hint.value.stage == MemoryStore ==> saved.state.candidate.None?)
  }

  /** What every session ensures of what it leaves and of what it writes. */
  ghost predicate SoundEffect(saved: Saved, plan: Plan, e: Effect, checks: seq<Check>) {
    && Sane(e.saved, checks) && e.saved.dryRun == saved.dryRun
    && (e.wrote.Some? ==> !saved.dryRun && CheckedClean(plan, e.wrote.value, checks))
    && (e.saved.status == Finished ==> CheckedClean(e.saved.plan, e.saved.state.candidate.value, checks))
  }

  lemma HintNeverSkipsWrites(state: LoopState, hint: Option<Hint>)
    requires HintMatches(state, hint)
    ensures hint.Some? ==> hint.value.stage != MemoryStore
  {
  }

  lemma {:induction false} ConcludeIsSound(saved: Saved, c: Setting, skip: bool, state: LoopState, outside: Outside, past: seq<Check>)
    requires Sane(saved, past) && saved.status != Finished && Vetted(c.plan, state, past)
    ensures var e := Conclude(saved, c.plan, Loop(c, skip, state), outside);
            SoundEffect(saved, c.plan, e, past + e.checks)
  {
    var run := Loop(c, skip, state);
    LoopKeepsVetted(c, skip, state, past);
    VettedLater(saved.plan, saved.state, past, run.checks);
    SuccessOnlyAfterCleanCheck(c, skip, state);
    WriteHintIffReady(c, skip, state);
    ConcludedIsSound(saved, c.plan, run, outside, past + run.checks);
  }

  lemma ConcludedIsSound(saved: Saved, plan: Plan, run: Run, outside: Outside, checks: seq<Check>)
    requires Sane(saved, checks) && saved.status != Finished && Vetted(plan, run.state, checks)
    requires run.outcome.Succeeded? ==> Ready(run.state)
    requires run.outcome.Failed? ==> HintMatches(run.state, run.outcome.hint)
    ensures SoundEffect(saved, plan, Conclude(saved, plan, run, outside), checks)
    ensures Conclude(saved, plan, run, outside).checks == run.checks
  {
    if run.outcome.Succeeded? {
      FinalizeIsSound(saved, plan, run.state, WriteFiles, outside, run.checks, checks);
    } else {
      UnfinishedIsSound(saved, plan, run, outside, checks);
    }
  }

  lemma UnfinishedIsSound(saved: Saved, plan: Plan, run: Run, outside: Outside, checks: seq<Check>)
    requires Sane(saved, checks) && saved.status != Finished && Vetted(plan, run.state, checks) && !run.outcome.Succeeded?
    requires run.outcome.Failed? ==> HintMatches(run.state, run.outcome.hint)
    ensures SoundEffect(saved, plan, Conclude(saved, plan, run, outside), checks)
    ensures Conclude(saved, plan, run, outside).checks == run.checks
  {
    if run.outcome.Failed? { HintNeverSkipsWrites(run.state, run.outcome.hint); }
  }

  lemma FinalizeIsSound(saved: Saved, plan: Plan, state: LoopState, stage: Stage, outside: Outside, made: seq<Check>, checks: seq<Check>)
    requires Sane(saved, checks) && saved.status != Finished && Vetted(plan, state, checks) && Ready(state)
    ensures SoundEffect(saved, plan, Finalize(saved, plan, state, stage, outside, made), checks)
    ensures Finalize(saved, plan, state, stage, outside, made).checks == made
  {
  }

  lemma {:induction false} ResumeIsSound(saved: Saved, forced: Option<Stage>, outside: Outside, past: seq<Check>)
    requires Sane(saved, past)
    ensures var e := Resume(saved, forced, outside);
            SoundEffect(saved, PlanOf(saved, outside), e, past + e.checks)
  {
    var strategy, plan, state := ResolveResumeStrategy(saved, forced), PlanOf(saved, outside), StateOf(saved, outside);
    assert past + [] == past;
    assert Vetted(plan, state, past);
    if IsResumable(saved.status, saved.hint, forced) && outside.prepared {
      if (saved.status == PausedAfterGenerate || strategy.FinalizeSuccess?) && Ready(state) {
        FinalizeIsSound(saved, plan, state, if strategy.FinalizeSuccess? then strategy.stage else WriteFiles, outside, [], past);
      } else if strategy.LoopFrom? {
        ConcludeIsSound(saved, SettingOf(saved, outside, strategy.start), strategy.resumeTools, state, outside, past);
      }
    }
  }

  /** The first session gets as far as its loop. */
  predicate ReachesLoop(b: Start) {
    b.planned && b.outside.prepared && !b.stopsAfterPlan && !b.costRefused
  }

  /** What is saved when an exception leaves the loop of the first session. */
  function Fallback(b: Start): Saved {
    if FirstLoop(b).outcome.Exhausted? || !b.errorSaved then Nothing(b) else Blank(b)
  }

  lemma BeginIsConclude(b: Start)
    requires ReachesLoop(b)
    ensures Begin(b) == Conclude(Fallback(b), b.plan, FirstLoop(b), b.outside)
  {
  }

  /** Before its loop a first session neither checks, writes nor finishes. */
  lemma {:induction false} BeginBeforeLoop(b: Start)
    requires !ReachesLoop(b)
    ensures Begin(b).wrote.None? && Begin(b).checks == [] && Begin(b).saved.status != Finished
    ensures Begin(b).saved.state == NOTHING_YET && Begin(b).saved.dryRun == b.dryRun && Begin(b).saved.plan == b.plan
  {
  }

  lemma {:induction false} NothingIsSane(saved: Saved)
    requires saved.state == NOTHING_YET && saved.status != Finished
    ensures Sane(saved, [])
  {
  }

  lemma {:induction false} BeginWithLoopIsSound(b: Start)
    requires ReachesLoop(b)
    ensures SoundEffect(Fallback(b), b.plan, Conclude(Fallback(b), b.plan, FirstLoop(b), b.outside), Begin(b).checks)
  {
    BeginIsConclude(b);
    NothingIsSane(Fallback(b));
    assert [] + Begin(b).checks == Begin(b).checks;
    ConcludeIsSound(Fallback(b), FirstSetting(b), false, NOTHING_YET, b.outside, []);
  }

  lemma {:induction false} BeginIsSound(b: Start)
    ensures SoundEffect(Blank(b), b.plan, Begin(b), Begin(b).checks)
  {
    if ReachesLoop(b) {
      BeginIsConclude(b);
      BeginWithLoopIsSound(b);
    } else {
      BeginBeforeLoop(b);
      NothingIsSane(Begin(b).saved);
    }
  }

  /** Over a run and any chain of resumes, forced or not, whatever fails on the
      way: files are written only if the very same files, for the same plan,
      passed tools and review with nothing blocking in some iteration of the
      chain; the run is finished as a success, dry or not, only with a candidate
      of which that holds and with no blocking issue. A dry run never writes. */
  lemma {:induction false} EveryWriteWasCheckedClean(b: Start, agains: seq<Again>)
    ensures var past := Chain(b, agains);
            && Sane(past.saved, past.checks) && past.saved.dryRun == b.dryRun
            && (forall k | 0 <= k < |past.writes| :: CheckedClean(past.writes[k].0, past.writes[k].1, past.checks))
            && (b.dryRun ==> past.writes == [])
  {
    if agains == [] {
      BeginIsSound(b);
    } else {
      var past, again := Chain(b, agains[..|agains| - 1]), agains[|agains| - 1];
      EveryWriteWasCheckedClean(b, agains[..|agains| - 1]);
      ResumeIsSound(past.saved, again.forced, again.outside, past.checks);
      var e := Resume(past.saved, again.forced, again.outside);
      forall k | 0 <= k < |past.writes|
        ensures CheckedClean(past.writes[k].0, past.writes[k].1, past.checks + e.checks)
      {
        CheckedCleanLater(past.writes[k].0, past.writes[k].1, past.checks, e.checks);
      }
    }
  }

  lemma FinishedOnlyClean(b: Start, agains: seq<Again>)
    ensures var past := Chain(b, agains);
            past.saved.status == Finished ==>
              Ready(past.saved.state) && CheckedClean(past.saved.plan, past.saved.state.candidate.value, past.checks)
  {
    EveryWriteWasCheckedClean(b, agains);
  }

  /** What following a hint comes to when it does not lead back into the loop. */
  function Settle(saved: Saved, hint: Hint, outside: Outside): Effect {
    var state := saved.state;
    if StrategyOfHint(hint, state).FinalizeFailure? then
      if !outside.finalized then Effect(saved, None, [], Some(Exception))
      else Effect(saved.(status := FailedStatus, hint := if saved.hint.Some? then saved.hint else IterationLimitHint(state)), None, [], None)
    else if Ready(state) then Finalize(saved, saved.plan, state, hint.stage, outside, [])
    else Effect(saved, None, [], Some(UnexpectedNonLoop))
  }

  lemma ResumeFollowsHint(saved: Saved, forced: Option<Stage>, outside: Outside)
    requires IsResumable(saved.status, saved.hint, forced) && outside.prepared
    requires saved.status != PausedAfterPlan && saved.status != PausedAfterGenerate && EffectiveHint(saved, forced).Some?
    ensures var hint := EffectiveHint(saved, forced).value;
            !StrategyOfHint(hint, saved.state).LoopFrom? ==> Resume(saved, forced, outside) == Settle(saved, hint, outside)
  {
  }

  /** Follows a hint: settles the run, or tells where the loop goes on. */
  method FollowHint(saved: Saved, hint: Hint, outside: Outside) returns (settled: Option<Effect>, start: int, checkFirst: bool)
    ensures settled.None? <==> StrategyOfHint(hint, saved.state).LoopFrom?
    ensures settled.None? ==> StrategyOfHint(hint, saved.state) == LoopFrom(start, checkFirst)
    ensures settled.Some? ==> settled.value == Settle(saved, hint, outside)
  {
    var state := saved.state;
    start, checkFirst := NextIteration(state), false;
    if hint.stage == MemoryStore && HasBlockingIssues(state.issues) {
      if !outside.finalized { return Some(Effect(saved, None, [], Some(Exception))), start, checkFirst; }
      var kept := if saved.hint.Some? then saved.hint else IterationLimitHint(state);
      return Some(Effect(saved.(status := FailedStatus, hint := kept), None, [], None)), start, checkFirst;
    }
    if hint.stage == WriteFiles || hint.stage == MemoryStore {
      if state.candidate.None? || HasBlockingIssues(state.issues) {
        return Some(Effect(saved, None, [], Some(UnexpectedNonLoop))), start, checkFirst;
      }
      return Some(Finalize(saved, saved.plan, state, hint.stage, outside, [])), start, checkFirst;
    }
    settled := None;
    checkFirst := hint.stage == IterationTools || hint.stage == IterationReview;
    if hint.iteration.Some? && (checkFirst || hint.stage == IterationGenerate || hint.stage == IterationFix) {
      start := hint.iteration.value;
    } else if checkFirst {
      start := Max(1, state.iterations);
    }
  }

  /** The dispatch as it runs, finding the strategy on the way. Of a saved state
      that a chain can reach it makes a sound one again. */
  method ResumeOrchestrator(saved: Saved, forced: Option<Stage>, outside: Outside, ghost past: seq<Check>) returns (e: Effect)
    requires Sane(saved, past)
    ensures e == Resume(saved, forced, outside)
    ensures SoundEffect(saved, PlanOf(saved, outside), e, past + e.checks)
  {
    ResumeIsSound(saved, forced, outside, past);
    if !IsResumable(saved.status, saved.hint, forced) { return Effect(saved, None, [], Some(NotResumable)); }
    if !outside.prepared { return Effect(saved, None, [], Some(Exception)); }
    var plan, state := saved.plan, saved.state;
    var start, checkFirst := NextIteration(state), false;
    if saved.status == PausedAfterPlan {
      plan, start := outside.editedPlan, 1;
      if outside.contextMissing { state := NOTHING_YET; }
    } else if saved.status == PausedAfterGenerate {
      if state.candidate.Some? && !HasBlockingIssues(state.issues) { return Finalize(saved, plan, state, WriteFiles, outside, []); }
    } else if forced.Some? || saved.hint.Some? {
      var settled: Option<Effect>;
      ResumeFollowsHint(saved, forced, outside);
      settled, start, checkFirst := FollowHint(saved, if forced.Some? then ForcedRetryHint(forced.value, state) else saved.hint.value, outside);
      if settled.Some? { return settled.value; }
    }
    assert ResolveResumeStrategy(saved, forced) == LoopFrom(start, checkFirst);
    var run := ExecuteGenerationLoop(Setting(outside.rules, plan, outside.oracle, saved.pauseAfterGenerate, start), checkFirst, state);
    e := Conclude(saved, plan, run, outside);
  }

  // ---------------------------------------------------------------------
  // When a finished run has written its candidate

  /** The resume goes on after the writes: only a hint for the memory stage, forced
      or saved, does that, and not for a paused run. */
  predicate SkipsWrites(saved: Saved, forced: Option<Stage>) {
    && saved.status != PausedAfterPlan && saved.status != PausedAfterGenerate
    && EffectiveHint(saved, forced).Some? && EffectiveHint(saved, forced).value.stage == MemoryStore
  }

  /** The session that finishes a run writes its candidate, unless the run is dry
      or the resume goes on after the writes; then it writes nothing. */
  lemma {:induction false} FinishingWritesExactly(saved: Saved, forced: Option<Stage>, outside: Outside)
    requires saved.status != Finished
    ensures var e := Resume(saved, forced, outside);
            e.saved.status == Finished ==>
              && e.saved.plan == PlanOf(saved, outside) && e.saved.state.candidate.Some?
              && e.wrote == if saved.dryRun || SkipsWrites(saved, forced) then None else e.saved.state.candidate
  {
    var strategy, plan, state := ResolveResumeStrategy(saved, forced), PlanOf(saved, outside), StateOf(saved, outside);
    StrategySkips(saved, forced);
    if strategy.LoopFrom? {
      ConcludeFinishes(saved, plan, Loop(SettingOf(saved, outside, strategy.start), strategy.resumeTools, state), outside);
    }
  }

  lemma StrategySkips(saved: Saved, forced: Option<Stage>)
    ensures var strategy := ResolveResumeStrategy(saved, forced);
            && (strategy.LoopFrom? ==> !SkipsWrites(saved, forced))
            && (strategy.FinalizeSuccess? ==> (strategy.stage == MemoryStore <==> SkipsWrites(saved, forced)))
  {
  }

  lemma ConcludeFinishes(saved: Saved, plan: Plan, run: Run, outside: Outside)
    requires saved.status != Finished
    ensures var e := Conclude(saved, plan, run, outside);
            e.saved.status == Finished ==>
              && e.saved.plan == plan && e.saved.state.candidate.Some?
              && e.wrote == if saved.dryRun then None else e.saved.state.candidate
  {
  }

  lemma {:induction false} FirstFinishWrites(b: Start)
    ensures Begin(b).saved.status == Finished ==>
              && Begin(b).saved.plan == b.plan && Begin(b).saved.state.candidate.Some?
              && Begin(b).wrote == if b.dryRun then None else Begin(b).saved.state.candidate
  {
    if ReachesLoop(b) {
      BeginIsConclude(b);
      ConcludeFinishes(Fallback(b), b.plan, FirstLoop(b), b.outside);
    } else {
      BeginBeforeLoop(b);
    }
  }

  ghost predicate LastWriteIs(past: Past, plan: Plan, candidate: Option<seq<GeneratedFile>>) {
    past.writes != [] && candidate.Some? && past.writes[|past.writes| - 1] == (plan, candidate.value)
  }

  /** A finished run that is not dry has written exactly its candidate, last of
      all it wrote, unless the user forced a resume after the writes. */
  lemma {:induction false} FinishedHasWritten(b: Start, agains: seq<Again>)
    requires !b.dryRun && forall a | a in agains :: a.forced != Some(MemoryStore)
    ensures var past := Chain(b, agains);
            past.saved.status == Finished ==> LastWriteIs(past, past.saved.plan, past.saved.state.candidate)
  {
    if agains == [] {
      FirstFinishWrites(b);
    } else {
      var init, again := agains[..|agains| - 1], agains[|agains| - 1];
      var past := Chain(b, init);
      assert again in agains && forall a | a in init :: a in agains;
      FinishedHasWritten(b, init);
      EveryWriteWasCheckedClean(b, init);
      if past.saved.status == Finished {
        FinishedIsLeft(past.saved, again.forced, again.outside);
      } else {
        FinishingWritesExactly(past.saved, again.forced, again.outside);
        UnreadySkipsNothing(past.saved, again.forced, again.outside);
      }
    }
  }

  lemma FinishedIsLeft(saved: Saved, forced: Option<Stage>, outside: Outside)
    requires saved.status == Finished
    ensures Resume(saved, forced, outside) == Effect(saved, None, [], Some(NotResumable))
  {
  }

  lemma SkippingUnreadyNeverFinishes(saved: Saved, forced: Option<Stage>, outside: Outside)
    requires saved.status != Finished && SkipsWrites(saved, forced) && saved.state.candidate.None?
    ensures Resume(saved, forced, outside).saved.status != Finished
  {
    assert !ResolveResumeStrategy(saved, forced).LoopFrom?;
  }

  /** A saved hint for the memory stage comes without a candidate, so following it
      never finishes a run. */
  lemma UnreadySkipsNothing(saved: Saved, forced: Option<Stage>, outside: Outside)
    requires saved.status != Finished && forced != Some(MemoryStore)
    requires saved.hint.Some? && saved.hint.value.stage == MemoryStore ==> saved.state.candidate.None?
    ensures Resume(saved, forced, outside).saved.status == Finished ==> !SkipsWrites(saved, forced)
  {
    if SkipsWrites(saved, forced) {
      assert EffectiveHint(saved, forced) == saved.hint;
      SkippingUnreadyNeverFinishes(saved, forced, outside);
    }
  }

  /** Forcing the memory stage finishes a failed run with a clean candidate that
      was never written: after a first session that a budget stopped there, nothing
      at all has been written when the run counts as a success. */
  lemma {:induction false} ForcedMemoryStageSkipsWrites(b: Start, later: Outside)
    requires later.prepared && later.finalized
    ensures var past := Chain(b, [Again(Some(MemoryStore), later)]);
            Begin(b).saved.status == FailedStatus && Ready(Begin(b).saved.state) ==> past.saved.status == Finished && past.writes == []
  {
    var agains := [Again(Some(MemoryStore), later)];
    assert agains[..0] == [];
    assert Chain(b, []) == Past(Begin(b).saved, Begin(b).checks, WritesOf(b.plan, Begin(b)));
    FirstFailureWritesNothing(b);
    if Begin(b).saved.status == FailedStatus && Ready(Begin(b).saved.state) {
      MemoryStageFinishes(Begin(b).saved, later);
    }
  }

  lemma ConcludedFailureWritesNothing(saved: Saved, plan: Plan, run: Run, outside: Outside)
    requires saved.state.candidate.None?
    ensures var e := Conclude(saved, plan, run, outside);
            e.saved.status == FailedStatus && Ready(e.saved.state) ==> e.wrote.None?
  {
  }

  lemma {:induction false} FirstFailureWritesNothing(b: Start)
    ensures Begin(b).saved.status == FailedStatus && Ready(Begin(b).saved.state) ==> Begin(b).wrote.None?
  {
    if ReachesLoop(b) {
      BeginIsConclude(b);
      ConcludedFailureWritesNothing(Fallback(b), b.plan, FirstLoop(b), b.outside);
    } else {
      BeginBeforeLoop(b);
    }
  }

  lemma MemoryStageFinishes(saved: Saved, later: Outside)
    requires saved.status == FailedStatus && Ready(saved.state) && later.prepared && later.finalized
    ensures Resume(saved, Some(MemoryStore), later).saved.status == Finished && Resume(saved, Some(MemoryStore), later).wrote.None?
  {
    assert ResolveResumeStrategy(saved, Some(MemoryStore)) == FinalizeSuccess(MemoryStore);
    assert Resume(saved, Some(MemoryStore), later) == Finalize(saved, saved.plan, saved.state, MemoryStore, later, []);
  }

  lemma CheckedCleanLater(plan: Plan, files: seq<GeneratedFile>, checks: seq<Check>, more: seq<Check>)
    requires CheckedClean(plan, files, checks)
    ensures CheckedClean(plan, files, checks + more)
  {
    var k :| 0 <= k < |checks| && checks[k].plan == plan && checks[k].files == files && Passed(checks[k]);
    assert (checks + more)[k] == checks[k];
  }

  /** The first session reaches its writes, they fail, and that is recorded. */
  predicate WritesFail(b: Start) {
    && ReachesLoop(b) && !b.dryRun && !b.outside.writes && b.errorSaved
    && FirstLoop(b).outcome.Succeeded?
  }

  lemma {:induction false} FailedWriteLosesCandidate(b: Start)
    ensures WritesFail(b) ==> Begin(b).saved == Blank(b)
  {
  }

  /** When the writes of a first session fail, its candidate is lost: no resume
      of what is saved can finalise it, each fails until a stage is forced. */
  lemma {:induction false} FailedWriteCannotBeResumed(b: Start, later: Outside)
    requires b.errorHint.stage == WriteFiles && later.prepared
    ensures WritesFail(b) ==>
              && Begin(b).saved.state == NOTHING_YET
              && Resume(Begin(b).saved, None, later) == Effect(Begin(b).saved, None, [], Some(UnexpectedNonLoop))
  {
    FailedWriteLosesCandidate(b);
    if WritesFail(b) { StuckResume(Begin(b).saved, later); }
  }

  lemma StuckResume(saved: Saved, later: Outside)
    requires saved.status == FailedStatus && saved.hint.Some? && saved.hint.value.stage == WriteFiles
    requires saved.state.candidate.None? && later.prepared
    ensures Resume(saved, None, later) == Effect(saved, None, [], Some(UnexpectedNonLoop))
  {
    assert ResolveResumeStrategy(saved, None) == FinalizeSuccess(WriteFiles);
  }

  /** A finished run stays as it is and is never written again. */
  lemma {:induction false} FinishedIsFinal(b: Start, before: seq<Again>, after: seq<Again>)
    requires Chain(b, before).saved.status == Finished
    ensures Chain(b, before + after) == Chain(b, before)
  {
    if after == [] {
      assert before + after == before;
    } else {
      FinishedIsFinal(b, before, after[..|after| - 1]);
      assert (before + after)[..|before + after| - 1] == before + after[..|after| - 1];
    }
  }

  // ---------------------------------------------------------------------
  // Sessions in which these things happen

  const ONE_FILE: seq<GeneratedFile> := [GeneratedFile([97], true, [])]

  function CleanAnswer(stopsAfter: bool): Answer {
    Answer(false, Some([RawFile([97], true, [])]), true, [], Some([]), Some([]), true, stopsAfter, true, false, None)
  }

  /** A run that generates one file, found clean; `writes` says whether the writes
      work, `stopsAfter` whether a budget stops the run just before. */
  function SampleStart(writes: bool, stopsAfter: bool): Start {
    Start(Plan([], []), false, false, true, false, false, true, Hint(WriteFiles, None),
          Outside(Rules(1, 1), iteration => CleanAnswer(stopsAfter), Plan([], []), false, true, writes, true))
  }

  lemma SampleCandidate()
    ensures Sanitize([RawFile([97], true, [])], Plan([], []), 1) == Some(ONE_FILE)
  {
    var raws := [RawFile([97], true, [])];
    assert Allowed(Plan([], [])) == {};
    assert ToPosix([97]) == [97] && NormalizePath([97]) == [97] && SafePath([97]);
    assert raws[..0] == [] && raws[0] == RawFile([97], true, []);
    assert Judge(raws[0], {}) == Keep(ONE_FILE[0]);
    assert SafeFiles(raws[..0], {}) == Some([]);
    assert SafeFiles(raws, {}) == Some([] + [ONE_FILE[0]]);
    assert ONE_FILE[..0] == [] && DedupeByPath(ONE_FILE) == ONE_FILE;
    assert ONE_FILE[..1] == ONE_FILE;
  }

  lemma SampleIsClean(writes: bool, stopsAfter: bool)
    ensures var a := CleanAnswer(stopsAfter);
            && Candidate(Rules(1, 1), Plan([], []), a, NOTHING_YET, 1, false) == Some(ONE_FILE)
            && !AnyBlocks(Found(a, ONE_FILE)) && MissingTargets(ONE_FILE, []) == []
  {
    SampleCandidate();
    ValidatesIffDistinct(ONE_FILE);
    assert Found(CleanAnswer(stopsAfter), ONE_FILE) == [];
  }

  /** The first session does reach its writes, and they can fail. */
  lemma WritesCanFail()
    ensures WritesFail(SampleStart(false, false))
  {
    var b := SampleStart(false, false);
    SampleIsClean(false, false);
    NoneMissing(ONE_FILE, b.plan);
    SucceedsExactlyWhenClean(FirstSetting(b), 1, false, NOTHING_YET);
    assert StepOf(FirstSetting(b))(1, false, NOTHING_YET) == Iterate(FirstSetting(b), 1, false, NOTHING_YET);
  }

  /** So a saved hint that cannot be followed is one a real session leaves. */
  lemma SavedHintCanFail(later: Outside)
    requires later.prepared
    ensures var saved := Begin(SampleStart(false, false)).saved;
            && saved.status == FailedStatus && saved.hint == Some(Hint(WriteFiles, None))
            && Resume(saved, None, later).failure == Some(UnexpectedNonLoop)
  {
    WritesCanFail();
    FailedWriteLosesCandidate(SampleStart(false, false));
    FailedWriteCannotBeResumed(SampleStart(false, false), later);
  }

  lemma BudgetCanStopReady()
    ensures var saved := Begin(SampleStart(true, true)).saved; saved.status == FailedStatus && Ready(saved.state)
  {
    var b := SampleStart(true, true);
    var c, a := FirstSetting(b), CleanAnswer(true);
    SampleIsClean(true, true);
    AcceptedBlocksIffFound(a, ONE_FILE);
    assert Iterate(c, 1, false, NOTHING_YET) == Examine(c, a, ONE_FILE, 1, NOTHING_YET);
    assert StepOf(c)(1, false, NOTHING_YET) == Iterate(c, 1, false, NOTHING_YET);
  }

  /** And a run can count as a success without having written its files. */
  lemma SuccessCanBeUnwritten(later: Outside)
    requires later.prepared && later.finalized
    ensures var b := SampleStart(true, true);
            var past := Chain(b, [Again(Some(MemoryStore), later)]);
            !b.dryRun && past.saved.status == Finished && past.saved.state.candidate.Some? && past.writes == []
  {
    BudgetCanStopReady();
    ForcedMemoryStageSkipsWrites(SampleStart(true, true), later);
    FinishedOnlyClean(SampleStart(true, true), [Again(Some(MemoryStore), later)]);
  }
}
