/** The generate, check and review loop, run against oracles for the generator,
    the tools, the reviewers, the budgets and the user. */
module RunLoop {
  import opened Common
  import opened Texts
  import opened ReviewIssues
  import opened CandidateFiles

  datatype Stage =
    | Planner | Context | ImplementationMemory | ContextRestore
    | IterationGenerate | IterationFix | IterationTools | IterationReview
    | WriteFiles | MemoryStore | OtherStage

  datatype Hint = Hint(stage: Stage, iteration: Option<int>)

  datatype Rules = Rules(maxIterations: int, maxWriteFiles: nat)

  /** What the loop carries from one iteration to the next, and what is saved. */
  datatype LoopState = LoopState(candidate: Option<seq<GeneratedFile>>, issues: seq<Issue>, iterations: nat)

  /** The outside world's answers in one iteration; `None` is an exception. */
  datatype Answer = Answer(
    budgetBefore: bool,
    generated: Option<seq<RawFile>>,
    originalsRead: bool,
    coverage: seq<RawIssue>,
    tools: Option<seq<RawIssue>>,
    review: Option<seq<RawIssue>>,
    persisted: bool,
    budgetAfter: bool,
    confirmed: bool,
    budgetAtSuccess: bool,
    maxRetries: Option<int>)

  type Oracle = int -> Answer

  /** What stays fixed while the loop runs; `pause` asks the user after each
      generation, `start` is the number of the first iteration. */
  datatype Setting = Setting(rules: Rules, plan: Plan, oracle: Oracle, pause: bool, start: int)

  /** A candidate went through tools and review, which found `found`. */
  datatype Check = Check(iteration: int, plan: Plan, files: seq<GeneratedFile>, found: seq<RawIssue>)

  datatype Outcome =
    | Succeeded(iteration: int)
    | Failed(hint: Option<Hint>)
    | Paused
    | Exhausted
    | Threw

  /** How the loop ended, with what state, after which checks. */
  datatype Run = Run(outcome: Outcome, state: LoopState, checks: seq<Check>)

  function Blocking(state: LoopState): bool {
    HasBlockingIssues(state.issues)
  }

  function BudgetRetryHint(state: LoopState, maxRetries: Option<int>, next: int): Option<Hint> {
    if maxRetries.Some? && state.iterations >= maxRetries.value then None
    else if state.candidate.Some? && !Blocking(state) then Some(Hint(WriteFiles, None))
    else if state.candidate.Some? then Some(Hint(IterationFix, Some(Max(1, next))))
    else Some(Hint(IterationGenerate, Some(Max(1, next))))
  }

  const INCOMPLETE: Text := Ascii("The candidate is incomplete and does not include all planned write targets: ")

  function Joined(texts: seq<Text>): Text {
    if texts == [] then []
    else if |texts| == 1 then texts[0]
    else texts[0] + Ascii(", ") + Joined(texts[1..])
  }

  function IncompleteIssue(missing: seq<Text>): Issue {
    Issue(High, Ascii("generation"), if missing == [] then [] else missing[0], INCOMPLETE + Joined(missing) + Ascii("."), None)
  }

  /** The candidate of this iteration: the one resumed with, or a generated one,
      made safe. `None` when a stage throws or nothing safe is left. */
  function Candidate(rules: Rules, plan: Plan, a: Answer, state: LoopState, iteration: int, skip: bool): Option<seq<GeneratedFile>> {
    var raws :=
      if skip then if state.candidate.Some? then Some(AsRawFiles(state.candidate.value)) else None
      else if iteration != 1 && state.candidate.None? then None
      else a.generated;
    if raws.None? then None
    else
      var safe := Sanitize(raws.value, plan, rules.maxWriteFiles);
      if safe.None? || safe.value == [] || !a.originalsRead then None else safe
  }

  function AsRawFiles(files: seq<GeneratedFile>): seq<RawFile> {
    seq(|files|, i requires 0 <= i < |files| => RawFile(files[i].path, files[i].create, files[i].content))
  }

  function PreReview(a: Answer, files: seq<GeneratedFile>): seq<Issue>
    requires a.tools.Some?
  {
    MergeIssues(a.tools.value, AsRaws(ValidateCandidateFiles(files)) + a.coverage)
  }

  /** All that tools, validation and reviewers reported. */
  function Found(a: Answer, files: seq<GeneratedFile>): seq<RawIssue>
    requires a.tools.Some? && a.review.Some?
  {
    a.review.value + a.tools.value + AsRaws(ValidateCandidateFiles(files)) + a.coverage
  }

  function Accepted(a: Answer, files: seq<GeneratedFile>): seq<Issue>
    requires a.tools.Some? && a.review.Some?
  {
    MergeIssues(AsRaws(NormalizeAll(a.review.value)), AsRaws(PreReview(a, files)))
  }

  datatype Step = Stop(run: Run) | Continue(state: LoopState, checks: seq<Check>)

  /** The rest of an iteration once tools and review have answered. */
  function AfterReview(a: Answer, pause: bool, state: LoopState, iteration: int, checks: seq<Check>): Step {
    if a.budgetAfter then Stop(Run(Failed(BudgetRetryHint(state, a.maxRetries, iteration + 1)), state, checks))
    else if pause && !a.confirmed then Stop(Run(Paused, state, checks))
    else if Blocking(state) then Continue(state, checks)
    else if a.budgetAtSuccess then Stop(Run(Failed(BudgetRetryHint(state, a.maxRetries, iteration)), state, checks))
    else Stop(Run(Succeeded(iteration), state, checks))
  }

  /** Tools and review of a complete candidate. */
  function Examine(c: Setting, a: Answer, files: seq<GeneratedFile>, iteration: int, state: LoopState): Step {
    if a.tools.None? || a.review.None? || !a.persisted then Stop(Run(Threw, state, []))
    else
      AfterReview(a, c.pause, LoopState(Some(files), Accepted(a, files), state.iterations + 1), iteration,
                  [Check(iteration, c.plan, files, Found(a, files))])
  }

  /** One iteration. With `skip` the candidate at hand is checked as it is. An
      exception loses the state the iteration built up. */
  function Iterate(c: Setting, iteration: int, skip: bool, state: LoopState): Step {
    var a := c.oracle(iteration);
    if a.budgetBefore then Stop(Run(Failed(BudgetRetryHint(state, a.maxRetries, c.start)), state, []))
    else
      var files := Candidate(c.rules, c.plan, a, state, iteration, skip);
      if files.None? then Stop(Run(Threw, state, []))
      else
        var missing := MissingTargets(files.value, c.plan.writeTargets);
        if missing != [] then
          var issues := MergeIssues(AsRaws(state.issues), [AsRaw(IncompleteIssue(missing))]);
          if a.persisted then Continue(LoopState(files, issues, state.iterations + 1), [])
          else Stop(Run(Threw, state, []))
        else Examine(c, a, files.value, iteration, state)
  }

  type Stepper = (int, bool, LoopState) -> Step

  function Prepend(checks: seq<Check>, run: Run): Run {
    run.(checks := checks + run.checks)
  }

  /** Iterates until a step stops or the iterations are used up. */
  function Repeat(step: Stepper, limit: int, iteration: int, skip: bool, state: LoopState): Run
    decreases limit - iteration
  {
    if iteration > limit then Run(Exhausted, state, [])
    else
      match step(iteration, skip, state)
      case Stop(run) => run
      case Continue(state', checks) => Prepend(checks, Repeat(step, limit, iteration + 1, false, state'))
  }

  function StepOf(c: Setting): Stepper {
    (iteration, skip, state) => Iterate(c, iteration, skip, state)
  }

  /** The whole loop. */
  function Loop(c: Setting, skip: bool, state: LoopState): Run {
    Repeat(StepOf(c), c.rules.maxIterations, c.start, skip, state)
  }

  // ---------------------------------------------------------------------
  // What a check establishes

  /** Every path is relative, stays inside, and is planned if anything is. */
  ghost predicate SafeFor(plan: Plan, files: seq<GeneratedFile>) {
    forall f | f in files :: SafePath(f.path) && (Allowed(plan) == {} || f.path in Allowed(plan))
  }

  /** The check was of a complete candidate with distinct safe paths, and nothing
      any tool, validator or reviewer reported blocks. */
  ghost predicate Passed(c: Check) {
    && c.files != [] && DistinctPaths(c.files) && SafeFor(c.plan, c.files) && Complete(c.files, c.plan)
    && !AnyBlocks(c.found)
  }

  function Validation(a: Answer, files: seq<GeneratedFile>): seq<RawIssue> {
    AsRaws(ValidateCandidateFiles(files)) + a.coverage
  }

  lemma PreReviewBlocks(a: Answer, files: seq<GeneratedFile>)
    requires a.tools.Some?
    ensures AnyBlocks(AsRaws(PreReview(a, files))) <==> AnyBlocks(a.tools.value) || AnyBlocks(Validation(a, files))
  {
    MergedDescribed(a.tools.value, Validation(a, files));
    AsRawsBlock(PreReview(a, files));
    MergeKeepsBlocking(a.tools.value, Validation(a, files));
  }

  lemma ReviewBlocks(review: seq<RawIssue>)
    ensures AnyBlocks(AsRaws(NormalizeAll(review))) <==> AnyBlocks(review)
  {
    NormalizedDescribed(review);
    AsRawsBlock(NormalizeAll(review));
    NormalizingKeepsBlocking(review);
  }

  lemma FoundBlocks(a: Answer, files: seq<GeneratedFile>)
    requires a.tools.Some? && a.review.Some?
    ensures AnyBlocks(Found(a, files)) <==> AnyBlocks(a.review.value) || AnyBlocks(a.tools.value) || AnyBlocks(Validation(a, files))
  {
    AnyBlocksConcat(a.review.value, a.tools.value);
    AnyBlocksConcat(a.review.value + a.tools.value, Validation(a, files));
    assert Found(a, files) == a.review.value + a.tools.value + Validation(a, files);
  }

  lemma AcceptedBlocksIffFound(a: Answer, files: seq<GeneratedFile>)
    requires a.tools.Some? && a.review.Some?
    ensures HasBlockingIssues(Accepted(a, files)) <==> AnyBlocks(Found(a, files))
  {
    MergeKeepsBlocking(AsRaws(NormalizeAll(a.review.value)), AsRaws(PreReview(a, files)));
    ReviewBlocks(a.review.value);
    PreReviewBlocks(a, files);
    FoundBlocks(a, files);
  }

  lemma AnyBlocksConcat(a: seq<RawIssue>, b: seq<RawIssue>)
    ensures AnyBlocks(a + b) <==> AnyBlocks(a) || AnyBlocks(b)
  {
    if r :| (r in a || r in b) && Blocks(r) { assert r in a + b; }
  }

  lemma IncompleteBlocks(state: LoopState, missing: seq<Text>)
    ensures HasBlockingIssues(MergeIssues(AsRaws(state.issues), [AsRaw(IncompleteIssue(missing))]))
  {
    var raw := AsRaw(IncompleteIssue(missing));
    MergeKeepsBlocking(AsRaws(state.issues), [raw]);
    assert raw in [raw] && |IncompleteIssue(missing).description| > 0 && Blocks(raw);
  }

  lemma CandidateIsSafe(rules: Rules, plan: Plan, a: Answer, state: LoopState, iteration: int, skip: bool)
    requires Candidate(rules, plan, a, state, iteration, skip).Some?
    ensures var files := Candidate(rules, plan, a, state, iteration, skip).value;
            files != [] && DistinctPaths(files) && |files| <= rules.maxWriteFiles && SafeFor(plan, files)
  {
    var raws := if skip then AsRawFiles(state.candidate.value) else a.generated.value;
    SanitizedFilesAreSafe(raws, plan, rules.maxWriteFiles);
  }

  // ---------------------------------------------------------------------
  // Whole runs

  /** Tools, reviewers and the coverage check have all answered, and nothing they
      reported blocks. */
  ghost predicate NoObjection(a: Answer) {
    && a.tools.Some? && a.review.Some?
    && !AnyBlocks(a.tools.value) && !AnyBlocks(a.review.value) && !AnyBlocks(a.coverage)
  }

  lemma NothingFound(a: Answer, files: seq<GeneratedFile>)
    requires a.tools.Some? && a.review.Some? && DistinctPaths(files)
    ensures !AnyBlocks(Found(a, files)) <==> NoObjection(a)
  {
    ValidatesIffDistinct(files);
    FoundBlocks(a, files);
    AnyBlocksConcat(AsRaws(ValidateCandidateFiles(files)), a.coverage);
    assert AsRaws([]) == [];
  }

  /** Where the loop may finalise a success. */
  ghost predicate SuccessIsEarned(c: Setting, first: int, run: Run)
    requires run.outcome.Succeeded?
  {
    && run.checks != [] && run.state.candidate.Some?
    && var check, i := run.checks[|run.checks| - 1], run.outcome.iteration;
    && first <= i <= c.rules.maxIterations
    && check.iteration == i && check.plan == c.plan && check.files == run.state.candidate.value && Passed(check)
    && |check.files| <= c.rules.maxWriteFiles && !Blocking(run.state)
    && !c.oracle(i).budgetBefore && !c.oracle(i).budgetAfter && !c.oracle(i).budgetAtSuccess
    && (c.pause ==> c.oracle(i).confirmed) && NoObjection(c.oracle(i))
  }

  /** A step that goes on leaves a candidate with blocking issues. */
  ghost predicate Earned(c: Setting, iteration: int, step: Step) {
    match step
    case Stop(run) => !run.outcome.Exhausted? && (run.outcome.Succeeded? ==> SuccessIsEarned(c, iteration, run))
    case Continue(state, _) => state.candidate.Some? && Blocking(state)
  }

  lemma {:induction false} IterationIsEarned(c: Setting, iteration: int, skip: bool, state: LoopState)
    requires iteration <= c.rules.maxIterations
    ensures Earned(c, iteration, Iterate(c, iteration, skip, state))
  {
    var a := c.oracle(iteration);
    var files := Candidate(c.rules, c.plan, a, state, iteration, skip);
    if !a.budgetBefore && files.Some? {
      CandidateIsSafe(c.rules, c.plan, a, state, iteration, skip);
      NoneMissing(files.value, c.plan);
      if MissingTargets(files.value, c.plan.writeTargets) != [] {
        IncompleteBlocks(state, MissingTargets(files.value, c.plan.writeTargets));
      } else if a.tools.Some? && a.review.Some? {
        AcceptedBlocksIffFound(a, files.value);
        NothingFound(a, files.value);
      }
    }
  }

  lemma {:induction false} RepeatIsEarned(c: Setting, step: Stepper, iteration: int, skip: bool, state: LoopState)
    requires forall i, k, s | i <= c.rules.maxIterations :: Earned(c, i, step(i, k, s))
    ensures var run := Repeat(step, c.rules.maxIterations, iteration, skip, state);
            && (run.outcome.Succeeded? ==> SuccessIsEarned(c, iteration, run))
            && (run.outcome.Exhausted? && (iteration <= c.rules.maxIterations || (state.candidate.Some? && Blocking(state))) ==>
                  run.state.candidate.Some? && Blocking(run.state))
    decreases c.rules.maxIterations - iteration
  {
    if iteration <= c.rules.maxIterations {
      assert Earned(c, iteration, step(iteration, skip, state));
      match step(iteration, skip, state)
      case Stop(run) =>
      case Continue(state', checks) =>
        RepeatIsEarned(c, step, iteration + 1, false, state');
        var run := Repeat(step, c.rules.maxIterations, iteration + 1, false, state');
        if run.outcome.Succeeded? { assert (checks + run.checks)[|checks + run.checks| - 1] == run.checks[|run.checks| - 1]; }
    }
  }

  /** A success is finalised only in an iteration that ran tools and review on
      the very candidate that is written: complete, with distinct safe paths,
      free of high and medium findings, and within every budget. A loop that ran
      out of iterations leaves a blocked candidate, unless it never iterated. */
  lemma SuccessOnlyAfterCleanCheck(c: Setting, skip: bool, state: LoopState)
    ensures var run := Loop(c, skip, state);
            && (run.outcome.Succeeded? ==> SuccessIsEarned(c, c.start, run))
            && (run.outcome.Exhausted? && c.start <= c.rules.maxIterations ==> run.state.candidate.Some? && Blocking(run.state))
  {
    forall i, k, s | i <= c.rules.maxIterations ensures Earned(c, i, StepOf(c)(i, k, s)) { IterationIsEarned(c, i, k, s); }
    RepeatIsEarned(c, StepOf(c), c.start, skip, state);
  }

  /** What an iteration that finalises a success needs of the answers. */
  ghost predicate Clean(c: Setting, iteration: int, skip: bool, state: LoopState) {
    var a := c.oracle(iteration);
    var files := Candidate(c.rules, c.plan, a, state, iteration, skip);
    && !a.budgetBefore && !a.budgetAfter && !a.budgetAtSuccess && (c.pause ==> a.confirmed)
    && files.Some? && Complete(files.value, c.plan) && a.persisted && NoObjection(a)
  }

  /** An iteration finalises a success if and only if it is clean, so nothing
      besides the planned targets, the findings, the budgets and the pause is
      ever asked of a candidate. */
  lemma SucceedsExactlyWhenClean(c: Setting, iteration: int, skip: bool, state: LoopState)
    ensures var step := Iterate(c, iteration, skip, state);
            (step.Stop? && step.run.outcome.Succeeded?) <==> Clean(c, iteration, skip, state)
  {
    var a := c.oracle(iteration);
    var files := Candidate(c.rules, c.plan, a, state, iteration, skip);
    if files.Some? {
      NoneMissing(files.value, c.plan);
      CandidateIsSafe(c.rules, c.plan, a, state, iteration, skip);
      if a.tools.Some? && a.review.Some? {
        AcceptedBlocksIffFound(a, files.value);
        NothingFound(a, files.value);
      }
    }
  }

  /** Without a candidate only generation in iteration one can go on. */
  lemma LoopNeedsCandidate(c: Setting, skip: bool, state: LoopState)
    requires state.candidate.None? && (skip || c.start != 1)
    requires c.start <= c.rules.maxIterations && !c.oracle(c.start).budgetBefore
    ensures Loop(c, skip, state) == Run(Threw, state, [])
  {
    assert StepOf(c)(c.start, skip, state) == Iterate(c, c.start, skip, state) == Stop(Run(Threw, state, []));
  }

  /** Once more targets are planned than files may be written, no run of the
      loop succeeds, whatever anyone answers. */
  lemma TooManyTargetsNeverSucceed(c: Setting, skip: bool, state: LoopState)
    requires |Elements(c.plan.writeTargets)| > c.rules.maxWriteFiles
    ensures !Loop(c, skip, state).outcome.Succeeded?
  {
    SuccessOnlyAfterCleanCheck(c, skip, state);
    var run := Loop(c, skip, state);
    if run.outcome.Succeeded? {
      FewFilesFewPaths(run.checks[|run.checks| - 1].files, Elements(c.plan.writeTargets));
    }
  }

  /** A step that goes on used one iteration and made at most one check. */
  ghost predicate Counted(state: LoopState, step: Step) {
    match step
    case Stop(run) => !run.outcome.Exhausted? && |run.checks| <= run.state.iterations - state.iterations <= 1
    case Continue(state', checks) => state'.iterations == state.iterations + 1 && |checks| <= 1
  }

  lemma IterationIsCounted(c: Setting, iteration: int, skip: bool, state: LoopState)
    ensures Counted(state, Iterate(c, iteration, skip, state))
  {
  }

  lemma {:induction false} RepeatIsCounted(step: Stepper, limit: int, iteration: int, skip: bool, state: LoopState)
    requires forall i, k, s :: Counted(s, step(i, k, s))
    ensures var run, room := Repeat(step, limit, iteration, skip, state), Max(0, limit - iteration + 1);
            && |run.checks| <= run.state.iterations - state.iterations <= room
            && (run.outcome.Exhausted? ==> run.state.iterations == state.iterations + room)
    decreases limit - iteration
  {
    if iteration <= limit {
      assert Counted(state, step(iteration, skip, state));
      match step(iteration, skip, state)
      case Stop(run) =>
      case Continue(state', checks) => RepeatIsCounted(step, limit, iteration + 1, false, state');
    }
  }

  /** The loop stops within its limit, with at most one check an iteration. */
  lemma LoopIsBounded(c: Setting, skip: bool, state: LoopState)
    ensures var run, room := Loop(c, skip, state), Max(0, c.rules.maxIterations - c.start + 1);
            && |run.checks| <= run.state.iterations - state.iterations <= room
            && (run.outcome.Exhausted? ==> run.state.iterations == state.iterations + room)
  {
    forall i, k, s ensures Counted(s, StepOf(c)(i, k, s)) { IterationIsCounted(c, i, k, s); }
    RepeatIsCounted(StepOf(c), c.rules.maxIterations, c.start, skip, state);
  }

  /** The candidate with no blocking issues, if there is one, passed one of the
      checks. This is what makes a saved candidate safe to finalise later. */
  ghost predicate Vetted(plan: Plan, state: LoopState, checks: seq<Check>) {
    state.candidate.Some? && !Blocking(state) ==>
      exists k :: 0 <= k < |checks| && checks[k].plan == plan && checks[k].files == state.candidate.value && Passed(checks[k])
  }

  lemma VettedLater(plan: Plan, state: LoopState, past: seq<Check>, more: seq<Check>)
    requires Vetted(plan, state, past)
    ensures Vetted(plan, state, past + more)
  {
    if state.candidate.Some? && !Blocking(state) {
      var k :| 0 <= k < |past| && past[k].plan == plan && past[k].files == state.candidate.value && Passed(past[k]);
      assert (past + more)[k] == past[k];
    }
  }

  /** What a step leaves was there before, is blocked, or passed its own check. */
  ghost predicate StepVets(plan: Plan, state: LoopState, step: Step) {
    var after := if step.Stop? then step.run.state else step.state;
    var checks := if step.Stop? then step.run.checks else step.checks;
    after == state || Vetted(plan, after, checks)
  }

  lemma IterationVets(c: Setting, iteration: int, skip: bool, state: LoopState)
    ensures StepVets(c.plan, state, Iterate(c, iteration, skip, state))
  {
    var a := c.oracle(iteration);
    var files := Candidate(c.rules, c.plan, a, state, iteration, skip);
    if !a.budgetBefore && files.Some? {
      CandidateIsSafe(c.rules, c.plan, a, state, iteration, skip);
      NoneMissing(files.value, c.plan);
      var missing := MissingTargets(files.value, c.plan.writeTargets);
      if missing != [] {
        IncompleteBlocks(state, missing);
      } else if a.tools.Some? && a.review.Some? && a.persisted {
        CheckVets(a, c.plan, iteration, files.value, state.iterations + 1);
      }
    }
  }

  lemma CheckVets(a: Answer, plan: Plan, iteration: int, files: seq<GeneratedFile>, n: nat)
    requires a.tools.Some? && a.review.Some? && files != [] && DistinctPaths(files) && SafeFor(plan, files) && Complete(files, plan)
    ensures Vetted(plan, LoopState(Some(files), Accepted(a, files), n), [Check(iteration, plan, files, Found(a, files))])
  {
    AcceptedBlocksIffFound(a, files);
    var checks := [Check(iteration, plan, files, Found(a, files))];
    assert checks[0].files == files;
  }

  lemma {:induction false} RepeatKeepsVetted(plan: Plan, step: Stepper, limit: int, iteration: int, skip: bool, state: LoopState, past: seq<Check>)
    requires forall i, k, s :: StepVets(plan, s, step(i, k, s))
    requires Vetted(plan, state, past)
    ensures var run := Repeat(step, limit, iteration, skip, state);
            Vetted(plan, run.state, past + run.checks)
    decreases limit - iteration
  {
    VettedLater(plan, state, past, []);
    if iteration <= limit {
      assert StepVets(plan, state, step(iteration, skip, state));
      match step(iteration, skip, state)
      case Stop(run) =>
        VettedLater(plan, state, past, run.checks);
        VettedSuffix(plan, run.state, past, run.checks);
      case Continue(state', checks) =>
        VettedLater(plan, state, past, checks);
        VettedSuffix(plan, state', past, checks);
        RepeatKeepsVetted(plan, step, limit, iteration + 1, false, state', past + checks);
        var run := Repeat(step, limit, iteration + 1, false, state');
        assert past + checks + run.checks == past + (checks + run.checks);
    }
  }

  lemma VettedSuffix(plan: Plan, state: LoopState, past: seq<Check>, more: seq<Check>)
    ensures Vetted(plan, state, more) ==> Vetted(plan, state, past + more)
  {
    if Vetted(plan, state, more) && state.candidate.Some? && !Blocking(state) {
      var k :| 0 <= k < |more| && more[k].plan == plan && more[k].files == state.candidate.value && Passed(more[k]);
      assert (past + more)[|past| + k] == more[k];
    }
  }

  /** If the state the loop starts from is vetted, so is every state it leaves,
      however it ends. */
  lemma LoopKeepsVetted(c: Setting, skip: bool, state: LoopState, past: seq<Check>)
    requires Vetted(c.plan, state, past)
    ensures var run := Loop(c, skip, state);
            Vetted(c.plan, run.state, past + run.checks)
  {
    forall i, k, s ensures StepVets(c.plan, s, StepOf(c)(i, k, s)) { IterationVets(c, i, k, s); }
    RepeatKeepsVetted(c.plan, StepOf(c), c.rules.maxIterations, c.start, skip, state, past);
  }

  /** A saved hint says to write files just when there is something clean to
      write, to generate just when there is no candidate, else to fix. */
  ghost predicate HintMatches(state: LoopState, hint: Option<Hint>) {
    hint.Some? ==>
      && (hint.value.stage == WriteFiles <==> state.candidate.Some? && !Blocking(state))
      && (hint.value.stage == IterationGenerate <==> state.candidate.None?)
      && (hint.value.stage == IterationFix <==> state.candidate.Some? && Blocking(state))
      && (hint.value.stage == WriteFiles || (hint.value.iteration.Some? && hint.value.iteration.value >= 1))
  }

  ghost predicate StepHints(step: Step) {
    step.Stop? && step.run.outcome.Failed? ==> HintMatches(step.run.state, step.run.outcome.hint)
  }

  lemma BudgetHintMatches(state: LoopState, maxRetries: Option<int>, next: int)
    ensures HintMatches(state, BudgetRetryHint(state, maxRetries, next))
  {
  }

  lemma ReviewHints(a: Answer, pause: bool, state: LoopState, iteration: int, checks: seq<Check>)
    ensures StepHints(AfterReview(a, pause, state, iteration, checks))
  {
    BudgetHintMatches(state, a.maxRetries, iteration + 1);
    BudgetHintMatches(state, a.maxRetries, iteration);
  }

  lemma ExamineHints(c: Setting, a: Answer, files: seq<GeneratedFile>, iteration: int, state: LoopState)
    ensures StepHints(Examine(c, a, files, iteration, state))
  {
    if a.tools.Some? && a.review.Some? {
      ReviewHints(a, c.pause, LoopState(Some(files), Accepted(a, files), state.iterations + 1), iteration,
                  [Check(iteration, c.plan, files, Found(a, files))]);
    }
  }

  lemma IterationHints(c: Setting, iteration: int, skip: bool, state: LoopState)
    ensures StepHints(Iterate(c, iteration, skip, state))
  {
    var a := c.oracle(iteration);
    BudgetHintMatches(state, a.maxRetries, c.start);
    var files := Candidate(c.rules, c.plan, a, state, iteration, skip);
    if files.Some? { ExamineHints(c, a, files.value, iteration, state); }
  }

  lemma {:induction false} RepeatHints(step: Stepper, limit: int, iteration: int, skip: bool, state: LoopState)
    requires forall i, k, s :: StepHints(step(i, k, s))
    ensures StepHints(Stop(Repeat(step, limit, iteration, skip, state)))
    decreases limit - iteration
  {
    if iteration <= limit {
      assert StepHints(step(iteration, skip, state));
      match step(iteration, skip, state)
      case Stop(run) =>
      case Continue(state', checks) => RepeatHints(step, limit, iteration + 1, false, state');
    }
  }

  /** When a budget stops the loop, the hint it leaves, if any, matches the state:
      in particular it is to write files if and only if the state has a candidate
      and no blocking issue. */
  lemma {:induction false} WriteHintIffReady(c: Setting, skip: bool, state: LoopState)
    ensures var run := Loop(c, skip, state);
            run.outcome.Failed? ==> HintMatches(run.state, run.outcome.hint)
  {
    forall i, k, s ensures StepHints(StepOf(c)(i, k, s)) { IterationHints(c, i, k, s); }
    RepeatHints(StepOf(c), c.rules.maxIterations, c.start, skip, state);
  }

  // ---------------------------------------------------------------------

  method PrepareCandidate(rules: Rules, plan: Plan, a: Answer, state: LoopState, iteration: int, skip: bool)
    returns (files: Option<seq<GeneratedFile>>)
    ensures files == Candidate(rules, plan, a, state, iteration, skip)
  {
    var raws: seq<RawFile>;
    if skip {
      if state.candidate.None? { return None; }
      raws := AsRawFiles(state.candidate.value);
    } else {
      if (iteration != 1 && state.candidate.None?) || a.generated.None? { return None; }
      raws := a.generated.value;
    }
    files := SanitizeGeneratedFiles(raws, plan, rules.maxWriteFiles);
    if files.None? || files.value == [] || !a.originalsRead { return None; }
  }

  method RunIteration(c: Setting, iteration: int, skip: bool, state: LoopState) returns (step: Step)
    ensures step == Iterate(c, iteration, skip, state)
  {
    var a := c.oracle(iteration);
    if a.budgetBefore { return Stop(Run(Failed(BudgetRetryHint(state, a.maxRetries, c.start)), state, [])); }
    var candidate := PrepareCandidate(c.rules, c.plan, a, state, iteration, skip);
    if candidate.None? { return Stop(Run(Threw, state, [])); }
    var files := candidate.value;
    var missing := MissingTargets(files, c.plan.writeTargets);
    if missing != [] {
      if !a.persisted { return Stop(Run(Threw, state, [])); }
      var issues := MergeIssueLists(AsRaws(state.issues), [AsRaw(IncompleteIssue(missing))]);
      return Continue(LoopState(Some(files), issues, state.iterations + 1), []);
    }
    step := ExamineCandidate(c, a, files, iteration, state);
  }

  method ExamineCandidate(c: Setting, a: Answer, files: seq<GeneratedFile>, iteration: int, state: LoopState) returns (step: Step)
    ensures step == Examine(c, a, files, iteration, state)
  {
    if a.tools.None? || a.review.None? || !a.persisted { return Stop(Run(Threw, state, [])); }
    var preReview := MergeIssueLists(a.tools.value, AsRaws(ValidateCandidateFiles(files)) + a.coverage);
    var accepted := MergeIssueLists(AsRaws(NormalizeAll(a.review.value)), AsRaws(preReview));
    step := AfterReview(a, c.pause, LoopState(Some(files), accepted, state.iterations + 1), iteration,
                        [Check(iteration, c.plan, files, Found(a, files))]);
  }

  method ExecuteGenerationLoop(c: Setting, resumeTools: bool, initial: LoopState) returns (run: Run)
    ensures run == Loop(c, resumeTools, initial)
  {
    var state, checks := initial, [];
    var pendingTools := resumeTools;
    var iteration := c.start;
    ghost var stepper := StepOf(c);
    while iteration <= c.rules.maxIterations
      invariant Repeat(stepper, c.rules.maxIterations, c.start, resumeTools, initial) ==
                Prepend(checks, Repeat(stepper, c.rules.maxIterations, iteration, pendingTools, state))
      decreases c.rules.maxIterations - iteration
    {
      var step := RunIteration(c, iteration, pendingTools, state);
      assert step == stepper(iteration, pendingTools, state);
      if step.Stop? { return Prepend(checks, step.run); }
      PrependTwice(checks, step.checks, Repeat(stepper, c.rules.maxIterations, iteration + 1, false, step.state));
      state, checks := step.state, checks + step.checks;
      pendingTools := false;
      iteration := iteration + 1;
    }
    run := Run(Exhausted, state, checks);
  }

  lemma PrependTwice(a: seq<Check>, b: seq<Check>, run: Run)
    ensures Prepend(a, Prepend(b, run)) == Prepend(a + b, run)
  {
    assert a + (b + run.checks) == (a + b) + run.checks;
  }
}
