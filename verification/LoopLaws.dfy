/** One iteration told by its outcomes, and the loop told as a chain of iterations. */
module LoopLaws {
  import opened Common
  import opened Texts
  import opened ReviewIssues
  import opened CandidateFiles
  import opened RunLoop

  // ---------------------------------------------------------------------
  // Hints

  /** When a budget stops the run: no hint once the retries are used up; else to
      write a candidate nobody objects to, to fix one that is objected to, or to
      generate one, in the next iteration, counted from one. */
  lemma BudgetHintExact(state: LoopState, maxRetries: Option<int>, next: int)
    ensures var hint, number := BudgetRetryHint(state, maxRetries, next), if next < 1 then 1 else next;
            var objected := exists i :: i in state.issues && (i.severity == High || i.severity == Medium);
            && (hint.None? <==> maxRetries.Some? && maxRetries.value <= state.iterations)
            && (hint.Some? ==>
                  hint.value == if state.candidate.None? then Hint(IterationGenerate, Some(number))
                                else if objected then Hint(IterationFix, Some(number))
                                else Hint(WriteFiles, None))
  {
    BlockingSeverities(state.issues);
  }

  // ---------------------------------------------------------------------
  // One iteration

  /** Where the files of an iteration come from: the candidate at hand when it is
      only to be checked, otherwise the generator, which after iteration one fixes
      a candidate and needs one. They are made safe, and none may be unreadable. */
  lemma CandidateExact(c: Setting, a: Answer, state: LoopState, iteration: int, skip: bool)
    ensures var files := Candidate(c.rules, c.plan, a, state, iteration, skip);
            var given := if skip then state.candidate.Some? else a.generated.Some? && (iteration == 1 || state.candidate.Some?);
            var raws := if skip then AsRawFiles(OrElse(state.candidate, [])) else OrElse(a.generated, []);
            var safe := Sanitize(raws, c.plan, c.rules.maxWriteFiles);
            && (files.Some? <==> given && a.originalsRead && safe.Some? && safe.value != [])
            && (files.Some? ==> files == safe)
  {
  }

  /** Tools, reviewers and the store have all answered. */
  predicate Answered(a: Answer) {
    a.tools.Some? && a.review.Some? && a.persisted
  }

  /** An iteration that never gets as far as a check. */
  lemma UncheckedIteration(c: Setting, iteration: int, skip: bool, state: LoopState)
    ensures var a, step := c.oracle(iteration), Iterate(c, iteration, skip, state);
            var files := Candidate(c.rules, c.plan, a, state, iteration, skip);
            && (a.budgetBefore ==> step == Stop(Run(Failed(BudgetRetryHint(state, a.maxRetries, c.start)), state, [])))
            && (!a.budgetBefore && files.None? ==> step == Stop(Run(Threw, state, [])))
            && (!a.budgetBefore && files.Some? && !Complete(files.value, c.plan) ==>
                  if a.persisted then
                    && step.Continue? && step.checks == [] && step.state.candidate == files
                    && step.state.iterations == state.iterations + 1
                    && Keys(step.state.issues) == Keys(NormalizeAll(AsRaws(state.issues))) + {Key(IncompleteIssue(MissingTargets(files.value, c.plan.writeTargets)))}
                  else step == Stop(Run(Threw, state, [])))
            && (!a.budgetBefore && files.Some? && Complete(files.value, c.plan) && !Answered(a) ==> step == Stop(Run(Threw, state, [])))
  {
    var a := c.oracle(iteration);
    var files := Candidate(c.rules, c.plan, a, state, iteration, skip);
    if files.Some? {
      NoneMissing(files.value, c.plan);
      IncompleteKeys(state.issues, MissingTargets(files.value, c.plan.writeTargets));
    }
  }

  lemma IncompleteKeys(issues: seq<Issue>, missing: seq<Text>)
    ensures Keys(MergeIssues(AsRaws(issues), [AsRaw(IncompleteIssue(missing))]))
            == Keys(NormalizeAll(AsRaws(issues))) + {Key(IncompleteIssue(missing))}
  {
    var issue := IncompleteIssue(missing);
    MergedKeys(AsRaws(issues), [AsRaw(issue)]);
    assert |issue.description| > 0;
    assert [AsRaw(issue)][..0] == [];
    assert NormalizeAll([AsRaw(issue)]) == [issue];
  }

  /** An incomplete candidate is reported as a serious generation issue of the first
      planned file that is missing. */
  lemma IncompleteIsSerious(missing: seq<Text>)
    ensures var i := IncompleteIssue(missing);
            && i.severity == High && i.category == Ascii("generation") && i.line.None? && i.description != []
            && i.path == if missing == [] then [] else missing[0]
  {
    assert |IncompleteIssue(missing).description| > 0;
  }

  /** It names all that are missing, with commas between. */
  lemma MissingAreNamed(first: Text, others: seq<Text>)
    ensures Joined([]) == [] && Joined([first]) == first
    ensures others != [] ==> Joined([first] + others) == first + Ascii(", ") + Joined(others)
    ensures IncompleteIssue([first] + others).description ==
              Ascii("The candidate is incomplete and does not include all planned write targets: ") + Joined([first] + others) + Ascii(".")
  {
    assert ([first] + others)[1..] == others;
  }

  lemma {:induction false} NormalizeConcat(a: seq<RawIssue>, b: seq<RawIssue>)
    ensures NormalizeAll(a + b) == NormalizeAll(a) + NormalizeAll(b)
  {
    if b == [] {
      assert a + b == a;
    } else {
      NormalizeConcat(a, b[..|b| - 1]);
      assert (a + b)[..|a + b| - 1] == a + b[..|b| - 1];
    }
  }

  lemma KeysConcat(a: seq<Issue>, b: seq<Issue>)
    ensures Keys(a + b) == Keys(a) + Keys(b)
  {
  }

  lemma MergedKeys(review: seq<RawIssue>, validation: seq<RawIssue>)
    ensures Keys(MergeIssues(review, validation)) == Keys(NormalizeAll(validation)) + Keys(NormalizeAll(review))
  {
    NormalizeConcat(validation, review);
    KeysConcat(NormalizeAll(validation), NormalizeAll(review));
    FirstOfEachKeyKeepsKeys(NormalizeAll(validation + review), MergeIssues(review, validation));
  }

  /** The issues an iteration leaves are exactly those that tools, coverage check and
      reviewers reported, each key once. */
  lemma AcceptedKeys(a: Answer, files: seq<GeneratedFile>)
    requires a.tools.Some? && a.review.Some? && DistinctPaths(files)
    ensures Keys(Accepted(a, files)) ==
              Keys(NormalizeAll(a.review.value)) + Keys(NormalizeAll(a.tools.value)) + Keys(NormalizeAll(a.coverage))
  {
    var validation := AsRaws(ValidateCandidateFiles(files)) + a.coverage;
    ValidatesIffDistinct(files);
    assert AsRaws([]) == [] && validation == a.coverage;
    MergedKeys(a.tools.value, validation);
    MergedDescribed(a.tools.value, validation);
    NormalizeDescribed(PreReview(a, files));
    NormalizeIdempotent(a.review.value);
    MergedKeys(AsRaws(NormalizeAll(a.review.value)), AsRaws(PreReview(a, files)));
  }

  /** How a check ends: a budget stops it first, then the user pauses it, then
      objections send it on, then a budget again keeps it from finishing; only then
      does it succeed. */
  function CheckEnds(c: Setting, a: Answer, iteration: int, objected: bool, after: LoopState, checks: seq<Check>): Step {
    if a.budgetAfter then Stop(Run(Failed(BudgetRetryHint(after, a.maxRetries, iteration + 1)), after, checks))
    else if c.pause && !a.confirmed then Stop(Run(Paused, after, checks))
    else if objected then Continue(after, checks)
    else if a.budgetAtSuccess then Stop(Run(Failed(BudgetRetryHint(after, a.maxRetries, iteration)), after, checks))
    else Stop(Run(Succeeded(iteration), after, checks))
  }

  lemma ExamineExact(c: Setting, a: Answer, files: seq<GeneratedFile>, iteration: int, state: LoopState)
    requires Answered(a) && DistinctPaths(files)
    ensures Examine(c, a, files, iteration, state) ==
              CheckEnds(c, a, iteration, !NoObjection(a), LoopState(Some(files), Accepted(a, files), state.iterations + 1),
                        [Check(iteration, c.plan, files, Found(a, files))])
  {
    ObjectionsBlock(a, files);
  }

  /** An iteration that checks its candidate leaves the candidate it checked with
      what was found, and ends by budgets, pause and objections alone. */
  lemma CheckedIteration(c: Setting, iteration: int, skip: bool, state: LoopState)
    requires var a := c.oracle(iteration);
             var files := Candidate(c.rules, c.plan, a, state, iteration, skip);
             !a.budgetBefore && files.Some? && Complete(files.value, c.plan) && Answered(a)
    ensures var a := c.oracle(iteration);
            var files := Candidate(c.rules, c.plan, a, state, iteration, skip).value;
            Iterate(c, iteration, skip, state) ==
              CheckEnds(c, a, iteration, !NoObjection(a), LoopState(Some(files), Accepted(a, files), state.iterations + 1),
                        [Check(iteration, c.plan, files, Found(a, files))])
  {
    var a := c.oracle(iteration);
    var files := Candidate(c.rules, c.plan, a, state, iteration, skip).value;
    CandidateIsSafe(c.rules, c.plan, a, state, iteration, skip);
    NoneMissing(files, c.plan);
    ExamineExact(c, a, files, iteration, state);
    assert Iterate(c, iteration, skip, state) == Examine(c, a, files, iteration, state);
  }

  lemma ObjectionsBlock(a: Answer, files: seq<GeneratedFile>)
    requires a.tools.Some? && a.review.Some? && DistinctPaths(files)
    ensures HasBlockingIssues(Accepted(a, files)) <==> !NoObjection(a)
  {
    AcceptedBlocksIffFound(a, files);
    NothingFound(a, files);
  }

  // ---------------------------------------------------------------------
  // The loop

  /** `states` are the states the iterations from `first` on begin with; each but the
      last goes on to the next, and only the first may check without generating. */
  ghost predicate GoesThrough(step: Stepper, first: int, skip: bool, states: seq<LoopState>) {
    forall i | 0 <= i < |states| - 1 :: LeadsTo(step(first + i, skip && i == 0, states[i]), states[i + 1])
  }

  predicate LeadsTo(step: Step, next: LoopState) {
    step.Continue? && step.state == next
  }

  /** How the run ends in the iteration that begins with `last`, or after the limit. */
  ghost predicate EndsIn(step: Stepper, limit: int, iteration: int, skip: bool, last: LoopState, run: Run) {
    if iteration > limit then run.outcome == Exhausted && run.state == last
    else
      var end := step(iteration, skip, last);
      end.Stop? && run.outcome == end.run.outcome && run.state == end.run.state
  }

  lemma {:induction false} RepeatGoesThrough(step: Stepper, limit: int, first: int, skip: bool, state: LoopState) returns (states: seq<LoopState>)
    ensures states != [] && states[0] == state && GoesThrough(step, first, skip, states)
    ensures EndsIn(step, limit, first + |states| - 1, skip && |states| == 1, states[|states| - 1], Repeat(step, limit, first, skip, state))
    decreases limit - first
  {
    states := [state];
    if first <= limit && step(first, skip, state).Continue? {
      var rest := RepeatGoesThrough(step, limit, first + 1, false, step(first, skip, state).state);
      states := [state] + rest;
      GoesFurther(step, first, skip, state, rest);
    }
  }

  lemma GoesFurther(step: Stepper, first: int, skip: bool, state: LoopState, rest: seq<LoopState>)
    requires rest != [] && GoesThrough(step, first + 1, false, rest) && LeadsTo(step(first, skip, state), rest[0])
    ensures GoesThrough(step, first, skip, [state] + rest)
  {
    var states := [state] + rest;
    forall i | 0 <= i < |states| - 1
      ensures LeadsTo(step(first + i, skip && i == 0, states[i]), states[i + 1])
    {
      if i > 0 { assert LeadsTo(step(first + 1 + (i - 1), false, rest[i - 1]), rest[i]); }
    }
  }

  /** The loop is one iteration after another from the first to the one that stops
      it, or to the last there may be. */
  lemma LoopIsItsIterations(c: Setting, skip: bool, state: LoopState) returns (states: seq<LoopState>)
    ensures forall i, k, s :: StepOf(c)(i, k, s) == Iterate(c, i, k, s)
    ensures states != [] && states[0] == state && GoesThrough(StepOf(c), c.start, skip, states)
    ensures EndsIn(StepOf(c), c.rules.maxIterations, c.start + |states| - 1, skip && |states| == 1, states[|states| - 1], Loop(c, skip, state))
  {
    states := RepeatGoesThrough(StepOf(c), c.rules.maxIterations, c.start, skip, state);
  }
}
