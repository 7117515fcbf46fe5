/** The execution state machine: the stage that is active, the log of transitions
    and the list of finished steps, and how they are rebuilt from a summary. */
module ExecutionStages {
  import opened Common
  import opened Texts

  datatype TransitionStatus = Entered | Completed | Failed | Paused | Skipped | Cancelled

  datatype Transition = Transition(stage: Text, status: TransitionStatus, durationMs: Option<nat>, detail: Text, iteration: Option<int>)

  /** A step is named after its stage, iteration stages also after the iteration. */
  datatype StepName = StepName(stage: Text, iteration: Option<int>)

  datatype Step = Step(name: StepName, durationMs: nat, status: TransitionStatus, detail: Text)

  /** The optional arguments of a call; an empty detail counts as none. */
  datatype Options = Options(durationMs: Option<int>, detail: Text, iteration: Option<int>)

  const ITERATION: Text := Ascii("iteration-")

  function CreateTransition(stage: Text, status: TransitionStatus, options: Options): Transition {
    var duration := if options.durationMs.Some? then Some(Max(0, options.durationMs.value)) else None;
    Transition(stage, status, duration, options.detail, options.iteration)
  }

  function NormalizeStepStatus(s: TransitionStatus): TransitionStatus {
    match s
    case Cancelled => Paused
    case Entered => Completed
    case _ => s
  }

  function NameOf(stage: Text, iteration: Option<int>): StepName {
    StepName(stage, if ITERATION <= stage then iteration else None)
  }

  function StepOf(t: Transition): Step {
    Step(NameOf(t.stage, t.iteration), if t.durationMs.Some? then t.durationMs.value else 0, NormalizeStepStatus(t.status), t.detail)
  }

  function DeriveSteps(ts: seq<Transition>): seq<Step> {
    if ts == [] then []
    else DeriveSteps(ts[..|ts| - 1]) + if ts[|ts| - 1].status.Entered? then [] else [StepOf(ts[|ts| - 1])]
  }

  function DeriveCurrentStage(ts: seq<Transition>): Option<Text> {
    if ts == [] then None
    else
      var before, last := DeriveCurrentStage(ts[..|ts| - 1]), ts[|ts| - 1];
      if last.status.Entered? then Some(last.stage)
      else if before == Some(last.stage) then None
      else before
  }

  /** The stage of the last finish. */
  function DeriveTerminalStage(ts: seq<Transition>): Option<Text> {
    if ts == [] then None
    else if !ts[|ts| - 1].status.Entered? then Some(ts[|ts| - 1].stage)
    else DeriveTerminalStage(ts[..|ts| - 1])
  }

  /** Whatever follows the entry of a stage is the finish of that stage. */
  ghost predicate Alternates(ts: seq<Transition>) {
    forall i, j {:trigger ts[i], ts[j]} | 0 <= i < j < |ts| && j == i + 1 && ts[i].status.Entered? ::
      !ts[j].status.Entered? && ts[j].stage == ts[i].stage
  }

  /** In an alternating log the active stage is told by the last entry alone. */
  lemma {:induction false} ActiveIffLastEntered(ts: seq<Transition>)
    requires Alternates(ts)
    ensures DeriveCurrentStage(ts) ==
              if ts != [] && ts[|ts| - 1].status.Entered? then Some(ts[|ts| - 1].stage) else None
  {
    if ts != [] {
      var init := ts[..|ts| - 1];
      assert Alternates(init) by {
        forall i, j | 0 <= i < j < |init| && j == i + 1 && init[i].status.Entered?
          ensures !init[j].status.Entered? && init[j].stage == init[i].stage
        {
          assert init[i] == ts[i] && init[j] == ts[j];
        }
      }
      ActiveIffLastEntered(init);
      if init != [] { assert init[|init| - 1] == ts[|ts| - 2]; }
    }
  }

  lemma EnteredSnoc(ts: seq<Transition>)
    requires ts != []
    ensures var n := |ts| - 1;
            |(set i | 0 <= i < |ts| && ts[i].status.Entered?)| ==
              |(set i | 0 <= i < n && ts[..n][i].status.Entered?)| + if ts[n].status.Entered? then 1 else 0
  {
    var n := |ts| - 1;
    var entered, before := (set i | 0 <= i < |ts| && ts[i].status.Entered?), (set i | 0 <= i < n && ts[..n][i].status.Entered?);
    assert entered == if ts[n].status.Entered? then before + {n} else before;
  }

  /** Every step comes from one finish, in order, and no finish is without one. */
  lemma {:induction false} StepsCountFinishes(ts: seq<Transition>)
    ensures |DeriveSteps(ts)| + |(set i | 0 <= i < |ts| && ts[i].status.Entered?)| == |ts|
  {
    if ts != [] {
      var n := |ts| - 1;
      StepsCountFinishes(ts[..n]);
      EnteredSnoc(ts);
    }
  }

  /** The transition says what the call said; a duration below zero counts as zero. */
  lemma TransitionExact(stage: Text, status: TransitionStatus, options: Options)
    ensures var t := CreateTransition(stage, status, options);
            && t.stage == stage && t.status == status && t.detail == options.detail && t.iteration == options.iteration
            && (t.durationMs.None? <==> options.durationMs.None?)
            && (t.durationMs.Some? ==> t.durationMs.value == if options.durationMs.value < 0 then 0 else options.durationMs.value)
  {
  }

  /** A step tells of the finish it comes from: stages of an iteration are named
      with its number, no duration counts as zero, and cancelled reads as paused. */
  lemma StepExact(t: Transition)
    requires !t.status.Entered?
    ensures var step := StepOf(t);
            && step.name == StepName(t.stage, if Ascii("iteration-") <= t.stage then t.iteration else None)
            && step.durationMs == (if t.durationMs.None? then 0 else t.durationMs.value)
            && step.status == (if t.status == Cancelled then Paused else t.status) && step.detail == t.detail
  {
  }

  /** The steps are those of the finishes, in the order of the log. */
  lemma {:induction false} StepsAreFinishes(ts: seq<Transition>, i: nat)
    requires i < |ts| && !ts[i].status.Entered?
    ensures var k := |DeriveSteps(ts[..i])|; k < |DeriveSteps(ts)| && DeriveSteps(ts)[k] == StepOf(ts[i])
    decreases |ts|
  {
    var init := ts[..|ts| - 1];
    if i < |init| {
      StepsAreFinishes(init, i);
      assert init[..i] == ts[..i];
    }
  }

  /** Stage entered at `i` and since then neither finished nor left for another. */
  ghost predicate Stands(ts: seq<Transition>, i: nat, stage: Text) {
    && i < |ts| && ts[i].status.Entered? && ts[i].stage == stage
    && forall j | i < j < |ts| :: !ts[j].status.Entered? && ts[j].stage != stage
  }

  /** In any log, whatever its origin, the active stage is the one that stands. */
  lemma {:induction false} CurrentStageExact(ts: seq<Transition>, stage: Text)
    ensures DeriveCurrentStage(ts) == Some(stage) <==> exists i :: Stands(ts, i, stage)
  {
    if ts != [] {
      var init, last := ts[..|ts| - 1], ts[|ts| - 1];
      CurrentStageExact(init, stage);
      if last.status.Entered? && last.stage == stage { assert Stands(ts, |ts| - 1, stage); }
      if i: nat :| Stands(init, i, stage) && !last.status.Entered? && last.stage != stage { assert Stands(ts, i, stage); }
      if i: nat :| Stands(ts, i, stage) && i < |ts| - 1 { assert Stands(init, i, stage); }
    }
  }

  /** A log in which the machine may enter or finish `stage` next. */
  ghost predicate Free(ts: seq<Transition>, stage: Text) {
    Alternates(ts) && (DeriveCurrentStage(ts) == None || DeriveCurrentStage(ts) == Some(stage))
  }

  lemma EnterKeepsAlternation(ts: seq<Transition>, t: Transition)
    requires Alternates(ts) && DeriveCurrentStage(ts) == None && t.status.Entered?
    ensures Alternates(ts + [t]) && DeriveCurrentStage(ts + [t]) == Some(t.stage) && DeriveSteps(ts + [t]) == DeriveSteps(ts)
  {
    ActiveIffLastEntered(ts);
    assert (ts + [t])[..|ts|] == ts;
    AppendAlternates(ts, t);
  }

  lemma FinishKeepsAlternation(ts: seq<Transition>, t: Transition)
    requires Free(ts, t.stage) && !t.status.Entered?
    ensures Alternates(ts + [t]) && DeriveCurrentStage(ts + [t]) == None && DeriveSteps(ts + [t]) == DeriveSteps(ts) + [StepOf(t)]
  {
    ActiveIffLastEntered(ts);
    assert (ts + [t])[..|ts|] == ts;
    AppendAlternates(ts, t);
  }

  lemma AppendAlternates(ts: seq<Transition>, t: Transition)
    requires Alternates(ts)
    requires ts != [] && ts[|ts| - 1].status.Entered? ==> !t.status.Entered? && t.stage == ts[|ts| - 1].stage
    ensures Alternates(ts + [t])
  {
    var more := ts + [t];
    forall i, j | 0 <= i < j < |more| && j == i + 1 && more[i].status.Entered?
      ensures !more[j].status.Entered? && more[j].stage == more[i].stage
    {
      if j < |ts| { assert more[i] == ts[i] && more[j] == ts[j]; }
    }
  }

  // ---------------------------------------------------------------------
  // Summaries

  datatype Summary = Summary(steps: seq<Step>, transitions: seq<Transition>, currentStage: Option<Text>,
                             terminalStage: Option<Text>, totalDurationMs: nat)

  function TotalDuration(steps: seq<Step>): nat {
    if steps == [] then 0 else TotalDuration(steps[..|steps| - 1]) + steps[|steps| - 1].durationMs
  }

  lemma {:induction false} TotalDurationAdds(a: seq<Step>, b: seq<Step>)
    ensures TotalDuration(a + b) == TotalDuration(a) + TotalDuration(b)
    ensures TotalDuration([]) == 0 && forall step: Step :: TotalDuration([step]) == step.durationMs
  {
    forall step: Step ensures TotalDuration([step]) == step.durationMs { assert [step][..0] == []; }
    if b == [] {
      assert a + b == a;
    } else {
      TotalDurationAdds(a, b[..|b| - 1]);
      assert (a + b)[..|a + b| - 1] == a + b[..|b| - 1];
    }
  }

  function BuildExecutionSummary(steps: seq<Step>, transitions: seq<Transition>): Summary {
    Summary(steps, transitions, DeriveCurrentStage(transitions), DeriveTerminalStage(transitions), TotalDuration(steps))
  }

  method ComputeCurrentStage(ts: seq<Transition>) returns (current: Option<Text>)
    ensures current == DeriveCurrentStage(ts)
  {
    current := None;
    for k := 0 to |ts|
      invariant current == DeriveCurrentStage(ts[..k])
    {
      assert ts[..k + 1][..k] == ts[..k];
      if ts[k].status.Entered? {
        current := Some(ts[k].stage);
        continue;
      }
      if current == Some(ts[k].stage) { current := None; }
    }
    assert ts[..|ts|] == ts;
  }

  method ComputeTerminalStage(ts: seq<Transition>) returns (terminal: Option<Text>)
    ensures terminal == DeriveTerminalStage(ts)
    ensures terminal.None? <==> DeriveSteps(ts) == []
  {
    NoTerminalNoSteps(ts);
    assert ts[..|ts|] == ts;
    var index := |ts| - 1;
    while index >= 0
      invariant -1 <= index < |ts|
      invariant DeriveTerminalStage(ts[..index + 1]) == DeriveTerminalStage(ts)
    {
      assert ts[..index + 1][..index] == ts[..index];
      if !ts[index].status.Entered? { return Some(ts[index].stage); }
      index := index - 1;
    }
    return None;
  }

  lemma {:induction false} NoTerminalNoSteps(ts: seq<Transition>)
    ensures DeriveTerminalStage(ts).None? <==> DeriveSteps(ts) == []
    ensures DeriveTerminalStage(ts).Some? ==> DeriveTerminalStage(ts).value == DeriveSteps(ts)[|DeriveSteps(ts)| - 1].name.stage
  {
    if ts != [] { NoTerminalNoSteps(ts[..|ts| - 1]); }
  }

  // ---------------------------------------------------------------------

  class ExecutionStateMachine {
    var transitions: seq<Transition>
    var steps: seq<Step>
    var currentStage: Option<Text>

    /** The fields say what the derive functions compute from the log, and the log
        alternates. */
    ghost predicate Valid()
      reads this
    {
      && Alternates(transitions)
      && steps == DeriveSteps(transitions)
      && currentStage == DeriveCurrentStage(transitions)
    }

    constructor ()
      ensures Valid() && transitions == [] && steps == [] && currentStage == None
    {
      transitions, steps, currentStage := [], [], None;
    }

    /** A machine restored from a saved summary, of whatever origin. */
    constructor FromSummary(summary: Summary)
      ensures transitions == summary.transitions
      ensures steps == if summary.steps != [] then summary.steps else DeriveSteps(summary.transitions)
      ensures currentStage == if summary.currentStage.Some? then summary.currentStage else DeriveCurrentStage(summary.transitions)
    {
      transitions := summary.transitions;
      steps := if summary.steps != [] then summary.steps else DeriveSteps(summary.transitions);
      currentStage := summary.currentStage;
      new;
      if currentStage.None? {
        currentStage := ComputeCurrentStage(summary.transitions);
      }
    }

    /** Saving a machine's steps and transitions and restoring them gives back the
        same state, which is again valid. */
    method SaveAndRestore() returns (m: ExecutionStateMachine)
      requires Valid()
      ensures fresh(m) && m.Valid()
      ensures m.transitions == transitions && m.steps == steps && m.currentStage == currentStage
    {
      m := new ExecutionStateMachine.FromSummary(BuildExecutionSummary(steps, transitions));
    }

    /** Enters a stage unless another is active; entering the active one again
        records nothing. `heard` says that the listener raised no exception. */
    method EnterStage(stage: Text, options: Options, heard: bool) returns (ok: bool)
      requires Valid()
      modifies this
      ensures Valid()
      ensures match old(currentStage)
              case None =>
                && ok == heard && currentStage == Some(stage) && steps == old(steps)
                && transitions == old(transitions) + [CreateTransition(stage, Entered, options.(durationMs := None))]
              case Some(active) =>
                ok == (active == stage) && transitions == old(transitions) && steps == old(steps) && currentStage == old(currentStage)
    {
      if currentStage.Some? && currentStage.value != stage { return false; }
      if currentStage == Some(stage) { return true; }
      var transition := CreateTransition(stage, Entered, options.(durationMs := None));
      EnterKeepsAlternation(transitions, transition);
      transitions := transitions + [transition];
      currentStage := Some(stage);
      ok := heard;
    }

    /** Finishes a stage unless another is active, whether or not it was entered. */
    method FinishStage(stage: Text, status: TransitionStatus, options: Options, heard: bool) returns (ok: bool)
      requires Valid() && !status.Entered?
      modifies this
      ensures Valid()
      ensures if old(currentStage).Some? && old(currentStage).value != stage
              then !ok && transitions == old(transitions) && steps == old(steps) && currentStage == old(currentStage)
              else
                && ok == heard && currentStage == None
                && transitions == old(transitions) + [CreateTransition(stage, status, options)]
                && steps == old(steps) + [StepOf(CreateTransition(stage, status, options))]
    {
      if currentStage.Some? && currentStage.value != stage { return false; }
      var transition := CreateTransition(stage, status, options);
      FinishKeepsAlternation(transitions, transition);
      transitions := transitions + [transition];
      steps := steps + [Step(NameOf(stage, options.iteration), if transition.durationMs.Some? then transition.durationMs.value else 0,
                             NormalizeStepStatus(status), options.detail)];
      currentStage := None;
      ok := heard;
    }

    /** Runs an action inside a stage. It leaves the machine idle unless the stage
        could not be entered, and then the action does not run. A listener that
        fails after a completed action adds a failed finish to the completed one. */
    method RunStage(stage: Text, succeeds: bool, elapsed: int, error: Text, options: Options,
                    heardEnter: bool, heardComplete: bool, heardFail: bool) returns (ok: bool)
      requires Valid()
      modifies this
      ensures Valid()
      ensures ok == ((old(currentStage) == Some(stage) || (old(currentStage) == None && heardEnter)) && succeeds && heardComplete)
      ensures !(old(currentStage) == Some(stage) || (old(currentStage) == None && heardEnter)) ==>
                steps == old(steps) && currentStage == if old(currentStage).Some? then old(currentStage) else Some(stage)
      ensures old(currentStage) == Some(stage) || (old(currentStage) == None && heardEnter) ==>
                currentStage == None && steps == old(steps) + StageSteps(stage, succeeds, elapsed, error, options, heardComplete)
    {
      ok := EnterStage(stage, options, heardEnter);
      if ok { ok := SettleStage(stage, succeeds, elapsed, error, options, heardComplete, heardFail); }
    }

    /** The end of a stage's action, successful or not. */
    method SettleStage(stage: Text, succeeds: bool, elapsed: int, error: Text, options: Options, heardComplete: bool, heardFail: bool)
      returns (ok: bool)
      requires Valid() && currentStage == Some(stage)
      modifies this
      ensures Valid() && currentStage == None && ok == (succeeds && heardComplete)
      ensures steps == old(steps) + StageSteps(stage, succeeds, elapsed, error, options, heardComplete)
    {
      if succeeds {
        ok := FinishStage(stage, Completed, options.(durationMs := Some(elapsed)), heardComplete);
        if ok { return; }
      }
      var _ := FinishStage(stage, Failed, options.(durationMs := Some(elapsed), detail := error), heardFail);
      ok := false;
    }
  }

  /** The steps one run of a stage records. */
  function StageSteps(stage: Text, succeeds: bool, elapsed: int, error: Text, options: Options, heardComplete: bool): seq<Step> {
    var done := StepOf(CreateTransition(stage, Completed, options.(durationMs := Some(elapsed))));
    var failed := StepOf(CreateTransition(stage, Failed, options.(durationMs := Some(elapsed), detail := error)));
    if !succeeds then [failed] else if heardComplete then [done] else [done, failed]
  }

  /** A run of a stage records one step, or two when its action succeeded but the
      listener then failed: the first tells how the action ended, the last is
      failed unless all went well, and each carries the time the action took. */
  lemma StageStepsExact(stage: Text, succeeds: bool, elapsed: nat, error: Text, options: Options, heardComplete: bool)
    ensures var steps := StageSteps(stage, succeeds, elapsed, error, options, heardComplete);
            && |steps| == (if succeeds && !heardComplete then 2 else 1)
            && (forall step | step in steps ::
                  step.durationMs == elapsed && step.name.stage == stage
                  && step.detail == if step.status == Completed then options.detail else error)
            && steps[0].status == (if succeeds then Completed else Failed)
            && steps[|steps| - 1].status == (if succeeds && heardComplete then Completed else Failed)
  {
  }
}
