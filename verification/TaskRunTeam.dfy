/** Whom a run asks: nobody outside the team, whatever the plan says. */
module TaskRunTeam {
  import opened Text
  import opened TaskEvents
  import opened BudgetGuard
  import opened PlanOrdering
  import opened TaskRun
  import opened TaskRunLaws
  import opened TaskRunOutcome
  import ArtifactText

  /** A known agent of the team. */
  ghost predicate Allowed(w: World, agent: string) {
    agent in w.team && agent in ["coordinator", "researcher", "writer", "analyst"]
  }

  ghost predicate RoleAllowed(w: World, role: Role) {
    role.Delegation? ==> Allowed(w, role.agent)
  }

  ghost predicate EventAllowed(w: World, e: TaskEvent) {
    (e.DelegationStarted? ==> Allowed(w, e.agent)) && (e.DelegationCompleted? ==> Allowed(w, e.agent))
  }

  /** Every paid call, recorded row, kept result and announced delegation is one of an allowed agent. */
  ghost predicate TeamOnly(w: World, s: Run) {
    && (forall c :: c in s.calls ==> RoleAllowed(w, c.role))
    && (forall row :: row in s.steps ==> RoleAllowed(w, row.role))
    && (forall leaf :: leaf in s.leafOutputs ==> Allowed(w, leaf.agent))
    && (forall e :: e in s.ledger ==> EventAllowed(w, e))
  }

  lemma InterfereKeepsTeam(w: World, s: Run)
    requires TeamOnly(w, s)
    ensures TeamOnly(w, Interfere(w, s)) && TeamOnly(w, Reread(w, s))
  {
    hide Allowed;
  }

  lemma RunLeafKeepsTeam(w: World, s: Run, agent: string, prompt: string)
    requires TeamOnly(w, s) && Allowed(w, agent)
    ensures TeamOnly(w, RunLeaf(w, s, agent, prompt).run)
    ensures RunLeaf(w, s, agent, prompt).Ok? ==>
              var outs := RunLeaf(w, s, agent, prompt).run.leafOutputs; outs[|outs| - 1].agent == agent
  {
    hide Allowed, ArtifactText.StripWrappingFence;
  }

  lemma DelegateKeepsTeam(w: World, s: Run, agent: string, prompt: string)
    requires TeamOnly(w, s) && Allowed(w, agent)
    ensures TeamOnly(w, Delegate(w, s, agent, prompt).run)
  {
    hide Allowed, Interfere, Reread, RunLeaf, EstimateStepCost, WithinBudget, TeamOnly;
    InterfereKeepsTeam(w, s);
    var started := Publish(Reread(w, s), DelegationStarted(agent));
    StartedKeepsTeam(w, Reread(w, s), agent);
    InterfereKeepsTeam(w, started);
    RunLeafKeepsTeam(w, Interfere(w, started), agent, prompt);
    var r := RunLeaf(w, Interfere(w, started), agent, prompt);
    if r.Ok? {
      CompleteKeepsTeam(w, r.run, agent);
    }
  }

  lemma StartedKeepsTeam(w: World, s: Run, agent: string)
    requires TeamOnly(w, s) && Allowed(w, agent)
    ensures TeamOnly(w, Publish(s, DelegationStarted(agent)))
  {
    hide Allowed;
  }

  lemma CompleteKeepsTeam(w: World, s: Run, agent: string)
    requires TeamOnly(w, s) && Allowed(w, agent) && s.leafOutputs != []
             && s.leafOutputs[|s.leafOutputs| - 1].agent == agent
    ensures TeamOnly(w, CompleteLeaf(w, s).run)
  {
    hide Allowed;
  }

  lemma MaterializeKeepsTeam(w: World, s: Run, agent: string, output: string)
    requires TeamOnly(w, s)
    ensures TeamOnly(w, Materialize(s, agent, output))
  {
    hide Allowed;
  }

  lemma StepKeepsTeam(w: World, s: Run, step: PlanStep)
    requires TeamOnly(w, s)
    ensures TeamOnly(w, DelegateStep(w, s, step).run)
  {
    var prompt := ComposeSubPrompt(step.goal, s.priorContext);
    GuardIs(w, step.agent, prompt);
    hide Delegate, TeamOnly, Guard, Materialize, ComposeSubPrompt;
    if Guard(w, step.agent, prompt).None? {
      DelegateKeepsTeam(w, s, step.agent, prompt);
      var d := Delegate(w, s, step.agent, prompt);
      if d.Ok? {
        MaterializeKeepsTeam(w, d.run, step.agent, d.run.leafOutputs[|d.run.leafOutputs| - 1].output);
      }
    }
  }

  lemma {:induction false} PlanKeepsTeam(w: World, s: Run, plan: seq<PlanStep>)
    requires TeamOnly(w, s)
    ensures TeamOnly(w, DelegatePlan(w, s, plan).run)
    decreases |plan|
  {
    hide TeamOnly, DelegateStep;
    if plan != [] {
      StepKeepsTeam(w, s, plan[0]);
      var r := DelegateStep(w, s, plan[0]);
      if r.Ok? {
        PlanKeepsTeam(w, r.run, plan[1..]);
      }
    }
  }

  lemma CoordinateKeepsTeam(w: World, s: Run)
    requires TeamOnly(w, s)
    ensures TeamOnly(w, Coordinate(w, s).run)
  {
    hide TeamOnly, Interfere, DelegatePlan, OrderedSteps;
    InterfereKeepsTeam(w, s);
    match w.coordinator
    case PlanFails(_) =>
    case Planned(steps) => PlanKeepsTeam(w, Interfere(w, s), OrderedSteps(steps));
  }

  lemma MasterCallKeepsTeam(w: World, s: Run, role: Role, call: Call, index: nat)
    requires TeamOnly(w, s) && !role.Delegation?
    ensures TeamOnly(w, MasterCall(w, s, role, call, index).run)
  {
    hide TeamOnly, Interfere, BookMaster, CompleteMaster, EstimateStepCost, RoleKey, WithinBudget;
    MasterStepsKeepTeam(w, s, role, index, 0, 0, 0.0);
    var issued := s.(calls := s.calls + [PaidCall(role, s.accumulated)]);
    InterfereKeepsTeam(w, issued);
    var called := Interfere(w, issued);
    if call.Answered? && call.recording.Recorded? {
      var cost := call.recording.cost;
      MasterStepsKeepTeam(w, called, role, index, call.inTokens, call.outTokens, cost);
      var booked := BookMaster(called, role, index, call.inTokens, call.outTokens, cost);
      InterfereKeepsTeam(w, booked);
      MasterStepsKeepTeam(w, Interfere(w, booked), role, index, 0, 0, cost);
    }
  }

  lemma MasterStepsKeepTeam(w: World, s: Run, role: Role, index: nat, inTokens: nat, outTokens: nat, cost: real)
    requires TeamOnly(w, s) && !role.Delegation?
    ensures TeamOnly(w, s.(calls := s.calls + [PaidCall(role, s.accumulated)]))
    ensures TeamOnly(w, BookMaster(s, role, index, inTokens, outTokens, cost))
    ensures TeamOnly(w, CompleteMaster(w, s, role, cost).run)
  {
    hide Allowed, PhaseName;
  }

  lemma WorkKeepsTeam(w: World)
    ensures TeamOnly(w, Work(w, Begin(w)).run)
  {
    AdmitKeepsTeam(w);
    hide TeamOnly, Admit, MasterCall, Coordinate, Begin;
    var a := Admit(w, Begin(w));
    if a.Ok? {
      if w.master {
        MasterCallKeepsTeam(w, a.run, MasterPlan, w.masterPlan, 0);
        var p := MasterCall(w, a.run, MasterPlan, w.masterPlan, 0);
        if p.Ok? {
          CoordinateKeepsTeam(w, p.run);
          var c := Coordinate(w, p.run);
          if c.Ok? {
            MasterCallKeepsTeam(w, c.run, Synthesis, w.synthesis, |c.run.artifacts| + 1);
          }
        }
      } else {
        CoordinateKeepsTeam(w, a.run);
      }
    }
  }

  lemma AdmitKeepsTeam(w: World)
    ensures TeamOnly(w, Admit(w, Begin(w)).run)
  {
    hide Allowed;
  }

  lemma ExtractKeepsTeam(w: World, s: Run)
    requires TeamOnly(w, s)
    ensures TeamOnly(w, ExtractMemory(w, s))
  {
    hide Allowed, StoredEntries, PhaseName;
  }

  lemma FinishKeepsTeam(w: World, s: Run, code: string, outcome: string)
    requires TeamOnly(w, s)
    ensures TeamOnly(w, FinishSucceeded(w, s)) && TeamOnly(w, FinishCancelled(w, s))
    ensures TeamOnly(w, FinishFailed(w, s, code, outcome))
  {
    hide Allowed, SumIn, SumOut;
  }

  lemma ConcludeKeepsTeam(w: World, s: Run)
    requires TeamOnly(w, s)
    ensures TeamOnly(w, Conclude(w, s))
  {
    hide TeamOnly, ExtractMemory, Interfere, FinishSucceeded, FinishCancelled, FinishFailed;
    InterfereKeepsTeam(w, s);
    var screened := if w.screen.NoScreen? then s else Interfere(w, s);
    ExtractKeepsTeam(w, screened);
    FinishKeepsTeam(w, ExtractMemory(w, screened), "", "");
    FinishKeepsTeam(w, screened, if w.screen.ScreenBlocks? then w.screen.code else "", "failed");
    FinishKeepsTeam(w, s, "", "");
  }

  /** In every run, whatever its plan: nobody is asked, recorded, kept or announced but known agents of the team. */
  lemma OnlyTheTeam(w: World)
    ensures TeamOnly(w, Execute(w))
  {
    hide TeamOnly, Work, Begin, Conclude, FinishCancelled, FinishFailed, Reread, FailureOutcome;
    WorkKeepsTeam(w);
    var r := Work(w, Begin(w));
    match r
    case Ok(s) =>
      InterfereKeepsTeam(w, s);
      ConcludeKeepsTeam(w, Reread(w, s));
    case Err(s, e) => FinishKeepsTeam(w, s, ErrorCode(e), FailureOutcome(ErrorCode(e)));
  }

  // ---------------------------------------------------------------- answers that nobody asks for

  /** The same surroundings with other answers of the specialists. */
  function Answering(w: World, leaf: (nat, string, string) -> Call): World {
    w.(leaf := leaf)
  }

  /** The same answers to everything that may be asked. */
  ghost predicate SameWhenAskable(w: World, leaf: (nat, string, string) -> Call) {
    forall n: nat, agent, prompt :: Askable(w, agent, prompt) ==> leaf(n, agent, prompt) == w.leaf(n, agent, prompt)
  }

  lemma InterfereSameAnswers(w: World, leaf: (nat, string, string) -> Call, s: Run)
    ensures Interfere(Answering(w, leaf), s) == Interfere(w, s) && Reread(Answering(w, leaf), s) == Reread(w, s)
    ensures SeesCancel(Answering(w, leaf), s) == SeesCancel(w, s)
  {
  }

  lemma RunLeafSame(w: World, leaf: (nat, string, string) -> Call, s: Run, agent: string, prompt: string)
    requires leaf(s.stepIndex, agent, prompt) == w.leaf(s.stepIndex, agent, prompt)
    ensures RunLeaf(Answering(w, leaf), s, agent, prompt) == RunLeaf(w, s, agent, prompt)
  {
    hide ArtifactText.StripWrappingFence, Interfere, BookLeaf;
    forall s ensures Interfere(Answering(w, leaf), s) == Interfere(w, s) {
      InterfereSameAnswers(w, leaf, s);
    }
  }

  lemma CompleteLeafSame(w: World, leaf: (nat, string, string) -> Call, s: Run)
    requires s.leafOutputs != []
    ensures CompleteLeaf(Answering(w, leaf), s) == CompleteLeaf(w, s)
  {
  }

  lemma DelegateSame(w: World, leaf: (nat, string, string) -> Call, s: Run, agent: string, prompt: string)
    requires forall n: nat :: leaf(n, agent, prompt) == w.leaf(n, agent, prompt)
    ensures Delegate(Answering(w, leaf), s, agent, prompt) == Delegate(w, s, agent, prompt)
  {
    hide EstimateStepCost, RunLeaf, Interfere, Reread, CompleteLeaf, SeesCancel;
    var v := Answering(w, leaf);
    InterfereSameAnswers(w, leaf, s);
    InterfereSameAnswers(w, leaf, Reread(w, s));
    var started := Publish(Reread(w, s), DelegationStarted(agent));
    InterfereSameAnswers(w, leaf, started);
    var entered := Interfere(w, started);
    RunLeafSame(w, leaf, entered, agent, prompt);
    var r := RunLeaf(w, entered, agent, prompt);
    if r.Ok? {
      CompleteLeafSame(w, leaf, r.run);
    }
  }

  lemma StepSame(w: World, leaf: (nat, string, string) -> Call, s: Run, step: PlanStep)
    requires SameWhenAskable(w, leaf)
    ensures DelegateStep(Answering(w, leaf), s, step) == DelegateStep(w, s, step)
  {
    var prompt := ComposeSubPrompt(step.goal, s.priorContext);
    GuardIs(w, step.agent, prompt);
    assert Guard(Answering(w, leaf), step.agent, prompt) == Guard(w, step.agent, prompt);
    hide Delegate, Guard, Materialize, ComposeSubPrompt;
    if Guard(w, step.agent, prompt).None? {
      DelegateSame(w, leaf, s, step.agent, prompt);
    }
  }

  lemma {:induction false} PlanSame(w: World, leaf: (nat, string, string) -> Call, s: Run, plan: seq<PlanStep>)
    requires SameWhenAskable(w, leaf)
    ensures DelegatePlan(Answering(w, leaf), s, plan) == DelegatePlan(w, s, plan)
    decreases |plan|
  {
    hide DelegateStep, SameWhenAskable, Answering;
    if plan != [] {
      StepSame(w, leaf, s, plan[0]);
      var r := DelegateStep(w, s, plan[0]);
      if r.Ok? {
        PlanSame(w, leaf, r.run, plan[1..]);
      }
    }
  }

  lemma CoordinateSame(w: World, leaf: (nat, string, string) -> Call, s: Run)
    requires SameWhenAskable(w, leaf)
    ensures Coordinate(Answering(w, leaf), s) == Coordinate(w, s)
  {
    hide DelegatePlan, SameWhenAskable, OrderedSteps;
    match w.coordinator
    case PlanFails(_) =>
    case Planned(steps) => PlanSame(w, leaf, Interfere(w, s), OrderedSteps(steps));
  }

  lemma MasterCallSameAnswers(w: World, leaf: (nat, string, string) -> Call, s: Run, role: Role, call: Call, index: nat)
    ensures MasterCall(Answering(w, leaf), s, role, call, index) == MasterCall(w, s, role, call, index)
  {
    hide EstimateStepCost, RoleKey, PhaseName, Interfere, Answering, CompleteMaster;
    assert Answering(w, leaf).recorder == w.recorder && Answering(w, leaf).cap == w.cap by {
      AnsweringSame(w, leaf);
    }
    forall s ensures Interfere(Answering(w, leaf), s) == Interfere(w, s) {
      InterfereSameAnswers(w, leaf, s);
    }
    forall s, cost ensures CompleteMaster(Answering(w, leaf), s, role, cost) == CompleteMaster(w, s, role, cost) {
      CompleteSame(w, leaf, s, role, cost);
    }
  }

  lemma AnsweringSame(w: World, leaf: (nat, string, string) -> Call)
    ensures Answering(w, leaf).recorder == w.recorder && Answering(w, leaf).cap == w.cap
  {
  }

  lemma CompleteSame(w: World, leaf: (nat, string, string) -> Call, s: Run, role: Role, cost: real)
    ensures CompleteMaster(Answering(w, leaf), s, role, cost) == CompleteMaster(w, s, role, cost)
  {
  }

  lemma WorkSame(w: World, leaf: (nat, string, string) -> Call)
    requires SameWhenAskable(w, leaf)
    ensures Work(Answering(w, leaf), Begin(Answering(w, leaf))) == Work(w, Begin(w))
  {
    var v := Answering(w, leaf);
    assert Begin(v) == Begin(w) && Admit(v, Begin(w)) == Admit(w, Begin(w));
    assert v.master == w.master && v.masterPlan == w.masterPlan && v.synthesis == w.synthesis;
    hide Begin, Admit, MasterCall, Coordinate, SameWhenAskable, Answering;
    var a := Admit(w, Begin(w));
    if a.Ok? {
      CoordinateSame(w, leaf, a.run);
      MasterCallSameAnswers(w, leaf, a.run, MasterPlan, w.masterPlan, 0);
      var p := MasterCall(w, a.run, MasterPlan, w.masterPlan, 0);
      CoordinateSame(w, leaf, p.run);
      var c := Coordinate(w, p.run);
      MasterCallSameAnswers(w, leaf, c.run, Synthesis, w.synthesis, |c.run.artifacts| + 1);
    }
  }

  lemma ExtractSameAnswers(w: World, leaf: (nat, string, string) -> Call, s: Run)
    ensures ExtractMemory(Answering(w, leaf), s) == ExtractMemory(w, s)
  {
    hide StoredEntries, Interfere, BookMemory;
    forall s ensures Interfere(Answering(w, leaf), s) == Interfere(w, s) {
      InterfereSameAnswers(w, leaf, s);
    }
  }

  lemma CommitSame(w: World, leaf: (nat, string, string) -> Call, s: Run, status: Status)
    ensures CommitClosing(Answering(w, leaf), s, status) == CommitClosing(w, s, status)
  {
  }

  lemma FinishSameAnswers(w: World, leaf: (nat, string, string) -> Call, s: Run, code: string, outcome: string)
    ensures FinishSucceeded(Answering(w, leaf), s) == FinishSucceeded(w, s)
    ensures FinishFailed(Answering(w, leaf), s, code, outcome) == FinishFailed(w, s, code, outcome)
    ensures FinishCancelled(Answering(w, leaf), s) == FinishCancelled(w, s)
  {
    hide CommitClosing, SumIn, SumOut;
    CommitSame(w, leaf, TellSucceeded(w, s), Succeeded);
    CommitSame(w, leaf, TellFailed(w, s, code, outcome), FailedStatus);
  }

  lemma ConcludeSameAnswers(w: World, leaf: (nat, string, string) -> Call, s: Run)
    ensures Conclude(Answering(w, leaf), s) == Conclude(w, s)
  {
    hide ExtractMemory, Interfere, FinishSucceeded, FinishFailed, FinishCancelled, SeesCancel;
    InterfereSameAnswers(w, leaf, s);
    var screened := if w.screen.NoScreen? then s else Interfere(w, s);
    ExtractSameAnswers(w, leaf, screened);
    FinishSameAnswers(w, leaf, s, "", "");
    FinishSameAnswers(w, leaf, ExtractMemory(w, screened), "", "");
    FinishSameAnswers(w, leaf, screened, if w.screen.ScreenBlocks? then w.screen.code else "", "failed");
  }

  /** What the specialists would answer to anything else is never looked at: a run is the same when only answers
      change that belong to agents outside the team, to unknown ones or to empty prompts. */
  lemma OnlyAskableAsked(w: World, leaf: (nat, string, string) -> Call)
    requires SameWhenAskable(w, leaf)
    ensures Execute(Answering(w, leaf)) == Execute(w)
  {
    hide Work, Begin, Conclude, FinishFailed, FinishCancelled, Reread, FailureOutcome, Answering;
    WorkSame(w, leaf);
    match Work(w, Begin(w))
    case Ok(s) =>
      InterfereSameAnswers(w, leaf, s);
      ConcludeSameAnswers(w, leaf, Reread(w, s));
    case Err(s, e) => FinishSameAnswers(w, leaf, s, ErrorCode(e), FailureOutcome(ErrorCode(e)));
  }
}
