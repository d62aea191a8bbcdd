/** What each specialist was asked and what became of the answer: the chain of prompts through a run,
    against a reference that looks only at the plan, the answers and their order. */
module TaskRunChain {
  import opened Text
  import opened TaskEvents
  import opened BudgetGuard
  import opened PlanOrdering
  import opened TaskRun
  import ArtifactText

  /** The context the n-th specialist sees: every earlier output under its agent's heading. */
  function Context(outs: seq<LeafResult>): string {
    if outs == [] then ""
    else
      var before, last := Context(outs[..|outs| - 1]), outs[|outs| - 1];
      var entry := "## " + last.agent + " output\n" + last.output;
      if before == "" then entry else before + "\n\n" + entry
  }

  /** What the next specialist is asked: the goal alone, or the goal and the context. */
  function PromptFor(goal: string, outs: seq<LeafResult>): string {
    if outs == [] then goal else goal + "\n\n" + Context(outs)
  }

  lemma PromptIs(goal: string, outs: seq<LeafResult>)
    ensures ComposeSubPrompt(goal, Context(outs)) == PromptFor(goal, outs)
  {
  }

  /** The leaf's result is this recorded answer of this agent, out of its fence. */
  ghost predicate Answers(call: Call, agent: string, leaf: LeafResult) {
    && call.Answered? && call.recording.Recorded?
    && leaf == LeafResult(agent, ArtifactText.StripWrappingFence(call.output),
                          call.inTokens, call.outTokens, call.recording.cost)
  }

  /** Result i answers the i-th ordered step, asked with its goal and the context of the results before it. */
  ghost predicate ChainedAt(w: World, plan: seq<PlanStep>, outs: seq<LeafResult>, i: nat)
    requires i < |outs| && i < |plan|
  {
    Answers(w.leaf(i, plan[i].agent, PromptFor(plan[i].goal, outs[..i])), plan[i].agent, outs[i])
  }

  ghost predicate Chained(w: World, plan: seq<PlanStep>, outs: seq<LeafResult>) {
    |outs| <= |plan| && forall i :: 0 <= i < |outs| ==> ChainedAt(w, plan, outs, i)
  }

  /** One artifact per result, normalised for the reader. */
  function Materials(outs: seq<LeafResult>): seq<string> {
    if outs == [] then []
    else Materials(outs[..|outs| - 1]) + [ArtifactText.NormalizeArtifactMarkdown(outs[|outs| - 1].output)]
  }

  /** Between delegations the run's own counter, context and artifacts are those of its results. */
  ghost predicate InStep(s: Run) {
    && s.stepIndex == |s.leafOutputs| && s.priorContext == Context(s.leafOutputs)
    && s.artifacts == Materials(s.leafOutputs)
  }

  /** Nothing a delegation reads has changed. */
  ghost predicate SameLeaves(s: Run, r: Run) {
    && r.leafOutputs == s.leafOutputs && r.stepIndex == s.stepIndex
    && r.priorContext == s.priorContext && r.artifacts == s.artifacts
  }

  lemma InterfereSame(w: World, s: Run)
    ensures SameLeaves(s, Interfere(w, s))
  {
  }

  lemma RereadSame(w: World, s: Run)
    ensures SameLeaves(s, Reread(w, s))
  {
  }

  /** One leaf call: its result is appended, or nothing is. */
  lemma RunLeafAppends(w: World, s: Run, agent: string, prompt: string)
    ensures var r := RunLeaf(w, s, agent, prompt);
            && r.run.priorContext == s.priorContext && r.run.artifacts == s.artifacts
            && (r.Err? ==> r.run.leafOutputs == s.leafOutputs)
            && (r.Ok? ==>
                  && |r.run.leafOutputs| == |s.leafOutputs| + 1
                  && r.run.leafOutputs[..|s.leafOutputs|] == s.leafOutputs
                  && Answers(w.leaf(s.stepIndex, agent, prompt), agent, r.run.leafOutputs[|s.leafOutputs|])
                  && r.run.stepIndex == s.stepIndex + 1)
  {
    hide ArtifactText.StripWrappingFence;
  }

  /** What a delegation leaves behind: no new result, or the recorded answer to exactly this prompt. */
  ghost predicate Delegated(w: World, s: Run, r: Run, agent: string, prompt: string) {
    && r.priorContext == s.priorContext && r.artifacts == s.artifacts
    && (r.leafOutputs == s.leafOutputs
        || (|r.leafOutputs| == |s.leafOutputs| + 1 && r.leafOutputs[..|s.leafOutputs|] == s.leafOutputs
            && Answers(w.leaf(s.stepIndex, agent, prompt), agent, r.leafOutputs[|s.leafOutputs|])
            && r.stepIndex == s.stepIndex + 1))
  }

  lemma DelegateAppends(w: World, s: Run, agent: string, prompt: string)
    ensures Delegated(w, s, Delegate(w, s, agent, prompt).run, agent, prompt)
  {
    InterfereSame(w, s);
    var started := Publish(Reread(w, s), DelegationStarted(agent));
    InterfereSame(w, started);
    RunLeafAppends(w, Interfere(w, started), agent, prompt);
    hide RunLeaf, Answers, Interfere, EstimateStepCost, WithinBudget;
  }

  /** One plan step: nothing new, or one more link of the chain. */
  lemma StepChains(w: World, s: Run, plan: seq<PlanStep>)
    requires InStep(s) && Chained(w, plan, s.leafOutputs) && |s.leafOutputs| < |plan|
    ensures var r := DelegateStep(w, s, plan[|s.leafOutputs|]);
            && Chained(w, plan, r.run.leafOutputs)
            && (r.Ok? ==> InStep(r.run) && |r.run.leafOutputs| == |s.leafOutputs| + 1)
  {
    hide Delegate, Answers, Guard;
    var k := |s.leafOutputs|;
    var agent, prompt := plan[k].agent, ComposeSubPrompt(plan[k].goal, s.priorContext);
    PromptIs(plan[k].goal, s.leafOutputs);
    if Guard(w, agent, prompt).None? {
      DelegateAppends(w, s, agent, prompt);
      var d := Delegate(w, s, agent, prompt);
      if d.run.leafOutputs != s.leafOutputs {
        LinkAdded(w, plan, s.leafOutputs, d.run.leafOutputs);
      }
      if d.Ok? {
        MaterializedInStep(s, d.run);
        SameAgent(w, s, d.run, agent, prompt);
      }
    }
  }

  lemma SameAgent(w: World, s: Run, r: Run, agent: string, prompt: string)
    requires Delegated(w, s, r, agent, prompt) && |r.leafOutputs| == |s.leafOutputs| + 1
    ensures r.leafOutputs[|s.leafOutputs|].agent == agent
  {
  }

  lemma LinkAdded(w: World, plan: seq<PlanStep>, outs: seq<LeafResult>, more: seq<LeafResult>)
    requires Chained(w, plan, outs) && |more| == |outs| + 1 <= |plan| && more[..|outs|] == outs
    requires var k := |outs|;
             Answers(w.leaf(k, plan[k].agent, PromptFor(plan[k].goal, outs)), plan[k].agent, more[k])
    ensures Chained(w, plan, more)
  {
    hide Answers, Context, PromptFor;
    forall i | 0 <= i < |more| ensures ChainedAt(w, plan, more, i) {
      if i < |outs| {
        assert ChainedAt(w, plan, outs, i);
        assert more[..i] == outs[..i] && more[i] == outs[i];
      }
    }
  }

  /** Materializing the new result brings context and artifacts back in step. */
  lemma MaterializedInStep(s: Run, r: Run)
    requires InStep(s) && |r.leafOutputs| == |s.leafOutputs| + 1 && r.leafOutputs[..|s.leafOutputs|] == s.leafOutputs
    requires r.priorContext == s.priorContext && r.artifacts == s.artifacts && r.stepIndex == s.stepIndex + 1
    ensures var last := r.leafOutputs[|s.leafOutputs|]; InStep(Materialize(r, last.agent, last.output))
  {
    hide ArtifactText.NormalizeArtifactMarkdown;
  }

  lemma {:induction false} PlanChains(w: World, s: Run, plan: seq<PlanStep>)
    requires InStep(s) && Chained(w, plan, s.leafOutputs)
    ensures var r := DelegatePlan(w, s, plan[|s.leafOutputs|..]);
            && Chained(w, plan, r.run.leafOutputs)
            && (r.Ok? ==> InStep(r.run) && |r.run.leafOutputs| == |plan|)
    decreases |plan| - |s.leafOutputs|
  {
    hide DelegateStep, ChainedAt, InStep;
    var k := |s.leafOutputs|;
    if k < |plan| {
      assert plan[k..][0] == plan[k] && plan[k..][1..] == plan[k + 1..];
      StepChains(w, s, plan);
      var r := DelegateStep(w, s, plan[k]);
      if r.Ok? {
        PlanChains(w, r.run, plan);
      }
    }
  }

  lemma CoordinateChains(w: World, s: Run)
    requires s.leafOutputs == [] && InStep(s)
    ensures var r := Coordinate(w, s);
            && (match w.coordinator
                case PlanFails(_) => r.run.leafOutputs == []
                case Planned(steps) => Chained(w, OrderedSteps(steps), r.run.leafOutputs))
            && (r.Ok? ==> InStep(r.run))
  {
    InterfereSame(w, s);
    match w.coordinator
    case PlanFails(_) =>
    case Planned(steps) =>
      var plan, s1 := OrderedSteps(steps), Interfere(w, s);
      assert plan[0..] == plan && InStep(s1);
      PlanChains(w, s1, plan);
  }

  lemma MasterCallSame(w: World, s: Run, role: Role, call: Call, index: nat)
    ensures SameLeaves(s, MasterCall(w, s, role, call, index).run)
  {
    hide EstimateStepCost, RoleKey, PhaseName, WithinBudget;
  }

  lemma AdmitSame(w: World, s: Run)
    ensures SameLeaves(s, Admit(w, s).run)
  {
  }

  ghost predicate WholeChain(w: World, outs: seq<LeafResult>) {
    match w.coordinator
    case PlanFails(_) => outs == []
    case Planned(steps) => Chained(w, OrderedSteps(steps), outs)
  }

  lemma NothingChained(w: World)
    ensures WholeChain(w, [])
  {
  }

  lemma WorkChains(w: World)
    ensures var r := Work(w, Begin(w)); WholeChain(w, r.run.leafOutputs) && (r.Ok? ==> InStep(r.run))
  {
    var s := Begin(w);
    assert s.leafOutputs == [] && InStep(s);
    NothingChained(w);
    AdmitSame(w, s);
    var a := Admit(w, s);
    hide Admit, Coordinate, MasterCall, Chained;
    if a.Ok? {
      if w.master {
        MasterCallSame(w, a.run, MasterPlan, w.masterPlan, 0);
        var p := MasterCall(w, a.run, MasterPlan, w.masterPlan, 0);
        if p.Ok? {
          CoordinateChains(w, p.run);
          var c := Coordinate(w, p.run);
          if c.Ok? {
            MasterCallSame(w, c.run, Synthesis, w.synthesis, |c.run.artifacts| + 1);
          }
        }
      } else {
        CoordinateChains(w, a.run);
      }
    }
  }

  lemma MemorySame(w: World, s: Run)
    ensures SameLeaves(s, ExtractMemory(w, s))
  {
    hide StoredEntries;
  }

  lemma FinishSame(w: World, s: Run, code: string, outcome: string)
    ensures SameLeaves(s, FinishSucceeded(w, s)) && SameLeaves(s, FinishCancelled(w, s))
    ensures SameLeaves(s, FinishFailed(w, s, code, outcome))
  {
  }

  lemma ConcludeSame(w: World, s: Run)
    ensures SameLeaves(s, Conclude(w, s))
  {
    hide ExtractMemory, FinishSucceeded, FinishFailed, FinishCancelled, Interfere;
    InterfereSame(w, s);
    FinishSame(w, s, "", "");
    match w.screen
    case ScreenBlocks(code) => FinishSame(w, Interfere(w, s), code, "failed");
    case ScreenPasses =>
      MemorySame(w, Interfere(w, s));
      FinishSame(w, ExtractMemory(w, Interfere(w, s)), "", "");
    case NoScreen =>
      MemorySame(w, s);
      FinishSame(w, ExtractMemory(w, s), "", "");
  }

  /** In every run, however it ends, result i is the recorded answer of the i-th ordered step's agent to its
      goal followed by every earlier output; on success the artifacts are exactly the results, normalised,
      in that order. */
  lemma EveryRunIsChained(w: World)
    ensures var r := Execute(w);
            WholeChain(w, r.leafOutputs) && (r.exit == ExitSucceeded ==> r.artifacts == Materials(r.leafOutputs))
  {
    WorkChains(w);
    var done := Work(w, Begin(w));
    hide Work, Conclude, Reread, WholeChain;
    if done.Ok? {
      RereadSame(w, done.run);
      ConcludeSame(w, Reread(w, done.run));
    } else {
      hide FinishFailed, FinishCancelled;
      FinishSame(w, done.run, ErrorCode(done.error), FailureOutcome(ErrorCode(done.error)));
      FailedExit(w, done.run, ErrorCode(done.error), FailureOutcome(ErrorCode(done.error)));
    }
  }

  lemma FailedExit(w: World, s: Run, code: string, outcome: string)
    ensures FinishCancelled(w, s).exit == ExitCancelled && FinishFailed(w, s, code, outcome).exit.ExitFailed?
  {
  }
}
