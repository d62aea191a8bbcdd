/** Whom a run may ask, when it succeeds and when it refuses a step: conditions on the surroundings alone. */
module TaskRunOutcome {
  import opened Text
  import opened TaskEvents
  import opened BudgetGuard
  import opened PlanOrdering
  import opened TaskRun
  import opened TaskRunLaws
  import opened TaskRunChain
  import opened TaskRunCancel

  /** Nobody cancels, or there is no row to cancel. */
  ghost predicate Undisturbed(w: World) {
    w.hasRow ==> forall n: nat :: !w.cancels(n)
  }

  /** The agent is in the team and one of the known ones, and there is something to ask. */
  ghost predicate Askable(w: World, agent: string, prompt: string) {
    agent in w.team && agent in ["coordinator", "researcher", "writer", "analyst"] && prompt != ""
  }

  /** Credits that must be free before an agent is asked. */
  function Forward(agent: string): real {
    if agent == "writer" then 0.90112 else if agent == "coordinator" then 0.22528 else 0.45056
  }

  function Spent(outs: seq<LeafResult>): real {
    if outs == [] then 0.0 else Spent(outs[..|outs| - 1]) + outs[|outs| - 1].cost
  }

  /** Step i is asked and answered, within the cap before and after; base is what the Master's plan has cost. */
  ghost predicate StepGoes(w: World, plan: seq<PlanStep>, outs: seq<LeafResult>, i: nat, base: real)
    requires i < |outs| && i < |plan|
  {
    var agent, prompt := plan[i].agent, PromptFor(plan[i].goal, outs[..i]);
    && Askable(w, agent, prompt)
    && base + Spent(outs[..i]) + Forward(agent) <= w.cap
    && Answers(w.leaf(i, agent, prompt), agent, outs[i])
    && base + Spent(outs[..i + 1]) <= w.cap
  }

  /** The results of a first part of the plan, each step of which goes. */
  ghost predicate PlanGoes(w: World, plan: seq<PlanStep>, outs: seq<LeafResult>, base: real) {
    |outs| <= |plan| && forall i :: 0 <= i < |outs| ==> StepGoes(w, plan, outs, i, base)
  }

  /** Between two steps: what is known of the run from its results alone. */
  ghost predicate At(s: Run, outs: seq<LeafResult>, base: real) {
    && s.leafOutputs == outs && InStep(s) && s.accumulated == base + Spent(outs)
    && s.status != CancelledStatus
  }

  lemma EstimateIs(agent: string)
    requires agent in ["coordinator", "researcher", "writer", "analyst"]
    ensures EstimateStepCost(agent) == Forward(agent)
  {
  }

  lemma GuardIs(w: World, agent: string, prompt: string)
    ensures Guard(w, agent, prompt) ==
            if Askable(w, agent, prompt) then None
            else if agent !in w.team then Some("agents.delegation.target_invalid") else Some("ValidationError")
  {
  }

  lemma SpentMore(outs: seq<LeafResult>, leaf: LeafResult)
    ensures Spent(outs + [leaf]) == Spent(outs) + leaf.cost
  {
    assert (outs + [leaf])[..|outs|] == outs;
  }

  lemma Undisturbs(w: World, s: Run)
    requires Undisturbed(w)
    ensures Interfere(w, s) == s.(clock := s.clock + 1)
    ensures Reread(w, s) == s.(clock := s.clock + 1, rereads := s.rereads + [s.clock + 1])
  {
  }

  /** The call fails with this code, or its recording does. */
  ghost predicate Says(call: Call, code: string) {
    call == CallFails(code) || (call.Answered? && call.recording == NotRecorded(code))
  }

  /** What can be the matter with a call that is made. */
  ghost predicate OtherTrouble(call: Call, e: RunError) {
    e == OverBudgetBefore || e == OverBudgetAfter || (e.OtherError? && Says(call, e.code))
  }

  /** The call is answered and recorded, and the cap holds before and after it. */
  ghost predicate Paid(w: World, spent: real, agent: string, call: Call) {
    && spent + Forward(agent) <= w.cap && call.Answered? && call.recording.Recorded?
    && spent + call.recording.cost <= w.cap
  }

  /** The code of a call that does not go: the cap says no before it, or it fails, or its recording does, or the cap
      says no after it. */
  function Trouble(w: World, spent: real, forward: real, call: Call): string {
    if spent + forward > w.cap then "tasks.budget_exceeded"
    else if call.CallFails? then call.code
    else if call.recording.NotRecorded? then call.recording.code
    else "tasks.budget_exceeded"
  }

  function LeafOf(call: Call, agent: string): LeafResult
    requires call.Answered? && call.recording.Recorded?
  {
    LeafResult(agent, ArtifactText.StripWrappingFence(call.output), call.inTokens, call.outTokens, call.recording.cost)
  }

  /** The leaf call and its booking, without anybody to disturb it. */
  lemma LeafRuns(w: World, s: Run, agent: string, prompt: string)
    requires Undisturbed(w)
    ensures var r, call := RunLeaf(w, s, agent, prompt), w.leaf(s.stepIndex, agent, prompt);
            && (r.Ok? <==> call.Answered? && call.recording.Recorded?)
            && (r.Err? ==> OtherTrouble(call, r.error) && r.error.OtherError?
                           && r.error.code == if call.CallFails? then call.code else call.recording.code)
            && r.run.rereads == s.rereads && r.run.status == s.status
            && (r.Ok? ==>
                  var leaf := LeafOf(call, agent);
                  r.run == BookLeaf(s.(stepIndex := s.stepIndex + 1, clock := s.clock + 2,
                                       calls := s.calls + [PaidCall(Delegation(agent), s.accumulated)]), leaf))
  {
    hide ArtifactText.StripWrappingFence;
  }

  lemma CompleteRuns(w: World, s: Run)
    requires s.leafOutputs != []
    ensures var r := CompleteLeaf(w, s);
            && (r.Ok? <==> s.accumulated <= w.cap) && (r.Err? ==> r.error == OverBudgetAfter)
            && r.run == s.(ledger := r.run.ledger)
  {
  }

  /** The delegation re-reads the status once and then raises the trouble of its call. */
  ghost predicate Trips(w: World, s: Run, r: Result, spent: real, agent: string, call: Call) {
    && r.Err? && OtherTrouble(call, r.error) && ErrorCode(r.error) == Trouble(w, spent, Forward(agent), call)
    && r.run.status == s.status && r.run.rereads == s.rereads + [s.clock + 1]
  }

  /** A delegation that is asked, without anybody to disturb it. */
  lemma DelegateRuns(w: World, s: Run, agent: string, prompt: string)
    requires Undisturbed(w) && s.status != CancelledStatus && s.stepIndex == |s.leafOutputs|
    requires agent in ["coordinator", "researcher", "writer", "analyst"]
    ensures var r, call := Delegate(w, s, agent, prompt), w.leaf(s.stepIndex, agent, prompt);
            && (r.Ok? <==> Paid(w, s.accumulated, agent, call))
            && (r.Err? ==> Trips(w, s, r, s.accumulated, agent, call))
            && r.run.rereads == s.rereads + [s.clock + 1] && r.run.status == s.status
            && (r.Ok? ==> Gains(s, r.run, LeafOf(call, agent)))
  {
    hide RunLeaf, CompleteLeaf, EstimateStepCost, Reread, Interfere, Forward, ArtifactText.StripWrappingFence,
         Undisturbed;
    EstimateIs(agent);
    Undisturbs(w, s);
    var started := Publish(Reread(w, s), DelegationStarted(agent));
    Undisturbs(w, started);
    var entered := Interfere(w, started);
    LeafRuns(w, entered, agent, prompt);
    var r := RunLeaf(w, entered, agent, prompt);
    if r.Ok? {
      CompleteRuns(w, r.run);
    }
  }

  /** One more result, and nothing else that the next step reads. */
  ghost predicate Gains(s: Run, r: Run, leaf: LeafResult) {
    && r.leafOutputs == s.leafOutputs + [leaf] && r.accumulated == s.accumulated + leaf.cost
    && r.clock == s.clock + 4 && r.stepIndex == s.stepIndex + 1 && r.priorContext == s.priorContext
    && r.artifacts == s.artifacts && r.status == s.status && r.rereads == s.rereads + [s.clock + 1]
  }

  lemma LastOf(outs: seq<LeafResult>, leaf: LeafResult)
    ensures (outs + [leaf])[..|outs|] == outs && (outs + [leaf])[|outs|] == leaf
  {
  }

  lemma AnswersIs(call: Call, agent: string, leaf: LeafResult)
    ensures Answers(call, agent, leaf)
            <==> call.Answered? && call.recording.Recorded? && leaf == LeafOf(call, agent)
  {
  }

  lemma AnsweredCost(call: Call, agent: string)
    ensures call.Answered? && call.recording.Recorded? ==> LeafOf(call, agent).cost == call.recording.cost
  {
  }

  /** Whether one more result goes, said of it and the results before it. */
  lemma StepGoesNext(w: World, plan: seq<PlanStep>, outs: seq<LeafResult>, leaf: LeafResult, base: real)
    requires |outs| < |plan|
    ensures var k := |outs|;
            var agent, prompt := plan[k].agent, PromptFor(plan[k].goal, outs);
            var call := w.leaf(k, agent, prompt);
            StepGoes(w, plan, outs + [leaf], k, base) <==>
              Askable(w, agent, prompt) && Paid(w, base + Spent(outs), agent, call) && leaf == LeafOf(call, agent)
  {
    hide Askable, Forward, PromptFor, Spent, Answers, LeafOf, Paid, StepGoes;
    var k, more := |outs|, outs + [leaf];
    var agent, prompt := plan[k].agent, PromptFor(plan[k].goal, outs);
    LastOf(outs, leaf);
    assert more[..k + 1] == more;
    StepGoesIs(w, plan, more, outs, more, k, base);
    AnswersIs(w.leaf(k, agent, prompt), agent, leaf);
    SpentMore(outs, leaf);
    AnsweredCost(w.leaf(k, agent, prompt), agent);
    PaidIs(w, base + Spent(outs), agent, w.leaf(k, agent, prompt));
  }

  lemma StepGoesIs(w: World, plan: seq<PlanStep>, outs: seq<LeafResult>, before: seq<LeafResult>,
                   after: seq<LeafResult>, i: nat, base: real)
    requires i < |outs| && i < |plan| && before == outs[..i] && after == outs[..i + 1]
    ensures var agent, prompt := plan[i].agent, PromptFor(plan[i].goal, before);
            StepGoes(w, plan, outs, i, base) <==>
              && Askable(w, agent, prompt) && base + Spent(before) + Forward(agent) <= w.cap
              && Answers(w.leaf(i, agent, prompt), agent, outs[i]) && base + Spent(after) <= w.cap
  {
    hide Askable, Forward, PromptFor, Spent, Answers;
  }

  lemma PaidIs(w: World, spent: real, agent: string, call: Call)
    ensures Paid(w, spent, agent, call) <==>
              && spent + Forward(agent) <= w.cap && call.Answered? && call.recording.Recorded?
              && spent + call.recording.cost <= w.cap
  {
    hide Forward;
  }

  /** A step that is not asked. */
  lemma StepRefused(w: World, s: Run, plan: seq<PlanStep>, outs: seq<LeafResult>, base: real)
    requires At(s, outs, base) && |outs| < |plan|
    requires !Askable(w, plan[|outs|].agent, PromptFor(plan[|outs|].goal, outs))
    ensures DelegateStep(w, s, plan[|outs|]) == Err(s, OtherError(RefusalOf(w, plan[|outs|].agent)))
  {
    var k := |outs|;
    PromptIs(plan[k].goal, outs);
    GuardIs(w, plan[k].agent, PromptFor(plan[k].goal, outs));
    hide Delegate, Guard, ComposeSubPrompt, PromptFor, Askable;
  }

  /** The error of a step that is not asked: outside the team, or otherwise invalid. */
  function RefusalOf(w: World, agent: string): string {
    if agent !in w.team then "agents.delegation.target_invalid" else "ValidationError"
  }

  /** A step that is asked. */
  lemma StepAsked(w: World, s: Run, plan: seq<PlanStep>, outs: seq<LeafResult>, base: real)
    requires At(s, outs, base) && |outs| < |plan|
    requires Askable(w, plan[|outs|].agent, PromptFor(plan[|outs|].goal, outs))
    ensures var k := |outs|;
            var d := Delegate(w, s, plan[k].agent, PromptFor(plan[k].goal, outs));
            DelegateStep(w, s, plan[k]) ==
              if d.Err? then d else Ok(Materialize(d.run, plan[k].agent, d.run.leafOutputs[k].output))
  {
    var k := |outs|;
    PromptIs(plan[k].goal, outs);
    GuardIs(w, plan[k].agent, PromptFor(plan[k].goal, outs));
    hide Delegate, Guard, ComposeSubPrompt, PromptFor, Askable, Materialize;
  }

  lemma MaterializeKeeps(s: Run, agent: string, output: string)
    ensures var r := Materialize(s, agent, output);
            && r.leafOutputs == s.leafOutputs && r.clock == s.clock && r.rereads == s.rereads && r.status == s.status
            && r.accumulated == s.accumulated
  {
  }

  lemma AtNext(s: Run, d: Run, outs: seq<LeafResult>, leaf: LeafResult, base: real)
    requires At(s, outs, base) && Gains(s, d, leaf)
    ensures var r := Materialize(d, leaf.agent, leaf.output);
            && At(r, outs + [leaf], base) && r.clock == s.clock + 4 && r.rereads == s.rereads + [s.clock + 1]
            && r.leafOutputs == outs + [leaf]
  {
    hide Spent, InStep, Materialize;
    LastOf(outs, leaf);
    InStepIndex(s);
    MaterializedInStep(s, d);
    MaterializeKeeps(d, leaf.agent, leaf.output);
    SpentMore(outs, leaf);
  }

  lemma InStepIndex(s: Run)
    requires InStep(s)
    ensures s.stepIndex == |s.leafOutputs|
  {
  }

  /** What a step that goes does. */
  ghost predicate Went(w: World, s: Run, r: Run, plan: seq<PlanStep>, outs: seq<LeafResult>, leaf: LeafResult,
                       base: real)
    requires |outs| < |plan|
  {
    && At(r, outs + [leaf], base) && StepGoes(w, plan, outs + [leaf], |outs|, base)
    && r.clock == s.clock + 4 && r.rereads == s.rereads + [s.clock + 1]
  }

  /** The next plan step, when it is asked: it goes exactly when the call is paid. */
  lemma StepRuns(w: World, s: Run, plan: seq<PlanStep>, outs: seq<LeafResult>, base: real)
    requires Undisturbed(w) && At(s, outs, base) && |outs| < |plan|
    requires Askable(w, plan[|outs|].agent, PromptFor(plan[|outs|].goal, outs))
    ensures var k := |outs|;
            var agent := plan[k].agent;
            var call, r := w.leaf(k, agent, PromptFor(plan[k].goal, outs)), DelegateStep(w, s, plan[k]);
            && (r.Ok? <==> Paid(w, base + Spent(outs), agent, call))
            && (r.Ok? ==> Went(w, s, r.run, plan, outs, LeafOf(call, agent), base))
            && (r.Err? ==> Trips(w, s, r, base + Spent(outs), agent, call))
  {
    hide Trips, Delegate, PromptFor, ArtifactText.StripWrappingFence, Askable, StepGoes, Materialize, Spent,
         Undisturbed, DelegateStep, Gains, At, Paid, OtherTrouble;
    var k := |outs|;
    var agent, prompt := plan[k].agent, PromptFor(plan[k].goal, outs);
    AtMeans(s, outs, base);
    AskableMeans(w, agent, prompt);
    StepAsked(w, s, plan, outs, base);
    DelegateRuns(w, s, agent, prompt);
    var d, call := Delegate(w, s, agent, prompt), w.leaf(k, agent, prompt);
    if d.Ok? {
      PaidMeans(w, s.accumulated, agent, call);
      var leaf := LeafOf(call, agent);
      GainedLeaf(s, d.run, leaf);
      AtNext(s, d.run, outs, leaf, base);
      StepGoesNext(w, plan, outs, leaf, base);
    }
  }

  lemma AskableMeans(w: World, agent: string, prompt: string)
    requires Askable(w, agent, prompt)
    ensures agent in ["coordinator", "researcher", "writer", "analyst"]
  {
  }

  lemma AtMeans(s: Run, outs: seq<LeafResult>, base: real)
    requires At(s, outs, base)
    ensures s.leafOutputs == outs && s.stepIndex == |outs| && s.accumulated == base + Spent(outs)
            && s.status != CancelledStatus
  {
  }

  lemma PaidMeans(w: World, spent: real, agent: string, call: Call)
    requires Paid(w, spent, agent, call)
    ensures call.Answered? && call.recording.Recorded?
  {
  }

  lemma GainedLeaf(s: Run, d: Run, leaf: LeafResult)
    requires Gains(s, d, leaf)
    ensures |d.leafOutputs| == |s.leafOutputs| + 1 && d.leafOutputs[|s.leafOutputs|] == leaf
  {
  }

  // ---------------------------------------------------------------- the plan

  lemma GoesByPrefix(w: World, plan: seq<PlanStep>, few: seq<LeafResult>, many: seq<LeafResult>, i: nat, base: real)
    requires i < |few| <= |many| <= |plan| && many[..|few|] == few
    ensures StepGoes(w, plan, few, i, base) <==> StepGoes(w, plan, many, i, base)
  {
    assert few[..i] == many[..i] && few[..i + 1] == many[..i + 1] && few[i] == many[i];
  }

  lemma PlanGoesNext(w: World, plan: seq<PlanStep>, outs: seq<LeafResult>, leaf: LeafResult, base: real)
    requires PlanGoes(w, plan, outs, base) && |outs| < |plan| && StepGoes(w, plan, outs + [leaf], |outs|, base)
    ensures PlanGoes(w, plan, outs + [leaf], base)
  {
    hide StepGoes;
    var more := outs + [leaf];
    assert more[..|outs|] == outs;
    forall i | 0 <= i < |more| ensures StepGoes(w, plan, more, i, base) {
      if i < |outs| {
        GoesByPrefix(w, plan, outs, more, i, base);
      }
    }
  }

  /** The next step is asked and its call is in trouble. */
  ghost predicate Stuck(w: World, plan: seq<PlanStep>, outs: seq<LeafResult>, base: real, e: RunError)
    requires |outs| < |plan|
  {
    var agent, prompt := plan[|outs|].agent, PromptFor(plan[|outs|].goal, outs);
    var call := w.leaf(|outs|, agent, prompt);
    && Askable(w, agent, prompt) && !Paid(w, base + Spent(outs), agent, call) && OtherTrouble(call, e)
    && ErrorCode(e) == Trouble(w, base + Spent(outs), Forward(agent), call)
  }

  /** The next step is not asked. */
  ghost predicate Refused(w: World, plan: seq<PlanStep>, outs: seq<LeafResult>)
    requires |outs| < |plan|
  {
    !Askable(w, plan[|outs|].agent, PromptFor(plan[|outs|].goal, outs))
  }

  /** The moments at which n steps re-read the status, in a plan entered at this moment. */
  function Reads(clock: nat, n: nat): seq<nat>
    decreases n
  {
    if n == 0 then [] else [clock + 1] + Reads(clock + 4, n - 1)
  }

  /** How far a plan got, and how it ended there. */
  ghost predicate PlanEnds(w: World, s: Run, r: Result, plan: seq<PlanStep>, outs: seq<LeafResult>,
                           final: seq<LeafResult>, base: real) {
    && |outs| <= |final| && final[..|outs|] == outs && PlanGoes(w, plan, final, base)
    && (r.Ok? ==>
          && |final| == |plan| && At(r.run, final, base) && r.run.clock == s.clock + 4 * (|final| - |outs|)
          && r.run.rereads == s.rereads + Reads(s.clock, |final| - |outs|))
    && (r.Err? ==>
          && |final| < |plan| && r.run.status != CancelledStatus
          && ((Refused(w, plan, final) && r.error == OtherError(RefusalOf(w, plan[|final|].agent))
               && r.run.rereads == s.rereads + Reads(s.clock, |final| - |outs|))
              || (Stuck(w, plan, final, base, r.error)
                  && r.run.rereads == s.rereads + Reads(s.clock, |final| - |outs| + 1))))
  }

  lemma {:induction false} PlanRuns(w: World, s: Run, plan: seq<PlanStep>, outs: seq<LeafResult>, base: real)
      returns (final: seq<LeafResult>)
    requires Undisturbed(w) && At(s, outs, base) && PlanGoes(w, plan, outs, base)
    ensures PlanEnds(w, s, DelegatePlan(w, s, plan[|outs|..]), plan, outs, final, base)
    decreases |plan| - |outs|
  {
    hide DelegateStep, At, StepGoes, PlanGoes, Askable, PromptFor, Paid, OtherTrouble, Spent, Undisturbed,
         ArtifactText.StripWrappingFence, Stuck, Refused, PlanEnds, Reads, Trips;
    final := outs;
    var k := |outs|;
    PlanGoesLength(w, plan, outs, base);
    if k == |plan| {
      NothingLeft(w, s, plan, outs, base);
    } else {
      assert plan[k..][0] == plan[k] && plan[k..][1..] == plan[k + 1..];
      var r := DelegateStep(w, s, plan[k]);
      if Refused(w, plan, outs) {
        RefusedMeans(w, plan, outs);
        StepRefused(w, s, plan, outs, base);
        RefusedEnds(w, s, plan, outs, base);
      } else {
        RefusedMeans(w, plan, outs);
        StepRuns(w, s, plan, outs, base);
        var agent := plan[k].agent;
        var call := w.leaf(k, agent, PromptFor(plan[k].goal, outs));
        if r.Ok? {
          PaidMeans(w, base + Spent(outs), agent, call);
          var leaf := LeafOf(call, agent);
          PlanGoesNext(w, plan, outs, leaf, base);
          final := PlanRuns(w, r.run, plan, outs + [leaf], base);
          WentOn(w, s, r.run, DelegatePlan(w, r.run, plan[k + 1..]), plan, outs, leaf, final, base);
        } else {
          StuckEnds(w, s, r, plan, outs, base);
        }
      }
    }
  }

  lemma PlanGoesLength(w: World, plan: seq<PlanStep>, outs: seq<LeafResult>, base: real)
    requires PlanGoes(w, plan, outs, base)
    ensures |outs| <= |plan|
  {
  }

  lemma RefusedMeans(w: World, plan: seq<PlanStep>, outs: seq<LeafResult>)
    requires |outs| < |plan|
    ensures Refused(w, plan, outs) <==> !Askable(w, plan[|outs|].agent, PromptFor(plan[|outs|].goal, outs))
  {
  }

  lemma NothingLeft(w: World, s: Run, plan: seq<PlanStep>, outs: seq<LeafResult>, base: real)
    requires At(s, outs, base) && PlanGoes(w, plan, outs, base) && |outs| == |plan|
    ensures PlanEnds(w, s, DelegatePlan(w, s, plan[|outs|..]), plan, outs, outs, base)
  {
    hide StepGoes, At;
    assert s.rereads + [] == s.rereads && outs[..|outs|] == outs;
  }

  lemma RefusedEnds(w: World, s: Run, plan: seq<PlanStep>, outs: seq<LeafResult>, base: real)
    requires At(s, outs, base) && PlanGoes(w, plan, outs, base) && |outs| < |plan| && Refused(w, plan, outs)
    ensures PlanEnds(w, s, Err(s, OtherError(RefusalOf(w, plan[|outs|].agent))), plan, outs, outs, base)
  {
    hide StepGoes, Refused, InStep;
    assert s.rereads + [] == s.rereads && outs[..|outs|] == outs;
  }

  lemma StuckEnds(w: World, s: Run, r: Result, plan: seq<PlanStep>, outs: seq<LeafResult>, base: real)
    requires At(s, outs, base) && PlanGoes(w, plan, outs, base) && |outs| < |plan|
    requires var agent, prompt := plan[|outs|].agent, PromptFor(plan[|outs|].goal, outs);
             var call := w.leaf(|outs|, agent, prompt);
             && Askable(w, agent, prompt) && !Paid(w, base + Spent(outs), agent, call)
             && Trips(w, s, r, base + Spent(outs), agent, call)
    ensures PlanEnds(w, s, r, plan, outs, outs, base)
  {
    hide StepGoes, InStep, Askable, Paid, OtherTrouble, PromptFor, Spent, Trouble, Forward, ErrorCode;
    assert outs[..|outs|] == outs;
    assert Reads(s.clock, 1) == [s.clock + 1];
  }

  lemma ReadsNext(clock: nat, n: nat, rereads: seq<nat>)
    ensures rereads + [clock + 1] + Reads(clock + 4, n) == rereads + Reads(clock, n + 1)
  {
    Assoc(rereads, [clock + 1], Reads(clock + 4, n));
  }

  /** One step and the rest of the plan. */
  lemma WentOn(w: World, s: Run, next: Run, r: Result, plan: seq<PlanStep>, outs: seq<LeafResult>, leaf: LeafResult,
               final: seq<LeafResult>, base: real)
    requires |outs| < |plan| && Went(w, s, next, plan, outs, leaf, base)
    requires PlanEnds(w, next, r, plan, outs + [leaf], final, base)
    ensures PlanEnds(w, s, r, plan, outs, final, base)
  {
    hide StepGoes, At, PlanGoes, Stuck, Refused, Reads;
    assert (outs + [leaf])[..|outs|] == outs && final[..|outs| + 1][..|outs|] == final[..|outs|];
    ReadsNext(s.clock, |final| - |outs| - 1, s.rereads);
    ReadsNext(s.clock, |final| - |outs|, s.rereads);
  }

  // ---------------------------------------------------------------- the whole run

  /** What the plan was: the steps in dependency order. */
  function PlanOf(w: World): seq<PlanStep> {
    match w.coordinator case PlanFails(_) => [] case Planned(steps) => OrderedSteps(steps)
  }

  /** A Master's call is answered; when it is billed it is also recorded, within the cap before and after. */
  ghost predicate CallGoes(w: World, call: Call, forward: real, spent: real) {
    && call.Answered?
    && (w.recorder ==> spent + forward <= w.cap && call.recording.Recorded? && spent + call.recording.cost <= w.cap)
  }

  /** The code of a Master's call that does not go; without billing nothing is checked. */
  function MasterTrouble(w: World, spent: real, forward: real, call: Call): string {
    if w.recorder then Trouble(w, spent, forward, call) else if call.CallFails? then call.code else ""
  }

  /** What the Master's plan call has cost. */
  function Base(w: World): real {
    if w.master && w.recorder && w.masterPlan.Answered? && w.masterPlan.recording.Recorded?
    then w.masterPlan.recording.cost else 0.0
  }

  /** The run gets as far as the first step of its plan. */
  ghost predicate Planning(w: World) {
    !w.quota.QuotaExceeded? && (w.master ==> CallGoes(w, w.masterPlan, 0.22528, 0.0)) && w.coordinator.Planned?
  }

  /** Moments at which another session may act before the first step, and in one Master call. */
  function MasterMoments(w: World): nat {
    if !w.master then 0 else if w.recorder then 2 else 1
  }

  function Entered(w: World): nat {
    (if w.quota == NoQuota then 0 else 1) + MasterMoments(w) + 1
  }

  /** The results of a run that goes all the way to its screen. */
  ghost predicate Completes(w: World, outs: seq<LeafResult>) {
    && Planning(w) && |outs| == |PlanOf(w)| && PlanGoes(w, PlanOf(w), outs, Base(w))
    && (w.master ==> CallGoes(w, w.synthesis, 0.90112, Base(w) + Spent(outs)))
  }

  /** Some answer from outside carries this code, or it is the one for the cap. */
  ghost predicate SaidOutside(w: World, code: string) {
    || code == "tasks.budget_exceeded" || code == "tasks.cancelled"
    || w.quota == QuotaExceeded(code) || w.coordinator == PlanFails(code) || w.screen == ScreenBlocks(code)
    || Says(w.masterPlan, code) || Says(w.synthesis, code)
    || exists n: nat, agent, prompt :: Says(w.leaf(n, agent, prompt), code)
  }

  /** The code of a call that does not go is said outside, or is the one for the cap. */
  lemma TroubleSaid(w: World, spent: real, forward: real, call: Call)
    requires spent + forward > w.cap || call.CallFails? || call.recording.NotRecorded?
             || spent + call.recording.cost > w.cap
    requires call == w.masterPlan || call == w.synthesis
             || exists n: nat, agent, prompt :: w.leaf(n, agent, prompt) == call
    ensures SaidOutside(w, Trouble(w, spent, forward, call))
  {
    if call.CallFails? {
      assert Says(call, call.code);
    } else if call.recording.NotRecorded? {
      assert Says(call, call.recording.code);
    }
  }

  /** A Master call, without anybody to disturb it. */
  lemma MasterCallRuns(w: World, s: Run, role: Role, call: Call, index: nat, forward: real)
    requires Undisturbed(w) && forward == EstimateStepCost(RoleKey(role))
    ensures var r := MasterCall(w, s, role, call, index);
            && (r.Ok? <==> CallGoes(w, call, forward, s.accumulated))
            && (r.Err? ==> OtherTrouble(call, r.error)
                           && ErrorCode(r.error) == MasterTrouble(w, s.accumulated, forward, call))
            && SameLeaves(s, r.run) && r.run.rereads == s.rereads && r.run.status == s.status
            && (r.Ok? ==>
                  && r.run.clock == s.clock + (if w.recorder then 2 else 1)
                  && r.run.accumulated == s.accumulated + if w.recorder then call.recording.cost else 0.0)
  {
    hide EstimateStepCost, RoleKey, PhaseName, Interfere, Undisturbed, Reread;
    var called := s.(calls := s.calls + [PaidCall(role, s.accumulated)]);
    Undisturbs(w, called);
    if call.Answered? && call.recording.Recorded? {
      Undisturbs(w, BookMaster(Interfere(w, called), role, index, call.inTokens, call.outTokens, call.recording.cost));
    }
  }

  lemma MasterEstimates()
    ensures EstimateStepCost(RoleKey(MasterPlan)) == 0.22528 && EstimateStepCost(RoleKey(Synthesis)) == 0.90112
  {
  }

  // ---------------------------------------------------------------- there is one end

  lemma GoesIs(w: World, plan: seq<PlanStep>, outs: seq<LeafResult>, i: nat, base: real)
    requires PlanGoes(w, plan, outs, base) && i < |outs|
    ensures var agent, prompt := plan[i].agent, PromptFor(plan[i].goal, outs[..i]);
            var call := w.leaf(i, agent, prompt);
            Askable(w, agent, prompt) && Paid(w, base + Spent(outs[..i]), agent, call) && outs[i] == LeafOf(call, agent)
  {
    hide Askable, Forward, PromptFor, Spent, Paid, LeafOf, Answers, Askable;
    var few := outs[..i] + [outs[i]];
    assert few == outs[..i + 1];
    GoesByPrefix(w, plan, few, outs, i, base);
    hide StepGoes;
    StepGoesNext(w, plan, outs[..i], outs[i], base);
  }

  /** The results of a first part are the same in every list of results. */
  lemma {:induction false} SamePrefix(w: World, plan: seq<PlanStep>, a: seq<LeafResult>, b: seq<LeafResult>, n: nat,
                                      base: real)
    requires PlanGoes(w, plan, a, base) && PlanGoes(w, plan, b, base) && n <= |a| && n <= |b|
    ensures a[..n] == b[..n]
  {
    hide PlanGoes, Paid, Askable, PromptFor, Spent, LeafOf;
    if n > 0 {
      SamePrefix(w, plan, a, b, n - 1, base);
      GoesIs(w, plan, a, n - 1, base);
      GoesIs(w, plan, b, n - 1, base);
      assert a[..n] == a[..n - 1] + [a[n - 1]] && b[..n] == b[..n - 1] + [b[n - 1]];
    }
  }

  /** Nothing more goes. */
  ghost predicate Halts(w: World, plan: seq<PlanStep>, outs: seq<LeafResult>, base: real) {
    && PlanGoes(w, plan, outs, base)
    && (|outs| < |plan| ==>
          var agent, prompt := plan[|outs|].agent, PromptFor(plan[|outs|].goal, outs);
          Askable(w, agent, prompt) ==> !Paid(w, base + Spent(outs), agent, w.leaf(|outs|, agent, prompt)))
  }

  lemma NotLonger(w: World, plan: seq<PlanStep>, a: seq<LeafResult>, b: seq<LeafResult>, base: real)
    requires Halts(w, plan, a, base) && PlanGoes(w, plan, b, base)
    ensures |b| <= |a|
  {
    hide PlanGoes, Paid, Askable, PromptFor, Spent, LeafOf;
    if |b| > |a| {
      PlanGoesLength(w, plan, b, base);
      SamePrefix(w, plan, a, b, |a|, base);
      assert b[..|a|] == a[..|a|] == a;
      GoesIs(w, plan, b, |a|, base);
    }
  }

  lemma OneEnd(w: World, plan: seq<PlanStep>, a: seq<LeafResult>, b: seq<LeafResult>, base: real)
    requires Halts(w, plan, a, base) && Halts(w, plan, b, base)
    ensures a == b
  {
    hide PlanGoes, Paid, Askable, PromptFor, Spent;
    NotLonger(w, plan, a, b, base);
    NotLonger(w, plan, b, a, base);
    SamePrefix(w, plan, a, b, |a|, base);
    assert a[..|a|] == a && b[..|b|] == b;
  }

  lemma EndHalts(w: World, s: Run, r: Result, plan: seq<PlanStep>, outs: seq<LeafResult>, final: seq<LeafResult>,
                 base: real)
    requires PlanEnds(w, s, r, plan, outs, final, base)
    ensures Halts(w, plan, final, base)
  {
    hide PlanGoes, Paid, Askable, PromptFor, Spent, At, Reads;
  }

  // ---------------------------------------------------------------- the work

  /** How far the plan gets: these results go, and not the next step; no results when the plan is not reached. */
  ghost predicate HowFar(w: World, outs: seq<LeafResult>) {
    if Planning(w) then Halts(w, PlanOf(w), outs, Base(w)) else outs == []
  }

  /** The code of the step after these results, which does not go. */
  ghost function StepCode(w: World, outs: seq<LeafResult>): string
    requires |outs| < |PlanOf(w)|
  {
    var agent, prompt := PlanOf(w)[|outs|].agent, PromptFor(PlanOf(w)[|outs|].goal, outs);
    if Askable(w, agent, prompt)
    then Trouble(w, Base(w) + Spent(outs), Forward(agent), w.leaf(|outs|, agent, prompt))
    else RefusalOf(w, agent)
  }

  /** The code with which a run fails before its screen, when its plan gets as far as these results. */
  ghost function WorkCode(w: World, outs: seq<LeafResult>): Option<string> {
    if w.quota.QuotaExceeded? then Some(w.quota.code)
    else if w.master && !CallGoes(w, w.masterPlan, 0.22528, 0.0)
    then Some(MasterTrouble(w, 0.0, 0.22528, w.masterPlan))
    else if w.coordinator.PlanFails? then Some(w.coordinator.code)
    else if |outs| < |PlanOf(w)| then Some(StepCode(w, outs))
    else if w.master && !CallGoes(w, w.synthesis, 0.90112, Base(w) + Spent(outs))
    then Some(MasterTrouble(w, Base(w) + Spent(outs), 0.90112, w.synthesis))
    else None
  }

  /** How many steps re-read the status: those that went, and the next one if it was asked. */
  ghost function StepsRead(w: World, outs: seq<LeafResult>): nat {
    if Planning(w) && |outs| < |PlanOf(w)| && !Refused(w, PlanOf(w), outs) then |outs| + 1 else |outs|
  }

  /** How the work of a run ends that nobody disturbs, said through how far the plan got. */
  ghost predicate WorkEnds(w: World, r: Result, outs: seq<LeafResult>) {
    && HowFar(w, outs) && r.run.status != CancelledStatus && (r.Err? ==> r.error != MidRunCancel)
    && WorkCode(w, outs) == (if r.Ok? then None else Some(ErrorCode(r.error)))
    && r.run.rereads == Reads(Entered(w), StepsRead(w, outs))
    && (r.Ok? ==> r.run.clock == Entered(w) + 4 * |outs| + MasterMoments(w))
  }

  /** Before the plan is entered. */
  ghost predicate Fresh(w: World, s: Run, base: real, clock: nat) {
    At(s, [], base) && s.rereads == [] && s.clock == clock
  }

  /** How a plan ends that is run from its first step. */
  ghost predicate WholePlanEnds(w: World, r: Result, plan: seq<PlanStep>, outs: seq<LeafResult>, base: real,
                                clock: nat) {
    && r.run.status != CancelledStatus && Halts(w, plan, outs, base)
    && (r.Ok? ==>
          && |outs| == |plan| && At(r.run, outs, base) && r.run.clock == clock + 4 * |outs|
          && r.run.rereads == Reads(clock, |outs|))
    && (r.Err? ==>
          && |outs| < |plan|
          && (Refused(w, plan, outs) ==>
                r.error == OtherError(RefusalOf(w, plan[|outs|].agent)) && r.run.rereads == Reads(clock, |outs|))
          && (!Refused(w, plan, outs) ==>
                Stuck(w, plan, outs, base, r.error) && r.run.rereads == Reads(clock, |outs| + 1)))
  }

  lemma WholePlanRuns(w: World, s: Run, plan: seq<PlanStep>, base: real) returns (outs: seq<LeafResult>)
    requires Undisturbed(w) && At(s, [], base) && s.rereads == []
    ensures WholePlanEnds(w, DelegatePlan(w, s, plan), plan, outs, base, s.clock)
  {
    hide Undisturbed, PlanGoes, DelegatePlan, WholePlanEnds, At;
    NothingGoes(w, plan, base);
    outs := PlanRuns(w, s, plan, [], base);
    assert plan[0..] == plan;
    var r := DelegatePlan(w, s, plan);
    EndsWhole(w, s, r, plan, outs, base);
  }

  lemma EndsWhole(w: World, s: Run, r: Result, plan: seq<PlanStep>, outs: seq<LeafResult>, base: real)
    requires PlanEnds(w, s, r, plan, [], outs, base) && s.rereads == []
    ensures WholePlanEnds(w, r, plan, outs, base, s.clock)
  {
    hide PlanGoes, Halts, Refused, Stuck, Reads, InStep, Spent;
    EndHalts(w, s, r, plan, [], outs, base);
    NotBoth(w, plan, outs, base, if r.Err? then r.error else OverBudgetBefore);
    assert [] + Reads(s.clock, |outs|) == Reads(s.clock, |outs|);
    assert [] + Reads(s.clock, |outs| + 1) == Reads(s.clock, |outs| + 1);
  }

  /** The Coordinator's part of the work. */
  ghost predicate CoordinatorEnds(w: World, r: Result, outs: seq<LeafResult>, base: real, clock: nat) {
    match w.coordinator
    case PlanFails(code) =>
      r.Err? && r.error == OtherError(code) && r.run.status != CancelledStatus && r.run.rereads == []
    case Planned(_) => WholePlanEnds(w, r, PlanOf(w), outs, base, clock + 1)
  }

  lemma CoordinatorRuns(w: World, s: Run, base: real, clock: nat) returns (outs: seq<LeafResult>)
    requires Undisturbed(w) && Fresh(w, s, base, clock)
    ensures CoordinatorEnds(w, Coordinate(w, s), outs, base, clock)
  {
    hide Undisturbed, WholePlanEnds, Interfere, OrderedSteps, DelegatePlan, Spent;
    Undisturbs(w, s);
    outs := [];
    match w.coordinator
    case PlanFails(_) =>
    case Planned(steps) =>
      outs := WholePlanRuns(w, Interfere(w, s), OrderedSteps(steps), base);
  }

  lemma NothingGoes(w: World, plan: seq<PlanStep>, base: real)
    ensures PlanGoes(w, plan, [], base)
  {
  }

  lemma NotBoth(w: World, plan: seq<PlanStep>, outs: seq<LeafResult>, base: real, e: RunError)
    ensures |outs| < |plan| ==> !(Refused(w, plan, outs) && Stuck(w, plan, outs, base, e))
  {
    hide Askable, Paid, PromptFor;
  }

  lemma AdmitRuns(w: World)
    requires Undisturbed(w)
    ensures var r := Admit(w, Begin(w));
            && r.run.status != CancelledStatus && (r.Ok? <==> !w.quota.QuotaExceeded?)
            && (r.Ok? ==> Fresh(w, r.run, 0.0, if w.quota == NoQuota then 0 else 1))
            && (r.Err? ==> r.error == OtherError(w.quota.code) && r.run.rereads == [])
  {
    Undisturbs(w, Begin(w));
    hide Interfere, Undisturbed;
  }

  /** Nothing of the plan was tried. */
  lemma NoPlanning(w: World, r: Result)
    requires r.Err? && !Planning(w) && r.error != MidRunCancel
    requires r.run.status != CancelledStatus && r.run.rereads == [] && WorkCode(w, []) == Some(ErrorCode(r.error))
    ensures WorkEnds(w, r, [])
  {
    hide Planning, WorkCode;
  }

  lemma StuckIs(w: World, plan: seq<PlanStep>, outs: seq<LeafResult>, base: real, e: RunError)
    requires |outs| < |plan| && Stuck(w, plan, outs, base, e)
    ensures e != MidRunCancel
  {
    hide Askable, Paid, PromptFor, Trouble;
  }

  lemma OtherTroubleIs(call: Call, e: RunError)
    requires OtherTrouble(call, e)
    ensures e != MidRunCancel
  {
  }

  /** What is planned before the Coordinator is asked. */
  ghost predicate ToCoordinator(w: World) {
    !w.quota.QuotaExceeded? && (w.master ==> CallGoes(w, w.masterPlan, 0.22528, 0.0))
  }

  /** The work ends with the plan. */
  lemma EndsInPlan(w: World, r: Result, outs: seq<LeafResult>)
    requires ToCoordinator(w) && CoordinatorEnds(w, r, outs, Base(w), Entered(w) - 1)
    requires r.Err?
    ensures WorkEnds(w, r, if w.coordinator.Planned? then outs else [])
  {
    hide Halts, Refused, Stuck, Reads, CallGoes, At, PlanGoes, OrderedSteps, WorkCode, StepCode;
    match w.coordinator
    case PlanFails(code) =>
      CodeBeforePlan(w);
      NoPlanning(w, r);
    case Planned(_) =>
      CodeInPlan(w, outs, r.error);
      if !Refused(w, PlanOf(w), outs) {
        StuckIs(w, PlanOf(w), outs, Base(w), r.error);
      }
  }

  lemma CodeBeforePlan(w: World)
    requires ToCoordinator(w) && w.coordinator.PlanFails?
    ensures WorkCode(w, []) == Some(w.coordinator.code)
  {
    hide CallGoes;
  }

  lemma CodeInPlan(w: World, outs: seq<LeafResult>, e: RunError)
    requires ToCoordinator(w) && w.coordinator.Planned? && |outs| < |PlanOf(w)|
    requires Refused(w, PlanOf(w), outs) ==> e == OtherError(RefusalOf(w, PlanOf(w)[|outs|].agent))
    requires !Refused(w, PlanOf(w), outs) ==> Stuck(w, PlanOf(w), outs, Base(w), e)
    ensures WorkCode(w, outs) == Some(ErrorCode(e))
  {
    hide CallGoes, Trouble, Forward, PlanOf, Base, Spent, PromptFor, Askable, Paid, OtherTrouble, RefusalOf;
  }

  lemma HaltsGoes(w: World, plan: seq<PlanStep>, outs: seq<LeafResult>, base: real)
    requires Halts(w, plan, outs, base)
    ensures PlanGoes(w, plan, outs, base)
  {
  }

  lemma AtSpent(s: Run, outs: seq<LeafResult>, base: real)
    requires At(s, outs, base)
    ensures s.accumulated == base + Spent(outs) && s.status != CancelledStatus
  {
  }

  /** The plan is done; without a Master so is the work. */
  lemma EndsAfterPlan(w: World, r: Result, outs: seq<LeafResult>)
    requires ToCoordinator(w) && !w.master && CoordinatorEnds(w, r, outs, Base(w), Entered(w) - 1) && r.Ok?
    ensures WorkEnds(w, r, outs)
  {
    hide Halts, Refused, Reads, CallGoes, At, PlanGoes, OrderedSteps;
    HaltsGoes(w, PlanOf(w), outs, Base(w));
  }

  /** With a Master the synthesis decides. */
  lemma EndsInSynthesis(w: World, c: Result, outs: seq<LeafResult>, index: nat)
    requires Undisturbed(w) && ToCoordinator(w) && w.master
    requires CoordinatorEnds(w, c, outs, Base(w), Entered(w) - 1) && c.Ok?
    ensures WorkEnds(w, MasterCall(w, c.run, Synthesis, w.synthesis, index), outs)
  {
    hide Halts, Refused, Reads, CallGoes, At, PlanGoes, OrderedSteps, MasterCall, Undisturbed, Spent;
    MasterEstimates();
    HaltsGoes(w, PlanOf(w), outs, Base(w));
    AtSpent(c.run, outs, Base(w));
    MasterCallRuns(w, c.run, Synthesis, w.synthesis, index, 0.90112);
    var r := MasterCall(w, c.run, Synthesis, w.synthesis, index);
    if r.Err? {
      OtherTroubleIs(w.synthesis, r.error);
    }
  }

  lemma FreshAfterPlanCall(w: World, s: Run, r: Run, clock: nat)
    requires w.master && Fresh(w, s, 0.0, clock) && SameLeaves(s, r) && r.rereads == s.rereads && r.status == s.status
    requires r.clock == clock + MasterMoments(w) && CallGoes(w, w.masterPlan, 0.22528, 0.0)
    requires r.accumulated == s.accumulated + if w.recorder then w.masterPlan.recording.cost else 0.0
    ensures Fresh(w, r, Base(w), clock + MasterMoments(w))
  {
  }

  lemma WorkRuns(w: World) returns (outs: seq<LeafResult>)
    requires Undisturbed(w)
    ensures WorkEnds(w, Work(w, Begin(w)), outs)
  {
    hide Undisturbed, Begin, Admit, WorkEnds, CoordinatorEnds, Fresh, MasterCall, Coordinate, CallGoes, Base;
    outs := [];
    AdmitRuns(w);
    var a := Admit(w, Begin(w));
    if a.Err? {
      NoPlanning(w, a);
    } else {
      var clock := if w.quota == NoQuota then 0 else 1;
      FreshSpends(w, a.run, clock);
      MasterEstimates();
      MasterCallRuns(w, a.run, MasterPlan, w.masterPlan, 0, 0.22528);
      var p := if w.master then MasterCall(w, a.run, MasterPlan, w.masterPlan, 0) else a;
      if p.Err? {
        OtherTroubleIs(w.masterPlan, p.error);
        NoPlanning(w, p);
      } else {
        if w.master {
          FreshAfterPlanCall(w, a.run, p.run, clock);
        } else {
          NoBase(w);
        }
        outs := CoordinatorRuns(w, p.run, Base(w), Entered(w) - 1);
        var c := Coordinate(w, p.run);
        if c.Err? {
          EndsInPlan(w, c, outs);
          outs := if w.coordinator.Planned? then outs else [];
        } else if w.master {
          EndsInSynthesis(w, c, outs, |c.run.artifacts| + 1);
        } else {
          EndsAfterPlan(w, c, outs);
        }
      }
    }
  }

  lemma FreshSpends(w: World, s: Run, clock: nat)
    requires Fresh(w, s, 0.0, clock)
    ensures s.accumulated == 0.0 && s.status != CancelledStatus && s.clock == clock && s.rereads == []
  {
  }

  lemma NoBase(w: World)
    requires !w.master
    ensures Base(w) == 0.0
  {
  }

  // ---------------------------------------------------------------- success and refusal

  /** The moment of the final re-read, in a run that gets there. */
  function FinalRead(w: World): nat {
    Entered(w) + 4 * |PlanOf(w)| + MasterMoments(w) + 1
  }

  /** The moment of the last re-read before step n, or 0 when there is none. */
  function LastRead(w: World, n: nat): nat {
    if n == 0 then 0 else Entered(w) + 4 * n - 3
  }

  /** The first steps go and the next is not asked. */
  ghost predicate RefusedAt(w: World, outs: seq<LeafResult>) {
    && Planning(w) && |outs| < |PlanOf(w)| && PlanGoes(w, PlanOf(w), outs, Base(w)) && Refused(w, PlanOf(w), outs)
  }

  /** The exit of a run that nobody disturbs. */
  ghost function ExitAlone(w: World, outs: seq<LeafResult>): Exit {
    match WorkCode(w, outs)
    case Some(code) => ExitFailed(code)
    case None => if w.screen.ScreenBlocks? then ExitFailed(w.screen.code) else ExitSucceeded
  }

  /** The moment of a run's last re-read, or 0: the final one when its work is done, else that of the last step
      asked. */
  ghost function LastReadOf(w: World, outs: seq<LeafResult>): nat {
    if WorkCode(w, outs) == None then FinalRead(w) else LastRead(w, StepsRead(w, outs))
  }

  ghost function ReadsAlone(w: World, outs: seq<LeafResult>): seq<nat> {
    Reads(Entered(w), StepsRead(w, outs)) + if WorkCode(w, outs) == None then [FinalRead(w)] else []
  }

  lemma {:induction false} ReadsReach(clock: nat, n: nat)
    ensures forall k :: k in Reads(clock, n) ==> n > 0 && k <= clock + 4 * n - 3
    ensures n > 0 ==> clock + 4 * n - 3 in Reads(clock, n)
    decreases n
  {
    if n > 0 {
      ReadsReach(clock + 4, n - 1);
    }
  }

  lemma ExtractReads(w: World, s: Run)
    ensures ExtractMemory(w, s).rereads == s.rereads
  {
    hide StoredEntries;
  }

  lemma FinishReads(w: World, s: Run, code: string, outcome: string)
    ensures FinishSucceeded(w, s).rereads == s.rereads && FinishSucceeded(w, s).exit == ExitSucceeded
    ensures FinishFailed(w, s, code, outcome).rereads == s.rereads
    ensures FinishFailed(w, s, code, outcome).exit == ExitFailed(code)
  {
    hide SumIn, SumOut;
  }

  /** After the final re-read only the screen can stop a run that was not cancelled before it. */
  lemma ConcludeAlone(w: World, s: Run)
    requires !SeesCancel(w, s)
    ensures Conclude(w, s).rereads == s.rereads
    ensures Conclude(w, s).exit == if w.screen.ScreenBlocks? then ExitFailed(w.screen.code) else ExitSucceeded
  {
    hide ExtractMemory, FinishSucceeded, FinishFailed;
    ExtractReads(w, s);
    ExtractReads(w, Interfere(w, s));
    FinishReads(w, ExtractMemory(w, s), "", "");
    FinishReads(w, ExtractMemory(w, Interfere(w, s)), "", "");
    FinishReads(w, Interfere(w, s), if w.screen.ScreenBlocks? then w.screen.code else "", "failed");
  }

  /** How a run ends that nobody disturbs. */
  ghost predicate EndsAlone(w: World, r: Run, outs: seq<LeafResult>) {
    HowFar(w, outs) && r.exit == ExitAlone(w, outs) && r.rereads == ReadsAlone(w, outs)
  }

  lemma ExecuteAlone(w: World) returns (outs: seq<LeafResult>)
    requires Undisturbed(w)
    ensures EndsAlone(w, Execute(w), outs)
  {
    hide Undisturbed, Begin, Work, HowFar, PlanOf, WorkCode, StepsRead, Conclude, FinishFailed, Reread, Reads,
         FinalRead, FailureOutcome;
    outs := WorkRuns(w);
    var r := Work(w, Begin(w));
    match r
    case Ok(s) =>
      Undisturbs(w, s);
      ConcludeAlone(w, Reread(w, s));
      DoneIs(w, outs);
      FinalReadIs(w, outs);
    case Err(s, e) =>
      FinishReads(w, s, ErrorCode(e), FailureOutcome(ErrorCode(e)));
      assert s.rereads + [] == s.rereads;
  }

  lemma FinalReadIs(w: World, outs: seq<LeafResult>)
    requires Completes(w, outs)
    ensures FinalRead(w) == Entered(w) + 4 * |outs| + MasterMoments(w) + 1
  {
    hide PlanOf, PlanGoes, CallGoes, Spent;
  }

  /** The work is done exactly when everything goes. */
  lemma DoneIs(w: World, outs: seq<LeafResult>)
    requires HowFar(w, outs)
    ensures WorkCode(w, outs) == None <==> Completes(w, outs)
  {
    hide CallGoes, StepGoes, Spent, Base, PlanOf, MasterTrouble, StepCode;
  }

  /** The conditions look at the answers only, not at who cancels. */
  lemma QuietSame(w: World, outs: seq<LeafResult>)
    ensures Undisturbed(Quiet(w)) && (HowFar(Quiet(w), outs) <==> HowFar(w, outs))
    ensures ExitAlone(Quiet(w), outs) == ExitAlone(w, outs) && ReadsAlone(Quiet(w), outs) == ReadsAlone(w, outs)
  {
    hide PromptFor, Spent, OrderedSteps, ArtifactText.StripWrappingFence, Reads;
    var v := Quiet(w);
    forall i | 0 <= i < |outs| && i < |PlanOf(w)|
      ensures StepGoes(v, PlanOf(w), outs, i, Base(w)) <==> StepGoes(w, PlanOf(w), outs, i, Base(w)) {
    }
  }

  /** The earliest cancel, when somebody cancels. */
  lemma Earliest(w: World, n: nat) returns (m: nat)
    requires w.cancels(n)
    ensures FirstCancel(w, m) && m <= n
  {
    m := 0;
    while !w.cancels(m)
      invariant m <= n && forall k: nat :: k < m ==> !w.cancels(k)
      decreases n - m
    {
      m := m + 1;
    }
  }

  /** A cancel comes before some re-read. */
  ghost predicate Overtaken(m: nat, rereads: seq<nat>) {
    exists k :: k in rereads && m < k
  }

  /** No cancel among the first n moments. */
  ghost predicate Untouched(w: World, n: nat) {
    w.hasRow ==> forall m: nat :: m < n ==> !w.cancels(m)
  }

  /** How a run ends, whoever cancels. */
  ghost predicate EndsAnyway(w: World, r: Run, outs: seq<LeafResult>) {
    HowFar(w, outs) && r.exit == if Untouched(w, LastReadOf(w, outs)) then ExitAlone(w, outs) else ExitCancelled
  }

  lemma UntouchedFrom(w: World, m: nat, n: nat)
    requires w.hasRow && FirstCancel(w, m)
    ensures Untouched(w, n) <==> n <= m
  {
  }

  lemma FinalOvertakes(w: World, m: nat, n: nat)
    requires n <= |PlanOf(w)|
    ensures Overtaken(m, Reads(Entered(w), n) + [FinalRead(w)]) <==> m < FinalRead(w)
  {
    ReadsReach(Entered(w), n);
    hide PlanOf;
    assert FinalRead(w) in Reads(Entered(w), n) + [FinalRead(w)];
  }

  lemma LastOvertakes(w: World, m: nat, n: nat)
    ensures Overtaken(m, Reads(Entered(w), n)) <==> m < LastRead(w, n)
  {
    ReadsReach(Entered(w), n);
    hide Reads;
    if n > 0 {
      assert LastRead(w, n) in Reads(Entered(w), n);
    }
  }

  lemma AllOvertakes(w: World, outs: seq<LeafResult>, m: nat)
    requires HowFar(w, outs)
    ensures Overtaken(m, ReadsAlone(w, outs)) <==> m < LastReadOf(w, outs)
  {
    DoneIs(w, outs);
    StepsReadBound(w, outs);
    hide HowFar, Completes, WorkCode, StepsRead, Reads, PlanOf, FinalRead, LastRead, Overtaken;
    if WorkCode(w, outs) == None {
      FinalOvertakes(w, m, StepsRead(w, outs));
    } else {
      LastOvertakes(w, m, StepsRead(w, outs));
      assert Reads(Entered(w), StepsRead(w, outs)) + [] == Reads(Entered(w), StepsRead(w, outs));
    }
  }

  lemma StepsReadBound(w: World, outs: seq<LeafResult>)
    ensures Completes(w, outs) ==> StepsRead(w, outs) == |outs| == |PlanOf(w)|
  {
    hide PlanOf, PlanGoes, CallGoes, Spent;
  }

  /** From the run that nobody cancels. */
  lemma QuietAnyway(w: World, r: Run, q: Run, outs: seq<LeafResult>, m: nat)
    requires w.hasRow && FirstCancel(w, m) && EndsAlone(Quiet(w), q, outs)
    requires r.exit == if Overtaken(m, q.rereads) then ExitCancelled else q.exit
    ensures EndsAnyway(w, r, outs)
  {
    hide HowFar, ExitAlone, ReadsAlone, LastReadOf, Overtaken, FirstCancel, Untouched, Quiet;
    QuietSame(w, outs);
    AllOvertakes(w, outs, m);
    UntouchedFrom(w, m, LastReadOf(w, outs));
  }

  lemma ExecuteAnyway(w: World) returns (outs: seq<LeafResult>)
    ensures EndsAnyway(w, Execute(w), outs)
  {
    hide Execute, HowFar, ExitAlone, ReadsAlone, LastReadOf, FirstCancel, Quiet;
    if Undisturbed(w) {
      outs := ExecuteAlone(w);
    } else {
      var n: nat :| w.cancels(n);
      var m := Earliest(w, n);
      QuietSame(w, []);
      outs := ExecuteAlone(Quiet(w));
      CommittedCancelSurvivesIff(w, m);
      QuietAnyway(w, Execute(w), Execute(Quiet(w)), outs, m);
    }
  }

  /** How every run ends.  Its plan gets exactly so far (outs); then either the status is re-read after a cancel, and
      the run is cancelled, or it fails with the code of the first thing that does not go: the quota, the Master's plan
      call, the Coordinator, a step that may not be asked, a call over the cap before or after, failed or not recorded,
      the synthesis, the screen; or nothing is left that does not go, and it succeeds. */
  lemma EveryExit(w: World)
    ensures exists outs :: HowFar(w, outs)
    ensures forall outs :: HowFar(w, outs) ==>
              Execute(w).exit == if Untouched(w, LastReadOf(w, outs)) then ExitAlone(w, outs) else ExitCancelled
  {
    hide Execute, HowFar, ExitAlone, LastReadOf, Untouched;
    var end := ExecuteAnyway(w);
    forall outs | HowFar(w, outs) ensures outs == end {
      OnlyEnd(w, outs, end);
    }
  }

  lemma OnlyEnd(w: World, a: seq<LeafResult>, b: seq<LeafResult>)
    requires HowFar(w, a) && HowFar(w, b)
    ensures a == b
  {
    hide Planning, Halts, PlanOf, Base;
    if Planning(w) {
      OneEnd(w, PlanOf(w), a, b, Base(w));
    }
  }

  /** When a run succeeds, for every world: it is admitted; with a Master the plan call goes, and later the synthesis;
      the Coordinator plans; every ordered step's agent is in the team and known, is asked something, answers and is
      recorded, with the cap kept before and after; the screen does not block; and no cancel comes before the final
      re-read. */
  lemma SucceedsIff(w: World)
    ensures Execute(w).exit == ExitSucceeded <==>
              && (exists outs :: Completes(w, outs)) && !w.screen.ScreenBlocks? && Untouched(w, FinalRead(w))
  {
    hide Execute, Untouched, FinalRead, HowFar, Completes, WorkCode;
    EveryExit(w);
    forall outs | Completes(w, outs) ensures HowFar(w, outs) {
      CompletesFar(w, outs);
    }
    forall outs | HowFar(w, outs) ensures WorkCode(w, outs) == None <==> Completes(w, outs) {
      DoneIs(w, outs);
    }
  }

  lemma CompletesFar(w: World, outs: seq<LeafResult>)
    requires Completes(w, outs)
    ensures HowFar(w, outs)
  {
    hide PlanGoes, CallGoes, PlanOf, Base, Spent;
  }

  /** The run is refused at a step whose agent is not in the team, before a cancel is read. */
  ghost predicate OutsideTeam(w: World, outs: seq<LeafResult>) {
    RefusedAt(w, outs) && PlanOf(w)[|outs|].agent !in w.team && Untouched(w, LastRead(w, |outs|))
  }

  lemma RefusedFar(w: World, outs: seq<LeafResult>)
    requires RefusedAt(w, outs)
    ensures HowFar(w, outs) && WorkCode(w, outs) == Some(RefusalOf(w, PlanOf(w)[|outs|].agent))
    ensures LastReadOf(w, outs) == LastRead(w, |outs|)
  {
    hide PlanGoes, CallGoes, PlanOf, Base, Spent, Askable, Paid, RefusalOf, LastRead, FinalRead, MasterTrouble, Trouble;
  }

  /** A code that nothing outside says can only come from a step that is not asked. */
  lemma UnsaidIsRefused(w: World, outs: seq<LeafResult>, code: string)
    requires HowFar(w, outs) && !SaidOutside(w, code) && ExitAlone(w, outs) == ExitFailed(code)
    ensures RefusedAt(w, outs)
  {
    if Planning(w) && |outs| < |PlanOf(w)| {
      StepSaid(w, outs);
    }
    MasterSaid(w, 0.0, 0.22528, w.masterPlan);
    MasterSaid(w, Base(w) + Spent(outs), 0.90112, w.synthesis);
    hide CallGoes, PlanOf, Base, Spent, Askable, Paid, Forward, Trouble, StepGoes, MasterTrouble, StepCode, RefusalOf;
  }

  lemma MasterSaid(w: World, spent: real, forward: real, call: Call)
    requires call == w.masterPlan || call == w.synthesis
    ensures !CallGoes(w, call, forward, spent) ==> SaidOutside(w, MasterTrouble(w, spent, forward, call))
  {
    hide SaidOutside, Trouble;
    if !CallGoes(w, call, forward, spent) {
      if w.recorder {
        TroubleSaid(w, spent, forward, call);
      } else {
        FailureSaid(w, call);
      }
    }
  }

  lemma FailureSaid(w: World, call: Call)
    requires call.CallFails? && (call == w.masterPlan || call == w.synthesis)
    ensures SaidOutside(w, call.code)
  {
  }

  lemma StepSaid(w: World, outs: seq<LeafResult>)
    requires Planning(w) && |outs| < |PlanOf(w)| && Halts(w, PlanOf(w), outs, Base(w))
    ensures Refused(w, PlanOf(w), outs) || SaidOutside(w, StepCode(w, outs))
  {
    hide Planning, PlanOf, Base, Spent, PlanGoes, Forward, PromptFor, SaidOutside, Trouble, Askable;
    var agent, prompt := PlanOf(w)[|outs|].agent, PromptFor(PlanOf(w)[|outs|].goal, outs);
    var call := w.leaf(|outs|, agent, prompt);
    if !Refused(w, PlanOf(w), outs) {
      assert w.leaf(|outs|, agent, prompt) == call;
      TroubleSaid(w, Base(w) + Spent(outs), Forward(agent), call);
    }
  }

  /** A run ends with the code for an agent outside the team, when nothing outside says that code, exactly when the
      steps before some ordered step go, that step's agent is not in the team, and no cancel was read before it. */
  lemma RefusesOutsideTeamIff(w: World)
    requires !SaidOutside(w, "agents.delegation.target_invalid")
    ensures Execute(w).exit == ExitFailed("agents.delegation.target_invalid") <==> exists outs :: OutsideTeam(w, outs)
  {
    hide Execute, Untouched, LastRead, SaidOutside, HowFar, RefusedAt, PlanOf, LastReadOf, WorkCode;
    EveryExit(w);
    assert "agents.delegation.target_invalid"[0] == 'a' && "ValidationError"[0] == 'V';
    if outs :| OutsideTeam(w, outs) {
      RefusedFar(w, outs);
      RefusedStep(w, outs);
    }
    if Execute(w).exit == ExitFailed("agents.delegation.target_invalid") {
      var outs :| HowFar(w, outs);
      UnsaidIsRefused(w, outs, "agents.delegation.target_invalid");
      RefusedFar(w, outs);
      RefusedStep(w, outs);
      assert OutsideTeam(w, outs);
    }
  }

  lemma RefusedStep(w: World, outs: seq<LeafResult>)
    requires RefusedAt(w, outs)
    ensures |outs| < |PlanOf(w)|
  {
  }
}
