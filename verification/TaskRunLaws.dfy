/** What every task run keeps, whatever the model calls answer and whenever another session cancels. */
module TaskRunLaws {
  import opened Text
  import opened TaskEvents
  import opened BudgetGuard
  import opened PlanOrdering
  import opened TaskRun
  import ArtifactText

  // ---------------------------------------------------------------- reference accounts over the step rows

  function SumCost(rows: seq<StepRow>): real {
    if rows == [] then 0.0 else SumCost(rows[..|rows| - 1]) + rows[|rows| - 1].cost
  }

  function RowsIn(rows: seq<StepRow>): nat {
    if rows == [] then 0 else RowsIn(rows[..|rows| - 1]) + rows[|rows| - 1].inTokens
  }

  function RowsOut(rows: seq<StepRow>): nat {
    if rows == [] then 0 else RowsOut(rows[..|rows| - 1]) + rows[|rows| - 1].outTokens
  }

  /** The events that announce one recorded step. */
  function StepEvents(row: StepRow): seq<TaskEvent> {
    match row.role
    case MasterPlan => [StepCompleted("plan", row.cost)]
    case Delegation(agent) => [DelegationStarted(agent), DelegationCompleted(agent, row.cost, row.outTokens)]
    case Synthesis => [StepCompleted("synthesis", row.cost)]
    case Memory => [StepCompleted("memory_extraction", row.cost)]
  }

  /** The ledger that the step rows call for. */
  function Transcript(rows: seq<StepRow>): seq<TaskEvent> {
    if rows == [] then [] else Transcript(rows[..|rows| - 1]) + StepEvents(rows[|rows| - 1])
  }

  function Head(w: World): seq<TaskEvent> {
    if w.quota == QuotaAdmitted(true) then [Started, BudgetWarning] else [Started]
  }

  /** The rows of the leaf delegations: numbered 1, 2, ... in the order of the results. */
  function LeafRows(outs: seq<LeafResult>): (rows: seq<StepRow>)
    ensures |rows| == |outs|
  {
    if outs == [] then []
    else
      var last := outs[|outs| - 1];
      LeafRows(outs[..|outs| - 1]) + [StepRow(Delegation(last.agent), |outs|, last.inTokens, last.outTokens, last.cost)]
  }

  /** Every paid row was affordable by estimate when its call started. */
  ghost predicate Affordable(w: World, rows: seq<StepRow>) {
    rows == [] ||
    var init, last := rows[..|rows| - 1], rows[|rows| - 1];
    && Affordable(w, init)
    && (last.role != Memory ==> WithinBudget(SumCost(init), EstimateStepCost(RoleKey(last.role)), w.cap))
  }

  // ---------------------------------------------------------------- the invariant of the working phase

  ghost predicate Books(s: Run) {
    && s.accumulated == SumCost(s.steps)
    && RowsIn(s.steps) == SumIn(s.leafOutputs) + s.masterIn + s.memoryIn
    && RowsOut(s.steps) == SumOut(s.leafOutputs) + s.masterOut + s.memoryOut
  }

  /** At most the plan row 0 before the leaves, at most the synthesis row after them. */
  ghost predicate Layout(s: Run, pre: seq<StepRow>, synth: seq<StepRow>) {
    && s.steps == pre + LeafRows(s.leafOutputs) + synth
    && (pre == [] || (|pre| == 1 && pre[0].role == MasterPlan && pre[0].index == 0))
    && (synth == [] || (|synth| == 1 && synth[0].role == Synthesis && synth[0].index == |s.leafOutputs| + 1))
  }

  /** A cancel leaves at most one row, and then at most the synthesis row, still to be recorded. */
  ghost predicate CancelMark(w: World, s: Run, synth: seq<StepRow>) {
    && (s.status == CancelledStatus <==> s.cancelledAt.Some?)
    && (w.hasRow ==> s.status == Running || s.status == CancelledStatus)
    && (!w.hasRow ==> s.cancelledAt.None?)
    && (s.cancelledAt.Some? ==> s.cancelledAt.value <= |s.steps| <= s.cancelledAt.value + 1 + |synth|)
  }

  ghost predicate Checked(w: World, role: Role) {
    role.Delegation? || w.recorder
  }

  ghost predicate CallsAffordable(w: World, s: Run) {
    forall i :: 0 <= i < |s.calls| && Checked(w, s.calls[i].role) ==>
      WithinBudget(s.calls[i].before, EstimateStepCost(RoleKey(s.calls[i].role)), w.cap)
  }

  /** The run has not ended: nothing terminal was published, written or measured. */
  ghost predicate Unfinished(s: Run) {
    && s.exit == StillRunning && s.gauge == 1 && s.outcomes == []
    && s.total.None? && s.totalIn.None? && s.totalOut.None?
    && s.ledger != [] && s.ledger[0] == Started
    && forall i :: 0 <= i < |s.ledger| ==> !IsTerminal(s.ledger[i])
  }

  ghost predicate Inv(w: World, s: Run, pre: seq<StepRow>, synth: seq<StepRow>) {
    && Books(s) && Layout(s, pre, synth) && CancelMark(w, s, synth)
    && Affordable(w, s.steps) && CallsAffordable(w, s) && Unfinished(s)
    && s.memoryIn == 0 && s.memoryOut == 0 && s.stored == []
  }

  /** Between operations: the counters agree, the ledger tells exactly the rows, the cap holds. */
  ghost predicate Settled(w: World, s: Run) {
    Level(w, s) && |s.artifacts| == |s.leafOutputs|
  }

  ghost predicate Level(w: World, s: Run) {
    && s.stepIndex == |s.leafOutputs|
    && s.ledger == Head(w) + Transcript(s.steps)
    && (s.steps == [] || WithinBudget(s.accumulated, 0.0, w.cap))
  }

  /** When an operation raises, the ledger is behind the rows by at most one event, or ahead by one
      started delegation. */
  ghost predicate LedgerBehind(w: World, s: Run) {
    exists agent :: s.ledger <= Head(w) + Transcript(s.steps) + [DelegationStarted(agent)]
                    && |Head(w) + Transcript(s.steps)| <= |s.ledger| + 1
  }

  // ---------------------------------------------------------------- appending one row

  lemma SumsAppended(rows: seq<StepRow>, row: StepRow)
    ensures SumCost(rows + [row]) == SumCost(rows) + row.cost
    ensures RowsIn(rows + [row]) == RowsIn(rows) + row.inTokens
    ensures RowsOut(rows + [row]) == RowsOut(rows) + row.outTokens
  {
    assert (rows + [row])[..|rows|] == rows;
  }

  lemma RowAppended(w: World, rows: seq<StepRow>, row: StepRow)
    requires Affordable(w, rows)
    requires row.role != Memory ==> WithinBudget(SumCost(rows), EstimateStepCost(RoleKey(row.role)), w.cap)
    ensures Affordable(w, rows + [row]) && Transcript(rows + [row]) == Transcript(rows) + StepEvents(row)
  {
    assert (rows + [row])[..|rows|] == rows;
  }

  lemma LeafAppended(outs: seq<LeafResult>, r: LeafResult)
    ensures LeafRows(outs + [r]) ==
            LeafRows(outs) + [StepRow(Delegation(r.agent), |outs| + 1, r.inTokens, r.outTokens, r.cost)]
    ensures SumIn(outs + [r]) == SumIn(outs) + r.inTokens
    ensures SumOut(outs + [r]) == SumOut(outs) + r.outTokens
  {
    assert (outs + [r])[..|outs|] == outs;
  }

  // ---------------------------------------------------------------- one lemma per operation

  lemma InterfereKeeps(w: World, s: Run, pre: seq<StepRow>, synth: seq<StepRow>)
    requires Inv(w, s, pre, synth)
    ensures Inv(w, Interfere(w, s), pre, synth)
    ensures Settled(w, s) ==> Settled(w, Interfere(w, s))
    ensures SeesCancel(w, s) ==> Interfere(w, s).cancelledAt == s.cancelledAt
    ensures !SeesCancel(w, s) && Interfere(w, s).cancelledAt.Some? ==> Interfere(w, s).cancelledAt.value == |s.steps|
    ensures JustCancelled(s) ==> JustCancelled(Interfere(w, s))
  {
  }

  /** No row has been recorded since the cancel, if there is one. */
  ghost predicate JustCancelled(s: Run) {
    s.cancelledAt.Some? ==> s.cancelledAt.value == |s.steps|
  }

  lemma RereadKeeps(w: World, s: Run, pre: seq<StepRow>, synth: seq<StepRow>)
    requires Inv(w, s, pre, synth)
    ensures var r := Reread(w, s);
            && Inv(w, r, pre, synth) && (Settled(w, s) ==> Settled(w, r))
            && r.steps == s.steps && r.leafOutputs == s.leafOutputs && r.artifacts == s.artifacts
            && r.ledger == s.ledger
            && (!SeesCancel(w, r) ==> r.cancelledAt == None)
            && (SeesCancel(w, s) ==> r.cancelledAt == s.cancelledAt)
            && (!SeesCancel(w, s) && r.cancelledAt.Some? ==> r.cancelledAt.value == |s.steps|)
  {
    InterfereKeeps(w, s, pre, synth);
    ReadKeeps(w, Interfere(w, s), pre, synth);
    hide Inv, Settled;
  }

  lemma ReadKeeps(w: World, s: Run, pre: seq<StepRow>, synth: seq<StepRow>)
    requires Inv(w, s, pre, synth)
    ensures var r := s.(rereads := s.rereads + [s.clock]);
            && Inv(w, r, pre, synth) && (Settled(w, s) ==> Settled(w, r))
            && (!SeesCancel(w, r) ==> r.cancelledAt == None)
  {
  }

  lemma PublishKeeps(w: World, s: Run, e: TaskEvent, pre: seq<StepRow>, synth: seq<StepRow>)
    requires Inv(w, s, pre, synth) && !IsTerminal(e)
    ensures Inv(w, Publish(s, e), pre, synth)
  {
  }

  lemma BooksOf(w: World, s: Run, pre: seq<StepRow>, synth: seq<StepRow>)
    requires Inv(w, s, pre, synth)
    ensures Books(s) && Layout(s, pre, synth) && CancelMark(w, s, synth)
  {
  }

  lemma CallIssued(w: World, s: Run, role: Role, pre: seq<StepRow>, synth: seq<StepRow>)
    requires Inv(w, s, pre, synth)
    requires Checked(w, role) ==> WithinBudget(s.accumulated, EstimateStepCost(RoleKey(role)), w.cap)
    ensures Inv(w, s.(calls := s.calls + [PaidCall(role, s.accumulated)]), pre, synth)
  {
  }

  lemma LeafBooks(s: Run, leaf: LeafResult, pre: seq<StepRow>)
    requires Books(s) && Layout(s, pre, []) && s.stepIndex == |s.leafOutputs| + 1
    ensures Books(BookLeaf(s, leaf)) && Layout(BookLeaf(s, leaf), pre, [])
  {
    var row := StepRow(Delegation(leaf.agent), s.stepIndex, leaf.inTokens, leaf.outTokens, leaf.cost);
    SumsAppended(s.steps, row);
    LeafAppended(s.leafOutputs, leaf);
    assert s.steps == pre + LeafRows(s.leafOutputs);
    Assoc(pre, LeafRows(s.leafOutputs), [row]);
  }

  lemma BookLeafKeeps(w: World, s: Run, leaf: LeafResult, pre: seq<StepRow>)
    requires Inv(w, s, pre, []) && s.stepIndex == |s.leafOutputs| + 1
    requires JustCancelled(s)
    requires WithinBudget(s.accumulated, EstimateStepCost(leaf.agent), w.cap)
    ensures Inv(w, BookLeaf(s, leaf), pre, [])
  {
    LeafBooks(s, leaf, pre);
    RowAppended(w, s.steps, StepRow(Delegation(leaf.agent), s.stepIndex, leaf.inTokens, leaf.outTokens, leaf.cost));
  }

  /** The leaf either leaves the books alone and raises, or appends one row and one result. */
  lemma RecordedLeafKeeps(w: World, s: Run, leaf: LeafResult, pre: seq<StepRow>)
    requires Inv(w, s, pre, []) && s.stepIndex == |s.leafOutputs| && JustCancelled(s)
    requires WithinBudget(s.accumulated, EstimateStepCost(leaf.agent), w.cap)
    ensures var r := Interfere(w, BookLeaf(s.(stepIndex := s.stepIndex + 1), leaf));
            Inv(w, r, pre, []) && r.ledger == s.ledger && r.artifacts == s.artifacts && LeafRecorded(s, r, leaf.agent)
  {
    hide Inv, WithinBudget, EstimateStepCost;
    var counted := s.(stepIndex := s.stepIndex + 1);
    StepIndexKeeps(w, s, pre, []);
    BookLeafKeeps(w, counted, leaf, pre);
    InterfereKeeps(w, BookLeaf(counted, leaf), pre, []);
  }

  lemma RunLeafKeeps(w: World, s: Run, agent: string, prompt: string, pre: seq<StepRow>)
    requires Inv(w, s, pre, []) && s.stepIndex == |s.leafOutputs| && JustCancelled(s)
    requires WithinBudget(s.accumulated, EstimateStepCost(agent), w.cap)
    ensures var r := RunLeaf(w, s, agent, prompt);
            && Inv(w, r.run, pre, [])
            && r.run.ledger == s.ledger && r.run.artifacts == s.artifacts
            && (r.Err? ==> r.run.steps == s.steps && r.run.leafOutputs == s.leafOutputs)
            && (r.Ok? ==> LeafRecorded(s, r.run, agent))
  {
    hide Inv;
    CallIssued(w, s, Delegation(agent), pre, []);
    var issued := s.(calls := s.calls + [PaidCall(Delegation(agent), s.accumulated)]);
    InterfereKeeps(w, issued, pre, []);
    var called := Interfere(w, issued);
    match w.leaf(s.stepIndex, agent, prompt)
    case CallFails(code) =>
    case Answered(output, inTokens, outTokens, recording) =>
      StepIndexKeeps(w, called, pre, []);
      if recording.Recorded? {
        var leaf := LeafResult(agent, ArtifactText.StripWrappingFence(output), inTokens, outTokens, recording.cost);
        RecordedLeafKeeps(w, called, leaf, pre);
        hide BookLeaf;
      }
  }

  lemma StepIndexKeeps(w: World, s: Run, pre: seq<StepRow>, synth: seq<StepRow>)
    requires Inv(w, s, pre, synth)
    ensures Inv(w, s.(stepIndex := s.stepIndex + 1), pre, synth)
  {
  }

  ghost predicate LeafRecorded(s: Run, r: Run, agent: string) {
    && |r.leafOutputs| == |s.leafOutputs| + 1 == r.stepIndex
    && var leaf := r.leafOutputs[|s.leafOutputs|];
       && leaf.agent == agent && r.leafOutputs == s.leafOutputs + [leaf]
       && r.steps == s.steps + [StepRow(Delegation(agent), r.stepIndex, leaf.inTokens, leaf.outTokens, leaf.cost)]
  }

  /** The ledger after a recorded leaf, without and with its completion event. */
  lemma LeafLedger(w: World, s: Run, r: Run, agent: string)
    requires s.ledger == Head(w) + Transcript(s.steps) && Affordable(w, r.steps) && LeafRecorded(s, r, agent)
    requires r.ledger == s.ledger + [DelegationStarted(agent)]
    ensures LedgerBehind(w, r)
    ensures var leaf := r.leafOutputs[|s.leafOutputs|];
            r.ledger + [DelegationCompleted(agent, leaf.cost, leaf.outTokens)] == Head(w) + Transcript(r.steps)
  {
    var leaf := r.leafOutputs[|s.leafOutputs|];
    var row := StepRow(Delegation(agent), r.stepIndex, leaf.inTokens, leaf.outTokens, leaf.cost);
    assert (s.steps + [row])[..|s.steps|] == s.steps;
    var done := DelegationCompleted(agent, leaf.cost, leaf.outTokens);
    assert [DelegationStarted(agent)] + [done] == StepEvents(row);
    Assoc(s.ledger, [DelegationStarted(agent)], [done]);
    Assoc(Head(w), Transcript(s.steps), StepEvents(row));
    var full := Head(w) + Transcript(r.steps);
    assert r.ledger + [done] == full;
    assert r.ledger <= full + [DelegationStarted(agent)];
  }

  lemma CompleteLeafKeeps(w: World, s: Run, r: Run, agent: string, pre: seq<StepRow>)
    requires Inv(w, r, pre, []) && LeafRecorded(s, r, agent)
    requires s.ledger == Head(w) + Transcript(s.steps)
    requires r.ledger == s.ledger + [DelegationStarted(agent)]
    ensures var c := CompleteLeaf(w, r);
            && Inv(w, c.run, pre, []) && c.run.artifacts == r.artifacts && c.run.leafOutputs == r.leafOutputs
            && (c.Ok? ==> Level(w, c.run)) && (c.Err? ==> LedgerBehind(w, c.run))
  {
    LeafLedger(w, s, r, agent);
    var leaf := r.leafOutputs[|r.leafOutputs| - 1];
    PublishKeeps(w, r, DelegationCompleted(leaf.agent, leaf.cost, leaf.outTokens), pre, []);
  }

  /** One delegation: it records exactly one more leaf, or it raises with at most one more. */
  lemma DelegateKeeps(w: World, s: Run, agent: string, prompt: string, pre: seq<StepRow>)
    requires Inv(w, s, pre, []) && Settled(w, s)
    ensures var r := Delegate(w, s, agent, prompt);
            && Inv(w, r.run, pre, []) && r.run.artifacts == s.artifacts
            && (r.Ok? ==> Level(w, r.run) && GrewBy(s, r.run, agent))
            && (r.Err? ==> LedgerBehind(w, r.run)
                           && (r.run.leafOutputs == s.leafOutputs || GrewBy(s, r.run, agent)))
  {
    hide Inv, Interfere, Reread, RunLeaf, CompleteLeaf;
    RereadKeeps(w, s, pre, []);
    var s1 := Reread(w, s);
    StartedBehind(w, s1, agent);
    if !SeesCancel(w, s1) {
      PublishKeeps(w, s1, DelegationStarted(agent), pre, []);
      var started := Publish(s1, DelegationStarted(agent));
      InterfereKeeps(w, started, pre, []);
      var s2 := Interfere(w, started);
      InterfereSame(w, started);
      BehindSameRows(w, started, s2);
      if WithinBudget(s2.accumulated, EstimateStepCost(agent), w.cap) {
        RunLeafKeeps(w, s2, agent, prompt, pre);
        var r := RunLeaf(w, s2, agent, prompt);
        if r.Ok? {
          CompleteLeafKeeps(w, s1, r.run, agent, pre);
        } else {
          BehindSameRows(w, s2, r.run);
        }
      }
    }
  }

  /** What another session cannot touch. */
  lemma InterfereSame(w: World, s: Run)
    ensures var r := Interfere(w, s);
            && r.steps == s.steps && r.leafOutputs == s.leafOutputs && r.artifacts == s.artifacts
            && r.ledger == s.ledger
            && r.accumulated == s.accumulated && r.stepIndex == s.stepIndex && r.calls == s.calls
  {
  }

  lemma StartedBehind(w: World, s: Run, agent: string)
    requires s.ledger == Head(w) + Transcript(s.steps)
    ensures LedgerBehind(w, s) && LedgerBehind(w, Publish(s, DelegationStarted(agent)))
  {
    assert s.ledger <= Head(w) + Transcript(s.steps) + [DelegationStarted(agent)];
    assert Publish(s, DelegationStarted(agent)).ledger <= Head(w) + Transcript(s.steps) + [DelegationStarted(agent)];
  }

  lemma BehindSameRows(w: World, s: Run, r: Run)
    requires LedgerBehind(w, s) && r.ledger == s.ledger && r.steps == s.steps
    ensures LedgerBehind(w, r)
  {
  }

  /** One more result, of this agent. */
  ghost predicate GrewBy(s: Run, r: Run, agent: string) {
    && |r.leafOutputs| == |s.leafOutputs| + 1
    && r.leafOutputs[..|s.leafOutputs|] == s.leafOutputs
    && r.leafOutputs[|s.leafOutputs|].agent == agent
  }

  lemma UnchangedBehind(w: World, s: Run)
    requires s.ledger == Head(w) + Transcript(s.steps)
    ensures LedgerBehind(w, s)
  {
    assert s.ledger <= Head(w) + Transcript(s.steps) + [DelegationStarted("")];
  }

  lemma DelegateStepKeeps(w: World, s: Run, step: PlanStep, pre: seq<StepRow>)
    requires Inv(w, s, pre, []) && Settled(w, s)
    ensures var r := DelegateStep(w, s, step);
            && Inv(w, r.run, pre, [])
            && (r.Ok? ==> Settled(w, r.run) && GrewBy(s, r.run, step.agent))
            && (r.Err? ==> LedgerBehind(w, r.run)
                           && (r.run.leafOutputs == s.leafOutputs || GrewBy(s, r.run, step.agent)))
  {
    UnchangedBehind(w, s);
    var prompt := ComposeSubPrompt(step.goal, s.priorContext);
    if Guard(w, step.agent, prompt).None? {
      DelegateKeeps(w, s, step.agent, prompt, pre);
    }
  }

  /** The results from base on are those of the plan's first steps, in order. */
  ghost predicate Follows(outs: seq<LeafResult>, base: nat, plan: seq<PlanStep>) {
    && base <= |outs| <= base + |plan|
    && forall i :: 0 <= i < |outs| - base ==> outs[base + i].agent == plan[i].agent
  }

  lemma {:induction false} DelegatePlanKeeps(w: World, s: Run, plan: seq<PlanStep>, pre: seq<StepRow>)
    requires Inv(w, s, pre, []) && Settled(w, s)
    ensures var r := DelegatePlan(w, s, plan);
            && Inv(w, r.run, pre, [])
            && (r.Ok? ==> Settled(w, r.run) && |r.run.leafOutputs| == |s.leafOutputs| + |plan|)
            && (r.Err? ==> LedgerBehind(w, r.run))
            && Follows(r.run.leafOutputs, |s.leafOutputs|, plan)
            && s.leafOutputs <= r.run.leafOutputs
    decreases |plan|
  {
    hide Inv, Settled, LedgerBehind, DelegateStep;
    if plan != [] {
      DelegateStepKeeps(w, s, plan[0], pre);
      var r := DelegateStep(w, s, plan[0]);
      if r.Ok? {
        DelegatePlanKeeps(w, r.run, plan[1..], pre);
        FollowsNext(s, r.run, DelegatePlan(w, r.run, plan[1..]).run, plan);
      }
    }
  }

  lemma FollowsNext(s: Run, m: Run, r: Run, plan: seq<PlanStep>)
    requires plan != [] && GrewBy(s, m, plan[0].agent)
    requires Follows(r.leafOutputs, |m.leafOutputs|, plan[1..]) && m.leafOutputs <= r.leafOutputs
    ensures Follows(r.leafOutputs, |s.leafOutputs|, plan) && s.leafOutputs <= r.leafOutputs
  {
    var base := |s.leafOutputs|;
    forall i | 0 <= i < |r.leafOutputs| - base
      ensures r.leafOutputs[base + i].agent == plan[i].agent
    {
      if i == 0 {
        assert r.leafOutputs[base] == m.leafOutputs[base];
      } else {
        assert r.leafOutputs[base + 1 + (i - 1)].agent == plan[1..][i - 1].agent;
      }
    }
    assert s.leafOutputs == m.leafOutputs[..base] == r.leafOutputs[..base];
  }

  /** The delegations of a run follow the dependency order of the Coordinator's plan. */
  ghost predicate FollowsPlan(w: World, outs: seq<LeafResult>) {
    match w.coordinator
    case PlanFails(_) => outs == []
    case Planned(steps) => Follows(outs, 0, OrderedSteps(steps))
  }

  ghost predicate CompletedPlan(w: World, outs: seq<LeafResult>) {
    w.coordinator.Planned? && |outs| == |OrderedSteps(w.coordinator.steps)|
  }

  lemma CoordinateKeeps(w: World, s: Run, pre: seq<StepRow>)
    requires Inv(w, s, pre, []) && Settled(w, s) && s.leafOutputs == []
    ensures var r := Coordinate(w, s);
            && Inv(w, r.run, pre, []) && FollowsPlan(w, r.run.leafOutputs)
            && (r.Ok? ==> Settled(w, r.run) && CompletedPlan(w, r.run.leafOutputs))
            && (r.Err? ==> LedgerBehind(w, r.run))
  {
    InterfereKeeps(w, s, pre, []);
    UnchangedBehind(w, Interfere(w, s));
    match w.coordinator
    case PlanFails(_) =>
    case Planned(steps) => DelegatePlanKeeps(w, Interfere(w, s), OrderedSteps(steps), pre);
  }

  lemma BookMasterKeeps(w: World, s: Run, row: StepRow, pre: seq<StepRow>, pre': seq<StepRow>, synth': seq<StepRow>)
    requires Inv(w, s, pre, []) && (row.role == MasterPlan || row.role == Synthesis)
    requires WithinBudget(s.accumulated, EstimateStepCost(RoleKey(row.role)), w.cap)
    requires Layout(s.(steps := s.steps + [row]), pre', synth')
    requires s.cancelledAt.Some? ==> |s.steps| <= s.cancelledAt.value + |synth'|
    ensures Inv(w, BookMaster(s, row.role, row.index, row.inTokens, row.outTokens, row.cost), pre', synth')
  {
    SumsAppended(s.steps, row);
    RowAppended(w, s.steps, row);
  }

  /** The ledger that told all rows but the last is one event behind; telling it levels the two. */
  lemma LastRowTold(w: World, s: Run, r: Run, row: StepRow)
    requires s.ledger == r.ledger == Head(w) + Transcript(s.steps) && r.steps == s.steps + [row]
    requires row.role == MasterPlan || row.role == Synthesis
    ensures LedgerBehind(w, r)
    ensures r.ledger + [StepCompleted(PhaseName(row.role), row.cost)] == Head(w) + Transcript(r.steps)
  {
    var told := Head(w) + Transcript(s.steps);
    assert (s.steps + [row])[..|s.steps|] == s.steps;
    assert Transcript(r.steps) == Transcript(s.steps) + StepEvents(row);
    hide Transcript, Head;
    Assoc(Head(w), Transcript(s.steps), StepEvents(row));
    OneBehind(told, StepEvents(row), [DelegationStarted("")]);
    assert r.ledger <= Head(w) + Transcript(r.steps) + [DelegationStarted("")];
  }

  lemma OneBehind<T>(told: seq<T>, last: seq<T>, next: seq<T>)
    ensures told <= told + last + next
  {
    Assoc(told, last, next);
  }

  lemma CompleteMasterKeeps(w: World, s: Run, r: Run, row: StepRow, pre: seq<StepRow>, synth: seq<StepRow>)
    requires Inv(w, r, pre, synth) && (row.role == MasterPlan || row.role == Synthesis)
    requires s.ledger == r.ledger == Head(w) + Transcript(s.steps) && r.steps == s.steps + [row]
    requires r.stepIndex == |r.leafOutputs|
    ensures var c := CompleteMaster(w, r, row.role, row.cost);
            && Inv(w, c.run, pre, synth) && c.run.artifacts == r.artifacts && c.run.leafOutputs == r.leafOutputs
            && (c.Ok? ==> Level(w, c.run)) && (c.Err? ==> LedgerBehind(w, c.run))
  {
    hide Inv, Transcript, Head, LedgerBehind, PhaseName;
    PublishKeeps(w, r, StepCompleted(PhaseName(row.role), row.cost), pre, synth);
    LastRowTold(w, s, r, row);
  }

  /** Billing a Master call, once it is answered and recorded. */
  lemma MasterRecorded(w: World, s: Run, row: StepRow, pre: seq<StepRow>, pre': seq<StepRow>, synth': seq<StepRow>)
    requires Inv(w, s, pre, []) && Settled(w, s) && (row.role == MasterPlan || row.role == Synthesis)
    requires WithinBudget(s.accumulated, EstimateStepCost(RoleKey(row.role)), w.cap)
    requires Layout(s.(steps := s.steps + [row]), pre', synth')
    requires s.cancelledAt.Some? ==> |s.steps| <= s.cancelledAt.value + |synth'|
    ensures var booked := BookMaster(s, row.role, row.index, row.inTokens, row.outTokens, row.cost);
            var c := CompleteMaster(w, Interfere(w, booked), row.role, row.cost);
            && Inv(w, c.run, pre', synth') && c.run.leafOutputs == s.leafOutputs
            && (c.Ok? ==> Settled(w, c.run)) && (c.Err? ==> LedgerBehind(w, c.run))
  {
    hide Inv, Interfere, CompleteMaster, LedgerBehind, Transcript;
    BookMasterKeeps(w, s, row, pre, pre', synth');
    var booked := BookMaster(s, row.role, row.index, row.inTokens, row.outTokens, row.cost);
    InterfereKeeps(w, booked, pre', synth');
    InterfereSame(w, booked);
    CompleteMasterKeeps(w, s, Interfere(w, booked), row, pre', synth');
  }

  /** What one of the Master's calls comes to: nothing billed, or one row. */
  ghost function MasterRow(w: World, role: Role, call: Call, index: nat): seq<StepRow> {
    if w.recorder && call.Answered? && call.recording.Recorded?
    then [StepRow(role, index, call.inTokens, call.outTokens, call.recording.cost)] else []
  }

  lemma MasterCallKeeps(w: World, s: Run, role: Role, call: Call, index: nat, pre: seq<StepRow>)
      returns (pre': seq<StepRow>, synth': seq<StepRow>)
    requires Inv(w, s, pre, []) && Settled(w, s)
    requires (role == MasterPlan && index == 0 && s.leafOutputs == [] && pre == [])
             || (role == Synthesis && index == |s.leafOutputs| + 1)
    ensures var r := MasterCall(w, s, role, call, index);
            && Inv(w, r.run, pre', synth') && r.run.leafOutputs == s.leafOutputs
            && (r.Ok? ==> Settled(w, r.run)) && (r.Err? ==> LedgerBehind(w, r.run))
            && (role == MasterPlan ==> synth' == []) && (role == Synthesis ==> pre' == pre)
            && (!w.recorder ==> pre' == pre && synth' == [])
  {
    hide Inv, LedgerBehind;
    UnchangedBehind(w, s);
    pre', synth' := pre, [];
    if !w.recorder || WithinBudget(s.accumulated, EstimateStepCost(RoleKey(role)), w.cap) {
      var issued := s.(calls := s.calls + [PaidCall(role, s.accumulated)]);
      CallIssued(w, s, role, pre, []);
      InterfereKeeps(w, issued, pre, []);
      var called := Interfere(w, issued);
      UnchangedBehind(w, called);
      if w.recorder && call.Answered? && call.recording.Recorded? {
        var row := StepRow(role, index, call.inTokens, call.outTokens, call.recording.cost);
        MasterLayout(w, called, row, pre);
        if role == MasterPlan {
          pre' := [row];
        } else {
          synth' := [row];
        }
        MasterRecorded(w, called, row, pre, pre', synth');
      }
    }
  }

  lemma MasterLayout(w: World, s: Run, row: StepRow, pre: seq<StepRow>)
    requires Inv(w, s, pre, [])
    ensures s.cancelledAt.Some? ==> |s.steps| <= s.cancelledAt.value + 1
    ensures s.cancelledAt.Some? && s.steps == [] ==> |s.steps| <= s.cancelledAt.value
    ensures row.role == MasterPlan && row.index == 0 && s.leafOutputs == [] && pre == [] ==>
              s.steps == [] && Layout(s.(steps := s.steps + [row]), [row], [])
    ensures row.role == Synthesis && row.index == |s.leafOutputs| + 1 ==>
              Layout(s.(steps := s.steps + [row]), pre, [row])
  {
    assert s.steps == pre + LeafRows(s.leafOutputs);
  }

  /** A Master call that ends normally has recorded exactly the row it comes to. */
  lemma MasterCallRow(w: World, s: Run, role: Role, call: Call, index: nat)
    ensures var r := MasterCall(w, s, role, call, index);
            r.Ok? ==> r.run.steps == s.steps + MasterRow(w, role, call, index)
  {
    assert s.steps + [] == s.steps;
  }

  /** The Master's run: plan row, leaf rows, synthesis row. */
  lemma MasterRunKeeps(w: World, s: Run) returns (pre: seq<StepRow>, synth: seq<StepRow>)
    requires Inv(w, s, [], []) && Settled(w, s) && s.leafOutputs == []
    ensures var r := MasterRun(w, s);
            && Inv(w, r.run, pre, synth)
            && (r.run.leafOutputs == [] || FollowsPlan(w, r.run.leafOutputs))
            && (r.Ok? ==> Settled(w, r.run) && CompletedPlan(w, r.run.leafOutputs) && FollowsPlan(w, r.run.leafOutputs))
            && (r.Ok? ==> pre == MasterRow(w, MasterPlan, w.masterPlan, 0))
            && (r.Ok? ==> synth == MasterRow(w, Synthesis, w.synthesis, |r.run.leafOutputs| + 1))
            && (!w.recorder ==> pre == [] && synth == [])
            && (r.Err? ==> LedgerBehind(w, r.run))
  {
    hide Inv, LedgerBehind, FollowsPlan, CompletedPlan, MasterCall, Coordinate, MasterRow, Level;
    pre, synth := MasterCallKeeps(w, s, MasterPlan, w.masterPlan, 0, []);
    var planned := MasterCall(w, s, MasterPlan, w.masterPlan, 0);
    if planned.Ok? {
      MasterCallRow(w, s, MasterPlan, w.masterPlan, 0);
      PlanRowOnly(w, s, planned.run, pre);
      CoordinateKeeps(w, planned.run, pre);
      var worked := Coordinate(w, planned.run);
      if worked.Ok? {
        var pre2;
        pre2, synth := MasterCallKeeps(w, worked.run, Synthesis, w.synthesis, |worked.run.artifacts| + 1, pre);
        MasterCallRow(w, worked.run, Synthesis, w.synthesis, |worked.run.artifacts| + 1);
        var done := MasterCall(w, worked.run, Synthesis, w.synthesis, |worked.run.artifacts| + 1);
        if done.Ok? {
          SynthesisRowOnly(w, worked.run, done.run, pre, synth);
          assert synth == done.run.steps[|worked.run.steps|..];
        }
      }
    }
  }

  lemma PlanRowOnly(w: World, s: Run, r: Run, pre: seq<StepRow>)
    requires Inv(w, s, [], []) && Inv(w, r, pre, []) && s.leafOutputs == r.leafOutputs == []
    ensures r.steps == pre && s.steps == []
  {
  }

  lemma SynthesisRowOnly(w: World, s: Run, r: Run, pre: seq<StepRow>, synth: seq<StepRow>)
    requires Inv(w, s, pre, []) && Inv(w, r, pre, synth) && s.leafOutputs == r.leafOutputs
    ensures r.steps == s.steps + synth
  {
  }

  // ---------------------------------------------------------------- from the start to the final re-read

  lemma EmptyInv(w: World, s: Run)
    requires s.steps == [] && s.leafOutputs == [] && s.calls == [] && s.accumulated == 0.0 && s.stored == []
    requires s.masterIn == s.masterOut == s.memoryIn == s.memoryOut == 0
    requires s.ledger == [Started] && s.gauge == 1 && s.outcomes == [] && s.exit == StillRunning
    requires s.total.None? && s.totalIn.None? && s.totalOut.None? && s.cancelledAt.None?
    requires s.status == if w.hasRow then Running else Queued
    ensures Inv(w, s, [], []) && s.ledger == [Started] + Transcript(s.steps)
  {
  }

  lemma BeginInv(w: World)
    ensures Inv(w, Begin(w), [], []) && Begin(w).ledger == [Started] + Transcript(Begin(w).steps)
  {
    hide Inv, Transcript;
    EmptyInv(w, Begin(w));
  }

  lemma AdmitKeeps(w: World)
    ensures var r := Admit(w, Begin(w));
            && Inv(w, r.run, [], []) && r.run.leafOutputs == []
            && (r.Ok? ==> Settled(w, r.run)) && (r.Err? ==> LedgerBehind(w, r.run))
  {
    var s := Begin(w);
    BeginInv(w);
    hide Inv, LedgerBehind;
    InterfereKeeps(w, s, [], []);
    var s1 := Interfere(w, s);
    PublishKeeps(w, s1, BudgetWarning, [], []);
    if w.quota.QuotaExceeded? {
      UnchangedBehind(w, s1);
    } else {
      assert [Started] + [BudgetWarning] == [Started, BudgetWarning];
    }
  }

  /** The rows of a run that does all its work. */
  ghost function WorkRows(w: World, outs: seq<LeafResult>): seq<StepRow> {
    if w.master
    then MasterRow(w, MasterPlan, w.masterPlan, 0) + LeafRows(outs) + MasterRow(w, Synthesis, w.synthesis, |outs| + 1)
    else LeafRows(outs)
  }

  lemma WorkKeeps(w: World) returns (pre: seq<StepRow>, synth: seq<StepRow>)
    ensures var r := Work(w, Begin(w));
            && Inv(w, r.run, pre, synth)
            && (r.run.leafOutputs == [] || FollowsPlan(w, r.run.leafOutputs))
            && (r.Ok? ==> Settled(w, r.run) && CompletedPlan(w, r.run.leafOutputs) && FollowsPlan(w, r.run.leafOutputs)
                          && r.run.steps == WorkRows(w, r.run.leafOutputs))
            && (!(w.master && w.recorder) ==> pre == [] && synth == [])
            && (r.Err? ==> LedgerBehind(w, r.run))
  {
    hide Inv, Settled, LedgerBehind, FollowsPlan, CompletedPlan, MasterRun, Coordinate, Admit;
    pre, synth := [], [];
    AdmitKeeps(w);
    var admitted := Admit(w, Begin(w));
    if admitted.Ok? {
      if w.master {
        pre, synth := MasterRunKeeps(w, admitted.run);
        LayoutOf(w, MasterRun(w, admitted.run).run, pre, synth);
      } else {
        CoordinateKeeps(w, admitted.run, []);
        LayoutOf(w, Coordinate(w, admitted.run).run, [], []);
      }
    }
  }

  lemma LayoutOf(w: World, s: Run, pre: seq<StepRow>, synth: seq<StepRow>)
    requires Inv(w, s, pre, synth)
    ensures s.steps == pre + LeafRows(s.leafOutputs) + synth
    ensures pre == [] && synth == [] ==> s.steps == LeafRows(s.leafOutputs)
  {
  }

  // ---------------------------------------------------------------- the closing phase

  /** The rows and books at the end of a run, with the memory row if there is one. */
  ghost predicate Closed(w: World, s: Run, pre: seq<StepRow>, synth: seq<StepRow>, mem: seq<StepRow>) {
    && Books(s) && Affordable(w, s.steps) && CallsAffordable(w, s)
    && s.steps == pre + LeafRows(s.leafOutputs) + synth + mem
    && (pre == [] || (|pre| == 1 && pre[0].role == MasterPlan && pre[0].index == 0))
    && (synth == [] || (|synth| == 1 && synth[0].role == Synthesis && synth[0].index == |s.leafOutputs| + 1))
    && (mem == [] || (|mem| == 1 && mem[0].role == Memory && mem[0].index == |s.leafOutputs| + 2))
  }

  lemma InvCloses(w: World, s: Run, pre: seq<StepRow>, synth: seq<StepRow>)
    requires Inv(w, s, pre, synth)
    ensures Closed(w, s, pre, synth, []) && Unfinished(s)
  {
    assert s.steps + [] == s.steps;
  }

  /** The row of a memory extraction that stored everything and was billed. */
  ghost function MemoryRow(w: World, n: nat): seq<StepRow> {
    match w.memory
    case Some(Verdict(shouldRemember, entries, refused, inTokens, outTokens, Recorded(cost))) =>
      if shouldRemember && exists k: nat :: k < |entries| && refused(k) then []
      else [StepRow(Memory, n + 2, inTokens, outTokens, cost)]
    case _ => []
  }

  lemma {:induction false} StoredAll(entries: seq<string>, refused: nat -> bool, i: nat)
    requires i <= |entries|
    ensures |StoredEntries(entries, refused, i)| < |entries| - i <==> exists k: nat :: i <= k < |entries| && refused(k)
    decreases |entries| - i
  {
    if i < |entries| && !refused(i) {
      StoredAll(entries, refused, i + 1);
    }
  }

  lemma MemoryBooked(w: World, s: Run, inTokens: nat, outTokens: nat, cost: real)
    requires Books(s) && Affordable(w, s.steps)
    ensures var row := StepRow(Memory, |s.leafOutputs| + 2, inTokens, outTokens, cost);
            var r := BookMemory(s, inTokens, outTokens, cost);
            && Books(r) && Affordable(w, r.steps) && r.steps == s.steps + [row]
            && Transcript(r.steps) == Transcript(s.steps) + StepEvents(row)
  {
    var row := StepRow(Memory, |s.leafOutputs| + 2, inTokens, outTokens, cost);
    SumsAppended(s.steps, row);
    RowAppended(w, s.steps, row);
    hide Affordable, Transcript, StepEvents, SumCost, RowsIn, RowsOut, SumIn, SumOut;
  }

  lemma BookMemoryKeeps(w: World, s: Run, inTokens: nat, outTokens: nat, cost: real, pre: seq<StepRow>,
                        synth: seq<StepRow>)
    requires Closed(w, s, pre, synth, []) && Unfinished(s)
    ensures var row := StepRow(Memory, |s.leafOutputs| + 2, inTokens, outTokens, cost);
            var r := BookMemory(s, inTokens, outTokens, cost);
            && Closed(w, r, pre, synth, [row]) && Unfinished(r)
            && Transcript(r.steps) == Transcript(s.steps) + StepEvents(row)
  {
    MemoryBooked(w, s, inTokens, outTokens, cost);
    hide Books, Affordable, Transcript, StepEvents, LeafRows, PhaseName;
    assert s.steps == pre + LeafRows(s.leafOutputs) + synth;
  }

  lemma InterfereCloses(w: World, s: Run, pre: seq<StepRow>, synth: seq<StepRow>, mem: seq<StepRow>)
    requires Closed(w, s, pre, synth, mem) && Unfinished(s)
    ensures var r := Interfere(w, s);
            Closed(w, r, pre, synth, mem) && Unfinished(r)
            && r.steps == s.steps && r.leafOutputs == s.leafOutputs && r.ledger == s.ledger
  {
  }

  lemma EntriesStored(w: World, s: Run, written: seq<string>, pre: seq<StepRow>, synth: seq<StepRow>)
    requires Closed(w, s, pre, synth, []) && Unfinished(s)
    ensures Closed(w, Interfere(w, s), pre, synth, []) && Unfinished(Interfere(w, s))
    ensures Closed(w, Interfere(w, s).(stored := s.stored + written), pre, synth, [])
    ensures Unfinished(Interfere(w, s).(stored := s.stored + written))
  {
  }

  /** The state after the entries were stored and the bill was booked. */
  lemma BilledMemoryKeeps(w: World, s: Run, inTokens: nat, outTokens: nat, cost: real, pre: seq<StepRow>,
                          synth: seq<StepRow>)
    requires Closed(w, s, pre, synth, []) && Unfinished(s) && s.ledger == Head(w) + Transcript(s.steps)
    ensures var row := StepRow(Memory, |s.leafOutputs| + 2, inTokens, outTokens, cost);
            var r := Interfere(w, BookMemory(s, inTokens, outTokens, cost));
            && Closed(w, r, pre, synth, [row]) && Unfinished(r)
            && r.leafOutputs == s.leafOutputs && r.steps == s.steps + [row]
            && r.ledger == Head(w) + Transcript(r.steps)
  {
    hide Closed, Unfinished, Transcript, StepEvents;
    var row := StepRow(Memory, |s.leafOutputs| + 2, inTokens, outTokens, cost);
    BookMemoryKeeps(w, s, inTokens, outTokens, cost, pre, synth);
    BookedMemory(s, inTokens, outTokens, cost);
    InterfereCloses(w, BookMemory(s, inTokens, outTokens, cost), pre, synth, [row]);
    Assoc(Head(w), Transcript(s.steps), StepEvents(row));
  }

  lemma BookedMemory(s: Run, inTokens: nat, outTokens: nat, cost: real)
    ensures var row, r := StepRow(Memory, |s.leafOutputs| + 2, inTokens, outTokens, cost),
                          BookMemory(s, inTokens, outTokens, cost);
            r.leafOutputs == s.leafOutputs && r.steps == s.steps + [row] && r.ledger == s.ledger + StepEvents(row)
  {
  }

  /** Memory extraction appends at most its own row, tells it in the ledger, and bills it only when
      every entry was stored. */
  lemma ExtractMemoryKeeps(w: World, s: Run, pre: seq<StepRow>, synth: seq<StepRow>)
    requires Closed(w, s, pre, synth, []) && Unfinished(s) && s.ledger == Head(w) + Transcript(s.steps)
    ensures var r := ExtractMemory(w, s);
            && Closed(w, r, pre, synth, MemoryRow(w, |s.leafOutputs|)) && Unfinished(r)
            && r.leafOutputs == s.leafOutputs && r.steps == s.steps + MemoryRow(w, |s.leafOutputs|)
            && r.ledger == Head(w) + Transcript(r.steps)
  {
    hide Closed, Unfinished, Transcript, StoredEntries, BookMemory;
    assert s.steps + [] == s.steps;
    match w.memory
    case None =>
    case Some(FilterFails(_)) =>
      EntriesStored(w, s, [], pre, synth);
    case Some(Verdict(shouldRemember, entries, refused, inTokens, outTokens, recording)) =>
      StoredAll(entries, refused, 0);
      var written := if shouldRemember then StoredEntries(entries, refused, 0) else [];
      EntriesStored(w, s, written, pre, synth);
      if recording.Recorded? {
        var s1 := Interfere(w, s);
        BilledMemoryKeeps(w, s1.(stored := s1.stored + written), inTokens, outTokens, recording.cost, pre, synth);
      }
  }

  function EventTotal(e: TaskEvent): real {
    match e
    case Completed(total) => total
    case Cancelled(total) => total
    case Failed(_, total) => total
    case _ => 0.0
  }

  /** The run is over: one terminal event, measured once, the totals written on the row. */
  ghost predicate Ended(w: World, s: Run, r: Run) {
    && LedgerShape(r.ledger) && r.ledger[..|r.ledger| - 1] == s.ledger
    && r.gauge == 0 && |r.outcomes| == 1 && r.exit != StillRunning
    && EventTotal(r.ledger[|r.ledger| - 1]) == s.accumulated
    && r.total == (if w.hasRow then Some(s.accumulated) else None)
    && r.steps == s.steps && r.accumulated == s.accumulated && r.calls == s.calls
    && r.leafOutputs == s.leafOutputs
    && (r.cancelledAt == s.cancelledAt || r.cancelledAt == Some(|s.steps|))
    && r.masterIn == s.masterIn && r.masterOut == s.masterOut && r.memoryIn == s.memoryIn && r.memoryOut == s.memoryOut
  }

  /** The commit changes the status column, and finds a cancel there or not. */
  lemma CommitMark(w: World, s: Run, status: Status)
    ensures var r := CommitClosing(w, s, status);
            && r == s.(clock := s.clock + 1, status := r.status, cancelledAt := r.cancelledAt)
            && (r.cancelledAt == s.cancelledAt || r.cancelledAt == Some(|s.steps|))
            && r.status == if w.hasRow then status else s.status
  {
  }

  lemma ToldFailureEnds(w: World, s: Run, code: string, outcome: string)
    requires Unfinished(s)
    ensures Ended(w, s, TellFailed(w, s, code, outcome))
  {
  }

  lemma ToldSuccessEnds(w: World, s: Run)
    requires Unfinished(s)
    ensures Ended(w, s, TellSucceeded(w, s))
  {
    hide SumIn, SumOut;
  }

  lemma CommitEnds(w: World, s: Run, r: Run, status: Status)
    requires Ended(w, s, r) && r.steps == s.steps
    ensures Ended(w, s, CommitClosing(w, r, status)) && CommitClosing(w, r, status).exit == r.exit
  {
    CommitMark(w, r, status);
    hide LedgerShape, CommitClosing;
  }

  lemma FinishEnds(w: World, s: Run, code: string, outcome: string)
    requires Unfinished(s)
    ensures Ended(w, s, FinishFailed(w, s, code, outcome)) && FinishFailed(w, s, code, outcome).exit == ExitFailed(code)
  {
    ToldFailureEnds(w, s, code, outcome);
    CommitEnds(w, s, TellFailed(w, s, code, outcome), FailedStatus);
    hide Ended, CommitClosing;
  }

  lemma FinishEndsElse(w: World, s: Run)
    requires Unfinished(s)
    ensures Ended(w, s, FinishCancelled(w, s)) && FinishCancelled(w, s).exit == ExitCancelled
    ensures Ended(w, s, FinishSucceeded(w, s)) && FinishSucceeded(w, s).exit == ExitSucceeded
  {
    assert Ended(w, s, FinishCancelled(w, s)) && FinishCancelled(w, s).exit == ExitCancelled;
    hide FinishCancelled, Ended, CommitClosing, SumIn, SumOut;
    ToldSuccessEnds(w, s);
    CommitEnds(w, s, TellSucceeded(w, s), Succeeded);
  }

  lemma EndedCloses(w: World, s: Run, r: Run, pre: seq<StepRow>, synth: seq<StepRow>, mem: seq<StepRow>)
    requires Ended(w, s, r) && Closed(w, s, pre, synth, mem)
    ensures Closed(w, r, pre, synth, mem)
  {
  }

  /** How a run ends: the run just before its closing write, and the rows it has recorded. */
  lemma ExecuteEnds(w: World) returns (s: Run, pre: seq<StepRow>, synth: seq<StepRow>, mem: seq<StepRow>)
    ensures var r := Execute(w);
            && Ended(w, s, r) && Closed(w, r, pre, synth, mem)
            && (mem != [] ==> r.exit == ExitSucceeded)
            && (r.exit == ExitSucceeded ==>
                  && s.ledger == Head(w) + Transcript(s.steps)
                  && s.steps == WorkRows(w, s.leafOutputs) + MemoryRow(w, |s.leafOutputs|)
                  && CompletedPlan(w, s.leafOutputs) && FollowsPlan(w, s.leafOutputs)
                  && r == FinishSucceeded(w, s))
            && (r.exit != ExitSucceeded ==> LedgerBehind(w, s))
            && (s.leafOutputs == [] || FollowsPlan(w, s.leafOutputs))
  {
    hide Inv, Closed, Unfinished, Ended, LedgerBehind, FollowsPlan, CompletedPlan, Work, WorkRows, MemoryRow,
         ExtractMemory, Transcript, FinishCancelled, FinishFailed, FinishSucceeded;
    pre, synth := WorkKeeps(w);
    mem := [];
    match Work(w, Begin(w))
    case Err(run, e) =>
      s := run;
      InvCloses(w, s, pre, synth);
      FinishEnds(w, s, ErrorCode(e), FailureOutcome(ErrorCode(e)));
      FinishEndsElse(w, s);
      EndedCloses(w, s, Execute(w), pre, synth, mem);
    case Ok(run) =>
      s, mem := ConcludeEnds(w, Reread(w, run), pre, synth) by {
        RereadKeeps(w, run, pre, synth);
      }
  }

  lemma ConcludeEnds(w: World, s: Run, pre: seq<StepRow>, synth: seq<StepRow>) returns (s': Run, mem: seq<StepRow>)
    requires Inv(w, s, pre, synth) && Settled(w, s)
    ensures var r := Conclude(w, s);
            && Ended(w, s', r) && Closed(w, r, pre, synth, mem) && s'.leafOutputs == s.leafOutputs
            && (mem != [] ==> r.exit == ExitSucceeded)
            && (r.exit == ExitSucceeded ==>
                  && s'.ledger == Head(w) + Transcript(s'.steps)
                  && s'.steps == s.steps + MemoryRow(w, |s.leafOutputs|)
                  && r == FinishSucceeded(w, s'))
            && (r.exit != ExitSucceeded ==> LedgerBehind(w, s'))
  {
    hide Inv, Closed, Unfinished, Ended, LedgerBehind, MemoryRow, ExtractMemory, Transcript,
         FinishCancelled, FinishFailed, FinishSucceeded, Interfere;
    s', mem := s, [];
    InvCloses(w, s, pre, synth);
    UnchangedBehind(w, s);
    if SeesCancel(w, s) {
      FinishEndsElse(w, s);
      EndedCloses(w, s, Conclude(w, s), pre, synth, mem);
    } else if w.screen.ScreenBlocks? {
      s' := Interfere(w, s);
      InterfereCloses(w, s, pre, synth, []);
      UnchangedBehind(w, s');
      FinishEnds(w, s', w.screen.code, "failed");
      EndedCloses(w, s', Conclude(w, s), pre, synth, mem);
    } else {
      var screened := if w.screen.ScreenPasses? then Interfere(w, s) else s;
      InterfereCloses(w, s, pre, synth, []);
      ExtractMemoryKeeps(w, screened, pre, synth);
      s', mem := ExtractMemory(w, screened), MemoryRow(w, |s.leafOutputs|);
      FinishEndsElse(w, s');
      EndedCloses(w, s', Conclude(w, s), pre, synth, mem);
    }
  }
}
