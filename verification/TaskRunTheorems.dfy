/** The theorems about whole task runs, for every world: every answer of the model calls, every recorder
    failure, every moment at which another session may cancel. */
module TaskRunTheorems {
  import opened Text
  import opened TaskEvents
  import opened BudgetGuard
  import opened PlanOrdering
  import opened TaskRun
  import opened TaskRunLaws

  // ---------------------------------------------------------------- ledger

  /** On every path the ledger starts with task.started and has exactly one terminal event, the last;
      the queue-depth gauge is back at its level and one outcome was measured. */
  lemma LedgerAlwaysShaped(w: World)
    ensures var r := Execute(w); LedgerShape(r.ledger) && r.gauge == 0 && |r.outcomes| == 1
  {
    var s, _, _, _ := ExecuteEnds(w);
  }

  /** A successful run has executed the whole plan in dependency order, its rows are exactly those of the
      billed calls, and its ledger is exactly their transcript. */
  lemma SuccessIsTheTranscript(w: World)
    requires Execute(w).exit == ExitSucceeded
    ensures var r := Execute(w);
            && r.steps == WorkRows(w, r.leafOutputs) + MemoryRow(w, |r.leafOutputs|)
            && CompletedPlan(w, r.leafOutputs) && FollowsPlan(w, r.leafOutputs)
            && r.ledger == Head(w) + Transcript(r.steps) + [Completed(SumCost(r.steps))]
  {
    var s, pre, synth, mem := ExecuteEnds(w);
    assert Execute(w).ledger == s.ledger + [Completed(s.accumulated)];
  }

  /** The ledger without its terminal event, and the total that event tells. */
  function Untold(log: seq<TaskEvent>): seq<TaskEvent> {
    if log == [] then [] else log[..|log| - 1]
  }

  function ToldTotal(log: seq<TaskEvent>): real {
    if log == [] then 0.0 else EventTotal(log[|log| - 1])
  }

  /** A run that does not succeed still delegated only a first part of the ordered plan, and its ledger
      is behind the recorded rows by at most one event, or ahead by one started delegation. */
  lemma FailureIsAlmostTold(w: World)
    requires Execute(w).exit != ExitSucceeded
    ensures var r := Execute(w);
            && LedgerBehind(w, r.(ledger := Untold(r.ledger)))
            && (r.leafOutputs == [] || FollowsPlan(w, r.leafOutputs))
            && |r.steps| <= |r.leafOutputs| + 2
  {
    hide Execute, LedgerBehind, FollowsPlan;
    var s, pre, synth, mem := ExecuteEnds(w);
    BehindSameRows(w, s, Execute(w).(ledger := s.ledger));
  }

  // ---------------------------------------------------------------- accounting

  lemma EndedTotals(w: World, s: Run, r: Run, pre: seq<StepRow>, synth: seq<StepRow>, mem: seq<StepRow>)
    requires Ended(w, s, r) && Closed(w, r, pre, synth, mem)
    ensures r.total == (if w.hasRow then Some(SumCost(r.steps)) else None)
    ensures ToldTotal(r.ledger) == SumCost(r.steps)
  {
    hide Affordable, CallsAffordable, LeafRows, SumCost, RowsIn, RowsOut, SumIn, SumOut;
    assert r.accumulated == SumCost(r.steps);
  }

  lemma SuccessTokens(w: World, s: Run, r: Run, pre: seq<StepRow>, synth: seq<StepRow>, mem: seq<StepRow>)
    requires Ended(w, s, r) && Closed(w, r, pre, synth, mem) && w.hasRow && r == FinishSucceeded(w, s)
    ensures r.totalIn == Some(RowsIn(r.steps)) && r.totalOut == Some(RowsOut(r.steps))
  {
    hide LedgerShape, Affordable, CallsAffordable, LeafRows, SumCost, RowsIn, RowsOut, SumIn, SumOut;
  }

  /** On every exit the total written on the row, and told by the terminal event, is the sum of the
      recorded step costs; on success the token totals are the sums over the same steps. */
  lemma CostConserved(w: World)
    ensures var r := Execute(w);
            && r.total == (if w.hasRow then Some(SumCost(r.steps)) else None)
            && ToldTotal(r.ledger) == SumCost(r.steps)
            && (w.hasRow && r.exit == ExitSucceeded ==>
                  r.totalIn == Some(RowsIn(r.steps)) && r.totalOut == Some(RowsOut(r.steps)))
  {
    hide Execute, Affordable, FollowsPlan, LedgerBehind, Transcript, Ended, Closed, FinishSucceeded, ToldTotal,
         SumCost, RowsIn, RowsOut;
    var s, pre, synth, mem := ExecuteEnds(w);
    EndedTotals(w, s, Execute(w), pre, synth, mem);
    if w.hasRow && Execute(w).exit == ExitSucceeded {
      SuccessTokens(w, s, Execute(w), pre, synth, mem);
    }
  }

  /** The number a step row must carry: plan 0, the n-th leaf n, synthesis one above the leaves, memory two. */
  function NumberFor(role: Role, leaves: nat, n: nat): nat {
    match role
    case MasterPlan => 0
    case Delegation(_) => n
    case Synthesis => leaves + 1
    case Memory => leaves + 2
  }

  lemma {:induction false} LeafRowAt(outs: seq<LeafResult>, i: nat)
    requires i < |outs|
    ensures LeafRows(outs)[i] == StepRow(Delegation(outs[i].agent), i + 1, outs[i].inTokens, outs[i].outTokens,
                                         outs[i].cost)
    decreases |outs|
  {
    if i < |outs| - 1 {
      LeafRowAt(outs[..|outs| - 1], i);
    }
  }

  /** How many rows come before the first leaf: the Master's plan row, if there is one. */
  function RowsBefore(rows: seq<StepRow>): nat {
    if rows != [] && rows[0].role == MasterPlan then 1 else 0
  }

  ghost predicate Numbered(r: Run, i: nat)
    requires i < |r.steps|
  {
    var first := RowsBefore(r.steps);
    i + 1 >= first && r.steps[i].index == NumberFor(r.steps[i].role, |r.leafOutputs|, i + 1 - first)
  }

  /** Step indices never collide: each row carries the number its role calls for, and so the numbers
      increase along the rows. */
  lemma StepIndicesNeverCollide(w: World)
    ensures var r := Execute(w);
            && (forall i :: 0 <= i < |r.steps| ==> Numbered(r, i))
            && (forall i, j :: 0 <= i < j < |r.steps| ==> r.steps[i].index < r.steps[j].index)
  {
    hide Execute, Ended, LedgerBehind;
    var s, pre, synth, mem := ExecuteEnds(w);
    var r := Execute(w);
    forall i | 0 <= i < |r.steps| ensures Numbered(r, i) {
      RowNumbered(w, r, pre, synth, mem, i);
    }
    forall i, j | 0 <= i < j < |r.steps| ensures r.steps[i].index < r.steps[j].index {
      RowNumbered(w, r, pre, synth, mem, i);
      RowNumbered(w, r, pre, synth, mem, j);
    }
  }

  lemma RowNumbered(w: World, r: Run, pre: seq<StepRow>, synth: seq<StepRow>, mem: seq<StepRow>, i: nat)
    requires Closed(w, r, pre, synth, mem) && i < |r.steps|
    ensures var k, n := |pre|, |r.leafOutputs|;
            && Numbered(r, i)
            && k <= 1 && |synth| <= 1 && |mem| <= 1 && |r.steps| == k + n + |synth| + |mem|
            && r.steps[i].index == if i < k then 0 else if i < k + n then i + 1 - k
                                   else if i < k + n + |synth| then n + 1 else n + 2
  {
    hide Books, Affordable, CallsAffordable;
    var k := |pre|;
    if 0 < |r.leafOutputs| {
      LeafRowAt(r.leafOutputs, 0);
    }
    if k <= i < k + |r.leafOutputs| {
      LeafRowAt(r.leafOutputs, i - k);
      assert r.steps[i] == LeafRows(r.leafOutputs)[i - k];
    }
    assert k == RowsBefore(r.steps) by {
      if k == 0 && r.leafOutputs != [] {
        assert r.steps[0] == LeafRows(r.leafOutputs)[0];
      }
    }
  }

  // ---------------------------------------------------------------- budget

  lemma {:induction false} AffordableAt(w: World, rows: seq<StepRow>, i: nat)
    requires Affordable(w, rows) && i < |rows| && rows[i].role != Memory
    ensures SumCost(rows[..i]) + EstimateStepCost(RoleKey(rows[i].role)) <= w.cap
    ensures SumCost(rows[..i + 1]) == SumCost(rows[..i]) + rows[i].cost
    decreases |rows|
  {
    assert rows[..i + 1][..i] == rows[..i];
    if i == |rows| - 1 {
      assert rows[..i + 1] == rows;
    } else {
      var init := rows[..|rows| - 1];
      AffordableAt(w, init, i);
      assert init[..i] == rows[..i] && init[..i + 1] == rows[..i + 1];
    }
  }

  /** Row i was affordable when its call started, and the total after it is bounded by its estimate. */
  ghost predicate RowWithinCap(w: World, rows: seq<StepRow>, i: nat)
    requires i < |rows|
  {
    rows[i].role != Memory ==>
      var e := EstimateStepCost(RoleKey(rows[i].role));
      SumCost(rows[..i]) + e <= w.cap && SumCost(rows[..i + 1]) <= w.cap - e + rows[i].cost
  }

  lemma AffordableEverywhere(w: World, rows: seq<StepRow>)
    requires Affordable(w, rows)
    ensures forall i :: 0 <= i < |rows| ==> RowWithinCap(w, rows, i)
  {
    forall i | 0 <= i < |rows| ensures RowWithinCap(w, rows, i) {
      if rows[i].role != Memory {
        AffordableAt(w, rows, i);
      }
    }
  }

  /** A paid leaf or Master call starts only while what is spent and its estimate stay within the cap,
      even if the call then fails; so after a recorded call the total is at most cap - estimate + cost. */
  lemma PaidCallsWithinCap(w: World)
    ensures var r := Execute(w);
            CallsAffordable(w, r) && forall i :: 0 <= i < |r.steps| ==> RowWithinCap(w, r.steps, i)
  {
    hide RowWithinCap;
    var s, _, _, _ := ExecuteEnds(w);
    hide Execute, Affordable, CallsAffordable;
    AffordableEverywhere(w, Execute(w).steps);
  }

  /** A successful run spends at most the cap, plus the memory call, which nothing checks. */
  lemma SuccessWithinCap(w: World)
    requires w.cap >= 0.0 && Execute(w).exit == ExitSucceeded
    ensures var r := Execute(w); SumCost(r.steps) <= w.cap + SumCost(MemoryRow(w, |r.leafOutputs|))
  {
    hide WorkRows, SumCost, FinishSucceeded;
    var s, _, _, _ := ExecuteEnds(w);
    WorkWithinCap(w);
    var rows, mem := WorkRows(w, s.leafOutputs), MemoryRow(w, |s.leafOutputs|);
    SumCostMemory(rows, mem);
  }

  lemma SumCostMemory(rows: seq<StepRow>, mem: seq<StepRow>)
    requires |mem| <= 1
    ensures SumCost(rows + mem) == SumCost(rows) + SumCost(mem)
  {
    if mem == [] {
      assert rows + mem == rows;
    } else {
      SumsAppended(rows, mem[0]);
      SumsAppended([], mem[0]);
      assert mem == [mem[0]] == [] + [mem[0]];
    }
  }

  lemma WorkWithinCap(w: World)
    requires w.cap >= 0.0 && Execute(w).exit == ExitSucceeded
    ensures SumCost(WorkRows(w, Execute(w).leafOutputs)) <= w.cap
  {
    var pre, synth := WorkKeeps(w);
    SuccessFromWork(w);
    var run := Work(w, Begin(w)).run;
    BooksOf(w, run, pre, synth);
  }

  lemma SuccessFromWork(w: World)
    requires Execute(w).exit == ExitSucceeded
    ensures Work(w, Begin(w)).Ok? && Execute(w).leafOutputs == Work(w, Begin(w)).run.leafOutputs
  {
    hide Work, ExtractMemory;
    match Work(w, Begin(w))
    case Err(_, _) =>
    case Ok(run) =>
      MemoryLeaves(w, Reread(w, run));
      MemoryLeaves(w, Interfere(w, Reread(w, run)));
  }

  lemma MemoryLeaves(w: World, s: Run)
    ensures ExtractMemory(w, s).leafOutputs == s.leafOutputs
  {
  }

  /** Every recorded call costs at most its estimate. */
  ghost predicate EstimatesHold(w: World) {
    && (forall n: nat, agent, prompt :: RecordedWithin(w.leaf(n, agent, prompt), EstimateStepCost(agent)))
    && RecordedWithin(w.masterPlan, EstimateStepCost(RoleKey(MasterPlan)))
    && RecordedWithin(w.synthesis, EstimateStepCost(RoleKey(Synthesis)))
  }

  ghost predicate RecordedWithin(c: Call, estimate: real) {
    c.Answered? && c.recording.Recorded? ==> c.recording.cost <= estimate
  }

  /** If every cost is within its estimate, no check after a call ever raises. */
  lemma EstimatesHoldNoPostCheck(w: World)
    requires EstimatesHold(w)
    ensures var r := Work(w, Begin(w)); r.Err? ==> r.error != OverBudgetAfter
  {
    hide Coordinate, MasterCall, Begin;
    var admitted := Admit(w, Begin(w));
    if admitted.Ok? {
      if w.master {
        MasterCallNoPost(w, admitted.run, MasterPlan, w.masterPlan, 0);
        var planned := MasterCall(w, admitted.run, MasterPlan, w.masterPlan, 0);
        if planned.Ok? {
          CoordinateNoPost(w, planned.run);
          var worked := Coordinate(w, planned.run);
          if worked.Ok? {
            MasterCallNoPost(w, worked.run, Synthesis, w.synthesis, |worked.run.artifacts| + 1);
          }
        }
      } else {
        CoordinateNoPost(w, admitted.run);
      }
    }
  }

  ghost predicate NoPost(r: Result) {
    r.Err? ==> r.error != OverBudgetAfter
  }

  lemma MasterCallNoPost(w: World, s: Run, role: Role, call: Call, index: nat)
    requires RecordedWithin(call, EstimateStepCost(RoleKey(role)))
    ensures NoPost(MasterCall(w, s, role, call, index))
  {
  }

  lemma DelegateNoPost(w: World, s: Run, agent: string, prompt: string)
    requires EstimatesHold(w)
    ensures NoPost(Delegate(w, s, agent, prompt))
  {
    var s1 := Publish(Interfere(w, s), DelegationStarted(agent));
    assert RecordedWithin(w.leaf(s1.stepIndex, agent, prompt), EstimateStepCost(agent));
  }

  lemma {:induction false} DelegatePlanNoPost(w: World, s: Run, plan: seq<PlanStep>)
    requires EstimatesHold(w)
    ensures NoPost(DelegatePlan(w, s, plan))
    decreases |plan|
  {
    if plan != [] {
      var step := plan[0];
      DelegateNoPost(w, s, step.agent, ComposeSubPrompt(step.goal, s.priorContext));
      hide Delegate;
      var r := DelegateStep(w, s, step);
      if r.Ok? {
        DelegatePlanNoPost(w, r.run, plan[1..]);
      }
    }
  }

  lemma CoordinateNoPost(w: World, s: Run)
    requires EstimatesHold(w)
    ensures NoPost(Coordinate(w, s))
  {
    match w.coordinator
    case PlanFails(_) =>
    case Planned(steps) => DelegatePlanNoPost(w, Interfere(w, s), OrderedSteps(steps));
  }

  // ---------------------------------------------------------------- cancellation

  /** Extracting memory adds at most one row, and a cancel may still be committed before it or after. */
  lemma MemoryMark(w: World, s: Run)
    requires s.cancelledAt.None?
    ensures var r := ExtractMemory(w, s);
            && (r.cancelledAt.None? || |s.steps| <= r.cancelledAt.value <= |r.steps|)
            && (r.steps == s.steps || (|r.steps| == |s.steps| + 1 && r.steps[..|s.steps|] == s.steps
                                       && r.steps[|s.steps|].role == Memory))
            && (w.memory.None? ==> r == s)
  {
  }

  /** The ways out leave the rows alone, and find a cancel that is already marked or land on a new one. */
  lemma FinishMark(w: World, s: Run, code: string)
    ensures var r := FinishSucceeded(w, s);
            r.steps == s.steps && SameMarkOrEnd(s, r) && r.exit == ExitSucceeded
    ensures var r := FinishFailed(w, s, code, "failed");
            r.steps == s.steps && SameMarkOrEnd(s, r) && r.exit == ExitFailed(code)
    ensures var r := FinishCancelled(w, s);
            r.steps == s.steps && r.cancelledAt == s.cancelledAt && r.exit == ExitCancelled && r.status == s.status
  {
    hide SumIn, SumOut;
  }

  ghost predicate SameMarkOrEnd(s: Run, r: Run) {
    r.cancelledAt == s.cancelledAt || r.cancelledAt == Some(|s.steps|)
  }

  /** From the final re-read to the end: nothing but the memory row is added, a cancel is marked where it lands. */
  ghost predicate Concluded(w: World, s: Run, r: Run) {
    && (r.cancelledAt.None? || |s.steps| <= r.cancelledAt.value <= |r.steps|)
    && (r.steps == s.steps || (|r.steps| == |s.steps| + 1 && r.steps[..|s.steps|] == s.steps
                               && r.steps[|s.steps|].role == Memory && r.exit == ExitSucceeded && w.memory.Some?))
  }

  lemma SucceedMark(w: World, s: Run, s1: Run)
    requires s1.steps == s.steps
    requires s1.cancelledAt.None? || (s1.cancelledAt == Some(|s.steps|) && s1.status == CancelledStatus)
    ensures Concluded(w, s, FinishSucceeded(w, ExtractMemory(w, s1)))
  {
    FinishMark(w, ExtractMemory(w, s1), "");
    hide ExtractMemory, FinishSucceeded;
    if s1.cancelledAt.None? {
      MemoryMark(w, s1);
    } else {
      MemoryMarkCancelled(w, s1);
    }
  }

  /** What may still happen after the final re-read. */
  lemma ConcludeMark(w: World, s: Run, pre: seq<StepRow>, synth: seq<StepRow>)
    requires Inv(w, s, pre, synth)
    ensures var r := Conclude(w, s);
            && (s.cancelledAt.Some? ==> r.exit == ExitCancelled && r.status == CancelledStatus
                                        && r.cancelledAt == s.cancelledAt && r.steps == s.steps)
            && (s.cancelledAt.None? ==> Concluded(w, s, r))
  {
    hide Inv, ExtractMemory, WithinBudget, FinishSucceeded, FinishFailed, FinishCancelled, CancelMark;
    MarkOf(w, s, pre, synth);
    MarkedIsSeen(w, s, synth);
    if s.cancelledAt.None? {
      match w.screen
      case ScreenBlocks(code) => FinishMark(w, Interfere(w, s), code);
      case ScreenPasses => SucceedMark(w, s, Interfere(w, s));
      case NoScreen => SucceedMark(w, s, s);
    } else {
      FinishMark(w, s, "");
    }
  }

  lemma MarkedIsSeen(w: World, s: Run, synth: seq<StepRow>)
    requires CancelMark(w, s, synth)
    ensures SeesCancel(w, s) <==> s.cancelledAt.Some?
  {
  }

  lemma MemoryMarkCancelled(w: World, s: Run)
    requires s.status == CancelledStatus
    ensures var r := ExtractMemory(w, s);
            && r.cancelledAt == s.cancelledAt
            && (r.steps == s.steps || (|r.steps| == |s.steps| + 1 && r.steps[..|s.steps|] == s.steps
                                       && r.steps[|s.steps|].role == Memory))
            && (w.memory.None? ==> r == s)
  {
  }

  /** Which calls can still be charged once another session has committed a cancel: the leaf already past
      its re-read, or a plan call under way; one synthesis call after that; and the memory call of a run
      that had passed its final re-read. */
  ghost predicate ChargedAfterCommit(r: Run, m: nat) {
    m <= |r.steps| &&
    forall i :: m <= i < |r.steps| ==>
      match r.steps[i].role
      case MasterPlan => i == m
      case Delegation(_) => i == m
      case Synthesis => i <= m + 1
      case Memory => r.exit == ExitSucceeded && i == |r.steps| - 1
  }

  lemma AtMostOneLeafAfterCommit(w: World)
    ensures var r := Execute(w); r.cancelledAt.Some? ==> ChargedAfterCommit(r, r.cancelledAt.value)
  {
    hide Execute, Inv, Conclude, FollowsPlan, LedgerBehind, Work, WorkRows, Settled, Interfere, CompletedPlan;
    var pre, synth := WorkKeeps(w);
    var run := Work(w, Begin(w)).run;
    var r := Execute(w);
    WorkMark(w, run, pre, synth);
    ExecuteSteps(w);
    if Work(w, Begin(w)).Ok? {
      RereadKeeps(w, run, pre, synth);
      ConcludeMark(w, Reread(w, run), pre, synth);
    }
  }

  lemma ExecuteSteps(w: World)
    ensures match Work(w, Begin(w))
            case Ok(run) => Execute(w) == Conclude(w, Reread(w, run)) && Reread(w, run).steps == run.steps
            case Err(run, e) => Execute(w).steps == run.steps && SameMarkOrEnd(run, Execute(w))
                                && Execute(w).exit != ExitSucceeded
    ensures Work(w, Begin(w)).Ok? ==>
              var run := Work(w, Begin(w)).run;
              Reread(w, run).cancelledAt == run.cancelledAt || Reread(w, run).cancelledAt == Some(|run.steps|)
  {
    hide Work, Conclude;
  }

  lemma MarkOf(w: World, s: Run, pre: seq<StepRow>, synth: seq<StepRow>)
    requires Inv(w, s, pre, synth)
    ensures CancelMark(w, s, synth)
  {
  }

  /** The rows of the working phase after a commit. */
  lemma WorkMark(w: World, s: Run, pre: seq<StepRow>, synth: seq<StepRow>)
    requires Inv(w, s, pre, synth)
    ensures s.cancelledAt.Some? ==> ChargedAfterCommit(s, s.cancelledAt.value)
    ensures forall i :: 0 <= i < |s.steps| ==> s.steps[i].role != Memory
    ensures s.cancelledAt.None? ==> ChargedAfterCommit(s, |s.steps|)
  {
    hide Books, Affordable, CallsAffordable, Unfinished;
    forall i | 0 <= i < |s.steps|
      ensures s.steps[i].role == MasterPlan ==> i == 0
      ensures s.steps[i].role.Delegation? ==> i < |s.steps| - |synth|
      ensures s.steps[i].role != Memory
    {
      if |pre| <= i < |pre| + |s.leafOutputs| {
        LeafRowAt(s.leafOutputs, i - |pre|);
        assert s.steps[i] == LeafRows(s.leafOutputs)[i - |pre|];
      }
    }
  }

  /** A run that reaches the final re-read after a committed cancel publishes task.cancelled, keeps the
      cancelled status and records nothing more; so a run that ends as succeeded was cancelled, if at
      all, only after that re-read. */
  lemma FinalRereadHonoursCancel(w: World)
    ensures Work(w, Begin(w)).Ok? && Interfere(w, Work(w, Begin(w)).run).cancelledAt.Some? ==>
              var r := Execute(w);
              && r.exit == ExitCancelled && r.status == CancelledStatus
              && r.ledger != [] && r.ledger[|r.ledger| - 1] == Cancelled(SumCost(r.steps))
              && r.steps == WorkRows(w, r.leafOutputs)
    ensures var r := Execute(w);
            r.exit == ExitSucceeded && r.cancelledAt.Some? ==>
              |WorkRows(w, r.leafOutputs)| <= r.cancelledAt.value <= |r.steps|
  {
    hide Inv, Work, WorkRows, FollowsPlan, LedgerBehind, Conclude;
    var pre, synth := WorkKeeps(w);
    var run := Work(w, Begin(w)).run;
    ExecuteSteps(w);
    if Work(w, Begin(w)).Ok? {
      RereadKeeps(w, run, pre, synth);
      ConcludeMark(w, Reread(w, run), pre, synth);
      ConcludeCancelled(w, Reread(w, run), pre, synth);
      if Execute(w).exit == ExitSucceeded {
        SuccessFromWork(w);
      }
    }
  }

  lemma ConcludeCancelled(w: World, s: Run, pre: seq<StepRow>, synth: seq<StepRow>)
    requires Inv(w, s, pre, synth)
    ensures s.cancelledAt.Some? ==>
              var r := Conclude(w, s);
              && r.ledger != [] && r.ledger[|r.ledger| - 1] == Cancelled(SumCost(r.steps))
              && r.leafOutputs == s.leafOutputs
  {
    BooksOf(w, s, pre, synth);
    hide Inv, ExtractMemory;
  }

  /** The guarantee the cancel check is written for: after the commit nothing but the one leaf already
      under way is charged. */
  ghost predicate OnlyOneLeafCharged(r: Run) {
    r.cancelledAt.Some? ==>
      forall i :: r.cancelledAt.value <= i < |r.steps| ==> OneLeafAt(r.steps[i], i, r.cancelledAt.value)
  }

  ghost predicate OneLeafAt(row: StepRow, i: nat, m: nat) {
    i == m && row.role.Delegation?
  }

  lemma GuaranteeWithoutMasterAndMemory(w: World)
    requires !(w.master && w.recorder) && w.memory.None?
    ensures OnlyOneLeafCharged(Execute(w))
  {
    hide Execute, Inv, Work, Conclude, FollowsPlan, LedgerBehind, WorkRows, Settled;
    var pre, synth := WorkKeeps(w);
    var run := Work(w, Begin(w)).run;
    ExecuteSteps(w);
    AtMostOneLeafAfterCommit(w);
    LeavesOnly(w, run);
    if Work(w, Begin(w)).Ok? {
      RereadKeeps(w, run, pre, synth);
      ConcludeMark(w, Reread(w, run), pre, synth);
    }
    var r := Execute(w);
    assert r.steps == run.steps;
    if r.cancelledAt.Some? {
      forall i | r.cancelledAt.value <= i < |r.steps|
        ensures OneLeafAt(r.steps[i], i, r.cancelledAt.value)
      {
        assert run.steps[i].role.Delegation?;
      }
    }
  }

  lemma LeavesOnly(w: World, s: Run)
    requires Inv(w, s, [], [])
    ensures forall i :: 0 <= i < |s.steps| ==> s.steps[i].role.Delegation?
  {
    forall i | 0 <= i < |s.steps| ensures s.steps[i].role.Delegation? {
      LeafRowAt(s.leafOutputs, i);
    }
  }

  const ANY_CALL: Call := Answered("", 0, 0, Recorded(1.0))

  /** A Master run in which the cancel is committed during the plan call. */
  function CancelDuringPlan(memory: Option<MemoryCall>): World {
    World(true, DEFAULT_TASK_CAP, NoQuota, [], true, true, ANY_CALL, PlanFails("planner"),
          (n, agent, prompt) => ANY_CALL, ANY_CALL, NoScreen, memory, n => true)
  }

  lemma PlanRowRecorded(w: World)
    requires w == CancelDuringPlan(w.memory)
    ensures var r := MasterCall(w, Begin(w), MasterPlan, w.masterPlan, 0);
            r.Ok? && r.run.steps == [StepRow(MasterPlan, 0, 0, 0, 1.0)] && r.run.cancelledAt == Some(0)
  {
  }

  lemma PlanChargedAfterCommit(w: World)
    requires w == CancelDuringPlan(w.memory)
    ensures !OnlyOneLeafCharged(Execute(w))
  {
    PlanRowRecorded(w);
    var planned := MasterCall(w, Begin(w), MasterPlan, w.masterPlan, 0);
    hide MasterCall, Begin;
    assert Execute(w).steps == planned.run.steps && Execute(w).cancelledAt == Some(0);
    assert Execute(w).steps[0].role == MasterPlan;
  }

  /** A run without a Master in which the cancel is committed after the final re-read. */
  function CancelDuringMemory(recorder: bool): World {
    World(true, DEFAULT_TASK_CAP, NoQuota, [], false, recorder, ANY_CALL, Planned([]),
          (n, agent, prompt) => ANY_CALL, ANY_CALL, NoScreen,
          Some(Verdict(false, [], n => false, 0, 0, Recorded(1.0))), n => n == 2)
  }

  lemma MemoryChargedAfterCommit(w: World)
    requires w == CancelDuringMemory(w.recorder)
    ensures !OnlyOneLeafCharged(Execute(w)) && Execute(w).status == Succeeded
  {
    var s := Begin(w);
    assert OrderedSteps([]) == [];
    assert Work(w, s) == Ok(Interfere(w, s));
    var reread := Reread(w, Interfere(w, s));
    EmptyRunConcludes(w, reread);
    hide Conclude, Work;
    assert Execute(w) == Conclude(w, reread);
  }

  lemma EmptyRunConcludes(w: World, s: Run)
    requires w == CancelDuringMemory(w.recorder) && s.steps == [] && s.leafOutputs == [] && s.status == Running
             && s.clock == 2
    ensures var r := Conclude(w, s);
            !OnlyOneLeafCharged(r) && r.status == Succeeded
  {
    var r := Conclude(w, s);
    assert r.steps == [StepRow(Memory, 2, 0, 0, 1.0)] && r.cancelledAt == Some(0);
    assert r.steps[0].role == Memory;
  }

  /** The guarantee holds in every run exactly when no Master is billed and no memory is extracted: those
      calls are charged without a re-read of the status. */
  lemma CancelGuaranteeIff(billedMaster: bool, memory: bool)
    ensures (forall w: World :: (w.master && w.recorder) == billedMaster && w.memory.Some? == memory
                                ==> OnlyOneLeafCharged(Execute(w)))
            <==> !billedMaster && !memory
  {
    if !billedMaster && !memory {
      forall w: World | !(w.master && w.recorder) && w.memory.None? ensures OnlyOneLeafCharged(Execute(w)) {
        GuaranteeWithoutMasterAndMemory(w);
      }
    } else if billedMaster {
      var w := CancelDuringPlan(if memory then Some(FilterFails("")) else None);
      PlanChargedAfterCommit(w);
      assert w.master && w.recorder && w.memory.Some? == memory;
    } else {
      var w := CancelDuringMemory(false);
      MemoryChargedAfterCommit(w);
      assert !w.master && w.memory.Some?;
    }
  }

  /** A cancel committed while the Coordinator's call then fails is overwritten by 'failed'. */
  lemma CancelOverwrittenByFailure()
    ensures exists w: World :: var r := Execute(w); r.cancelledAt.Some? && r.status == FailedStatus
  {
    var w := CancelDuringPlan(None).(master := false);
    var r := Execute(w);
    assert Work(w, Begin(w)) == Err(Interfere(w, Begin(w)), OtherError("planner"));
    assert r.cancelledAt.Some? && r.status == FailedStatus;
  }

  // ---------------------------------------------------------------- memory

  /** What memory extraction may write: a first part of the entries, and the bill only after all of them. */
  ghost predicate EntriesBeforeBill(w: World, stored: seq<string>, billed: bool) {
    match w.memory
    case None => stored == [] && !billed
    case Some(FilterFails(_)) => stored == [] && !billed
    case Some(Verdict(shouldRemember, entries, refused, _, _, recording)) =>
      var wanted := if shouldRemember then entries else [];
      && stored <= wanted
      && (forall k :: 0 <= k < |stored| ==> !refused(k))
      && (|stored| < |wanted| ==> !billed && (stored == [] || !refused(|stored| - 1)))
      && (billed ==> stored == wanted && recording.Recorded?)
  }

  lemma ExtractStores(w: World, s: Run)
    requires s.stored == []
    ensures var r := ExtractMemory(w, s);
            EntriesBeforeBill(w, r.stored, r.steps != s.steps)
  {
    match w.memory
    case None =>
    case Some(FilterFails(_)) =>
    case Some(Verdict(shouldRemember, entries, refused, inTokens, outTokens, recording)) =>
      var written := if shouldRemember then StoredEntries(entries, refused, 0) else [];
      hide StoredEntries;
      assert [] + written == written && Interfere(w, s).stored == [];
      if shouldRemember {
        assert written == entries[0..|written|];
      }
      assert |written| == |entries| ==> entries[0..|entries|] == entries;
  }

  lemma NothingStored(w: World)
    ensures EntriesBeforeBill(w, [], false)
  {
  }

  lemma FinishStores(w: World, s: Run, code: string, outcome: string)
    ensures FinishSucceeded(w, s).stored == s.stored && FinishCancelled(w, s).stored == s.stored
    ensures FinishFailed(w, s, code, outcome).stored == s.stored
  {
  }

  lemma ConcludeStores(w: World, s: Run)
    requires s.stored == []
    ensures var r := Conclude(w, s); EntriesBeforeBill(w, r.stored, r.steps != s.steps)
  {
    hide ExtractMemory, FinishSucceeded, FinishFailed, FinishCancelled, EntriesBeforeBill;
    NothingStored(w);
    FinishStores(w, s, "", "");
    FinishMark(w, s, "");
    if !SeesCancel(w, s) {
      match w.screen
      case ScreenBlocks(code) =>
        FinishStores(w, Interfere(w, s), code, "failed");
        FinishMark(w, Interfere(w, s), code);
      case ScreenPasses =>
        ExtractStores(w, Interfere(w, s));
        FinishStores(w, ExtractMemory(w, Interfere(w, s)), "", "");
        FinishMark(w, ExtractMemory(w, Interfere(w, s)), "");
      case NoScreen =>
        ExtractStores(w, s);
        FinishStores(w, ExtractMemory(w, s), "", "");
        FinishMark(w, ExtractMemory(w, s), "");
    }
  }

  ghost predicate BilledMemory(rows: seq<StepRow>) {
    exists i :: 0 <= i < |rows| && rows[i].role == Memory
  }

  /** In every run the memory call is billed only once all its entries are written; when the store refuses
      an entry only those before it stay, and nothing is billed. */
  lemma MemoryBilledLast(w: World)
    ensures var r := Execute(w); EntriesBeforeBill(w, r.stored, BilledMemory(r.steps))
  {
    hide EntriesBeforeBill, Work, Conclude, FollowsPlan, LedgerBehind, WorkRows, Settled, CompletedPlan;
    var pre, synth := WorkKeeps(w);
    var run := Work(w, Begin(w)).run;
    assert run.stored == [];
    WorkMark(w, run, pre, synth);
    ExecuteSteps(w);
    NothingStored(w);
    if Work(w, Begin(w)).Ok? {
      var s := Reread(w, run);
      RereadKeeps(w, run, pre, synth);
      hide Inv;
      ConcludeMark(w, s, pre, synth);
      ConcludeStores(w, s);
      MemoryRowIff(w, s, Execute(w));
    } else {
      var e := Work(w, Begin(w)).error;
      FinishStores(w, run, ErrorCode(e), FailureOutcome(ErrorCode(e)));
    }
  }

  lemma MemoryRowIff(w: World, s: Run, r: Run)
    requires forall i :: 0 <= i < |s.steps| ==> s.steps[i].role != Memory
    requires Concluded(w, s, r) || r.steps == s.steps
    ensures BilledMemory(r.steps) <==> r.steps != s.steps
  {
  }

  /** The entries up to the first that the store refuses. */
  ghost predicate StoredUpToRefusal(entries: seq<string>, refused: nat -> bool, stored: seq<string>) {
    && stored <= entries && (forall k :: 0 <= k < |stored| ==> !refused(k))
    && (|stored| < |entries| ==> refused(|stored|))
  }

  /** A run that succeeds has stored the wanted entries up to the first refused one. */
  ghost predicate MemoryWritten(w: World, stored: seq<string>) {
    match w.memory
    case Some(Verdict(true, entries, refused, _, _, _)) => StoredUpToRefusal(entries, refused, stored)
    case _ => stored == []
  }

  lemma ExtractWrites(w: World, s: Run)
    requires s.stored == []
    ensures MemoryWritten(w, ExtractMemory(w, s).stored)
  {
    match w.memory
    case None =>
    case Some(FilterFails(_)) =>
    case Some(Verdict(shouldRemember, entries, refused, _, _, _)) =>
      var written := if shouldRemember then StoredEntries(entries, refused, 0) else [];
      hide StoredEntries;
      assert [] + written == written && Interfere(w, s).stored == [];
      if shouldRemember {
        assert written == entries[0..|written|];
      }
  }

  /** What a successful run leaves in the memory store. */
  lemma SuccessStores(w: World)
    requires Execute(w).exit == ExitSucceeded
    ensures MemoryWritten(w, Execute(w).stored)
  {
    hide MemoryWritten, Work, ExtractMemory, FinishSucceeded, FinishFailed, FinishCancelled, Inv, FollowsPlan,
         LedgerBehind, WorkRows, Settled, CompletedPlan;
    var pre, synth := WorkKeeps(w);
    NothingYet(w, Work(w, Begin(w)).run, pre, synth);
    match Work(w, Begin(w))
    case Err(s, e) => FinishMark(w, s, ErrorCode(e)); FinishExits(w, s, ErrorCode(e), FailureOutcome(ErrorCode(e)));
    case Ok(run) =>
      var s := Reread(w, run);
      FinishMark(w, s, "");
      FinishMark(w, Interfere(w, s), if w.screen.ScreenBlocks? then w.screen.code else "");
      ExtractWrites(w, s);
      ExtractWrites(w, Interfere(w, s));
      FinishStores(w, ExtractMemory(w, s), "", "");
      FinishStores(w, ExtractMemory(w, Interfere(w, s)), "", "");
  }

  lemma NothingYet(w: World, s: Run, pre: seq<StepRow>, synth: seq<StepRow>)
    requires Inv(w, s, pre, synth)
    ensures s.stored == [] && Reread(w, s).stored == [] && Interfere(w, Reread(w, s)).stored == []
  {
  }

  lemma FinishExits(w: World, s: Run, code: string, outcome: string)
    ensures FinishFailed(w, s, code, outcome).exit == ExitFailed(code)
  {
  }

  // ---------------------------------------------------------------- outcome

  /** Exit, terminal event and measured outcome say the same. */
  ghost predicate Labelled(w: World, exit: Exit, last: TaskEvent, outcome: string) {
    match exit
    case StillRunning => false
    case ExitSucceeded => last.Completed? && outcome == "succeeded"
    case ExitCancelled => last.Cancelled? && outcome == "cancelled"
    case ExitFailed(code) =>
      && last.Failed? && last.code == code
      && (outcome == (if OverBudgetCode(code) then "budget_exceeded" else "failed")
          || (outcome == "failed" && w.screen == ScreenBlocks(code)))
  }

  /** The codes that are measured as an exceeded budget. */
  ghost predicate OverBudgetCode(code: string) {
    || code == "tasks.budget_exceeded" || code == "llm_gateway.budget_exceeded"
    || code == "billing.cell_quota_exceeded" || code == "billing.daily_quota_exceeded"
  }

  lemma FailureOutcomeIs(code: string)
    ensures FailureOutcome(code) == if OverBudgetCode(code) then "budget_exceeded" else "failed"
  {
  }

  ghost predicate LastLabelled(w: World, r: Run) {
    && r.ledger != [] && r.outcomes != []
    && Labelled(w, r.exit, r.ledger[|r.ledger| - 1], r.outcomes[|r.outcomes| - 1])
  }

  lemma FinishLabels(w: World, s: Run, code: string, outcome: string)
    ensures LastLabelled(w, FinishSucceeded(w, s)) && LastLabelled(w, FinishCancelled(w, s))
    ensures outcome == FailureOutcome(code) || (outcome == "failed" && w.screen == ScreenBlocks(code)) ==>
              LastLabelled(w, FinishFailed(w, s, code, outcome))
  {
    FailureOutcomeIs(code);
    hide FailureOutcome, OverBudgetCode;
  }

  lemma ConcludeLabels(w: World, s: Run)
    ensures LastLabelled(w, Conclude(w, s))
  {
    hide LastLabelled, ExtractMemory, FinishSucceeded, FinishFailed, FinishCancelled, Interfere, FailureOutcome;
    FinishLabels(w, s, "", "");
    match w.screen
    case ScreenBlocks(code) => FinishLabels(w, Interfere(w, s), code, "failed");
    case ScreenPasses => FinishLabels(w, ExtractMemory(w, Interfere(w, s)), "", "");
    case NoScreen => FinishLabels(w, ExtractMemory(w, s), "", "");
  }

  lemma ExecuteLabels(w: World)
    ensures LastLabelled(w, Execute(w))
  {
    hide Work, Conclude, LastLabelled, FinishFailed, FinishCancelled, FailureOutcome;
    match Work(w, Begin(w))
    case Ok(s) => ConcludeLabels(w, Reread(w, s));
    case Err(s, e) => FinishLabels(w, s, ErrorCode(e), FailureOutcome(ErrorCode(e)));
  }

  /** Every run measures exactly one outcome, and it is the one its exit and its terminal event name;
      an exceeded budget or quota is measured as such. */
  lemma OutcomeTellsTheExit(w: World)
    ensures var r := Execute(w);
            r.ledger != [] && |r.outcomes| == 1 && Labelled(w, r.exit, r.ledger[|r.ledger| - 1], r.outcomes[0])
  {
    LedgerAlwaysShaped(w);
    ExecuteLabels(w);
    hide Execute, LedgerShape;
  }
}
