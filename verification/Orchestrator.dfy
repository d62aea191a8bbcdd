/** The task execution as the program runs it: fields updated step by step, exceptions as returned errors.
    Every method is proved to take the run to where TaskRun's function takes it. */
module Orchestrator {
  import opened Text
  import opened TaskEvents
  import opened BudgetGuard
  import opened PlanOrdering
  import opened TaskRun
  import opened TaskRunLaws
  import opened TaskRunTheorems
  import ArtifactText

  /** One round of the loop that writes the entries. */
  lemma EntryStored(entries: seq<string>, refused: nat -> bool, i: nat)
    requires i < |entries|
    requires StoredEntries(entries, refused, 0) == entries[..i] + StoredEntries(entries, refused, i)
    ensures entries[..i + 1] == entries[..i] + [entries[i]]
    ensures refused(i) ==> StoredEntries(entries, refused, 0) == entries[..i]
    ensures !refused(i) ==>
              StoredEntries(entries, refused, 0) == entries[..i + 1] + StoredEntries(entries, refused, i + 1)
  {
    assert entries[..i] + [] == entries[..i];
    Assoc(entries[..i], [entries[i]], StoredEntries(entries, refused, i + 1));
  }

  lemma AllStored(entries: seq<string>, refused: nat -> bool)
    ensures StoredEntries(entries, refused, |entries|) == [] && entries[..|entries|] + [] == entries
  {
  }

  class TaskExecution {
    const w: World
    var clock: nat
    var rereads: seq<nat>
    var status: Status
    var cancelledAt: Option<nat>
    var accumulatedCost: real
    var leafOutputs: seq<LeafResult>
    var masterIn: nat
    var masterOut: nat
    var memoryIn: nat
    var memoryOut: nat
    var stepIndex: nat
    var artifacts: seq<string>
    var priorContext: string
    var calls: seq<PaidCall>
    var steps: seq<StepRow>
    var stored: seq<string>
    var ledger: seq<TaskEvent>
    var gauge: int
    var outcomes: seq<string>
    var total: Option<real>
    var totalIn: Option<nat>
    var totalOut: Option<nat>
    var exit: Exit

    function View(): Run
      reads this
    {
      Run(clock, rereads, status, cancelledAt, accumulatedCost, leafOutputs, masterIn, masterOut, memoryIn, memoryOut,
          stepIndex, artifacts, priorContext, calls, steps, stored, ledger, gauge, outcomes, total, totalIn, totalOut,
          exit)
    }

    /** The run and the error raised, as the specification's result. */
    function Outcome(err: Option<RunError>): Result
      reads this
    {
      match err
      case None => Ok(View())
      case Some(e) => Err(View(), e)
    }

    constructor (w: World)
      ensures this.w == w && View() == FRESH
    {
      this.w := w;
      clock, rereads, status, cancelledAt, accumulatedCost, leafOutputs := 0, [], Queued, None, 0.0, [];
      masterIn, masterOut, memoryIn, memoryOut, stepIndex := 0, 0, 0, 0, 0;
      artifacts, priorContext, calls, steps, stored, ledger := [], "", [], [], [], [];
      gauge, outcomes, total, totalIn, totalOut, exit := 0, [], None, None, None, StillRunning;
    }

    /** The other session commits a cancel. */
    method CommitCancel()
      modifies this`status, this`cancelledAt
      ensures View() == old(View()).(status := CancelledStatus, cancelledAt := Some(|old(View()).steps|))
    {
      status := CancelledStatus;
      cancelledAt := Some(|steps|);
    }

    method Tick()
      modifies this`clock
      ensures View() == old(View()).(clock := old(View()).clock + 1)
    {
      clock := clock + 1;
    }

    /** A point at which the other session may act. */
    method Await()
      modifies this
      ensures View() == Interfere(w, old(View()))
    {
      var cancel := w.hasRow && status == Running && w.cancels(clock);
      assert cancel == (w.hasRow && View().status == Running && w.cancels(View().clock));
      hide View;
      if cancel {
        CommitCancel();
      }
      Tick();
    }

    /** Read the persisted status again. */
    method ReadPersistedStatus() returns (cancelled: bool)
      modifies this
      ensures View() == Reread(w, old(View())) && cancelled == SeesCancel(w, View())
    {
      hide Interfere;
      Await();
      rereads := rereads + [clock];
      cancelled := w.hasRow && status == CancelledStatus;
    }

    method PublishEvent(e: TaskEvent)
      modifies this`ledger
      ensures View() == Publish(old(View()), e)
    {
      ledger := ledger + [e];
    }

    /** One step row, and its cost on the running total. */
    method RecordStep(row: StepRow)
      modifies this`steps, this`accumulatedCost
      ensures View() == old(View()).(steps := old(View()).steps + [row],
                                     accumulated := old(View()).accumulated + row.cost)
    {
      steps := steps + [row];
      accumulatedCost := accumulatedCost + row.cost;
    }

    method KeepResult(leaf: LeafResult)
      modifies this`leafOutputs
      ensures View() == old(View()).(leafOutputs := old(View()).leafOutputs + [leaf])
    {
      leafOutputs := leafOutputs + [leaf];
    }

    method BookLeafResult(leaf: LeafResult)
      modifies this
      ensures View() == BookLeaf(old(View()), leaf)
    {
      var index := stepIndex;
      assert index == View().stepIndex;
      hide View;
      RecordStep(StepRow(Delegation(leaf.agent), index, leaf.inTokens, leaf.outTokens, leaf.cost));
      KeepResult(leaf);
    }

    method RunLeafCall(agent: string, prompt: string) returns (err: Option<RunError>)
      modifies this
      ensures Outcome(err) == RunLeaf(w, old(View()), agent, prompt)
    {
      hide Interfere, BookLeaf, ArtifactText.StripWrappingFence;
      var call := w.leaf(stepIndex, agent, prompt);
      calls := calls + [PaidCall(Delegation(agent), accumulatedCost)];
      Await();
      match call
      case CallFails(code) => return Some(OtherError(code));
      case Answered(output, inTokens, outTokens, recording) =>
        stepIndex := stepIndex + 1;
        match recording
        case NotRecorded(code) => return Some(OtherError(code));
        case Recorded(cost) =>
          var text := ArtifactText.StripWrappingFence(output);
          BookLeafResult(LeafResult(agent, text, inTokens, outTokens, cost));
          Await();
          return None;
    }

    /** The orchestrator's wrapper around one leaf delegation. */
    method Runner(agent: string, prompt: string) returns (err: Option<RunError>)
      modifies this
      ensures Outcome(err) == Delegate(w, old(View()), agent, prompt)
    {
      hide RunLeaf, Interfere, Reread;
      var cancelled := ReadPersistedStatus();
      if cancelled {
        return Some(MidRunCancel);
      }
      PublishEvent(DelegationStarted(agent));
      Await();
      if !WithinBudget(accumulatedCost, EstimateStepCost(agent), w.cap) {
        return Some(OverBudgetBefore);
      }
      err := RunLeafCall(agent, prompt);
      if err.None? {
        var leaf := leafOutputs[|leafOutputs| - 1];
        if !WithinBudget(accumulatedCost, 0.0, w.cap) {
          return Some(OverBudgetAfter);
        }
        PublishEvent(DelegationCompleted(leaf.agent, leaf.cost, leaf.outTokens));
      }
    }

    /** Materialize one artifact and chain the output into the next prompts. */
    method MaterializeArtifact(agent: string, output: string)
      modifies this
      ensures View() == Materialize(old(View()), agent, output)
    {
      hide ArtifactText.NormalizeArtifactMarkdown;
      var entry := "## " + agent + " output\n" + output;
      priorContext := if priorContext == "" then entry else priorContext + "\n\n" + entry;
      artifacts := artifacts + [ArtifactText.NormalizeArtifactMarkdown(output)];
    }

    method RunStep(step: PlanStep) returns (err: Option<RunError>)
      modifies this
      ensures Outcome(err) == DelegateStep(w, old(View()), step)
    {
      hide Delegate, Materialize;
      var prompt := ComposeSubPrompt(step.goal, priorContext);
      var refusal := Guard(w, step.agent, prompt);
      if refusal.Some? {
        return Some(OtherError(refusal.value));
      }
      err := Runner(step.agent, prompt);
      if err.None? {
        MaterializeArtifact(step.agent, leafOutputs[|leafOutputs| - 1].output);
      }
    }

    /** The Coordinator: its plan call, the ordering, and one delegation per ordered step. */
    method RunCoordinator() returns (err: Option<RunError>)
      modifies this
      ensures Outcome(err) == Coordinate(w, old(View()))
    {
      hide DelegateStep, OrderedSteps;
      Await();
      match w.coordinator
      case PlanFails(code) => return Some(OtherError(code));
      case Planned(plan) =>
        var walk := new PlanOrder(plan);
        var ordered := walk.Ordered();
        ghost var start := View();
        assert ordered[0..] == ordered;
        for i := 0 to |ordered|
          invariant DelegatePlan(w, View(), ordered[i..]) == DelegatePlan(w, start, ordered)
        {
          assert ordered[i..][0] == ordered[i] && ordered[i..][1..] == ordered[i + 1..];
          err := RunStep(ordered[i]);
          if err.Some? {
            return;
          }
        }
        return None;
    }

    method AddMasterTokens(inTokens: nat, outTokens: nat)
      modifies this`masterIn, this`masterOut
      ensures View() == old(View()).(masterIn := old(View()).masterIn + inTokens,
                                     masterOut := old(View()).masterOut + outTokens)
    {
      masterIn := masterIn + inTokens;
      masterOut := masterOut + outTokens;
    }

    method BookMasterCall(role: Role, index: nat, inTokens: nat, outTokens: nat, cost: real)
      modifies this
      ensures View() == BookMaster(old(View()), role, index, inTokens, outTokens, cost)
    {
      hide View;
      RecordStep(StepRow(role, index, inTokens, outTokens, cost));
      AddMasterTokens(inTokens, outTokens);
    }

    /** One of the Master's own calls, billed through the recorder when there is one. */
    method RunMasterCall(role: Role, call: Call, index: nat) returns (err: Option<RunError>)
      modifies this
      ensures Outcome(err) == MasterCall(w, old(View()), role, call, index)
    {
      hide Interfere, BookMaster;
      if w.recorder && !WithinBudget(accumulatedCost, EstimateStepCost(RoleKey(role)), w.cap) {
        return Some(OverBudgetBefore);
      }
      calls := calls + [PaidCall(role, accumulatedCost)];
      Await();
      match call
      case CallFails(code) => return Some(OtherError(code));
      case Answered(output, inTokens, outTokens, recording) =>
        if !w.recorder {
          return None;
        }
        match recording
        case NotRecorded(code) => return Some(OtherError(code));
        case Recorded(cost) =>
          BookMasterCall(role, index, inTokens, outTokens, cost);
          Await();
          if !WithinBudget(accumulatedCost, 0.0, w.cap) {
            return Some(OverBudgetAfter);
          }
          PublishEvent(StepCompleted(PhaseName(role), cost));
          return None;
    }

    method RunMaster() returns (err: Option<RunError>)
      modifies this
      ensures Outcome(err) == MasterRun(w, old(View()))
    {
      hide MasterCall, Coordinate;
      err := RunMasterCall(MasterPlan, w.masterPlan, 0);
      if err.None? {
        err := RunCoordinator();
        if err.None? {
          err := RunMasterCall(Synthesis, w.synthesis, |artifacts| + 1);
        }
      }
    }

    /** Admission, then the Master or the Coordinator. */
    method RunWork() returns (err: Option<RunError>)
      modifies this
      ensures Outcome(err) == Work(w, old(View()))
    {
      hide MasterRun, Coordinate;
      match w.quota {
        case NoQuota =>
        case QuotaExceeded(code) =>
          Await();
          return Some(OtherError(code));
        case QuotaAdmitted(softWarn) =>
          Await();
          if softWarn {
            PublishEvent(BudgetWarning);
          }
      }
      if w.master {
        err := RunMaster();
      } else {
        err := RunCoordinator();
      }
    }

    /** Adds the entries one by one until the store refuses one. */
    method StoreEntries(entries: seq<string>, refused: nat -> bool) returns (all: bool)
      modifies this`stored
      ensures var written := StoredEntries(entries, refused, 0);
              View() == old(View()).(stored := old(stored) + written) && (all <==> |written| == |entries|)
    {
      hide StoredEntries;
      assert entries[..0] == [] && [] + StoredEntries(entries, refused, 0) == StoredEntries(entries, refused, 0);
      for i := 0 to |entries|
        invariant stored == old(stored) + entries[..i]
        invariant StoredEntries(entries, refused, 0) == entries[..i] + StoredEntries(entries, refused, i)
      {
        EntryStored(entries, refused, i);
        if refused(i) {
          return false;
        }
        Assoc(old(stored), entries[..i], [entries[i]]);
        stored := stored + [entries[i]];
      }
      AllStored(entries, refused);
      return true;
    }

    method AddMemoryTokens(inTokens: nat, outTokens: nat)
      modifies this`memoryIn, this`memoryOut
      ensures View() == old(View()).(memoryIn := old(View()).memoryIn + inTokens,
                                     memoryOut := old(View()).memoryOut + outTokens)
    {
      memoryIn := memoryIn + inTokens;
      memoryOut := memoryOut + outTokens;
    }

    method BookMemoryCall(inTokens: nat, outTokens: nat, cost: real)
      modifies this
      ensures View() == BookMemory(old(View()), inTokens, outTokens, cost)
    {
      var n := |leafOutputs|;
      assert n == |View().leafOutputs|;
      hide View;
      RecordStep(StepRow(Memory, n + 2, inTokens, outTokens, cost));
      AddMemoryTokens(inTokens, outTokens);
      PublishEvent(StepCompleted(PhaseName(Memory), cost));
    }

    /** The memory extractor: entries in a loop first, the billed step row last; errors are swallowed. */
    method Extract()
      modifies this
      ensures View() == ExtractMemory(w, old(View()))
    {
      hide Interfere, StoredEntries, BookMemory;
      if w.memory.None? {
        return;
      }
      Await();
      match w.memory.value
      case FilterFails(_) => return;
      case Verdict(shouldRemember, entries, refused, inTokens, outTokens, recording) =>
        assert stored + [] == stored;
        if shouldRemember {
          var all := StoreEntries(entries, refused);
          if !all {
            return;
          }
        }
        match recording
        case NotRecorded(_) => return;
        case Recorded(cost) =>
          BookMemoryCall(inTokens, outTokens, cost);
          Await();
    }

    method RecordTerminalMetrics(outcome: string)
      modifies this`gauge, this`outcomes
      ensures View() == RecordOutcome(old(View()), outcome)
    {
      gauge := gauge - 1;
      outcomes := outcomes + [outcome];
    }

    method SetExit(e: Exit)
      modifies this`exit
      ensures View() == old(View()).(exit := e)
    {
      exit := e;
    }

    /** The total on the row. */
    method StampTotal()
      modifies this`total
      ensures View() == old(View()).(total := Some(old(View()).accumulated))
    {
      total := Some(accumulatedCost);
    }

    method SetStatus(st: Status)
      modifies this`status
      ensures View() == old(View()).(status := st)
    {
      status := st;
    }

    /** The awaits that publish the end, and the caller's commit after them. */
    method Commit(st: Status)
      modifies this
      ensures View() == CommitClosing(w, old(View()), st)
    {
      hide View;
      Await();
      if w.hasRow {
        SetStatus(st);
      }
    }

    method StampTokens()
      modifies this`totalIn, this`totalOut
      ensures var s := old(View());
              View() == s.(totalIn := Some(SumIn(s.leafOutputs) + s.masterIn + s.memoryIn),
                           totalOut := Some(SumOut(s.leafOutputs) + s.masterOut + s.memoryOut))
    {
      totalIn := Some(SumIn(leafOutputs) + masterIn + memoryIn);
      totalOut := Some(SumOut(leafOutputs) + masterOut + memoryOut);
    }

    method LeaveCancelled()
      modifies this
      ensures View() == FinishCancelled(w, old(View()))
    {
      if w.hasRow {
        StampTotal();
      } else {
        total := None;
      }
      var spent := accumulatedCost;
      assert View() == old(View()).(total := if w.hasRow then Some(old(View()).accumulated) else None);
      assert spent == View().accumulated;
      hide View;
      RecordTerminalMetrics("cancelled");
      PublishEvent(Cancelled(spent));
      SetExit(ExitCancelled);
    }

    /** What the run says of its failure before the caller commits. */
    method AnnounceFailure(code: string, outcome: string)
      modifies this
      ensures View() == TellFailed(w, old(View()), code, outcome)
    {
      var spent := accumulatedCost;
      assert spent == View().accumulated;
      hide View;
      if w.hasRow {
        StampTotal();
      }
      RecordTerminalMetrics(outcome);
      PublishEvent(Failed(code, spent));
      SetExit(ExitFailed(code));
    }

    method LeaveFailed(code: string, outcome: string)
      modifies this
      ensures View() == FinishFailed(w, old(View()), code, outcome)
    {
      hide View, TellFailed, CommitClosing;
      AnnounceFailure(code, outcome);
      Commit(FailedStatus);
    }

    /** What the run says of its success before the caller commits. */
    method AnnounceSuccess()
      modifies this
      ensures View() == TellSucceeded(w, old(View()))
    {
      var spent := accumulatedCost;
      assert spent == View().accumulated;
      hide View, SumIn, SumOut;
      if w.hasRow {
        StampTotal();
        StampTokens();
      }
      RecordTerminalMetrics("succeeded");
      PublishEvent(Completed(spent));
      SetExit(ExitSucceeded);
    }

    method LeaveSucceeded()
      modifies this
      ensures View() == FinishSucceeded(w, old(View()))
    {
      hide View, TellSucceeded, CommitClosing;
      AnnounceSuccess();
      Commit(Succeeded);
    }

    method RunConclusion()
      modifies this
      ensures View() == Conclude(w, old(View()))
    {
      hide ExtractMemory, FinishCancelled, FinishFailed, FinishSucceeded;
      if w.hasRow && status == CancelledStatus {
        LeaveCancelled();
        return;
      }
      if w.screen.ScreenBlocks? || w.screen.ScreenPasses? {
        Await();
        if w.screen.ScreenBlocks? {
          LeaveFailed(w.screen.code, "failed");
          return;
        }
      }
      Extract();
      LeaveSucceeded();
    }

    /** execute_agent_task, from task.started to the terminal event. */
    method ExecuteAgentTask()
      requires View() == FRESH
      modifies this
      ensures View() == Execute(w)
      ensures LedgerShape(ledger) && gauge == 0 && |outcomes| == 1
      ensures total == (if w.hasRow then Some(SumCost(steps)) else None)
    {
      LedgerAlwaysShaped(w);
      CostConserved(w);
      hide Work, Conclude, FinishCancelled, FinishFailed, Reread, LedgerShape, SumCost;
      PublishEvent(Started);
      gauge := gauge + 1;
      if w.hasRow {
        status := Running;
      }
      assert View() == Begin(w);
      var err := RunWork();
      match err
      case None =>
        var _ := ReadPersistedStatus();
        RunConclusion();
      case Some(MidRunCancel) => LeaveCancelled();
      case Some(e) => LeaveFailed(ErrorCode(e), FailureOutcome(ErrorCode(e)));
    }
  }
}
