/** The ledger of a run that does not succeed, exactly: what is told of the rows, and what is begun and left open. */
module TaskRunLedger {
  import opened Text
  import opened TaskEvents
  import opened BudgetGuard
  import opened PlanOrdering
  import opened TaskRun
  import opened TaskRunLaws
  import opened TaskRunTheorems

  /** The ledger tells exactly the rows. */
  ghost predicate TellsRows(w: World, s: Run) {
    s.ledger == Head(w) + Transcript(s.steps)
  }

  /** A delegation was announced and has recorded nothing. */
  ghost predicate LeftOpen(w: World, s: Run) {
    exists agent :: s.ledger == Head(w) + Transcript(s.steps) + [DelegationStarted(agent)]
  }

  /** Everything is told but the completion of the last row; a delegation's start is told. */
  ghost predicate LastUntold(w: World, s: Run) {
    exists rows, row :: s.steps == rows + [row]
                        && s.ledger == Head(w) + Transcript(rows) + if row.role.Delegation?
                                                                    then [DelegationStarted(row.role.agent)] else []
  }

  /** Every delegation asked so far has recorded its result. */
  ghost predicate AllBack(s: Run) {
    |s.rereads| == |s.leafOutputs|
  }

  /** How an operation leaves the ledger when it raises: a cancel is noticed between calls, with everything told; the
      cap is found exceeded after a row is recorded and before its completion is told; and anything else leaves a
      delegation open exactly when one was asked that did not come back. */
  ghost predicate Left(w: World, s: Run, e: RunError) {
    if e == MidRunCancel then TellsRows(w, s) && SeesCancel(w, s)
    else if e == OverBudgetAfter then LastUntold(w, s)
    else if AllBack(s) then TellsRows(w, s)
    else LeftOpen(w, s) && |s.rereads| == |s.leafOutputs| + 1
  }

  lemma RunLeafReads(w: World, s: Run, agent: string, prompt: string)
    ensures var r := RunLeaf(w, s, agent, prompt);
            r.run.rereads == s.rereads && (r.Err? ==> r.error.OtherError?)
  {
    hide ArtifactText.StripWrappingFence;
  }

  lemma CompleteLeaves(w: World, s: Run, r: Run, agent: string)
    requires TellsRows(w, s) && LeafRecorded(s, r, agent) && r.ledger == s.ledger + [DelegationStarted(agent)]
    ensures var c := CompleteLeaf(w, r);
            c.run.rereads == r.rereads && c.run.leafOutputs == r.leafOutputs && (c.Err? ==> Left(w, c.run, c.error))
  {
    hide Transcript, Head;
    var leaf := r.leafOutputs[|s.leafOutputs|];
    var row := StepRow(Delegation(agent), r.stepIndex, leaf.inTokens, leaf.outTokens, leaf.cost);
    assert r.steps == s.steps + [row];
  }

  lemma ReadsMore(w: World, s: Run)
    ensures |Reread(w, s).rereads| == |s.rereads| + 1
  {
  }

  lemma DelegateLeaves(w: World, s: Run, agent: string, prompt: string, pre: seq<StepRow>)
    requires Inv(w, s, pre, []) && Settled(w, s) && AllBack(s)
    ensures var r := Delegate(w, s, agent, prompt);
            (r.Ok? ==> AllBack(r.run)) && (r.Err? ==> Left(w, r.run, r.error))
  {
    hide Inv, Reread, RunLeaf, CompleteLeaf, EstimateStepCost, WithinBudget, Transcript, Head;
    RereadKeeps(w, s, pre, []);
    ReadsMore(w, s);
    var s1 := Reread(w, s);
    if !SeesCancel(w, s1) {
      PublishKeeps(w, s1, DelegationStarted(agent), pre, []);
      var started := Publish(s1, DelegationStarted(agent));
      InterfereKeeps(w, started, pre, []);
      InterfereSame(w, started);
      InterfereReads(w, started);
      var s2 := Interfere(w, started);
      hide Interfere;
      if WithinBudget(s2.accumulated, EstimateStepCost(agent), w.cap) {
        RunLeafKeeps(w, s2, agent, prompt, pre);
        RunLeafReads(w, s2, agent, prompt);
        var r := RunLeaf(w, s2, agent, prompt);
        if r.Ok? {
          CompleteLeaves(w, s1, r.run, agent);
        } else {
          assert LeftOpen(w, r.run);
        }
      } else {
        assert LeftOpen(w, s2);
      }
    }
  }

  lemma InterfereReads(w: World, s: Run)
    ensures Interfere(w, s).rereads == s.rereads
  {
  }

  lemma DelegateStepLeaves(w: World, s: Run, step: PlanStep, pre: seq<StepRow>)
    requires Inv(w, s, pre, []) && Settled(w, s) && AllBack(s)
    ensures var r := DelegateStep(w, s, step);
            (r.Ok? ==> AllBack(r.run)) && (r.Err? ==> Left(w, r.run, r.error))
  {
    hide Inv, Delegate, Transcript, Head, LeftOpen, LastUntold, ComposeSubPrompt;
    var prompt := ComposeSubPrompt(step.goal, s.priorContext);
    if Guard(w, step.agent, prompt).None? {
      DelegateLeaves(w, s, step.agent, prompt, pre);
    }
  }

  lemma {:induction false} DelegatePlanLeaves(w: World, s: Run, plan: seq<PlanStep>, pre: seq<StepRow>)
    requires Inv(w, s, pre, []) && Settled(w, s) && AllBack(s)
    ensures var r := DelegatePlan(w, s, plan);
            (r.Ok? ==> AllBack(r.run)) && (r.Err? ==> Left(w, r.run, r.error))
    decreases |plan|
  {
    hide Inv, Settled, Left, DelegateStep, AllBack;
    if plan != [] {
      DelegateStepLeaves(w, s, plan[0], pre);
      DelegateStepKeeps(w, s, plan[0], pre);
      var r := DelegateStep(w, s, plan[0]);
      if r.Ok? {
        DelegatePlanLeaves(w, r.run, plan[1..], pre);
      }
    }
  }

  lemma CoordinateLeaves(w: World, s: Run, pre: seq<StepRow>)
    requires Inv(w, s, pre, []) && Settled(w, s) && AllBack(s)
    ensures var r := Coordinate(w, s);
            (r.Ok? ==> AllBack(r.run)) && (r.Err? ==> Left(w, r.run, r.error))
  {
    InterfereKeeps(w, s, pre, []);
    InterfereSame(w, s);
    InterfereReads(w, s);
    hide Inv, DelegatePlan, Transcript, Head, Interfere;
    match w.coordinator
    case PlanFails(_) =>
    case Planned(steps) => DelegatePlanLeaves(w, Interfere(w, s), OrderedSteps(steps), pre);
  }

  lemma CompleteMasterLeaves(w: World, s: Run, r: Run, row: StepRow)
    requires TellsRows(w, s) && r.ledger == s.ledger && r.steps == s.steps + [row] && !row.role.Delegation?
    ensures var c := CompleteMaster(w, r, row.role, row.cost);
            c.run.rereads == r.rereads && c.run.leafOutputs == r.leafOutputs && (c.Err? ==> Left(w, c.run, c.error))
  {
    hide Transcript, Head, PhaseName;
    assert Head(w) + Transcript(s.steps) + [] == Head(w) + Transcript(s.steps);
  }

  lemma MasterCallLeaves(w: World, s: Run, role: Role, call: Call, index: nat)
    requires TellsRows(w, s) && AllBack(s) && !role.Delegation?
    ensures var r := MasterCall(w, s, role, call, index);
            (r.Ok? ==> AllBack(r.run)) && (r.Err? ==> Left(w, r.run, r.error))
  {
    hide Transcript, Head, EstimateStepCost, RoleKey, Interfere, CompleteMaster, WithinBudget;
    var issued := s.(calls := s.calls + [PaidCall(role, s.accumulated)]);
    InterfereSame(w, issued);
    InterfereReads(w, issued);
    var called := Interfere(w, issued);
    if call.Answered? && call.recording.Recorded? {
      var row := StepRow(role, index, call.inTokens, call.outTokens, call.recording.cost);
      var booked := BookMaster(called, role, index, call.inTokens, call.outTokens, call.recording.cost);
      InterfereSame(w, booked);
      InterfereReads(w, booked);
      CompleteMasterLeaves(w, called, Interfere(w, booked), row);
    }
  }

  lemma SettledTells(w: World, s: Run)
    requires Settled(w, s)
    ensures TellsRows(w, s)
  {
  }

  lemma MasterRunLeaves(w: World, s: Run)
    requires Inv(w, s, [], []) && Settled(w, s) && AllBack(s) && s.leafOutputs == []
    ensures var r := MasterRun(w, s); r.Err? ==> Left(w, r.run, r.error)
  {
    hide Inv, Settled, Left, AllBack, MasterCall, Coordinate, TellsRows;
    SettledTells(w, s);
    MasterCallLeaves(w, s, MasterPlan, w.masterPlan, 0);
    var pre, synth := MasterCallKeeps(w, s, MasterPlan, w.masterPlan, 0, []);
    var planned := MasterCall(w, s, MasterPlan, w.masterPlan, 0);
    if planned.Ok? {
      CoordinateLeaves(w, planned.run, pre);
      CoordinateKeeps(w, planned.run, pre);
      var worked := Coordinate(w, planned.run);
      if worked.Ok? {
        SettledTells(w, worked.run);
        MasterCallLeaves(w, worked.run, Synthesis, w.synthesis, |worked.run.artifacts| + 1);
      }
    }
  }

  lemma AdmitLeaves(w: World)
    ensures var r := Admit(w, Begin(w)); AllBack(r.run) && (r.Err? ==> Left(w, r.run, r.error))
  {
    assert Begin(w).rereads == [] && Transcript([]) == [];
    InterfereSame(w, Begin(w));
    InterfereReads(w, Begin(w));
    hide Interfere;
    assert [Started] + [] == [Started];
  }

  /** How the work of any run leaves the ledger. */
  lemma WorkLeaves(w: World)
    ensures var r := Work(w, Begin(w)); (r.Ok? ==> TellsRows(w, r.run)) && (r.Err? ==> Left(w, r.run, r.error))
  {
    hide Inv, Settled, Left, AllBack, MasterRun, Coordinate, Admit, TellsRows, FollowsPlan, CompletedPlan, WorkRows,
         LedgerBehind;
    AdmitLeaves(w);
    AdmitKeeps(w);
    var pre, synth := WorkKeeps(w);
    var a := Admit(w, Begin(w));
    if a.Ok? {
      if w.master {
        MasterRunLeaves(w, a.run);
      } else {
        CoordinateLeaves(w, a.run, []);
      }
    }
    if Work(w, Begin(w)).Ok? {
      SettledTells(w, Work(w, Begin(w)).run);
    }
  }

  /** The ledger of every run without its terminal event: a cancelled run, and one that got to its final re-read, has
      told exactly its recorded rows; one whose work failed has left it as Left says. */
  lemma LedgerExactly(w: World)
    ensures var r := Execute(w);
            var told := r.(ledger := Untold(r.ledger));
            && (r.exit == ExitCancelled || r.exit == ExitSucceeded ==> TellsRows(w, told))
            && match Work(w, Begin(w))
               case Ok(_) => TellsRows(w, told)
               case Err(_, e) => told.rereads == r.rereads && Left(w, told, e)
  {
    hide Left, TellsRows, LedgerBehind, FollowsPlan, Transcript, Head, WorkRows, CompletedPlan, Work, Closed, Ended;
    WorkLeaves(w);
    match Work(w, Begin(w))
    case Err(s, e) =>
      FailedUntold(w, s, ErrorCode(e), FailureOutcome(ErrorCode(e)));
      CancelledUntold(w, s);
      LeftCancelled(w, s, e);
      LeftSame(w, s, Execute(w).(ledger := Untold(Execute(w).ledger)), e);
    case Ok(run) =>
      ConcludedTells(w, run);
  }

  lemma FailedUntold(w: World, s: Run, code: string, outcome: string)
    ensures var r := FinishFailed(w, s, code, outcome);
            Untold(r.ledger) == s.ledger && r.steps == s.steps && r.rereads == s.rereads
                && r.leafOutputs == s.leafOutputs
            && r.exit == ExitFailed(code)
  {
  }

  lemma CancelledUntold(w: World, s: Run)
    ensures var r := FinishCancelled(w, s);
            Untold(r.ledger) == s.ledger && r.steps == s.steps && r.rereads == s.rereads
                && r.leafOutputs == s.leafOutputs
            && r.exit == ExitCancelled && r.status == s.status
  {
  }

  lemma SucceededUntold(w: World, s: Run)
    ensures var r := FinishSucceeded(w, s); Untold(r.ledger) == s.ledger && r.steps == s.steps
  {
    hide SumIn, SumOut;
  }

  lemma LeftCancelled(w: World, s: Run, e: RunError)
    requires Left(w, s, e)
    ensures e == MidRunCancel ==> TellsRows(w, s) && SeesCancel(w, s)
  {
  }

  lemma LeftSame(w: World, s: Run, r: Run, e: RunError)
    requires r.ledger == s.ledger && r.steps == s.steps && r.rereads == s.rereads && r.leafOutputs == s.leafOutputs
    requires e == MidRunCancel ==> r.status == s.status
    ensures Left(w, s, e) <==> Left(w, r, e)
    ensures TellsRows(w, s) <==> TellsRows(w, r)
  {
    hide Transcript, Head;
  }

  lemma ConcludedTells(w: World, run: Run)
    requires Work(w, Begin(w)) == Ok(run)
    ensures var r := Execute(w); TellsRows(w, r.(ledger := Untold(r.ledger)))
  {
    hide Inv, Closed, Unfinished, MemoryRow, ExtractMemory, Transcript, Head, FinishCancelled, FinishFailed,
         FinishSucceeded, Work, Interfere, FollowsPlan, CompletedPlan, WorkRows, LedgerBehind;
    var pre, synth := WorkKeeps(w);
    var s := Reread(w, run);
    RereadKeeps(w, run, pre, synth);
    InvCloses(w, s, pre, synth);
    InterfereCloses(w, s, pre, synth, []);
    InterfereSame(w, s);
    CancelledUntold(w, s);
    if w.screen.ScreenBlocks? {
      FailedUntold(w, Interfere(w, s), w.screen.code, "failed");
    } else {
      var screened := if w.screen.ScreenPasses? then Interfere(w, s) else s;
      ExtractMemoryKeeps(w, screened, pre, synth);
      SucceededUntold(w, ExtractMemory(w, screened));
    }
  }

  lemma FinishStatus(w: World, s: Run, code: string, outcome: string)
    requires w.hasRow
    ensures FinishFailed(w, s, code, outcome).status == FailedStatus && FinishSucceeded(w, s).status == Succeeded
    ensures FinishFailed(w, s, code, outcome).exit == ExitFailed(code) && FinishSucceeded(w, s).exit == ExitSucceeded
  {
    hide SumIn, SumOut;
  }

  /** The status on the row at the end is the one the exit names, whoever cancelled and when. */
  lemma StatusTellsExit(w: World)
    requires w.hasRow
    ensures Execute(w).status == match Execute(w).exit
                                 case ExitSucceeded => Succeeded
                                 case ExitCancelled => CancelledStatus
                                 case ExitFailed(_) => FailedStatus
                                 case StillRunning => Running
  {
    hide Left, TellsRows, Transcript, Head, Work, Interfere, ExtractMemory, FinishFailed, FinishSucceeded,
         FinishCancelled;
    WorkLeaves(w);
    match Work(w, Begin(w))
    case Err(s, e) =>
      LeftCancelled(w, s, e);
      CancelledUntold(w, s);
      FinishStatus(w, s, ErrorCode(e), FailureOutcome(ErrorCode(e)));
    case Ok(run) =>
      var s := Reread(w, run);
      CancelledUntold(w, s);
      FinishStatus(w, Interfere(w, s), if w.screen.ScreenBlocks? then w.screen.code else "", "failed");
      FinishStatus(w, ExtractMemory(w, s), "", "");
      FinishStatus(w, ExtractMemory(w, Interfere(w, s)), "", "");
  }
}
