/** When a committed cancel survives: every run against the same run that nobody cancels. */
module TaskRunCancel {
  import opened Text
  import opened TaskEvents
  import opened BudgetGuard
  import opened PlanOrdering
  import opened TaskRun
  import opened TaskRunLaws
  import opened TaskRunTheorems
  import ArtifactText

  predicate Never(n: nat) {
    false
  }

  /** The same surroundings, without anybody to cancel. */
  function Quiet(w: World): World {
    w.(cancels := Never)
  }

  /** Another session cancels at moment m, and not before. */
  ghost predicate FirstCancel(w: World, m: nat) {
    w.cancels(m) && forall k: nat :: k < m ==> !w.cancels(k)
  }

  /** A status re-read comes after moment m. */
  ghost predicate Caught(m: nat, rereads: seq<nat>) {
    exists k :: k in rereads && m < k
  }

  /** Run s and the quiet run q are at the same point, and no re-read has come between the cancel and here:
      they differ in the status column only. */
  ghost predicate Shadow(m: nat, s: Run, q: Run) {
    && q.status == Running && q.cancelledAt == None && !Caught(m, q.rereads)
    && (q.clock <= m ==> s == q)
    && (m < q.clock ==> s.cancelledAt.Some? && s == q.(status := CancelledStatus, cancelledAt := s.cancelledAt))
  }

  /** Every re-read so far lies in the past. */
  ghost predicate Past(q: Run) {
    forall k :: k in q.rereads ==> k <= q.clock
  }

  /** Re-reads and moments only accumulate. */
  ghost predicate Later(q: Run, r: Run) {
    q.rereads <= r.rereads && q.clock <= r.clock && (Past(q) ==> Past(r))
  }

  /** The two runs end an operation alike, or the cancel has been seen in the one and a re-read after it
      made in the other. */
  ghost predicate Twin(m: nat, r: Result, q: Result) {
    || (r.Ok? && q.Ok? && Shadow(m, r.run, q.run))
    || (r.Err? && q.Err? && r.error == q.error != MidRunCancel && Shadow(m, r.run, q.run))
    || (Seen(m, q.run) && r.Err? && r.error == MidRunCancel && r.run.status == CancelledStatus
        && r.run.cancelledAt.Some?)
  }

  ghost predicate Seen(m: nat, q: Run) {
    Caught(m, q.rereads) && m < q.clock
  }

  lemma SeenLater(m: nat, q: Run, r: Run)
    requires Seen(m, q) && Later(q, r)
    ensures Seen(m, r)
  {
    var k :| k in q.rereads && m < k;
    assert k in r.rereads;
  }

  // ---------------------------------------------------------------- moments accumulate

  lemma InterfereLater(w: World, s: Run)
    ensures Later(s, Interfere(w, s)) && Later(s, Reread(w, s))
  {
  }

  lemma RunLeafLater(w: World, s: Run, agent: string, prompt: string)
    ensures Later(s, RunLeaf(w, s, agent, prompt).run)
  {
    hide ArtifactText.StripWrappingFence;
  }

  /** A delegation re-reads the status first, and only goes on from there. */
  lemma DelegateLater(w: World, s: Run, agent: string, prompt: string)
    ensures Later(Reread(w, s), Delegate(w, s, agent, prompt).run) && Later(s, Delegate(w, s, agent, prompt).run)
  {
    InterfereLater(w, s);
    var started := Publish(Reread(w, s), DelegationStarted(agent));
    InterfereLater(w, started);
    RunLeafLater(w, Interfere(w, started), agent, prompt);
    hide Reread, Interfere, RunLeaf, EstimateStepCost, WithinBudget;
  }

  lemma {:induction false} DelegatePlanLater(w: World, s: Run, plan: seq<PlanStep>)
    ensures Later(s, DelegatePlan(w, s, plan).run)
    decreases |plan|
  {
    if plan != [] {
      DelegateLater(w, s, plan[0].agent, ComposeSubPrompt(plan[0].goal, s.priorContext));
      hide Delegate, Guard, ComposeSubPrompt;
      var r := DelegateStep(w, s, plan[0]);
      if r.Ok? {
        DelegatePlanLater(w, r.run, plan[1..]);
      }
    }
  }

  lemma CoordinateLater(w: World, s: Run)
    ensures Later(s, Coordinate(w, s).run)
  {
    match w.coordinator
    case PlanFails(_) =>
    case Planned(steps) => DelegatePlanLater(w, Interfere(w, s), OrderedSteps(steps));
  }

  lemma LaterStill(q: Run, r: Run, s: Run)
    requires Later(q, r) && Later(r, s)
    ensures Later(q, s)
  {
    hide Past;
  }

  lemma BilledLater(w: World, s: Run, role: Role, index: nat, inTokens: nat, outTokens: nat, cost: real)
    ensures Later(s, BookMaster(s, role, index, inTokens, outTokens, cost))
    ensures Later(s, CompleteMaster(w, s, role, cost).run)
    ensures Later(s, s.(calls := s.calls + [PaidCall(role, s.accumulated)])) && Later(s, s)
  {
    hide WithinBudget, PhaseName;
  }

  lemma MasterCallLater(w: World, s: Run, role: Role, call: Call, index: nat)
    ensures Later(s, MasterCall(w, s, role, call, index).run)
  {
    hide Later, Interfere, BookMaster, CompleteMaster, WithinBudget, EstimateStepCost, RoleKey;
    BilledLater(w, s, role, 0, 0, 0, 0.0);
    var issued := s.(calls := s.calls + [PaidCall(role, s.accumulated)]);
    var called := Interfere(w, issued);
    InterfereLater(w, issued);
    LaterStill(s, issued, called);
    if call.Answered? && call.recording.Recorded? {
      var booked := BookMaster(called, role, index, call.inTokens, call.outTokens, call.recording.cost);
      var again := Interfere(w, booked);
      BilledLater(w, called, role, index, call.inTokens, call.outTokens, call.recording.cost);
      InterfereLater(w, booked);
      BilledLater(w, again, role, 0, 0, 0, call.recording.cost);
      LaterStill(s, called, booked);
      LaterStill(s, booked, again);
      LaterStill(s, again, CompleteMaster(w, again, role, call.recording.cost).run);
    }
  }

  lemma ExtractLater(w: World, s: Run)
    ensures Later(s, ExtractMemory(w, s))
  {
    hide StoredEntries;
  }

  lemma FinishLater(w: World, s: Run, code: string, outcome: string)
    ensures Later(s, FinishSucceeded(w, s)) && Later(s, FinishFailed(w, s, code, outcome))
    ensures Later(s, FinishCancelled(w, s))
  {
    CommitMark(w, TellSucceeded(w, s), Succeeded);
    CommitMark(w, TellFailed(w, s, code, outcome), FailedStatus);
    hide SumIn, SumOut, CommitClosing;
  }

  lemma ConcludeLater(w: World, s: Run)
    ensures Later(s, Conclude(w, s))
  {
    hide FinishSucceeded, FinishFailed, FinishCancelled, ExtractMemory, Later, Interfere;
    if SeesCancel(w, s) {
      FinishLater(w, s, "", "");
    } else {
      var screened := if w.screen.NoScreen? then s else Interfere(w, s);
      InterfereLater(w, s);
      Unmoved(s);
      FinishLater(w, screened, if w.screen.ScreenBlocks? then w.screen.code else "", "failed");
      ExtractLater(w, screened);
      var r := ExtractMemory(w, screened);
      FinishLater(w, r, "", "");
      LaterStill(s, screened, r);
      LaterStill(s, screened, Conclude(w, s)) by {
        if w.screen.ScreenBlocks? {
        } else {
          LaterStill(screened, r, FinishSucceeded(w, r));
        }
      }
    }
  }

  lemma Unmoved(s: Run)
    ensures Later(s, s)
  {
  }

  // ---------------------------------------------------------------- one lemma per operation

  lemma InterfereShadows(w: World, m: nat, s: Run, q: Run)
    requires w.hasRow && FirstCancel(w, m) && Shadow(m, s, q)
    ensures Shadow(m, Interfere(w, s), Interfere(Quiet(w), q))
  {
    hide Caught;
  }

  /** At a re-read the cancel is seen exactly when it has been committed. */
  lemma RereadShadows(w: World, m: nat, s: Run, q: Run)
    requires w.hasRow && FirstCancel(w, m) && Shadow(m, s, q)
    ensures var s', q' := Reread(w, s), Reread(Quiet(w), q);
            && !SeesCancel(Quiet(w), q')
            && (SeesCancel(w, s') ==> Seen(m, q') && s'.status == CancelledStatus && s'.cancelledAt.Some?)
            && (!SeesCancel(w, s') ==> Shadow(m, s', q'))
  {
    InterfereShadows(w, m, s, q);
    var q' := Reread(Quiet(w), q);
    assert q'.clock in q'.rereads;
  }

  lemma RunLeafShadows(w: World, m: nat, s: Run, q: Run, agent: string, prompt: string)
    requires w.hasRow && FirstCancel(w, m) && Shadow(m, s, q)
    ensures Twin(m, RunLeaf(w, s, agent, prompt), RunLeaf(Quiet(w), q, agent, prompt))
  {
    hide Caught, Interfere, ArtifactText.StripWrappingFence, FirstCancel;
    var call := PaidCall(Delegation(agent), s.accumulated);
    var s1, q1 := s.(calls := s.calls + [call]), q.(calls := q.calls + [call]);
    InterfereShadows(w, m, s1, q1);
    match w.leaf(s.stepIndex, agent, prompt)
    case CallFails(_) =>
    case Answered(output, inTokens, outTokens, recording) =>
      if recording.Recorded? {
        var s2, q2 := Interfere(w, s1), Interfere(Quiet(w), q1);
        var leaf := LeafResult(agent, ArtifactText.StripWrappingFence(output), inTokens, outTokens, recording.cost);
        BookedShadows(m, s2, q2, leaf);
        InterfereShadows(w, m, BookLeaf(Counted(s2), leaf), BookLeaf(Counted(q2), leaf));
      }
  }

  function Counted(s: Run): Run {
    s.(stepIndex := s.stepIndex + 1)
  }

  lemma BookedShadows(m: nat, s: Run, q: Run, leaf: LeafResult)
    requires Shadow(m, s, q)
    ensures Shadow(m, BookLeaf(Counted(s), leaf), BookLeaf(Counted(q), leaf))
  {
    hide Caught;
  }

  lemma PublishShadows(m: nat, s: Run, q: Run, e: TaskEvent)
    requires Shadow(m, s, q)
    ensures Shadow(m, Publish(s, e), Publish(q, e))
  {
    hide Caught;
  }

  lemma CompleteLeafShadows(w: World, m: nat, s: Run, q: Run)
    requires Shadow(m, s, q) && s.leafOutputs != [] && q.leafOutputs != []
    ensures Twin(m, CompleteLeaf(w, s), CompleteLeaf(Quiet(w), q))
  {
    hide Caught, WithinBudget;
  }

  lemma DelegateShadows(w: World, m: nat, s: Run, q: Run, agent: string, prompt: string)
    requires w.hasRow && FirstCancel(w, m) && Shadow(m, s, q)
    ensures Twin(m, Delegate(w, s, agent, prompt), Delegate(Quiet(w), q, agent, prompt))
  {
    var v := Quiet(w);
    RereadShadows(w, m, s, q);
    var s1, q1 := Reread(w, s), Reread(v, q);
    if SeesCancel(w, s1) {
      DelegateLater(v, q, agent, prompt);
      SeenLater(m, q1, Delegate(v, q, agent, prompt).run);
    } else {
      PublishShadows(m, s1, q1, DelegationStarted(agent));
      var s2, q2 := Publish(s1, DelegationStarted(agent)), Publish(q1, DelegationStarted(agent));
      InterfereShadows(w, m, s2, q2);
      var s3, q3 := Interfere(w, s2), Interfere(v, q2);
      hide Caught, Interfere, Reread, RunLeaf, FirstCancel, CompleteLeaf;
      if WithinBudget(s3.accumulated, EstimateStepCost(agent), w.cap) {
        RunLeafShadows(w, m, s3, q3, agent, prompt);
        var rs, rq := RunLeaf(w, s3, agent, prompt), RunLeaf(v, q3, agent, prompt);
        if rs.Ok? {
          CompleteLeafShadows(w, m, rs.run, rq.run);
        }
      }
    }
  }

  lemma MaterializeShadows(m: nat, s: Run, q: Run, agent: string, output: string)
    requires Shadow(m, s, q)
    ensures Shadow(m, Materialize(s, agent, output), Materialize(q, agent, output))
  {
    hide Caught, ArtifactText.NormalizeArtifactMarkdown;
  }

  lemma DelegateStepShadows(w: World, m: nat, s: Run, q: Run, step: PlanStep)
    requires w.hasRow && FirstCancel(w, m) && Shadow(m, s, q)
    ensures Twin(m, DelegateStep(w, s, step), DelegateStep(Quiet(w), q, step))
  {
    hide Caught, Delegate, FirstCancel, Materialize;
    var prompt := ComposeSubPrompt(step.goal, s.priorContext);
    if Guard(w, step.agent, prompt).None? {
      DelegateShadows(w, m, s, q, step.agent, prompt);
      var rs, rq := Delegate(w, s, step.agent, prompt), Delegate(Quiet(w), q, step.agent, prompt);
      if rq.Ok? {
        var output := rq.run.leafOutputs[|q.leafOutputs|].output;
        MaterializeSeen(m, rq.run, step.agent, output);
        if rs.Ok? {
          MaterializeShadows(m, rs.run, rq.run, step.agent, output);
        }
      }
    }
  }

  lemma MaterializeSeen(m: nat, q: Run, agent: string, output: string)
    ensures Seen(m, q) ==> Seen(m, Materialize(q, agent, output))
  {
    hide Caught;
  }

  lemma {:induction false} DelegatePlanShadows(w: World, m: nat, s: Run, q: Run, plan: seq<PlanStep>)
    requires w.hasRow && FirstCancel(w, m) && Shadow(m, s, q)
    ensures Twin(m, DelegatePlan(w, s, plan), DelegatePlan(Quiet(w), q, plan))
    decreases |plan|
  {
    hide Caught, DelegateStep, FirstCancel, Shadow;
    if plan != [] {
      DelegateStepShadows(w, m, s, q, plan[0]);
      var rs, rq := DelegateStep(w, s, plan[0]), DelegateStep(Quiet(w), q, plan[0]);
      if rs.Ok? {
        DelegatePlanShadows(w, m, rs.run, rq.run, plan[1..]);
      } else if rq.Ok? {
        DelegatePlanLater(Quiet(w), rq.run, plan[1..]);
        SeenLater(m, rq.run, DelegatePlan(Quiet(w), rq.run, plan[1..]).run);
      }
    }
  }

  lemma CoordinateShadows(w: World, m: nat, s: Run, q: Run)
    requires w.hasRow && FirstCancel(w, m) && Shadow(m, s, q)
    ensures Twin(m, Coordinate(w, s), Coordinate(Quiet(w), q))
  {
    InterfereShadows(w, m, s, q);
    hide Caught, Interfere, FirstCancel, Shadow, DelegatePlan, OrderedSteps;
    match w.coordinator
    case PlanFails(_) =>
    case Planned(steps) => DelegatePlanShadows(w, m, Interfere(w, s), Interfere(Quiet(w), q), OrderedSteps(steps));
  }

  lemma IssuedShadows(m: nat, s: Run, q: Run, role: Role)
    requires Shadow(m, s, q)
    ensures Shadow(m, Issued(s, role), Issued(q, role))
    ensures s.accumulated == q.accumulated
  {
    hide Caught;
  }

  lemma MasterBookedShadows(m: nat, s: Run, q: Run, role: Role, index: nat, inTokens: nat, outTokens: nat, cost: real)
    requires Shadow(m, s, q)
    ensures Shadow(m, BookMaster(s, role, index, inTokens, outTokens, cost),
                   BookMaster(q, role, index, inTokens, outTokens, cost))
  {
    hide Caught;
  }

  lemma CompleteMasterShadows(w: World, m: nat, s: Run, q: Run, role: Role, cost: real)
    requires Shadow(m, s, q)
    ensures Twin(m, CompleteMaster(w, s, role, cost), CompleteMaster(Quiet(w), q, role, cost))
  {
    hide Caught, WithinBudget;
  }

  function Issued(s: Run, role: Role): Run {
    s.(calls := s.calls + [PaidCall(role, s.accumulated)])
  }

  lemma MasterCallShadows(w: World, m: nat, s: Run, q: Run, role: Role, call: Call, index: nat)
    requires w.hasRow && FirstCancel(w, m) && Shadow(m, s, q)
    ensures Twin(m, MasterCall(w, s, role, call, index), MasterCall(Quiet(w), q, role, call, index))
  {
    hide Caught, Interfere, FirstCancel, Shadow, CompleteMaster, BookMaster, WithinBudget, EstimateStepCost, RoleKey;
    IssuedShadows(m, s, q, role);
    InterfereShadows(w, m, Issued(s, role), Issued(q, role));
    if w.recorder && call.Answered? && call.recording.Recorded? {
      BilledShadows(w, m, Interfere(w, Issued(s, role)), Interfere(Quiet(w), Issued(q, role)), role, index,
                    call.inTokens, call.outTokens, call.recording.cost);
    }
  }

  lemma BilledShadows(w: World, m: nat, s: Run, q: Run, role: Role, index: nat, inTokens: nat, outTokens: nat,
                      cost: real)
    requires w.hasRow && FirstCancel(w, m) && Shadow(m, s, q)
    ensures Twin(m, CompleteMaster(w, Interfere(w, BookMaster(s, role, index, inTokens, outTokens, cost)), role, cost),
                    CompleteMaster(Quiet(w), Interfere(Quiet(w), BookMaster(q, role, index, inTokens, outTokens, cost)),
                                   role, cost))
  {
    hide Caught, Interfere, FirstCancel, Shadow, CompleteMaster, BookMaster;
    MasterBookedShadows(m, s, q, role, index, inTokens, outTokens, cost);
    var s' := BookMaster(s, role, index, inTokens, outTokens, cost);
    var q' := BookMaster(q, role, index, inTokens, outTokens, cost);
    InterfereShadows(w, m, s', q');
    CompleteMasterShadows(w, m, Interfere(w, s'), Interfere(Quiet(w), q'), role, cost);
  }

  lemma SameArtifacts(m: nat, s: Run, q: Run)
    requires Shadow(m, s, q)
    ensures s.artifacts == q.artifacts
  {
  }

  lemma MasterRunShadows(w: World, m: nat, s: Run, q: Run)
    requires w.hasRow && FirstCancel(w, m) && Shadow(m, s, q)
    ensures Twin(m, MasterRun(w, s), MasterRun(Quiet(w), q))
  {
    hide Caught, FirstCancel, Shadow, MasterCall, Coordinate;
    var v := Quiet(w);
    MasterCallShadows(w, m, s, q, MasterPlan, w.masterPlan, 0);
    var rs, rq := MasterCall(w, s, MasterPlan, w.masterPlan, 0), MasterCall(v, q, MasterPlan, w.masterPlan, 0);
    if rq.Ok? {
      var cq := Coordinate(v, rq.run);
      CoordinateLater(v, rq.run);
      if cq.Ok? {
        MasterCallLater(v, cq.run, Synthesis, w.synthesis, |cq.run.artifacts| + 1);
      }
      if rs.Ok? {
        CoordinateShadows(w, m, rs.run, rq.run);
        var cs := Coordinate(w, rs.run);
        if cs.Ok? {
          SameArtifacts(m, cs.run, cq.run);
          MasterCallShadows(w, m, cs.run, cq.run, Synthesis, w.synthesis, |cq.run.artifacts| + 1);
        } else if cq.Ok? {
          SeenLater(m, cq.run, MasterCall(v, cq.run, Synthesis, w.synthesis, |cq.run.artifacts| + 1).run);
        }
      } else {
        SeenLater(m, rq.run, cq.run);
        if cq.Ok? {
          SeenLater(m, cq.run, MasterCall(v, cq.run, Synthesis, w.synthesis, |cq.run.artifacts| + 1).run);
        }
      }
    }
  }

  lemma AdmitShadows(w: World, m: nat, s: Run, q: Run)
    requires w.hasRow && FirstCancel(w, m) && Shadow(m, s, q)
    ensures Twin(m, Admit(w, s), Admit(Quiet(w), q))
    ensures Admit(w, s).Ok? <==> Admit(Quiet(w), q).Ok?
  {
    InterfereShadows(w, m, s, q);
    PublishShadows(m, Interfere(w, s), Interfere(Quiet(w), q), BudgetWarning);
    hide Caught, Interfere, FirstCancel, Shadow, Publish;
  }

  lemma WorkShadows(w: World, m: nat)
    requires w.hasRow && FirstCancel(w, m)
    ensures Twin(m, Work(w, Begin(w)), Work(Quiet(w), Begin(Quiet(w))))
  {
    var s := Begin(w);
    assert s == Begin(Quiet(w)) && Shadow(m, s, s);
    AdmitShadows(w, m, s, s);
    hide Caught, FirstCancel, Shadow, Admit, MasterRun, Coordinate, Begin;
    var rs, rq := Admit(w, s), Admit(Quiet(w), s);
    if rs.Ok? {
      if w.master {
        MasterRunShadows(w, m, rs.run, rq.run);
      } else {
        CoordinateShadows(w, m, rs.run, rq.run);
      }
    }
  }

  // ---------------------------------------------------------------- the way out

  lemma ExtractShadows(w: World, m: nat, s: Run, q: Run)
    requires w.hasRow && FirstCancel(w, m) && Shadow(m, s, q)
    ensures Shadow(m, ExtractMemory(w, s), ExtractMemory(Quiet(w), q))
  {
    InterfereShadows(w, m, s, q);
    match w.memory
    case None =>
    case Some(FilterFails(_)) =>
    case Some(Verdict(shouldRemember, entries, refused, inTokens, outTokens, recording)) =>
      var written := if shouldRemember then StoredEntries(entries, refused, 0) else [];
      var s1, q1 := Interfere(w, s), Interfere(Quiet(w), q);
      var s2, q2 := s1.(stored := s1.stored + written), q1.(stored := q1.stored + written);
      StoredShadows(m, s1, q1, written);
      if recording.Recorded? {
        MemoryBookedShadows(m, s2, q2, inTokens, outTokens, recording.cost);
        InterfereShadows(w, m, BookMemory(s2, inTokens, outTokens, recording.cost),
                         BookMemory(q2, inTokens, outTokens, recording.cost));
      }
      hide Caught, FirstCancel, Shadow, Interfere, BookMemory, StoredEntries;
  }

  lemma StoredShadows(m: nat, s: Run, q: Run, written: seq<string>)
    requires Shadow(m, s, q)
    ensures Shadow(m, s.(stored := s.stored + written), q.(stored := q.stored + written))
  {
    hide Caught;
  }

  lemma MemoryBookedShadows(m: nat, s: Run, q: Run, inTokens: nat, outTokens: nat, cost: real)
    requires Shadow(m, s, q)
    ensures Shadow(m, BookMemory(s, inTokens, outTokens, cost), BookMemory(q, inTokens, outTokens, cost))
  {
    hide Caught;
  }

  /** The two finished runs: the cancel was seen, and stands; or it was not, and left no trace but its mark. */
  ghost predicate EndTwin(m: nat, r: Run, q: Run) {
    && q.cancelledAt == None && q.exit != ExitCancelled && q.status != CancelledStatus
    && (r.cancelledAt.Some? <==> m < q.clock)
    && (Caught(m, q.rereads) ==> r.status == CancelledStatus && r.exit == ExitCancelled && m < q.clock)
    && (!Caught(m, q.rereads) ==> r == q.(cancelledAt := r.cancelledAt))
  }

  /** The commit that ends both runs overwrites a cancel that was not seen. */
  lemma CommittedTwin(w: World, m: nat, s: Run, q: Run, status: Status)
    requires w.hasRow && FirstCancel(w, m) && Shadow(m, s, q)
    requires q.exit != ExitCancelled && status != CancelledStatus
    ensures EndTwin(m, CommitClosing(w, s, status), CommitClosing(Quiet(w), q, status))
  {
    InterfereShadows(w, m, s, q);
    hide Caught, FirstCancel, Interfere;
    CommitMark(Quiet(w), q, status);
  }

  lemma ToldShadows(w: World, m: nat, s: Run, q: Run, code: string, outcome: string)
    requires Shadow(m, s, q)
    ensures Shadow(m, TellSucceeded(w, s), TellSucceeded(Quiet(w), q))
    ensures Shadow(m, TellFailed(w, s, code, outcome), TellFailed(Quiet(w), q, code, outcome))
  {
    hide Caught, SumIn, SumOut;
  }

  lemma SucceededTwin(w: World, m: nat, s: Run, q: Run)
    requires w.hasRow && FirstCancel(w, m) && Shadow(m, s, q)
    ensures EndTwin(m, FinishSucceeded(w, s), FinishSucceeded(Quiet(w), q))
  {
    hide Shadow, FirstCancel, CommitClosing, EndTwin;
    ToldShadows(w, m, s, q, "", "");
    CommittedTwin(w, m, TellSucceeded(w, s), TellSucceeded(Quiet(w), q), Succeeded);
  }

  lemma FailedTwin(w: World, m: nat, s: Run, q: Run, code: string, outcome: string)
    requires w.hasRow && FirstCancel(w, m) && Shadow(m, s, q)
    ensures EndTwin(m, FinishFailed(w, s, code, outcome), FinishFailed(Quiet(w), q, code, outcome))
  {
    hide Shadow, FirstCancel, CommitClosing, EndTwin;
    ToldShadows(w, m, s, q, code, outcome);
    CommittedTwin(w, m, TellFailed(w, s, code, outcome), TellFailed(Quiet(w), q, code, outcome), FailedStatus);
  }

  /** The quiet run never ends as cancelled. */
  lemma QuietStatus(v: World, q: Run)
    requires v.cancels == Never && q.status == Running && q.cancelledAt == None && v.hasRow
    ensures var r := Conclude(v, q); r.cancelledAt == None && r.exit != ExitCancelled && r.status != CancelledStatus
  {
    hide StoredEntries, SumIn, SumOut;
  }

  lemma ConcludeShadows(w: World, m: nat, s: Run, q: Run)
    requires w.hasRow && FirstCancel(w, m) && Shadow(m, s, q)
    requires !SeesCancel(w, s) && !SeesCancel(Quiet(w), q)
    ensures EndTwin(m, Conclude(w, s), Conclude(Quiet(w), q))
  {
    InterfereShadows(w, m, s, q);
    hide Caught, FirstCancel, Shadow, Interfere, ExtractMemory, FinishSucceeded, FinishFailed, EndTwin;
    var v := Quiet(w);
    match w.screen
    case ScreenBlocks(code) => FailedTwin(w, m, Interfere(w, s), Interfere(v, q), code, "failed");
    case ScreenPasses =>
      ExtractShadows(w, m, Interfere(w, s), Interfere(v, q));
      SucceededTwin(w, m, ExtractMemory(w, Interfere(w, s)), ExtractMemory(v, Interfere(v, q)));
    case NoScreen =>
      ExtractShadows(w, m, s, q);
      SucceededTwin(w, m, ExtractMemory(w, s), ExtractMemory(v, q));
  }

  /** The same surroundings with one cancel, at moment m. */
  function CancelledOnceAt(w: World, m: nat): World {
    w.(cancels := n => n == m)
  }

  /** Nobody cancels, so the work never raises the cancel error and the status stays running: compare the
      run with one that is cancelled only after it. */
  lemma QuietWork(w: World)
    requires w.hasRow
    ensures var q := Work(Quiet(w), Begin(Quiet(w)));
            && q.run.status == Running && q.run.cancelledAt == None && (q.Err? ==> q.error != MidRunCancel)
  {
    var q := Work(Quiet(w), Begin(Quiet(w)));
    var late := CancelledOnceAt(w, q.run.clock);
    assert Quiet(late) == Quiet(w) && FirstCancel(late, q.run.clock);
    hide Work, Begin, Quiet;
    WorkShadows(late, q.run.clock);
  }

  lemma AloneEnds(v: World, s: Run)
    requires v.cancels == Never && v.hasRow && s.status == Running && s.cancelledAt == None
    ensures var q := Reread(v, s); !SeesCancel(v, q) && q.status == Running && q.cancelledAt == None
  {
  }

  /** A cancel seen in the work: the run is cancelled, the quiet one went on past a re-read. */
  lemma SeenInWork(w: World, m: nat)
    requires w.hasRow && FirstCancel(w, m)
    requires var r, q := Work(w, Begin(w)), Work(Quiet(w), Begin(Quiet(w)));
             && Seen(m, q.run) && r.Err? && r.error == MidRunCancel && r.run.status == CancelledStatus
             && r.run.cancelledAt.Some?
    ensures EndTwin(m, Execute(w), Execute(Quiet(w)))
  {
    var v := Quiet(w);
    var r, q := Work(w, Begin(w)), Work(v, Begin(v));
    QuietWork(w);
    hide Work, Begin, Caught, Conclude, FirstCancel;
    assert Execute(w) == FinishCancelled(w, r.run);
    if q.Ok? {
      var q' := Reread(v, q.run);
      InterfereLater(v, q.run);
      SeenLater(m, q.run, q');
      ConcludeLater(v, q');
      SeenLater(m, q', Conclude(v, q'));
      AloneEnds(v, q.run);
      QuietStatus(v, q');
    }
  }

  lemma ExecuteTwin(w: World, m: nat)
    requires w.hasRow && FirstCancel(w, m)
    ensures EndTwin(m, Execute(w), Execute(Quiet(w)))
  {
    var v := Quiet(w);
    var r, q := Work(w, Begin(w)), Work(v, Begin(v));
    WorkShadows(w, m);
    hide Work, Begin, Caught, Conclude, FirstCancel, Shadow, FinishFailed, FinishCancelled, EndTwin, Reread;
    if Seen(m, q.run) && r.Err? && r.error == MidRunCancel && r.run.status == CancelledStatus
        && r.run.cancelledAt.Some? {
      SeenInWork(w, m);
    } else if r.Ok? {
      RereadShadows(w, m, r.run, q.run);
      var s', q' := Reread(w, r.run), Reread(v, q.run);
      if SeesCancel(w, s') {
        QuietWork(w);
        AloneEnds(v, q.run);
        QuietStatus(v, q');
        ConcludeLater(v, q');
        SeenLater(m, q', Conclude(v, q'));
        SeenAtLast(w, m, s', Conclude(v, q'));
      } else {
        ConcludeShadows(w, m, s', q');
      }
    } else {
      FailedTwin(w, m, r.run, q.run, ErrorCode(r.error), FailureOutcome(ErrorCode(r.error)));
    }
  }

  lemma SeenAtLast(w: World, m: nat, s: Run, q: Run)
    requires w.hasRow && SeesCancel(w, s) && s.cancelledAt.Some? && Seen(m, q)
    requires q.cancelledAt == None && q.exit != ExitCancelled && q.status != CancelledStatus
    ensures EndTwin(m, Conclude(w, s), q)
  {
    hide Caught;
  }

  /** Whether a committed cancel survives, for every run: compare it with the same run that nobody cancels.
      The cancel is committed exactly when its moment comes before that run's closing commit; it stands
      exactly when that run would have read the status again after that moment; and a cancel that does not
      stand changes nothing: the run ends as if nobody had cancelled. */
  lemma CommittedCancelSurvivesIff(w: World, m: nat)
    requires w.hasRow && FirstCancel(w, m)
    ensures var r, q := Execute(w), Execute(Quiet(w));
            && (r.cancelledAt.Some? <==> m < q.clock)
            && (r.status == CancelledStatus <==> exists k :: k in q.rereads && m < k)
            && (r.status == CancelledStatus <==> r.exit == ExitCancelled)
            && (r.status != CancelledStatus ==> r == q.(cancelledAt := r.cancelledAt))
  {
    ExecuteTwin(w, m);
    hide Execute;
  }

  // ---------------------------------------------------------------- the last moment

  lemma MasterRunLater(w: World, s: Run)
    ensures Later(s, MasterRun(w, s).run)
  {
    hide MasterCall, Coordinate, Later;
    MasterCallLater(w, s, MasterPlan, w.masterPlan, 0);
    var r := MasterCall(w, s, MasterPlan, w.masterPlan, 0);
    CoordinateLater(w, r.run);
    var c := Coordinate(w, r.run);
    LaterStill(s, r.run, c.run);
    var synthesis := MasterCall(w, c.run, Synthesis, w.synthesis, |c.run.artifacts| + 1);
    MasterCallLater(w, c.run, Synthesis, w.synthesis, |c.run.artifacts| + 1);
    LaterStill(s, c.run, synthesis.run);
  }

  lemma WorkLater(w: World, s: Run)
    ensures Later(s, Work(w, s).run)
  {
    AdmitLater(w, s);
    MasterRunLater(w, Admit(w, s).run);
    CoordinateLater(w, Admit(w, s).run);
    hide Admit, MasterRun, Coordinate, Past;
  }

  lemma AdmitLater(w: World, s: Run)
    ensures Later(s, Admit(w, s).run)
  {
  }

  /** Before the moment just gone. */
  ghost predicate LastUnread(r: Run) {
    r.clock > 0 && forall k :: k in r.rereads ==> k < r.clock
  }

  lemma CommitUnread(w: World, s: Run, code: string, outcome: string)
    requires Past(s)
    ensures LastUnread(FinishSucceeded(w, s)) && LastUnread(FinishFailed(w, s, code, outcome))
  {
    hide SumIn, SumOut;
    CommitMark(w, TellSucceeded(w, s), Succeeded);
    CommitMark(w, TellFailed(w, s, code, outcome), FailedStatus);
    hide CommitClosing;
  }

  lemma ConcludeUnread(w: World, s: Run)
    requires Past(s)
    ensures Conclude(w, s).exit != ExitCancelled ==> LastUnread(Conclude(w, s))
  {
    hide FinishSucceeded, FinishFailed, ExtractMemory, Past, LastUnread, Interfere, Reread;
    if !SeesCancel(w, s) {
      var screened := if w.screen.NoScreen? then s else Interfere(w, s);
      InterfereLater(w, s);
      ExtractLater(w, screened);
      match w.screen
      case ScreenBlocks(code) => CommitUnread(w, screened, code, "failed");
      case ScreenPasses => CommitUnread(w, ExtractMemory(w, screened), "", "");
      case NoScreen => CommitUnread(w, ExtractMemory(w, screened), "", "");
    }
  }

  /** A run that does not leave as cancelled has a moment after its last re-read. */
  lemma ExecuteUnread(w: World)
    ensures Execute(w).exit != ExitCancelled ==> LastUnread(Execute(w))
  {
    assert Past(Begin(w));
    WorkLater(w, Begin(w));
    hide Work, Begin, Conclude, FinishFailed, Past, LastUnread, Reread, FailureOutcome;
    match Work(w, Begin(w))
    case Ok(s) =>
      InterfereLater(w, s);
      ConcludeUnread(w, Reread(w, s));
    case Err(s, e) => CommitUnread(w, s, ErrorCode(e), FailureOutcome(ErrorCode(e)));
  }

  /** The moment just before the closing commit of the run that nobody cancels. */
  function LastMoment(w: World): nat
    requires Execute(Quiet(w)).clock > 0
  {
    Execute(Quiet(w)).clock - 1
  }

  /** Every run, whatever its configuration and however it ends, has a moment at which a cancel is committed and
      then overwritten: the last one, between the assignment of the closing status and its commit. */
  lemma LastCancelOverwritten(w: World)
    requires w.hasRow
    ensures var q := Execute(Quiet(w));
            && q.clock > 0 && q.status != CancelledStatus
            && var r := Execute(CancelledOnceAt(w, LastMoment(w)));
               r.cancelledAt.Some? && r == q.(cancelledAt := r.cancelledAt)
  {
    var q := Execute(Quiet(w));
    hide Execute, LastUnread;
    QuietEnd(w);
    ExecuteUnread(Quiet(w));
    UnreadMeans(q);
    var late := CancelledOnceAt(w, q.clock - 1);
    assert Quiet(late) == Quiet(w) && FirstCancel(late, q.clock - 1);
    CommittedCancelSurvivesIff(late, q.clock - 1);
  }

  lemma UnreadMeans(r: Run)
    requires LastUnread(r)
    ensures r.clock > 0 && !Caught(r.clock - 1, r.rereads)
  {
  }

  lemma QuietEnd(w: World)
    requires w.hasRow
    ensures Execute(Quiet(w)).exit != ExitCancelled && Execute(Quiet(w)).status != CancelledStatus
  {
    var late := CancelledOnceAt(w, 0);
    assert Quiet(late) == Quiet(w) && FirstCancel(late, 0);
    hide Execute, Quiet;
    ExecuteTwin(late, 0);
  }

  /** The success write goes over a committed cancel. */
  ghost predicate SuccessOverCancel(w: World) {
    Execute(w).cancelledAt.Some? && Execute(w).status == Succeeded
  }

  /** Surroundings in which everything asked for succeeds. */
  function Healthy(master: bool, recorder: bool, screen: bool, memory: bool): World {
    World(true, DEFAULT_TASK_CAP, NoQuota, [], master, recorder, ANY_CALL, Planned([]),
          (n, agent, prompt) => ANY_CALL, ANY_CALL, if screen then ScreenPasses else NoScreen,
          if memory then Some(Verdict(false, [], n => false, 0, 0, Recorded(1.0))) else None, Never)
  }

  lemma HealthyMasterCall(w: World, s: Run, role: Role, index: nat)
    requires w.cancels == Never && w.cap == DEFAULT_TASK_CAP && s.status == Running
    requires s.accumulated <= 1.0 && (role == MasterPlan || role == Synthesis)
    ensures var r := MasterCall(w, s, role, ANY_CALL, index);
            r.Ok? && r.run.status == Running && r.run.accumulated <= s.accumulated + 1.0
  {
  }

  lemma HealthyWork(w: World)
    requires w == Healthy(w.master, w.recorder, w.screen.ScreenPasses?, w.memory.Some?)
    ensures var r := Work(w, Begin(w)); r.Ok? && r.run.status == Running
  {
    var s := Begin(w);
    assert OrderedSteps([]) == [];
    if w.master {
      HealthyMasterCall(w, s, MasterPlan, 0);
      var planned := MasterCall(w, s, MasterPlan, ANY_CALL, 0).run;
      hide MasterCall, OrderedSteps;
      assert Coordinate(w, planned) == Ok(Interfere(w, planned));
      HealthyMasterCall(w, Interfere(w, planned), Synthesis, |planned.artifacts| + 1);
    }
  }

  lemma HealthySucceeds(w: World)
    requires w == Healthy(w.master, w.recorder, w.screen.ScreenPasses?, w.memory.Some?)
    ensures Execute(w).status == Succeeded
  {
    HealthyWork(w);
    hide Work, Begin, ExtractMemory, SumIn, SumOut;
  }

  /** No configuration protects a committed cancel from the success write: with or without a Master, billing, a
      screen or memory extraction, some run ends as succeeded over one. */
  lemma SuccessOverCancelInEveryConfiguration(master: bool, recorder: bool, screen: bool, memory: bool)
    ensures exists w: World :: w.master == master && w.recorder == recorder && w.screen.NoScreen? == !screen
                               && w.memory.Some? == memory && SuccessOverCancel(w)
  {
    var q := Healthy(master, recorder, screen, memory);
    HealthySucceeds(q);
    LastCancelOverwritten(q);
    assert Quiet(q) == q;
    var w := CancelledOnceAt(q, LastMoment(q));
    hide Execute;
    assert SuccessOverCancel(w);
  }
}
