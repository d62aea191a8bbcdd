/** One task execution, step by step: admission, the optional Master plan, the delegations in
    dependency order, the Master synthesis, the final cancel check, the output screen, the memory
    extraction and the closing write.

    Calls into models, recorders and screens are answered by a World; so is the question whether another
    session commits a cancel at a given moment.  Every function here maps a run to the run after it. */
module TaskRun {
  import opened Text
  import opened TaskEvents
  import opened BudgetGuard
  import opened PlanOrdering
  import ArtifactText

  // ---------------------------------------------------------------- what the surroundings answer

  /** A recorder writes one step row and returns its cost, or writes nothing and fails. */
  datatype Recording = Recorded(cost: real) | NotRecorded(code: string)

  /** One paid model call: it fails, or answers and is then recorded. */
  datatype Call =
    | CallFails(code: string)
    | Answered(output: string, inTokens: nat, outTokens: nat, recording: Recording)

  datatype Admission = NoQuota | QuotaExceeded(code: string) | QuotaAdmitted(softWarn: bool)

  datatype PlanCall = PlanFails(code: string) | Planned(steps: seq<PlanStep>)

  datatype Screen = NoScreen | ScreenPasses | ScreenBlocks(code: string)

  /** The filter agent's verdict on the deliverable; the store may refuse an entry. */
  datatype MemoryCall =
    | FilterFails(code: string)
    | Verdict(shouldRemember: bool, entries: seq<string>, refused: nat -> bool,
              inTokens: nat, outTokens: nat, recording: Recording)

  datatype World = World(
    hasRow: bool,                             // the task row exists
    cap: real,
    quota: Admission,
    team: seq<string>,                        // agents the cell may delegate to
    master: bool,                             // a Master agent runs above the Coordinator
    recorder: bool,                           // the Master's own calls are billed
    masterPlan: Call,
    coordinator: PlanCall,
    leaf: (nat, string, string) -> Call,      // answer to the n-th delegation, by agent and prompt
    synthesis: Call,
    screen: Screen,
    memory: Option<MemoryCall>,
    cancels: nat -> bool                      // another session commits a cancel at this moment
  )

  // ---------------------------------------------------------------- the run

  datatype Status = Queued | Running | Succeeded | FailedStatus | CancelledStatus

  datatype Role = MasterPlan | Delegation(agent: string) | Synthesis | Memory

  datatype StepRow = StepRow(role: Role, index: nat, inTokens: nat, outTokens: nat, cost: real)

  datatype LeafResult = LeafResult(agent: string, output: string, inTokens: nat, outTokens: nat, cost: real)

  /** A paid call that was issued, and what had been spent before it. */
  datatype PaidCall = PaidCall(role: Role, before: real)

  datatype Exit = StillRunning | ExitSucceeded | ExitCancelled | ExitFailed(code: string)

  datatype Run = Run(
    clock: nat,                     // moments at which another session may act
    rereads: seq<nat>,              // moments that had passed when the status was re-read
    status: Status,                 // the status column, shared with other sessions
    cancelledAt: Option<nat>,       // step rows that existed when a cancel was committed
    accumulated: real,
    leafOutputs: seq<LeafResult>,
    masterIn: nat, masterOut: nat, memoryIn: nat, memoryOut: nat,
    stepIndex: nat,                 // the leaf runner's own counter
    artifacts: seq<string>, priorContext: string,
    calls: seq<PaidCall>,
    steps: seq<StepRow>,            // the recorded step rows
    stored: seq<string>,            // memory entries written
    ledger: seq<TaskEvent>,
    gauge: int,                     // the queue-depth gauge, relative to its level before the task
    outcomes: seq<string>,          // terminal metrics observed
    total: Option<real>, totalIn: Option<nat>, totalOut: Option<nat>,   // the totals written on the row
    exit: Exit
  )

  const FRESH: Run :=
    Run(0, [], Queued, None, 0.0, [], 0, 0, 0, 0, 0, [], "", [], [], [], [], 0, [], None, None, None, StillRunning)

  datatype RunError = MidRunCancel | OverBudgetBefore | OverBudgetAfter | OtherError(code: string)

  function ErrorCode(e: RunError): string {
    match e
    case MidRunCancel => "tasks.cancelled"
    case OverBudgetBefore => "tasks.budget_exceeded"
    case OverBudgetAfter => "tasks.budget_exceeded"
    case OtherError(code) => code
  }

  /** A step of the run ends normally, or raises with the run as it then is. */
  datatype Result = Ok(run: Run) | Err(run: Run, error: RunError) {
    predicate IsFailure() { Err? }
    function PropagateFailure(): Result requires Err? { this }
    function Extract(): Run requires Ok? { run }
  }

  /** Another session acts: it may commit a cancel on a task that is still running. */
  function Interfere(w: World, s: Run): Run {
    var s' := s.(clock := s.clock + 1);
    if w.hasRow && s.status == Running && w.cancels(s.clock)
    then s'.(status := CancelledStatus, cancelledAt := Some(|s.steps|))
    else s'
  }

  function Publish(s: Run, e: TaskEvent): Run {
    s.(ledger := s.ledger + [e])
  }

  /** Wait for the status to be re-read. */
  function Reread(w: World, s: Run): Run {
    var s := Interfere(w, s);
    s.(rereads := s.rereads + [s.clock])
  }

  /** The persisted status, as a re-read finds it. */
  predicate SeesCancel(w: World, s: Run) {
    w.hasRow && s.status == CancelledStatus
  }

  function CheckBudget(w: World, s: Run, pending: real, e: RunError): Result {
    if WithinBudget(s.accumulated, pending, w.cap) then Ok(s) else Err(s, e)
  }

  // ---------------------------------------------------------------- one leaf delegation

  /** The leaf's step row under its new index, and in the orchestrator its cost and result. */
  function BookLeaf(s: Run, leaf: LeafResult): Run {
    s.(steps := s.steps + [StepRow(Delegation(leaf.agent), s.stepIndex, leaf.inTokens, leaf.outTokens, leaf.cost)],
       accumulated := s.accumulated + leaf.cost,
       leafOutputs := s.leafOutputs + [leaf])
  }

  /** The production leaf: call the specialist, take the next step index, record the step row. */
  function RunLeaf(w: World, s: Run, agent: string, prompt: string): (r: Result)
    ensures r.Ok? ==> |r.run.leafOutputs| == |s.leafOutputs| + 1
  {
    var call := w.leaf(s.stepIndex, agent, prompt);
    var s := Interfere(w, s.(calls := s.calls + [PaidCall(Delegation(agent), s.accumulated)]));
    match call
    case CallFails(code) => Err(s, OtherError(code))
    case Answered(output, inTokens, outTokens, recording) =>
      var s := s.(stepIndex := s.stepIndex + 1);
      match recording
      case NotRecorded(code) => Err(s, OtherError(code))
      case Recorded(cost) =>
        var kept := ArtifactText.StripWrappingFence(output);
        Ok(Interfere(w, BookLeaf(s, LeafResult(agent, kept, inTokens, outTokens, cost))))
  }

  /** The post-call check and the completion event of the last leaf. */
  function CompleteLeaf(w: World, s: Run): Result
    requires s.leafOutputs != []
  {
    var leaf := s.leafOutputs[|s.leafOutputs| - 1];
    var s :- CheckBudget(w, s, 0.0, OverBudgetAfter);
    Ok(Publish(s, DelegationCompleted(leaf.agent, leaf.cost, leaf.outTokens)))
  }

  /** The orchestrator's wrapper: cancel check, event, pre-call check, leaf, post-call check, event. */
  function Delegate(w: World, s: Run, agent: string, prompt: string): (r: Result)
    ensures r.Ok? ==> |r.run.leafOutputs| == |s.leafOutputs| + 1
  {
    var s := Reread(w, s);
    if SeesCancel(w, s) then Err(s, MidRunCancel)
    else
      var s := Interfere(w, Publish(s, DelegationStarted(agent)));
      var s :- CheckBudget(w, s, EstimateStepCost(agent), OverBudgetBefore);
      var s :- RunLeaf(w, s, agent, prompt);
      CompleteLeaf(w, s)
  }

  // ---------------------------------------------------------------- the Coordinator's plan

  const KNOWN_AGENTS: seq<string> := ["coordinator", "researcher", "writer", "analyst"]

  function ComposeSubPrompt(goal: string, prior: string): string {
    if prior == "" then goal else goal + "\n\n" + prior
  }

  /** The guards before a delegation: the agent is in the team, is known, and has a prompt. */
  function Guard(w: World, agent: string, prompt: string): Option<string> {
    if agent !in w.team then Some("agents.delegation.target_invalid")
    else if agent !in KNOWN_AGENTS || prompt == "" then Some("ValidationError")
    else None
  }

  /** Chain the output into the next prompts and materialize one artifact. */
  function Materialize(s: Run, agent: string, output: string): Run {
    var entry := "## " + agent + " output\n" + output;
    s.(priorContext := if s.priorContext == "" then entry else s.priorContext + "\n\n" + entry,
       artifacts := s.artifacts + [ArtifactText.NormalizeArtifactMarkdown(output)])
  }

  /** Delegate one plan step. */
  function DelegateStep(w: World, s: Run, step: PlanStep): Result {
    var prompt := ComposeSubPrompt(step.goal, s.priorContext);
    match Guard(w, step.agent, prompt)
    case Some(code) => Err(s, OtherError(code))
    case None =>
      var s :- Delegate(w, s, step.agent, prompt);
      Ok(Materialize(s, step.agent, s.leafOutputs[|s.leafOutputs| - 1].output))
  }

  function DelegatePlan(w: World, s: Run, plan: seq<PlanStep>): Result
    decreases |plan|
  {
    if plan == [] then Ok(s)
    else
      var s :- DelegateStep(w, s, plan[0]);
      DelegatePlan(w, s, plan[1..])
  }

  function Coordinate(w: World, s: Run): Result {
    match w.coordinator
    case PlanFails(code) => Err(Interfere(w, s), OtherError(code))
    case Planned(steps) => DelegatePlan(w, Interfere(w, s), OrderedSteps(steps))
  }

  // ---------------------------------------------------------------- the Master

  function RoleKey(role: Role): string {
    match role
    case MasterPlan => "master"
    case Delegation(agent) => agent
    case Synthesis => "master_synthesis"
    case Memory => "memory_filter"
  }

  function PhaseName(role: Role): string {
    match role
    case MasterPlan => "plan"
    case Delegation(agent) => agent
    case Synthesis => "synthesis"
    case Memory => "memory_extraction"
  }

  /** The step row of a Master call, and its cost and tokens in the orchestrator. */
  function BookMaster(s: Run, role: Role, index: nat, inTokens: nat, outTokens: nat, cost: real): Run {
    s.(steps := s.steps + [StepRow(role, index, inTokens, outTokens, cost)],
       accumulated := s.accumulated + cost,
       masterIn := s.masterIn + inTokens, masterOut := s.masterOut + outTokens)
  }

  /** The post-call check and the event of a billed Master call. */
  function CompleteMaster(w: World, s: Run, role: Role, cost: real): Result {
    var s :- CheckBudget(w, s, 0.0, OverBudgetAfter);
    Ok(Publish(s, StepCompleted(PhaseName(role), cost)))
  }

  /** One of the Master's own calls: pre-call check, the call, and its billing, when it is billed at all. */
  function MasterCall(w: World, s: Run, role: Role, call: Call, index: nat): Result {
    var s :- if w.recorder then CheckBudget(w, s, EstimateStepCost(RoleKey(role)), OverBudgetBefore) else Ok(s);
    var s := Interfere(w, s.(calls := s.calls + [PaidCall(role, s.accumulated)]));
    match call
    case CallFails(code) => Err(s, OtherError(code))
    case Answered(output, inTokens, outTokens, recording) =>
      if !w.recorder then Ok(s)
      else
        match recording
        case NotRecorded(code) => Err(s, OtherError(code))
        case Recorded(cost) =>
          CompleteMaster(w, Interfere(w, BookMaster(s, role, index, inTokens, outTokens, cost)), role, cost)
  }

  /** Strategic plan, the Coordinator below it, and the synthesis above the artifacts. */
  function MasterRun(w: World, s: Run): Result {
    var s :- MasterCall(w, s, MasterPlan, w.masterPlan, 0);
    var s :- Coordinate(w, s);
    MasterCall(w, s, Synthesis, w.synthesis, |s.artifacts| + 1)
  }

  function Admit(w: World, s: Run): Result {
    match w.quota
    case NoQuota => Ok(s)
    case QuotaExceeded(code) => Err(Interfere(w, s), OtherError(code))
    case QuotaAdmitted(softWarn) =>
      var s := Interfere(w, s);
      Ok(if softWarn then Publish(s, BudgetWarning) else s)
  }

  /** Everything up to the final re-read of the status. */
  function Work(w: World, s: Run): Result {
    var s :- Admit(w, s);
    if w.master then MasterRun(w, s) else Coordinate(w, s)
  }

  // ---------------------------------------------------------------- memory extraction

  /** The entries written before the store refuses one. */
  function StoredEntries(entries: seq<string>, refused: nat -> bool, i: nat): (r: seq<string>)
    requires i <= |entries|
    ensures |r| <= |entries| - i && r == entries[i..i + |r|]
    ensures forall k :: i <= k < i + |r| ==> !refused(k)
    ensures |r| < |entries| - i ==> refused(i + |r|)
    decreases |entries| - i
  {
    if i == |entries| || refused(i) then [] else [entries[i]] + StoredEntries(entries, refused, i + 1)
  }

  /** The memory call's step row, under the index above the synthesis, and its cost and tokens. */
  function BookMemory(s: Run, inTokens: nat, outTokens: nat, cost: real): Run {
    s.(steps := s.steps + [StepRow(Memory, |s.leafOutputs| + 2, inTokens, outTokens, cost)],
       accumulated := s.accumulated + cost,
       memoryIn := s.memoryIn + inTokens, memoryOut := s.memoryOut + outTokens,
       ledger := s.ledger + [StepCompleted(PhaseName(Memory), cost)])
  }

  /** Entries first, billing last; whatever fails is swallowed and only a billed call is folded in. */
  function ExtractMemory(w: World, s: Run): Run {
    match w.memory
    case None => s
    case Some(FilterFails(_)) => Interfere(w, s)
    case Some(Verdict(shouldRemember, entries, refused, inTokens, outTokens, recording)) =>
      var s := Interfere(w, s);
      var written := if shouldRemember then StoredEntries(entries, refused, 0) else [];
      var s := s.(stored := s.stored + written);
      if (shouldRemember && |written| < |entries|) || recording.NotRecorded? then s
      else Interfere(w, BookMemory(s, inTokens, outTokens, recording.cost))
  }

  // ---------------------------------------------------------------- the three ways out

  function Begin(w: World): Run {
    FRESH.(ledger := [Started], gauge := 1, status := if w.hasRow then Running else Queued)
  }

  function SumIn(outs: seq<LeafResult>): nat {
    if outs == [] then 0 else SumIn(outs[..|outs| - 1]) + outs[|outs| - 1].inTokens
  }

  function SumOut(outs: seq<LeafResult>): nat {
    if outs == [] then 0 else SumOut(outs[..|outs| - 1]) + outs[|outs| - 1].outTokens
  }

  /** Release the gauge, observe the outcome. */
  function RecordOutcome(s: Run, outcome: string): Run {
    s.(gauge := s.gauge - 1, outcomes := s.outcomes + [outcome])
  }

  function FinishCancelled(w: World, s: Run): Run {
    var s := s.(total := if w.hasRow then Some(s.accumulated) else None);
    Publish(RecordOutcome(s, "cancelled"), Cancelled(s.accumulated)).(exit := ExitCancelled)
  }

  /** A run that has announced its failure, and not yet committed it. */
  function TellFailed(w: World, s: Run, code: string, outcome: string): Run {
    var s := if w.hasRow then s.(total := Some(s.accumulated)) else s;
    Publish(RecordOutcome(s, outcome), Failed(code, s.accumulated)).(exit := ExitFailed(code))
  }

  /** A run that has announced its success, and not yet committed it. */
  function TellSucceeded(w: World, s: Run): Run {
    var s := if w.hasRow then
               s.(total := Some(s.accumulated),
                  totalIn := Some(SumIn(s.leafOutputs) + s.masterIn + s.memoryIn),
                  totalOut := Some(SumOut(s.leafOutputs) + s.masterOut + s.memoryOut))
             else s;
    Publish(RecordOutcome(s, "succeeded"), Completed(s.accumulated)).(exit := ExitSucceeded)
  }

  /** The end is published, then the caller commits: only here does the status assigned before reach the row. */
  function CommitClosing(w: World, s: Run, status: Status): Run {
    var s := Interfere(w, s);
    if w.hasRow then s.(status := status) else s
  }

  function FinishFailed(w: World, s: Run, code: string, outcome: string): Run {
    CommitClosing(w, TellFailed(w, s, code, outcome), FailedStatus)
  }

  function FinishSucceeded(w: World, s: Run): Run {
    CommitClosing(w, TellSucceeded(w, s), Succeeded)
  }

  function FailureOutcome(code: string): string {
    if code in ["tasks.budget_exceeded", "llm_gateway.budget_exceeded",
                "billing.cell_quota_exceeded", "billing.daily_quota_exceeded"]
    then "budget_exceeded" else "failed"
  }

  /** After the work: the final re-read, the output screen, the memory extraction and the success write. */
  function Conclude(w: World, s: Run): Run {
    if SeesCancel(w, s) then FinishCancelled(w, s)
    else
      match w.screen
      case ScreenBlocks(code) => FinishFailed(w, Interfere(w, s), code, "failed")
      case ScreenPasses => FinishSucceeded(w, ExtractMemory(w, Interfere(w, s)))
      case NoScreen => FinishSucceeded(w, ExtractMemory(w, s))
  }

  /** The whole execution. */
  function Execute(w: World): Run {
    match Work(w, Begin(w))
    case Ok(s) => Conclude(w, Reread(w, s))
    case Err(s, MidRunCancel) => FinishCancelled(w, s)
    case Err(s, e) => FinishFailed(w, s, ErrorCode(e), FailureOutcome(ErrorCode(e)))
  }
}
