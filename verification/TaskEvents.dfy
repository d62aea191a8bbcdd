/** The events of one task's ledger, and the shape every ledger must have. */
module TaskEvents {

  datatype TaskEvent =
    | Started
    | BudgetWarning
    | DelegationStarted(agent: string)
    | DelegationCompleted(agent: string, cost: real, tokens: nat)
    | StepCompleted(phase: string, cost: real)
    | Completed(total: real)
    | Cancelled(total: real)
    | Failed(code: string, total: real)

  /** The events that end a subscription. */
  predicate IsTerminal(e: TaskEvent) {
    e.Completed? || e.Cancelled? || e.Failed?
  }

  /** The ledger starts with task.started, has exactly one terminal event, and that event is last. */
  ghost predicate LedgerShape(log: seq<TaskEvent>) {
    && log != [] && log[0] == Started
    && IsTerminal(log[|log| - 1])
    && forall i :: 0 <= i < |log| - 1 ==> !IsTerminal(log[i])
  }
}
