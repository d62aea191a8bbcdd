/** The per-task budget cap, in credits.  Amounts are exact decimals. */
module BudgetGuard {

  const DEFAULT_TASK_CAP: real := 50.0
  const CREDIT_PER_OUTPUT_TOKEN: real := 0.000110

  /** The check passes: what is spent and what is about to be spent stay within the cap. */
  predicate WithinBudget(accumulated: real, pending: real, cap: real) {
    accumulated + pending <= cap
  }

  /** The output budget of a role, in tokens. */
  function MaxTokens(role: string): nat {
    match role
    case "coordinator" => 2048
    case "researcher" => 4096
    case "analyst" => 4096
    case "writer" => 8192
    case "master" => 2048
    case "master_synthesis" => 8192
    case "memory_filter" => 1024
    case "memory_summary" => 1024
    case _ => 4096
  }

  /** The forward estimate of one step: its full output budget. */
  function EstimateStepCost(role: string): (e: real)
    ensures e > 0.0
  {
    MaxTokens(role) as real * CREDIT_PER_OUTPUT_TOKEN
  }
}
