# Verification of the agent platform's runtime protocols

A Dafny model of the protocols that carry the platform's guarantees, with proofs over every input, every run
and every interleaving. Code that updates state step by step is modelled by classes and loops and proved
against specification functions; the theorems are about those functions.

| file | what it covers |
|---|---|
| `TaskRun.dfy`, `TaskRunLaws.dfy`, `TaskRunTheorems.dfy`, `TaskRunCancel.dfy`, `TaskRunChain.dfy`, `TaskRunOutcome.dfy`, `TaskRunTeam.dfy`, `TaskRunLedger.dfy`, `Orchestrator.dfy` | one task execution: quota admission, optional Master plan, delegations, synthesis, final cancel re-read, output screen, memory extraction, the three ways out, with another session cancelling at any moment |
| `PlanOrder.dfy`, `PlanPrecedence.dfy` | dependency order of an arbitrary, possibly cyclic, plan, and which of two steps comes first |
| `BudgetGuard.dfy`, `TaskEvents.dfy` | the credit cap and step estimates; the events of a task's ledger |
| `SseDelivery.dfy`, `SsePublishers.dfy` | the in-process and the Redis-stream publisher over every interleaving of publishes, registrations, reads and departures |
| `SseFrames.dfy`, `SseRoundTrip.dfy`, `SseReading.dfy` | the wire format (sections 9.2.5 and 9.2.6 of the WHATWG HTML Standard, line feeds only): the server's frames and the browser's incremental parser |
| `LedgerDelivery.dfy` | the three above joined: from a task run to what the browser's parser hands on |
| `GlobRegex.dfy`, `GlobSegments.dfy`, `Tripwire.dfy` | the path-glob compiler, its meaning, and the merge decision built on it |
| `QueueFormat.dfy`, `RunQueue.dfy`, `RunQueueLaws.dfy`, `RunQueueFile.dfy`, `RunQueueInput.dfy`, `RunQueueResolve.dfy`, `RunQueueHistory.dfy`, `RunQueueDates.dfy`, `RunQueueText.dfy` | the RUN-QUEUE text log: line format, commands, the file, what arbitrary fields and notes do to it, and when it tells the history of the commands |
| `TokenRefresh.dfy`, `TokenRefreshHistory.dfy`, `TokenClient.dfy` | single-flight token refresh under concurrent calls, logins and logouts |
| `Evidence.dfy`, `EvidenceVerdict.dfy` | the evidence freshness gate |
| `ArtifactText.dfy` | artifact markdown unwrapping and normalisation |
| `CircuitBreaker.dfy` | the provider circuit breaker over clocked traces |
| `Text.dfy` | splitting, joining, stripping and searching text |

## How a task run is modelled

A `World` holds every answer from outside: model calls (an answer with token counts, or an error), recorders (one
step row and its cost, or nothing and an error), the quota gate, the output screen, and for each await whether
another session commits a cancel there. `TaskRun.Execute` maps a world to the finished run, so a theorem over all
worlds is a theorem over all runs. `Orchestrator.TaskExecution` is the imperative form, with the program's fields
updated in its order; each method is proved to take the object's view where the specification takes it. Recorders
are atomic, and event, session and metric calls do not fail. How every run ends is `TaskRunOutcome.EveryExit`: its
conditions are written over the world alone, with the agents, estimates and codes spelled out. The closing status is assigned before the end is
published and reaches the row with the caller's commit after it; another session may act in between.

## Where the code and its documentation differ

The model follows the code. Each difference is a lemma with a concrete input, beside the exact condition under
which the documented behaviour holds.

- `_ordered_steps` says a cyclic plan degrades to input order. It does not: 1 and 2 depending on each other come out
  as 2, 1 (`CyclicPlanReordered`). The order is the input order exactly when step numbers are unique and every
  present dependency stands at or before its dependent (`InputOrderKeptIff`).
- After a committed cancel at most the one leaf already under way should be charged. That holds in every run exactly
  when no Master is billed and no memory is extracted (`CancelGuaranteeIff`): those calls do not re-read the status.
  The general bound is `AtMostOneLeafAfterCommit`.
- A committed cancel should never be overwritten. Compared with the same run that nobody cancels, a cancel at a given
  moment stands exactly when that run would have read the status again after the moment, and otherwise the closing
  write goes over it (`CommittedCancelSurvivesIff`; `CancelOverwrittenByFailure` is an input). Every run has such a
  moment, the last one: the closing status is assigned, the end is published, and only then does the caller commit
  (`LastCancelOverwritten`). So no configuration protects a committed cancel from the success write
  (`SuccessOverCancelInEveryConfiguration`).
- `strip_wrapping_fence` calls itself idempotent. It is, exactly unless a `markdown` or `md` wrapper holds a body that
  is itself a wrapped text (`UnwrapIdempotentIff`, `MarkdownPeelsOneLayer`).
- Both publishers should give every subscriber the same events. They do exactly when the in-process subscriber joined
  no later than just after the first terminal event (`PublishersAgreeIff`, `LateJoinerSeesMore`); the ledger shape the
  orchestrator keeps makes the condition always true (`EverySubscriberGetsTheLedger`).
- `HALF_OPEN` is documented as one probe. Attempts are allowed without limit until an outcome is recorded
  (`ProbesAreNotLimited`); `SecondProbeIff` says when another attempt is refused after any attempts and failures.
- RUN-QUEUE ids have three digits and a date of eight: the entry after number 999 of a day, or under a time stamp that
  does not start with a date, is written but not recognised (`NextIdFresh`, `ThousandthEntryLost`,
  `FullDayLosesEntry`); up to then an add without an id gets the next number of the day
  (`AutomaticIdIsNextOfDay`). Resolving replaces every `status:pending` in the line, so it rewrites exactly the status if
  and only if no field contains that text (`ResolveRewritesStatusIff`).
- `check-ack` should succeed only after an approved ack. The command line takes fields with spaces and notes with line
  feeds, and either can supply a line that reads as an approved ack (`NoteForgesAck`, `PhaseForgesAck`). Over any run of
  commands, check-ack succeeds exactly when some command wrote such a line (`AckedRunIff`). An add writes exactly its own
  entry when its fields are recognised and no note continues with a header line (`AddAppendsItsEntryIff`); under those
  conditions adds approve nothing and a resolve approves exactly by its verdict (`FittingAddAcksNothing`,
  `FittingResolveAcksIff`), and over whole runs check-ack succeeds exactly after an approved ack
  (`RunQueueHistory.CheckAckIff`).
- A login that lands while an older refresh is failing is signed out by it (`LoginLostToFailingRefresh`); a failed
  refresh clears the session it presented exactly when no login or logout landed meanwhile
  (`FailureClearsItsOwnSessionIff`).
- The frame parser trims the event name and knows no `id:` or `retry:` field, and it does not treat a carriage return
  as a line end; `ArrivesUnchangedIff` says which events it returns unchanged.

## Model

| member | source | states |
|---|---|---|
| Orchestrator.TaskExecution.ExecuteAgentTask | backend/src/runtime/orchestrator.py:230-666 | the whole execution, field by field, ends where `TaskRun.Execute` of its world ends, with a shaped ledger, the gauge back at zero, one outcome, and a total that is the sum of the recorded rows |
| Orchestrator.TaskExecution.Runner | backend/src/runtime/orchestrator.py:290-332 | cancel re-read, started event, pre-call check, leaf, booking, post-call check, completed event, in that order and with that error |
| Orchestrator.TaskExecution.RunLeafCall | backend/src/runtime/dispatch.py:507-642 | the leaf takes the next step index only after the call answered, and books the row and result only when recorded |
| Orchestrator.TaskExecution.RunCoordinator | backend/src/runtime/dispatch.py:725-800 | the Coordinator loop delegates the ordered plan step by step, chaining context and materialising artifacts |
| Orchestrator.TaskExecution.RunMasterCall | backend/src/runtime/orchestrator.py:341-367 | a Master call is pre-checked and billed exactly when there is a recorder |
| Orchestrator.TaskExecution.RunMaster | backend/src/runtime/dispatch.py:910-1000 | plan call, Coordinator, synthesis call above the artifacts |
| Orchestrator.TaskExecution.Extract | backend/src/runtime/memory_extraction.py:111-172 | entries in a loop first, the billed row last, any failure swallowed |
| Orchestrator.TaskExecution.RunConclusion | backend/src/runtime/orchestrator.py:497-666 | final re-read, screen, memory, closing write, publication of the end, and the commit of the status |
| TaskRunTheorems.LedgerAlwaysShaped | backend/src/runtime/orchestrator.py:265-279 | on every path the ledger starts with task.started, has exactly one terminal event and it is last; the gauge returns to its level and one outcome is measured |
| TaskRunTheorems.SuccessIsTheTranscript | backend/src/runtime/orchestrator.py:585-660 | a successful run executed the whole ordered plan, recorded exactly the billed calls, and its ledger is the transcript of those rows |
| TaskRunTheorems.FailureIsAlmostTold | backend/src/runtime/orchestrator.py:420-497 | any other run delegated a first part of the ordered plan and its ledger is at most one event off its rows |
| TaskRunTheorems.CostConserved | backend/src/runtime/orchestrator.py:585-632 | on every exit the written and the announced total are the sum of the recorded step costs; on success both token totals are the sums over the same rows |
| TaskRunTheorems.StepIndicesNeverCollide | backend/src/runtime/dispatch.py:763-994 | in every run rows carry plan 0, leaves 1..N, synthesis N+1, memory N+2, strictly increasing |
| TaskRunTheorems.PaidCallsWithinCap | backend/src/runtime/orchestrator.py:306-319 | a paid call starts only while spent plus estimate is within the cap, so the total after it is at most cap - estimate + cost |
| TaskRunTheorems.SuccessWithinCap | backend/src/runtime/orchestrator.py:341-367 | a successful run spends at most the cap plus the unchecked memory call |
| TaskRunTheorems.EstimatesHoldNoPostCheck | backend/src/runtime/budget_guard.py:18-36 | if every cost is within its estimate no check after a call raises |
| TaskRunTheorems.AtMostOneLeafAfterCommit | backend/src/runtime/orchestrator.py:290-332 | after a committed cancel only the leaf or plan call under way, one synthesis after it, or the memory call past the final re-read can be charged |
| TaskRunTheorems.CancelGuaranteeIff | backend/src/runtime/orchestrator.py:290-367 | only the leaf under way is charged after the commit, in every run, if and only if no Master is billed and no memory extracted |
| TaskRunTheorems.FinalRereadHonoursCancel | backend/src/runtime/orchestrator.py:497-522 | a run that reaches the re-read after the commit publishes task.cancelled with its sum and records nothing more; a run that still succeeds was cancelled after all rows of the work, before or after the memory row |
| TaskRunCancel.CommittedCancelSurvivesIff | backend/src/runtime/orchestrator.py:290-522 | against the same world without the cancel: it is committed exactly when its moment comes before that run's closing commit, it stands exactly when that run reads the status again later, and otherwise the run ends as that one does |
| TaskRunCancel.LastCancelOverwritten | backend/src/runtime/queue/actor.py:155-162 | every run with a row, however it ends and whatever its surroundings, has a moment at which a cancel is committed and the closing write goes over it, leaving the run that nobody cancelled but for the mark |
| TaskRunCancel.SuccessOverCancelInEveryConfiguration | backend/src/runtime/orchestrator.py:585-660 | with or without a Master, billing, screen or memory extraction, some run ends as succeeded over a committed cancel |
| TaskRunTheorems.CancelOverwrittenByFailure | backend/src/runtime/orchestrator.py:446-455 | some run commits a cancel and ends as failed |
| TaskRunTheorems.OutcomeTellsTheExit | backend/src/runtime/orchestrator.py:430-640 | every run measures exactly one outcome, the one its exit and terminal event name |
| TaskRunTheorems.MemoryBilledLast | backend/src/runtime/memory_extraction.py:137-172 | the memory call is billed only after all wanted entries are written; a refused entry leaves those before it and no bill |
| TaskRunChain.EveryRunIsChained | backend/src/runtime/dispatch.py:763-791 | in every run result i answers step i of the ordered plan asked with its goal, a blank line and all earlier outputs under their headings; on success the artifacts are the results normalised in order |
| TaskRunChain.WorkChains | backend/src/runtime/dispatch.py:677-687 | at the end of the work the counter, the context and the artifacts are those of the results |
| TaskRunOutcome.EveryExit | backend/src/runtime/orchestrator.py:230-666 | how every run ends, from its surroundings alone: how far its plan gets is determined, and then it is cancelled exactly when somebody cancels before its last re-read; else it fails with the code of the first thing that does not go (quota, plan call, Coordinator, a step outside the team, unknown or without a prompt, the cap before or after a call, a failed or unrecorded call, synthesis, screen), or succeeds |
| TaskRunOutcome.SucceedsIff | backend/src/runtime/orchestrator.py:290-367 | a run succeeds exactly when it is admitted, every ordered step is askable, answered and recorded with the sums within the cap at each check, the Master's calls go, the screen does not block, and no cancel comes before the final re-read |
| TaskRunOutcome.RefusesOutsideTeamIff | backend/src/runtime/dispatch.py:766-771 | a run ends with the code for an agent outside the team, when nothing outside says that code, exactly when the steps before some ordered step go, its agent is not in the team, and no cancel was read before it |
| TaskRunTeam.OnlyTheTeam | backend/src/agents/tools/delegate.py:157-180 | in every run each paid delegation, step row, kept result and delegation event is for a known agent of the team |
| TaskRunTeam.OnlyAskableAsked | backend/src/runtime/dispatch.py:766-791 | no other question is ever asked: changing the answers to agents outside the team, unknown agents and empty prompts changes no run |
| TaskRunLedger.LedgerExactly | backend/src/runtime/orchestrator.py:290-332 | the ledger of every run exactly: a cancelled or finished one tells its rows; one that found the cap exceeded after a row tells all but that row's completion; any other failure leaves a delegation open exactly when one was asked and did not come back |
| TaskRunLedger.StatusTellsExit | backend/src/runtime/orchestrator.py:420-497 | the status left on the row is the one the exit names, whoever cancelled and when |
| TaskRunTheorems.SuccessStores | backend/src/runtime/memory_extraction.py:137-172 | a successful run has stored the wanted memory entries up to the first refused one |
| PlanOrdering.PlanOrder.Ordered | backend/src/runtime/dispatch.py:651-674 | the recursive walk over mutable visited and order computes `OrderedSteps`, and terminates on every plan |
| PlanOrdering.OrderedStepsSound | backend/src/runtime/dispatch.py:651-674 | one step per distinct number, all from the plan, and every dependency edge honoured that is not on a cycle of the steps placed, even in cyclic plans and with repeated numbers |
| PlanOrdering.AcyclicPlanSorted | backend/src/runtime/dispatch.py:651-659 | a plan comes out topologically sorted when it, or only what is placed of it, is acyclic |
| PlanOrdering.UniqueNumbersPermuted | backend/src/runtime/dispatch.py:659-674 | with unique numbers the order is a permutation of the plan |
| PlanOrdering.InputOrderKeptIff | backend/src/runtime/dispatch.py:651-658 | the order is the input exactly when numbers are unique and present dependencies come at or before their dependents |
| PlanOrdering.CyclicPlanReordered | backend/src/runtime/dispatch.py:651-658 | a two-step cyclic plan does not keep its input order |
| PlanPrecedence.OrderIsEarlier | backend/src/runtime/dispatch.py:651-674 | for every acyclic plan with unique numbers the whole order is fixed by the plan: of two steps the one comes first that is reached first going through the input from the top and through dependencies as they are listed |
| PlanPrecedence.InputStepsInOrder | backend/src/runtime/dispatch.py:651-674 | for every plan, an input step comes before whatever neither it nor an earlier input step leads to |
| PlanPrecedence.DependenciesInOrder | backend/src/runtime/dispatch.py:664-670 | for every plan, the k-th dependency of a step comes before the l-th, k < l, when no input step before it and no dependency up to the k-th leads to the l-th |
| PlanPrecedence.UnreachedIsPlaced | backend/src/runtime/dispatch.py:659-674 | an input step that nothing before it leads to is placed itself, also when its number repeats |
| PlanPrecedence.DependencyIsLast | backend/src/runtime/dispatch.py:659-670 | a dependency that no earlier input step leads to, on another number than the step's own, is placed as the last step that carries it |
| SseDelivery.NothingLostNothingRepeated | backend/src/runtime/sse_publisher.py:48-76 | at every moment of every interleaving what a reader has yielded followed by its queued events is the published log |
| SseDelivery.FinishedAtTheCut | backend/src/runtime/sse_publisher.py:66-73 | a subscription that ended by itself yielded the log up to the first terminal event, or up to where it joined later |
| SseDelivery.ReaderNeverStuck | backend/src/runtime/sse_publisher.py:59-73 | once the task is over a reading subscriber's queue is never empty |
| SseDelivery.YieldedIsAPrefix | backend/src/runtime/sse_publisher.py:74-76 | whoever left early has a prefix of the log |
| SseDelivery.LogIsPublished | backend/src/runtime/sse_publisher.py:48-52 | the drain is the publishing history of the task, whatever was interleaved |
| SseDelivery.RegisteredIffReading | backend/src/runtime/sse_publisher.py:59-76 | after every interleaving the registry holds exactly the subscriptions still reading |
| SseDelivery.StreamReaderStopsAtFirstTerminal | backend/src/runtime/redis_sse_publisher.py:124-154 | however batches are cut the reader yields a prefix, ends exactly at the first terminal event, and until then has more to read |
| SseDelivery.PublishersAgreeIff | backend/src/runtime/redis_sse_publisher.py:124-154 | two ended subscriptions to one log delivered the same events exactly when the in-process one joined by just after the first terminal event |
| SseDelivery.LateJoinerSeesMore | backend/src/runtime/sse_publisher.py:59-67 | a schedule in which the late in-process subscriber gets an event the stream reader does not |
| SseDelivery.ShapedLedgerDeliveredWhole | backend/src/runtime/sse_publisher.py:59-73 | a log whose only terminal event is its last is delivered whole by either publisher whenever joined |
| SsePublishers.InProcessSsePublisher.Publish | backend/src/runtime/sse_publisher.py:48-57 | the loop over the queues is one publish step of the interleaving model and keeps its invariant |
| SsePublishers.InProcessSsePublisher.Open | backend/src/runtime/sse_publisher.py:59-67 | registering and replaying the drain is one subscribe step |
| SsePublishers.InProcessSsePublisher.Get | backend/src/runtime/sse_publisher.py:68-76 | one round of the subscriber's loop is one read step, the sentinel included |
| SsePublishers.InProcessSsePublisher.Close | backend/src/runtime/sse_publisher.py:74-76 | leaving takes the queue off the registry |
| SsePublishers.StreamSubscription.CatchUp | backend/src/runtime/redis_sse_publisher.py:130-151 | the nested cursor loops, over a stream that may grow at every read and answers of any sizes, never yield past the first terminal event, and yield everything up to it, ending there, once the stream has stayed still for as many reads as it has entries |
| SsePublishers.StreamSubscription.HandleBatch | backend/src/runtime/redis_sse_publisher.py:142-151 | one batch entry by entry keeps the cursor invariant and returns at the terminal event |
| LedgerDelivery.EverySubscriberGetsTheLedger | backend/src/runtime/sse_publisher.py:48-76 | for every task run each ended subscription of either publisher received its whole ledger, and any other has a prefix and more to read |
| LedgerDelivery.ClientSeesTheLedger | backend/src/tasks/routers/stream.py:43-86 | printed with comments in between and cut anywhere, the ledger of any run comes out of the client's parser complete, in order, started first, terminal last |
| SseFrames.SseFrameParser.Push | frontend/src/api/sse.ts:24-36 | the while loop emits the events of the complete frames and keeps a buffer without a complete separator |
| SseFrames.SseFrameParser.Flush | frontend/src/api/sse.ts:39-44 | the trimmed rest is parsed as a last frame and the buffer emptied |
| SseFrames.ParseFrame | frontend/src/api/sse.ts:48-69 | the loop over the lines computes the frame's event, none without a data line |
| SseFrames.ChunksDoNotMatter | frontend/src/api/sse.ts:20-36 | for every cutting into chunks the pushes give the events and buffer of one push of the whole text, and the buffer holds no separator |
| SseFrames.CutAppend | frontend/src/api/sse.ts:24-36 | cutting a concatenation is cutting the first part, then its rest with the second |
| SseReading.FrameReads | frontend/src/api/sse.ts:48-69 | any frame, line by line: the event of its last event: line, or message, with the data of its data: lines less one leading space and one trailing carriage return; without data no event |
| SseReading.AnyTextReads | frontend/src/api/sse.ts:20-36 | any text in any chunks: the events are those of the pieces before its blank lines, and the buffer keeps the rest |
| SseReading.EveryTextHasFrames | frontend/src/api/sse.ts:24-36 | every text is such pieces and a rest without a blank line |
| SseRoundTrip.OneLineFrame | backend/src/tasks/routers/stream.py:43-45 | a printed one-line event is the server's text |
| SseRoundTrip.FrameComesBack | frontend/src/api/sse.ts:48-69 | parsing a printed frame gives the trimmed name and the data lines without a trailing carriage return; a comment gives nothing |
| SseRoundTrip.PrintedStreamComesBack | frontend/src/api/sse.ts:20-75 | any printed list of events and comments, cut anywhere, is parsed back in order with nothing left to flush |
| SseRoundTrip.CutShortStreamComesBack | frontend/src/api/sse.ts:38-44 | without the final blank line the last event still comes, losing only blanks at its end |
| SseRoundTrip.ArrivesUnchangedIff | frontend/src/api/sse.ts:48-69 | an event comes back unchanged exactly when its name has no blank ends and no data line ends in a carriage return |
| GlobRegex.GlobToRegex | scripts/autonomy/classify_tripwire.py:35-65 | the index scanner's text reads back, as a regular expression, as exactly the pieces of the glob |
| GlobRegex.PatternTextReadsBack | scripts/autonomy/classify_tripwire.py:62-65 | escaping makes the concatenated pattern text unambiguous for every list of pieces |
| GlobRegex.CompileAccepts | scripts/autonomy/classify_tripwire.py:35-65 | for every glob and text the compiled pieces match exactly what the glob, read directly, accepts |
| GlobRegex.RegexMeansGlob | scripts/autonomy/classify_tripwire.py:35-65 | the same for the pattern's text, and on newline-free paths for the plain glob reading |
| GlobSegments.CompiledIsSegmentwise | scripts/autonomy/classify_tripwire.py:35-40 | when every ** is a whole component, a newline-free path matches exactly when the segment-by-segment matcher accepts it |
| GlobSegments.GlobIsSegmentwise | scripts/autonomy/classify_tripwire.py:35-40 | non-final ** takes any number of segments, final ** at least one, * and ? stay in theirs |
| GlobSegments.ComponentTakesSegment | scripts/autonomy/classify_tripwire.py:55-60 | a component without ** takes exactly a slash-free part that its wildcards match |
| Tripwire.Classifier.Classify | scripts/autonomy/classify_tripwire.py:85-96 | one match per hit category in order, with exactly the hit files, sorted and without repetition |
| Tripwire.Classifier.ApplyMigrationDowngrade | scripts/autonomy/classify_tripwire.py:226-244 | the migrations match goes exactly when all its files are clean, and the note gives each file's verdict |
| Tripwire.PausesIffTrips | scripts/autonomy/classify_tripwire.py:247-278 | the exit code is 10 when some file hits a category and is not a clean migration of db_migrations, and 0 otherwise |
| Tripwire.MoreFilesStayPaused | scripts/autonomy/classify_tripwire.py:247-278 | adding files to a change never turns a pause into a merge |
| Tripwire.MatchesComeFrom | scripts/autonomy/classify_tripwire.py:85-96 | every match reports one category of the configuration and no category twice |
| Tripwire.DowngradeDropsOne | scripts/autonomy/classify_tripwire.py:226-241 | the downgrade takes out the one match of db_migrations whose files are all clean and leaves the others as they are, or leaves all |
| Tripwire.NoteTells | scripts/autonomy/classify_tripwire.py:226-244 | there is a note exactly when some matched migration is clean; it gives every file's verdict and says downgraded exactly when all are clean |
| Tripwire.ReportedInOrder | scripts/autonomy/classify_tripwire.py:85-96 | the reported files come in increasing order of their characters |
| QueueFormat.HeaderMatchesIff | scripts/autonomy/run_queue.py:39-42 | a line matches the entry expression with given groups exactly when it is their printed form |
| QueueFormat.PrintedHeaderParses | scripts/autonomy/run_queue.py:73-74 | matching undoes printing |
| QueueFormat.HeaderLineText | scripts/autonomy/run_queue.py:72-74 | the printed header is the command's format string filled in |
| QueueFormat.ReplaceLengthens | scripts/autonomy/run_queue.py:101-104 | str.replace by a longer text changes exactly the texts with an occurrence |
| RunQueue.NextIdFresh | scripts/autonomy/run_queue.py:55-70 | for any time stamp and file, the automatic id has the recognised form exactly for a date of eight digits below 999, and is new among recognised ids |
| RunQueue.NextIdOverflows | scripts/autonomy/run_queue.py:55-62 | from 999 on it is not an id the expression matches |
| RunQueueLaws.ResolveRewritesStatusIff | scripts/autonomy/run_queue.py:99-104 | resolving rewrites exactly the status if and only if no field contains the replaced text |
| RunQueueLaws.ResolutionSaysVerdict | scripts/autonomy/run_queue.py:101-104 | the text after the status says approved exactly when the verdict is |
| RunQueueLaws.VerdictIsFinal | scripts/autonomy/run_queue.py:91-115 | an entry leaves pending at most once and is never removed, moved or renamed |
| RunQueueFile.QueueFile.Append | scripts/autonomy/run_queue.py:65-88 | the text grows by the heading of a new file, a blank line and the entry's block |
| RunQueueFile.QueueFile.ResolveEntry | scripts/autonomy/run_queue.py:91-115 | the first entry with the id is rewritten when pending, otherwise the text is unchanged and the answer 4 |
| RunQueueFile.QueueFile.CheckAck | scripts/autonomy/run_queue.py:118-131 | the search answers 0 exactly when an approved ack line exists |
| RunQueueInput.AddAppendsItsEntryIff | scripts/autonomy/run_queue.py:65-88 | on any file and for any fields and notes, an add appends exactly its own entry to the recognised ones if and only if its header has the form without a line feed and no note hides a header line |
| RunQueueInput.AckedStepIff | scripts/autonomy/run_queue.py:65-131 | any command on any file: check-ack succeeds afterwards exactly when it did before or the command wrote an approved ack line |
| RunQueueInput.AckedRunIff | scripts/autonomy/run_queue.py:118-131 | over every run of commands with any texts, check-ack succeeds exactly when one of them wrote an approved ack line, and no later one takes that back |
| RunQueueInput.FittingAddAcksNothing | scripts/autonomy/run_queue.py:65-88 | an add whose fields fit and whose notes hide no header line writes no ack |
| RunQueueInput.FittingResolveAcksIff | scripts/autonomy/run_queue.py:91-115 | a resolve of any recognised pending entry that can be rewritten writes an ack of a pull request exactly for an approved ack-needed entry of it |
| RunQueueInput.NoteForgesAck | scripts/autonomy/run_queue.py:73-88 | on any file one summary with a line feed makes check-ack succeed though nothing was approved |
| RunQueueInput.PhaseForgesAck | scripts/autonomy/run_queue.py:39-42 | so does one phase with spaces |
| RunQueueResolve.LineRewritten | scripts/autonomy/run_queue.py:99-104 | for any pending header, whatever its fields hold, rewriting its line gives the line of a resolved header with the same id and kind |
| RunQueueResolve.SecondResolveChangesNothing | scripts/autonomy/run_queue.py:91-115 | on any file, resolving an id again leaves the text as it is, whatever the fields, verdicts and notes |
| RunQueueHistory.TextTellsHistory | scripts/autonomy/run_queue.py:49-115 | after every run of commands that fit the format, the headers recognised in the file stand for exactly the entries added, in order, each with its verdict |
| RunQueueHistory.CheckAckIff | scripts/autonomy/run_queue.py:118-131 | after every such run check-ack succeeds for a pull request exactly when some ack-needed entry of it was resolved approved |
| RunQueueHistory.CleanRunFits | scripts/autonomy/run_queue.py:65-115 | commands whose texts are free of spaces, line feeds and the texts looked for fit every file, whatever their kinds, ids, dates and counts |
| RunQueueHistory.AutoIdIsNew | scripts/autonomy/run_queue.py:55-62 | on any file whatever, the automatic id is none of those in it |
| RunQueueHistory.AutoIdsDistinct | scripts/autonomy/run_queue.py:55-62 | ids given automatically never repeat in the file of any fitting run |
| RunQueueHistory.ThousandthEntryLost | scripts/autonomy/run_queue.py:39-62 | on any file, from the thousandth id of a day on, or without a date of eight digits, a new entry without spaces in its fields or header lines in its notes is not seen and the next automatic id is the same |
| RunQueueDates.AutomaticIdIsNextOfDay | scripts/autonomy/run_queue.py:55-70 | from the characters of the time stamp: for ts = y-m-d... with 4, 2 and 2 digits and numbers up to n < 999 used on that day among the recognised entries, an add without id appends exactly its own entry, recognised, with id RQ-ymd- and the three digits of n + 1 |
| RunQueueDates.FullDayLosesEntry | scripts/autonomy/run_queue.py:39-70 | when the day has used 999 the id is RQ-ymd-1000 and the file shows the entries it showed before |
| RunQueueDates.RecognisedIff | scripts/autonomy/run_queue.py:39-42 | a line is recognised, and as which entry, exactly when it is the printed form of groups with an id of eight and three digits, a kind of small letters and dashes, fields without spaces and a status word |
| RunQueueText.AddWritesExactly | scripts/autonomy/run_queue.py:65-88 | exactly the text an add appends: blank line, entry line, summary, details, and how to resolve an ack-needed or escalation entry |
| RunQueueText.ResolveWritesExactly | scripts/autonomy/run_queue.py:91-115 | exactly the lines a resolve leaves: the first entry with the id, when pending, rewritten with time and verdict, the note after it, all else as it was |
| RunQueueText.NothingToResolve | scripts/autonomy/run_queue.py:110-112 | without an entry of that id the file stays as it is |
| RunQueueText.CheckAckReads | scripts/autonomy/run_queue.py:118-131 | check-ack succeeds exactly when some line is a resolved ack-needed entry of the pull request with verdict:approved after its status |
| TokenRefresh.SingleFlight | frontend/src/api/client.ts:62-98 | in every interleaving at most one refresh is unfinished, the one the variable holds |
| TokenRefresh.NoTokenPresentedTwice | frontend/src/api/client.ts:70-90 | no refresh token is ever sent to the server twice |
| TokenRefresh.AtMostTwoRequests | frontend/src/api/client.ts:121-133 | each call sends its request once or twice, twice only with a session required and a refresh succeeded |
| TokenRefresh.RefreshReachesWaiter | frontend/src/api/client.ts:84-133 | a succeeding refresh lets every waiting call send again with the new access token, in whatever order the waiters go on and whatever else happens, as long as no token is written in between; its cleanup frees the variable |
| TokenRefresh.NoCallForgotten | frontend/src/api/client.ts:93-98 | a waiting call's refresh is in flight, or is over and the call can go on |
| TokenRefresh.FailureClearsItsOwnSessionIff | frontend/src/api/client.ts:74-89 | a refresh that fails, by refusal, by a network error or by an unreadable answer, clears the store, and the session it presented exactly when no login or logout landed meanwhile |
| TokenRefresh.SuccessReplacesItsOwnSessionIff | frontend/src/stores/auth.ts:50-52 | a succeeding refresh replaces its own session exactly under the same condition |
| TokenRefresh.LoginLostToFailingRefresh | frontend/src/stores/auth.ts:54-60 | a login during a failing refresh is signed out by it |
| TokenRefreshHistory.CallFollowsReplies | frontend/src/api/client.ts:121-133 | over every run and from its steps alone: a call goes beyond its first response only if that was a 401 and it needs a session |
| TokenRefreshHistory.SentAgainOnlyAfterRefusal | frontend/src/api/client.ts:125-129 | a request is sent twice only if a 401 answered its first one and the call needs a session |
| TokenRefreshHistory.FirstRequestCarriesToken | frontend/src/api/client.ts:121-123 | the first request carries the access token stored when the call started, if it needs a session, and none otherwise |
| TokenRefreshHistory.SecondRequestCarriesNewToken | frontend/src/api/client.ts:127-129 | the second request was sent after the call's own refresh had been answered with a pair, and carries the access token stored at that moment |
| TokenRefreshHistory.RefreshesAtMostRefusals | frontend/src/api/client.ts:92-98 | over every run no more refreshes are started and no more refresh tokens presented than first requests of calls that need a session were answered with a 401 |
| TokenRefreshHistory.RefusalJoinsRefresh | frontend/src/api/client.ts:70-98 | such a 401 makes the call wait for the refresh in flight, or starts one that presents the stored refresh token, or without one has failed at once; nothing else changes |
| TokenRefreshHistory.OtherResponsesEndTheCall | frontend/src/api/client.ts:125-135 | any other response ends its call and changes nothing else: store, flights and presented tokens stay |
| TokenRefreshHistory.WaiterFollowsItsRefresh | frontend/src/api/client.ts:127-132 | a waiting call goes on only when its own refresh is over: once more with the stored token if it succeeded, not at all if it failed |
| TokenRefreshHistory.SuccessWasAnswered | frontend/src/api/client.ts:84-86 | a refresh succeeds only if its answer held a pair |
| TokenRefreshHistory.StoreWritten | frontend/src/stores/auth.ts:42-60 | who writes the token store, and what: logins, logouts and refreshes that end, never a call |
| TokenClient.ApiClient.OnReply | frontend/src/api/client.ts:121-127 | a first 401 of a call that needs a session joins or starts the refresh, any other response ends the call, as one step that keeps the invariant |
| TokenClient.ApiClient.JoinRefresh | frontend/src/api/client.ts:93-98 | the shared promise is created only when none is in flight |
| TokenClient.ApiClient.OnRefreshStatus | frontend/src/api/client.ts:74-83 | a refused refresh clears the store and settles the flight |
| TokenClient.ApiClient.OnRefreshBody | frontend/src/api/client.ts:84-90 | the new pair is stored, an unreadable body clears the store |
| TokenClient.ApiClient.OnSettled | frontend/src/api/client.ts:93-96 | the cleanup empties the variable |
| TokenClient.ApiClient.OnRefreshed | frontend/src/api/client.ts:127-133 | the call is sent once more with the stored token, or fails |
| TokenClient.ApiClient.ApiFetch | frontend/src/api/client.ts:121-123 | a call up to its first await: the request carries the stored access token |
| TokenClient.ApiClient.OnLogin | frontend/src/stores/auth.ts:42-48 | a login replaces both tokens at any moment and keeps the invariant |
| TokenClient.ApiClient.OnLogout | frontend/src/stores/auth.ts:53-59 | a logout clears both tokens at any moment and keeps the invariant |
| Evidence.LastNonEvidenceCommit | scripts/autonomy/verify_evidence.py:63-94 | the bounded loop stops at the first commit it cannot step over, or after five |
| Evidence.WalkReachesCodeIff | scripts/autonomy/verify_evidence.py:78-94 | every commit stepped over touches only evidence, and the walk reaches its end exactly when at most five commits can be stepped over |
| Evidence.ValidateEvidence | scripts/autonomy/verify_evidence.py:122-153 | no problem is found exactly when the artifact is for this gate and commit, passed, and names valid distinct claims |
| Evidence.ValidateAcIds | scripts/autonomy/verify_evidence.py:156-172 | no problem exactly for a non-empty list of valid claim ids without repetition |
| Evidence.Verify | scripts/autonomy/verify_evidence.py:175-288 | exit 0 exactly when no gate is declared, or every gate the pull request could have changed is discharged on the resolved commit |
| Evidence.ExitZeroIsSound | scripts/autonomy/verify_evidence.py:63-94 | then every gate whose artifact or manifest the pull request changes, or might change, passed on a commit, at most five back, whose tree agrees with the tip outside the evidence directory |
| Evidence.StaleAfterCodeChange | scripts/autonomy/verify_evidence.py:67-77 | evidence taken before a commit that touches anything else does not verify its gate |
| EvidenceVerdict.ExitZeroIff | scripts/autonomy/verify_evidence.py:175-288 | exit 0 with paths, commits and fields written out: no manifest, no gates, or a readable tip and every required gate proved at the commit where the walk stops, whenever nobody knows the changes or they include the stripped directory's /manifest.json or the gate's own .json |
| EvidenceVerdict.OtherGatesIgnored | scripts/autonomy/verify_evidence.py:244-250 | the artifact of any other gate does not affect the exit code |
| EvidenceVerdict.ResolvedIs | scripts/autonomy/verify_evidence.py:63-94 | the walk goes on from a commit exactly when git lists its paths, there is one, all lie under the directory and its parent's id can be read, and stops there or after five |
| EvidenceVerdict.ProvesIs | scripts/autonomy/verify_evidence.py:122-153 | an artifact discharges a gate exactly when its six fields are there and say version 2, this gate, this commit, PASS, and distinct claims |
| EvidenceVerdict.AcTextIs | scripts/autonomy/verify_evidence.py:31-32 | a claim id is AC- and words of letters and digits with one dot or dash between any two |
| ArtifactText.NormalizeWithin | backend/src/runtime/artifact_text.py:87-97 | normalising only trims: the result is a contiguous part of the text |
| ArtifactText.FencedBodyUnwrapped | backend/src/runtime/artifact_text.py:34-54 | a fenced body is unwrapped for every body without an inner line of backticks, and with such lines exactly when the info string is markdown or md in any letter case |
| ArtifactText.UnwrapIdempotentIff | backend/src/runtime/artifact_text.py:34-54 | unwrapping twice is unwrapping once, for every text except exactly a markdown or md wrapper with inner fences whose inner text is itself wrapped, all said of the lines |
| ArtifactText.MarkdownPeelsOneLayer | backend/src/runtime/artifact_text.py:37-42 | each call peels one layer of nested markdown wrappers |
| ArtifactText.UnwrapReads | backend/src/runtime/artifact_text.py:34-54 | unwrapping any text, from the characters of its lines: the fence goes exactly when the last line is three backticks, the first opens a fence, and no inner line starts with backticks or the info string is markdown or md in any case |
| ArtifactText.FrontmatterReads | backend/src/runtime/artifact_text.py:57-65 | front matter of any text, from the characters of its lines: a line of three dashes, up to the first of dashes or dots, with the empty lines after it |
| ArtifactText.SummaryReads | backend/src/runtime/artifact_text.py:68-84 | a summary of any text, from the characters of its lines: the last fenced block with one of the six words in it, and a label saying structured summary in any case |
| ArtifactText.FrontmatterChangesIff | backend/src/runtime/artifact_text.py:57-65 | for every text, stripping changes it exactly when it has leading front matter, and then leaves the lines after it and the empty lines behind it |
| ArtifactText.FrontmatterDropped | backend/src/runtime/artifact_text.py:57-65 | front matter closed by --- or ... and any number of empty lines after it are dropped, the rest kept |
| ArtifactText.SummaryChangesIff | backend/src/runtime/artifact_text.py:68-84 | for every text, stripping changes it exactly when it ends in a summary block, and then leaves the trimmed lines before the block, its label and the blank lines around them |
| ArtifactText.SummaryDropped | backend/src/runtime/artifact_text.py:68-84 | a trailing summary block is dropped with its label, if any, and the blank lines before and after the label |
| ArtifactText.ScanSummary | backend/src/runtime/artifact_text.py:70-84 | the backward loop finds the fence that the last line closes and the lines that stay |
| ArtifactText.NormalizeRecovers | backend/src/runtime/artifact_text.py:87-97 | normalising any full envelope (markdown fence, front matter closed either way, empty lines, document, blank lines, label or none, summary block) gives back the document |
| CircuitBreaker.ProviderCircuit.ShouldAttempt | backend/src/llm_gateway/circuit_breaker.py:44-55 | the query's answer and its move to half-open |
| CircuitBreaker.ProviderCircuit.RecordFailure | backend/src/llm_gateway/circuit_breaker.py:79-97 | the counter and the trip, from closed at the threshold and from half-open at once |
| CircuitBreaker.ProviderCircuit.RecordSuccess | backend/src/llm_gateway/circuit_breaker.py:73-78 | a success makes the circuit a new one |
| CircuitBreaker.CounterIsHistory | backend/src/llm_gateway/circuit_breaker.py:72-97 | after every trace the counter is the number of failures since the last success |
| CircuitBreaker.LastFailureIsHistory | backend/src/llm_gateway/circuit_breaker.py:72-97 | after every trace the time kept is that of the last failure since the last success |
| CircuitBreaker.ClosedIffBelowThreshold | backend/src/llm_gateway/circuit_breaker.py:79-97 | closed exactly below the threshold after every trace, if and only if the threshold is at least one |
| CircuitBreaker.AttemptAllowedIff | backend/src/llm_gateway/circuit_breaker.py:44-70 | after every trace an attempt is allowed exactly below the threshold or once the cooldown since the last trip is over |
| CircuitBreaker.NoAttemptDuringCooldown | backend/src/llm_gateway/circuit_breaker.py:57-70 | from a trip until the cooldown is over no attempt is allowed unless a success is recorded |
| CircuitBreaker.SecondProbeIff | backend/src/llm_gateway/circuit_breaker.py:44-97 | after a probe and any attempts and failures, another attempt is refused exactly when a failure has tripped the circuit again and the cooldown from the last such one was over neither at an attempt since nor now |
| CircuitBreaker.SuccessForgets | backend/src/llm_gateway/circuit_breaker.py:73-78 | after a success the circuit is what the events since make of a new one |
| CircuitBreaker.ProbesAreNotLimited | backend/src/llm_gateway/circuit_breaker.py:54-55 | without a recorded outcome any number of probes is allowed |

## Left out

- Model calls, prompts' wording, web search, connectors: their answers are parameters of the run.
- Database sessions, isolation, row locks, child lineage rows and failed flushes: a recorder either writes its row or does not.
- The delegation depth guard: the depth is a constant 0 below a constant 5.
- Cancellation of the server process itself, and errors raised by event, session or metric calls.
- A leaf raising the cancel exception on its own account.
- Decimal context rounding: credits are exact.
- Budget reservation and refund, whose results nothing reads; the summary and citations of the result document.
- Redis key expiry and entries without data; a process restart between publishes.
- JSON encoding and decoding: event data stays text, its encoder is only assumed to write no line ends.
- Line separators other than the line feed in `splitlines`; non-ASCII digits and word characters in the RUN-QUEUE expression, non-ASCII letters in case folding.
- The wording of the RUN-QUEUE file's heading (shortened) and the `pending` listing.
- RunQueueHistory.TextTellsHistory: covers runs whose headers are recognised as given or not at all, whose notes hide no header line, whose fields do not hold `status:pending` and whose time stamps do not say `verdict:approved`; beyond them the file does not hold what was given, and `RunQueueInput` says what it holds.
- RunQueueHistory.CheckAckIff: the same runs; over all others `RunQueueInput.AckedRunIff` says when check-ack succeeds.
- A queue file edited by hand so that it does not end in a line feed.
- Reading a migration's source: which files are pure creations is a parameter, and so is the list of changed files.
- The regular-expression engine beyond the constructs the glob compiler emits.
- Page reloads and several tabs sharing the stored refresh token; the user record in the token store.
- git itself: the commit chain is data, and `TouchedIsComplete` (git lists every changed path, which rename detection can break) is a hypothesis of `ExitZeroIsSound`.
- Gates whose name in the manifest is not text, and the informational fields of an artifact.
- Role permissions, tool risk tables, problem documents, user interface: tables and formatting without a property across calls.
