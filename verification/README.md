# A verified model of the workflow engine

This project models the part of the repository that decides what an agent does next: the DAG
workflow engine (`src/agent/dag.rs`, `src/agent/dag_engine.rs`, and what
`src/storage/dag_store.rs` keeps of a workflow), the translation of compiled workflows into it
(`src/agent/planner.rs`), the small languages steps are written in (conditions, typed expressions,
step references, `{{...}}` templates, tool-argument merging), the retry protocol of the linear loop
(`src/agent/loop.rs`, `src/agent/evaluator.rs`) and the capped step history
(`src/agent/prompts.rs`).

`dafny verify dfyconfig.toml` checks everything.

## How the engine is modelled

- A workflow is a table of step nodes keyed by step id (`Dag.Graph`), as the store keeps it. The class
  `Workflows.Workflow` holds the node list that the source mutates in place, `DagEngines.DagEngine` the
  store and the scheduler; `Dag.GraphOf` is the table of a list.
- One scheduling cycle is `Engine.RunCycle(durable, g, input)`. Its input is what the outside decides:
  the clock, and for every step a verdict (success, failure of any cause, waiting for a person or for
  children, or lost to a panic and stuck in Running) and the time at which it was recorded. A run is
  the table after any sequence of such inputs (`Engine.After`), so every theorem about `After` is about
  all reachable states of all runs, with adversarial clocks and verdicts. A success carries what the
  executor returned, and the stored output is the object the engine makes of it.
- A cycle's outcome is what it returns; `StoreError` is a clash of the expansion with rows that are already
  stored, and `Hung` stands for a cycle that does not return because rendering the arguments of a foreach
  item never ends. Both leave the store as it was.
- `durable` says whether the store remembers that an expanded template is done. The engine hands the store
  only the new nodes and the rewritten dependency lists, and the Postgres store keeps just those; this is
  `durable == false`. `durable == true` is a store that keeps what the engine holds in memory. All theorems
  hold for both, except where they say otherwise.
- `InitialGraph` is what `from_plan` produces: unique names of the form `step-N`, all steps Pending, all
  dependencies known. `Ranked` is a numbering that decreases along dependencies, that is, acyclicity.
  `Translation.PlanGraphSound` and `Translation.TranslationSound` show that both hold of every translated
  workflow.

## What the proofs found

- A finished run is reported as completed exactly when nothing depends on a failed step
  (`RunVerdict.FailureSpoilsRunIff`); a workflow whose only step fails is reported as completed
  (`FailedRuns.FailedRunCompletes`).
- With the Postgres store, the cycle after an expansion loads the template as Pending again, expands
  it again, and its insert clashes with the rows that are already there: the engine stops with an error,
  exactly then (`StoreFidelity.StoreErrorIff`, `TemplateRuns.SecondExpansionFails`), and no workflow with a
  template ever completes (`StoreFidelity.TemplatesNeverComplete`).
- A rule abort goes through the ordinary failure path: a step is done for good after it exactly when the
  policy allows no retry (`RetryBudget.AbortIsFinalIff`), and a run in which an aborted step is executed
  twice exists (`FailedRuns.AbortedTwice`). `from_plan` gives every step a policy of one attempt, so no
  step of a plan is ever retried or executed twice (`FailedRuns.PlannedStepsRunOnce`).
- A foreach expression is understood exactly when it starts with `deps.`; the documented `$.deps.` form
  yields no items (`ForeachSources.CollectionIff`, `ForeachSources.DocumentedFormHasNoItems`). Of those that
  are understood, only `deps.<step>.tool_results` can have items, because that is the only array in a stored
  output (`ForeachSources.HasItemsIff`). An expanded template has no output, so a foreach over another
  template has no items either (`ForeachSources.ForeachOverTemplate`).
- Rendering `{item.key}` for a key the item does not have replaces the placeholder by itself, forever, also
  when nothing follows it (`ItemTemplates.MissingKeyHangs`, `ItemTemplates.RenderingEndsIff`). Items are tool
  results, so any key other than `success`, `output` and `error` hangs the cycle that expands the template
  (`ForeachSources.UnknownKeyHangs`, `TemplateRuns.NamingHangs`).
- A task that panicked is reported under the id `unknown`; the failure is recorded for no step, and the step
  stays Running (`BatchExecution.ExecuteBatch`).
- On the deterministic fast path the planned call is handed on exactly when it does not write a file whose
  path ends in `.pdf`; such a call becomes another tool with other arguments
  (`ArgumentMerge.FastPathArguments`, `ArgumentMerge.PlannedPdfIsRewritten`).
- The in-place template loop makes no progress on an unresolved placeholder that is followed by another
  `{{`, and hangs exactly then (`Templates.InPlaceLoop`, `Templates.NoProgress`).
- The two template substituters write null differently, and agree on resolved texts exactly when no
  placeholder is null (`TemplateValues.TwoSubstitutersAgree`).
- The two typed-expression evaluators disagree only on the truth of texts of white space
  (`TypedExpressions.BlankSeparates`), and on a `not` whose ignored right operand cannot be evaluated
  (`TypedExpressions.EvaluatorsAgree`).
- The gate does not fail open on a path that does not resolve, except for the ordered comparisons and the
  operators that ask for absence (`ConditionLaws.UnresolvedRunsIff`); a typed gate never does
  (`ConditionLaws.TypedGate`). The structured and the typed notion of truth differ on the empty object and on
  nothing else (`ConditionLaws.TwoNotionsOfTruth`).
- The machine computes the intended backoff exactly when that delay fits a signed 64-bit number
  (`RetryBudget.BackoffExactIff`).

## Model

| member | source | states |
|---|---|---|
| `RunConfluence.ParallelRunsHaveOneMeaning` | src/agent/dag_engine.rs:535-735 | if a step's verdict is a function of the step, its predecessor outputs and its attempt number, any two runs of a plan that have come to rest (completed, deadlocked, or waiting with no step retrying) end in the same table with the same verdict, whatever the clocks and the grouping into batches |
| `RunConfluence.FinalGraphsEqual` | src/agent/dag_engine.rs:535-735 | two settled tables of the same plan and behaviour are equal, by induction over the rank of steps, items and joins |
| `RunConfluence.FinalStep` | src/agent/dag_engine.rs:745-898 | the row of every step in a finished run is determined by its plan and inputs: untouched if blocked, skipped if its gate fails, else what repeated execution comes to |
| `RunConfluence.RunKeepsDetermined` | src/agent/dag_engine.rs:535-735 | along every such run each row is on the way to its determined result, and items and joins are what their template's collection says |
| `BatchInterleaving.InterleavingsHaveOneMeaning` | src/agent/dag_engine.rs:745-898 | every interleaving of the reads and writes of the concurrent tasks leaves the table of running each step alone on the table the batch started from |
| `BatchInterleaving.EnoughTurnsFinish` | src/agent/dag_engine.rs:745-898 | a task is done after three turns more than it has dependencies, however the others are scheduled |
| `BatchInterleaving.BatchIsAntichain` | src/agent/dag.rs:394-413 | no step of a ready batch is an ancestor of another |
| `BatchInterleaving.ReadsAreStable` | src/agent/dag_engine.rs:86-95 | what a task reads, no task of the same batch writes |
| `RunTermination.ContinueDecreases` | src/agent/dag_engine.rs:535-735 | every cycle that continues decreases the pair (templates not yet expanded, executions still allowed) |
| `RunTermination.NoInfiniteRun` | src/agent/dag_engine.rs:451-533 | in every infinite stream of inputs only finitely many cycles continue: from some cycle on none does, and the table no longer changes |
| `RunTermination.OnlyContinueChanges` | src/agent/dag_engine.rs:535-735 | a cycle that does not continue, whether it waits, ends, fails or hangs, leaves the store unchanged |
| `RunVerdict.ExpansionFindsReady` | src/agent/dag.rs:308-383 | a cycle with a template to expand hangs exactly if a rendering does not end, else fails exactly if its insert clashes, else finds a ready step and continues |
| `RunVerdict.QuietCycle` | src/agent/dag_engine.rs:543-572 | a cycle that does not run steps, hang or fail had nothing to expand and leaves the store unchanged |
| `RunVerdict.CompleteIff` | src/agent/dag_engine.rs:553-556 | in every reachable state the cycle reports completion exactly when all steps are terminal, failed ones included |
| `RunVerdict.CompletedFailuresAreLeaves` | src/agent/dag.rs:418-427 | in a completed run nothing depends on a failed step |
| `RunVerdict.FailureSpoilsRunIff` | src/agent/dag_engine.rs:553-560 | a run that has come to a verdict reports completion exactly when every failed step is a leaf, else deadlock |
| `RunVerdict.DeadlockIff` | src/agent/dag.rs:436-463 | a deadlock is reported exactly when no step is active, some step is Pending and every Pending step has a failed ancestor; the blamed steps are the failed ones and there are some |
| `RunVerdict.ExactWakeUp` | src/agent/dag.rs:469-480 | when a cycle waits with a step retrying, nothing is ready before the announced time and something is ready at it |
| `RunVerdict.PollsAgain` | src/agent/dag_engine.rs:566-572 | when a cycle waits with no step retrying, it looks again two seconds later |
| `RunSafety.DependencySafety` | src/agent/dag.rs:394-413 | in every reachable state, after any rewriting, a step that is not Pending has all dependencies Succeeded or Skipped |
| `RunSafety.GateStability` | src/agent/dag_engine.rs:762-775 | terminal rows never change; a step that left Pending keeps its dependencies and is never skipped later |
| `RunSafety.InputStability` | src/agent/dag_engine.rs:86-95 | the inputs of a step that left Pending never change |
| `RunSafety.GraphStaysSound` | src/agent/dag.rs:308-383 | every reachable graph keeps the planned steps, is keyed by its names, closed and acyclic, and has no edge to an expanded template |
| `RunSafety.DependentsWaitForItems` | src/agent/dag.rs:366-377 | a step that waited for a template starts only after its join and every one of its items are Succeeded or Skipped |
| `RunSafety.ExpandedAtMostOnce` | src/agent/dag.rs:308-324 | a cycle that goes through expands only templates that were not expanded before, and all that can be |
| `RunInvariants.RunKeepsInv` | src/agent/dag_engine.rs:535-735 | the invariant of all runs: shape of the rewritten graph, dependency safety, books of attempts and outputs, skipped exactly by a failing gate |
| `RunInvariants.NoTemplateReady` | src/agent/dag.rs:308-324 | after the expansion no Pending template is ready |
| `RunInvariants.ReadyIsRunnable` | src/agent/dag.rs:394-404 | every step handed to execution is a stored non-template that is Pending or Retrying with satisfied dependencies |
| `GraphShape.ExpandKeepsShape` | src/agent/dag.rs:308-383 | expansion of a graph that is the plan with some templates expanded gives the plan with more templates expanded |
| `GraphShape.InsertFailsIff` | src/storage/dag_store.rs:334-403 | the insert of new rows clashes exactly when a template is expanded a second time |
| `GraphShape.DependencyRanks` | src/agent/dag.rs:326-377 | every dependency in a rewritten graph, to or from items and joins, goes down in rank |
| `StoreFidelity.StoreErrorIff` | src/storage/dag_store.rs:334-403 | a cycle fails exactly when its renderings end, the store does not keep a template's status and some template was expanded before |
| `StoreFidelity.TemplatesNeverComplete` | src/storage/dag_store.rs:334-403 | with such a store a workflow that contains a template never reports completion |
| `StoreFidelity.ExpansionIsTheEnd` | src/storage/dag_store.rs:334-403 | with such a store the cycle after one that starts an expansion fails, or hangs on a rendering, and changes nothing |
| `TemplateRuns.SecondExpansionFails` | src/storage/dag_store.rs:334-403 | a plan of a single template continues in its first cycle and fails in its second |
| `RetryBudget.ExecutionBudget` | src/agent/dag.rs:522-554 | in every run a step is executed exactly as often as its row says and at most max(1, max_attempts) times |
| `RetryBudget.RetryingBooks` | src/agent/dag.rs:526-541 | a retrying step's status carries its own attempt, which is positive and below max_attempts |
| `RetryBudget.RetryDelays` | src/agent/dag.rs:526-541 | after k scheduled retries the delays of a step over the run sum to backoff_secs * (2^k - 1) |
| `RetryBudget.PolicyDelays` | src/agent/dag.rs:526-541 | if the longest delay of a policy fits 63 bits, every delay is backoff_secs * 2^(attempt - 1) |
| `RetryBudget.BackoffExactIff` | src/agent/dag.rs:530-534 | the 64-bit product and the cast give the intended delay exactly when it is below 2^63 |
| `RetryBudget.AbortIsFinalIff` | src/agent/dag_engine.rs:690-705 | after a cycle that executes a step and aborts it, the step is Failed in every continuation of the run exactly when that was its last allowed execution or the policy's patterns do not match |
| `RetryBudget.NoRetries` | src/agent/dag.rs:526-541 | if all planned steps share a policy of one attempt, no step, item or join of any run is ever Retrying or executed twice |
| `FailedRuns.AbortedTwice` | src/agent/dag_engine.rs:690-705 | a concrete run in which an aborted step is executed a second time |
| `FailedRuns.PlannedStepsRunOnce` | src/agent/dag.rs:591-643 | no step of a plan is ever Retrying or executed twice |
| `BranchExclusivity.CompletedGate` | src/agent/dag_engine.rs:762-775 | in a completed run a step was executed exactly when its gate passes on its final inputs, and skipped otherwise |
| `BranchExclusivity.BranchesExclude` | src/agent/dag_engine.rs:288-392 | of two siblings with dual operators exactly one is executed and one skipped; ordered duals exclude each other exactly when both operands are numbers, else both run |
| `Conditions.DualsExclude` | src/agent/dag_engine.rs:288-392 | the dual operators are complements on every resolved and expected value; the ordered ones exactly on numbers |
| `ConditionLaws.ExistenceMeans` | src/agent/dag_engine.rs:307-322 | Exists, NotExists, Equals and NotEquals say what they should of every value and of none |
| `ConditionLaws.OrderMeans` | src/agent/dag_engine.rs:381-392 | on numbers the four comparisons are those of their values; on anything else all four run the step |
| `ConditionLaws.OrderIsMonotone` | src/agent/dag_engine.rs:381-392 | a larger number passes wherever a smaller one is large enough, and the other way round |
| `ConditionLaws.EmptinessMeans` | src/agent/dag_engine.rs:327-342 | Empty holds of exactly five values: none, null, and the empty text, list and object |
| `ConditionLaws.TruthMeans` | src/agent/dag_engine.rs:343-358 | falsy is exactly what is empty other than an empty object, false, or zero |
| `ConditionLaws.TwoNotionsOfTruth` | src/agent/dag_engine.rs:259-268 | structured and typed truth differ exactly on the empty object |
| `ConditionLaws.ContainsMeans` | src/agent/dag_engine.rs:359-365 | a text contains what stands somewhere in it, a list its elements, and nothing else contains anything |
| `ConditionLaws.UnresolvedRunsIff` | src/agent/dag_engine.rs:288-305 | for which operators a path that does not resolve runs the step |
| `ConditionLaws.StructuredGate` | src/agent/dag_engine.rs:288-366 | a structured gate tests the value its spelled path names |
| `ConditionLaws.TypedGate` | src/agent/dag_engine.rs:194-207 | a typed gate runs the step exactly when its expression is true: no other value and no failure will do |
| `ConditionLaws.TypedComparisonGate` | src/agent/dag_engine.rs:194-286 | a typed gate that compares a path with a number runs the step exactly when the path leads to a larger number |
| `Paths.PathRoundTrip` | src/agent/dag_engine.rs:130-185 | every spelling of a step, keys and indices, with or without prefix and white space, resolves to exactly what walking that step's output leads to, and to nothing when the step is no input or the walk fails |
| `Paths.NumberedPathRoundTrip` | src/agent/dag_engine.rs:145-156 | `result_of_step_N` is in all spellings another name of `step-N` |
| `Paths.EmptySegmentsPass` | src/agent/dag_engine.rs:166-170 | doubled dots do not matter: an empty segment is passed over wherever it stands |
| `Conditions.ResolvePathByCursor` | src/agent/dag_engine.rs:130-185 | the segment loop with its cursor computes the recursive path walk |
| `ForeachSources.CollectionIff` | src/agent/dag.rs:237-262 | an expression parses as the name of a collection exactly when it starts with `deps.` |
| `ForeachSources.RunShaped` | src/agent/dag_engine.rs:594-605 | in every reachable state every stored output was made of a step result |
| `StoredOutputs.SuccessIsStored` | src/agent/dag_engine.rs:594-647 | after a cycle that executes a step successfully, and in every continuation, the stored output has the returned text, the answer or null, and one object of exactly success, output and error per tool result, in order |
| `StoredOutputs.WaitingIsForever` | src/agent/dag_engine.rs:667-689 | a step that needs input, delegates or is lost is stored as such, and no continuation changes it |
| `StoredOutputs.DependentReads` | src/agent/dag_engine.rs:86-95 | a path that names a dependency leads, in every spelling, to where the same walk into its stored output leads |
| `StoredOutputs.DependentReadsOutput` | src/agent/dag_engine.rs:130-185 | in every run, the path to the output of a step that succeeded reads the text it returned |
| `ForeachSources.ItemsAreToolResults` | src/agent/dag.rs:237-262 | in every reachable state the items of a foreach are the stored tool results of the step it names if it asks for `tool_results`, else there are none |
| `ForeachSources.HasItemsIff` | src/agent/dag.rs:237-262 | a foreach has items exactly when its expression has at least three parts, the first `deps` and the third `tool_results`, and the named step has stored tool results; each item is a tool result |
| `ForeachSources.HangsIff` | src/agent/dag.rs:264-303 | with inert texts, a cycle hangs exactly when some template it expands asks one of its items for a key the item does not have |
| `ForeachSources.UnknownKeyHangs` | src/agent/dag.rs:275-290 | in every run, an argument `{item.key}` with a key other than `success`, `output` and `error` hangs the cycle that expands an item |
| `TemplateRuns.KeyPlanHangs` | src/agent/dag.rs:275-290 | a two-step plan with such an argument hangs in its second cycle once the first step returns a tool result |
| `TemplateRuns.NamingHangs` | src/agent/dag.rs:275-290 | the same at one concrete plan and input |
| `ItemTemplates.RenderingEndsIff` | src/agent/dag.rs:264-293 | if no `{item.` starts in what precedes or replaces a placeholder, rendering a text ends exactly when every closed `{item.key}` names a key of the item, and then with the left-to-right substitution |
| `ItemTemplates.EndsIff` | src/agent/dag.rs:294-303 | the same for all texts of an argument tree |
| `ItemTemplates.MissingKeyHangs` | src/agent/dag.rs:275-290 | the text `{item.key}` never ends on an item without that key |
| `ItemTemplates.StraddlingHangs` | src/agent/dag.rs:275-290 | a text with only known keys that still hangs, so the hypothesis on what precedes a placeholder is needed |
| `ItemTemplates.RendersFields` | src/agent/dag.rs:264-293 | a text put together from plain parts and `{item.key}` is rendered to these parts with the texts of the fields between them |
| `ItemTemplates.RendersItem` | src/agent/dag.rs:267-274 | `{item}` becomes the item itself, a text as it is and anything else printed |
| `ItemArguments.ItemArgumentsAt` | src/agent/dag.rs:333-346 | in every run, from the cycle that expands a template on, every path into an item's arguments leads to what is there in the template's, filled in from left to right if it is a text and unchanged if not |
| `ItemArguments.ItemTextAt` | src/agent/dag.rs:341-344 | in particular a text of plain parts and `{item.key}` is, in the item's row, these parts with the item's fields between them |
| `ItemArguments.ItemRow` | src/agent/dag.rs:333-346 | an item has its template's tool, condition, foreach, policy and dependencies under its own name |
| `ItemArguments.JoinRow` | src/agent/dag.rs:348-356 | a join has its template's condition and arguments, no tool, and depends on every item in order |
| `ItemArguments.WorkNeverChanges` | src/agent/dag_engine.rs:535-735 | however a run goes on, a step keeps its tool, arguments, condition, foreach, kind and policy |
| `TemplateRuns.KeyPlanRenders` | src/agent/dag.rs:333-346 | in a two-step plan the argument `{item.output}` of every item is the text its tool returned |
| `TemplateRuns.ItemCarriesOutput` | src/agent/dag.rs:333-346 | the same at one concrete plan and input, down to the name of the row |
| `JsonPrinting.PrintInjective` | src/agent/dag.rs:270-272 | no two values print alike |
| `JsonPrinting.PrintUnique` | src/agent/dag.rs:270-272 | the text of a value tells the value and where it ends, whatever follows |
| `ItemTemplates.RenderText` | src/agent/dag.rs:267-292 | the replacement of `{item}` and the rewriting loop compute the rendered text whenever the loop ends |
| `ItemTemplates.RenderItemTemplate` | src/agent/dag.rs:264-303 | the recursion over arrays and objects renders every text and keeps the rest |
| `ForeachSources.DocumentedFormHasNoItems` | src/agent/dag.rs:237-262 | the documented `$.deps.` form has no items in any graph |
| `ForeachSources.ForeachOverTemplate` | src/agent/dag.rs:326-364 | in every reachable state a foreach over another template has no items, and expands to a join without dependencies |
| `FailedRuns.FailedRunCompletes` | src/agent/dag_engine.rs:553-556 | a one-step workflow whose step fails for any cause is reported as completed |
| `Workflows.Workflow.ExpandForeachNodes` | src/agent/dag.rs:308-383 | the in-place expansion, whenever its renderings end: every old node rewired for all expanded templates, the new nodes with rendered arguments appended, and the updates for the store in order |
| `Workflows.Workflow.ReadySteps` | src/agent/dag.rs:394-404 | exactly the ready nodes, each once |
| `Workflows.Workflow.NextRetryTime` | src/agent/dag.rs:469-480 | the earliest retry time of the table, none exactly when nothing is retrying |
| `Workflows.Workflow.MarkRunning` | src/agent/dag.rs:485-500 | the transition, its two errors, and nothing else changed |
| `Workflows.Workflow.MarkRunningInMemory` | src/agent/dag_engine.rs:107-116 | the engine's silent form of it: the same change, and none where that one returns an error |
| `Workflows.Workflow.MarkSucceeded` | src/agent/dag.rs:503-519 | the transition with its output, its two errors, and nothing else changed |
| `Workflows.Workflow.HandleFailure` | src/agent/dag.rs:522-554 | one more attempt, and a retry at the backoff time or terminal failure; its two errors |
| `Workflows.Workflow.MarkSkipped` | src/agent/dag.rs:557-572 | the transition, its two errors, and nothing else changed |
| `Workflows.TemplatesAreAll` | src/agent/dag.rs:308-324 | the collected templates are exactly the expandable ones, each once |
| `Workflows.TemplateUntouched` | src/agent/dag.rs:326-377 | half-way through the loop the next template still has its first dependencies and draws the same items, so the order of expansion does not matter |
| `Workflows.UpdatesApply` | src/storage/dag_store.rs:334-403 | the recorded updates, applied one by one, rewrite the stored dependency lists as the passes rewrote those in memory |
| `ExpansionLists.ListExpansion` | src/agent/dag.rs:308-383 | the table of the expanded list is the expanded table, with unique names |
| `ExpansionLists.SavedExpansion` | src/storage/dag_store.rs:334-403 | what is saved is the expanded table with the templates as they were |
| `DagEngines.DagEngine.ExpandAndSave` | src/agent/dag_engine.rs:543-552 | expansion in memory and in the store agree, and it fails exactly on a clash of names |
| `DagEngines.DagEngine.RunCycle` | src/agent/dag_engine.rs:535-735 | a cycle that returns, with its lists, loops, workflow transitions and store, computes the cycle of the transition system and keeps the invariant |
| `BatchExecution.ExecuteBatch` | src/agent/dag_engine.rs:581-724 | running all tasks and then recording all reports through the workflow's transitions gives the batch of the transition system; no transition is refused but that for the report of a panicked task |
| `BatchExecution.ExecuteParallel` | src/agent/dag_engine.rs:745-898 | tasks that run one after the other each leave the row and the report they would have left first |
| `BatchExecution.RunTask` | src/agent/dag_engine.rs:757-870 | reading inputs, gate, Running and execution change the task's own row only, and the report says what happened |
| `BatchExecution.Record` | src/agent/dag_engine.rs:584-724 | `mark_skipped`, `mark_succeeded` and `handle_failure` accept every report of a step of the batch, and the stored row is that of the recorded verdict |
| `BatchExecution.BatchIsFresh` | src/agent/dag_engine.rs:762-775 | in every reachable state a ready step has no output, and one whose gate fails is Pending, so `mark_skipped` is never refused |
| `BatchExecution.FromPredecessors` | src/agent/dag_engine.rs:86-95 | the reading loop collects the stored outputs of the dependencies |
| `DagEngines.DagEngine.RunWorkflow` | src/agent/dag_engine.rs:451-533 | the scheduler loop leaves the table of the run so far; completed, deadlocked and failed outcomes say what the table then is |
| `Translation.TranslationSound` | src/agent/planner.rs:100-153 | for steps named by position with earlier dependencies the DAG is closed, acyclic, uniquely named, has one node per step with that step's tool, arguments and condition and no foreach, and exactly the compiled edges, plus a predecessor edge for a step that lists none |
| `Translation.PlannedArgsAre` | src/agent/planner.rs:106-123 | the arguments of a node are the compiled ones, and for a call of the model its eight settings written over them |
| `Translation.ReferenceIff` | src/agent/planner.rs:137-143 | a dependency is read exactly from `step_` and a number counted from one, with `step_0` taken for `step_1` |
| `Translation.PlanNodeCarries` | src/agent/dag.rs:591-630 | a node has its planned step's tool, arguments, condition, foreach and edges, and is a template exactly when the step has a foreach |
| `CompiledRuns.RunCarries` | src/agent/planner.rs:125-144 | in every reachable state of a compiled workflow a step has the compiled tool, arguments and condition |
| `CompiledRuns.CompiledConditionDecides` | src/agent/dag_engine.rs:762-775 | in every completed run of a compiled workflow a step is skipped exactly when its compiled condition fails on its final inputs, and executed exactly when not |
| `CompiledRuns.ExistsGateAtWork` | src/agent/dag_engine.rs:307-309 | in every completed run a compiled step that asks for a value in a dependency's output is executed exactly when there is one |
| `Translation.PlanGraphSound` | src/agent/dag.rs:591-643 | every plan numbered by position with earlier dependencies gives such a graph, templates included |
| `Translation.SequentialRuns` | src/agent/dag.rs:591-643 | with no listed dependencies every reachable state is a finished prefix, at most one other step, then only Pending ones |
| `TypedExpressions.EvaluatorsAgree` | src/agent/loop.rs:2226-2326 | if no operand that is tested for truth is a blank text, the linear evaluator answers exactly when the engine's does and every reached `not` has no failing right operand, and then with the same value |
| `TypedExpressions.LinearImpliesDag` | src/agent/dag_engine.rs:209-286 | a value of the linear evaluator is the value of the engine's |
| `TypedExpressions.DagImpliesLinear` | src/agent/dag_engine.rs:209-286 | conversely, with clean `not`s |
| `TypedExpressions.BlankSeparates` | src/agent/loop.rs:2295-2304 | a text separates the two evaluators under negation exactly when it is non-empty white space |
| `ExpressionLaws.ComparisonMeans` | src/agent/dag_engine.rs:242-245 | on operands that evaluate to numbers, the four comparisons are those of their values, in both evaluators |
| `ExpressionLaws.OnlyNumbersCompare` | src/agent/dag_engine.rs:270-278 | a comparison of anything else has no value in either |
| `ExpressionLaws.ExchangeComparison` | src/agent/loop.rs:2270-2273 | exchanging any operands turns gt into lt and gte into lte |
| `ExpressionLaws.NegateComparison` | src/agent/dag_engine.rs:242-250 | denying gt of numbers is lte, and denying lt is gte |
| `ExpressionLaws.EqualityMeans` | src/agent/dag_engine.rs:246-247 | eq is equality of values and neq its complement |
| `ExpressionLaws.NegationMeans` | src/agent/dag_engine.rs:259-268 | `not` is true of exactly null, false, zero and the empty text, list and object, and in the linear loop of white space too |
| `ExpressionLaws.LogicMeans` | src/agent/dag_engine.rs:248-249 | `and` and `or` are those of the two truth values |
| `ExpressionLaws.DeMorgan` | src/agent/loop.rs:2276-2285 | De Morgan's laws, for all operands, with a value or without, in both evaluators |
| `ExpressionLaws.SizeMeans` | src/agent/dag_engine.rs:223-232 | `len` and `count` of a list, object or text are its size, and of anything else nothing |
| `ExpressionLaws.Precedence` | src/agent/dag_engine.rs:209-237 | a literal wins over a path, a path over a function, a function over an operator |
| `ExpressionLaws.NothingElse` | src/agent/loop.rs:2254-2286 | no other function and no other operator has a value |
| `Templates.InPlaceLoop` | src/agent/template_vars.rs:128-172 | if no `{{` starts in a resolved text, the in-place loop ends exactly when no unresolved placeholder is followed by `{{`, and then with the left-to-right substitution |
| `Templates.NoProgress` | src/agent/template_vars.rs:155-167 | otherwise an iteration leaves the text as it is, and no number of iterations ends it |
| `Placeholders.LoopLaw` | src/agent/template_vars.rs:128-172 | for any marks: with inert text the rewriting loop ends exactly when it gets through, in as many iterations as it makes replacements, with the left-to-right substitution |
| `Templates.ResolveStringTemplates` | src/agent/template_vars.rs:128-172 | the loop, given a number of iterations, computes the iterated rewriting |
| `Templates.ExtractPlaceholders` | src/agent/executor.rs:541-554 | the scan returns the positions and names of the placeholders that cutting the text recursively gives |
| `TemplateValues.ResolveTemplateString` | src/agent/executor.rs:516-539 | the cursor loop over extracted spans renders every piece of the text, returns a sole placeholder's value, and fails with the first unresolved one |
| `TemplateValues.RendersIff` | src/agent/executor.rs:528-538 | rendering succeeds exactly when all placeholders resolve |
| `TemplateValues.NullsMakeTheDifference` | src/agent/executor.rs:605-613 | the two substituters' texts differ by the word null once per null placeholder, and are equal without nulls |
| `TemplateValues.TwoSubstitutersAgree` | src/agent/template_vars.rs:128-172 | on every text that is not a sole placeholder: when all placeholders resolve both end, with the same text exactly when none is null; otherwise the executor fails and the in-place loop ends or hangs |
| `TemplateValues.InPlaceFills` | src/agent/template_vars.rs:128-172 | the in-place loop fills the placeholders of a text put together from plain parts, one per iteration, by the trimmed name in them |
| `TemplateValues.ExecutorFills` | src/agent/executor.rs:528-538 | so does the executor on a text that is more than one placeholder |
| `TemplateValues.SoleValue` | src/agent/executor.rs:522-527 | a text that is one placeholder and white space stands for the value itself, of whatever type |
| `TemplateValues.FirstErrorWins` | src/agent/executor.rs:530-535 | the first placeholder that does not resolve is the error of the whole text |
| `StepReferences.ReferenceRoundTrip` | src/agent/executor.rs:556-603 | resolving a printed reference is walking the value, with the same value or the same error, for all step numbers and selectors |
| `StepReferences.PaddedIndex` | src/agent/executor.rs:585-597 | an index may have white space around it |
| `StepReferences.MalformedSelectors` | src/agent/executor.rs:574-600 | which error a selector gives that is neither a field nor an index, has no name, is not closed, or is no number |
| `StepReferences.MalformedHeads` | src/agent/executor.rs:557-566 | which error a reference gives without its prefix or its number |
| `StepReferences.ResolveByCursor` | src/agent/executor.rs:556-603 | the loop over two cursors computes the recursive resolution |
| `ArgumentMerge.MergeToolArguments` | src/agent/executor.rs:145-163 | filling the planned map key by key, recursively, computes the merge |
| `ArgumentMerge.MergeSame` | src/agent/executor.rs:145-163 | merge(a, a) = a for all trees |
| `ArgumentMerge.MergeTwice` | src/agent/executor.rs:145-163 | merge(merge(p, a), a) = merge(p, a) for all trees |
| `ArgumentMerge.MergeKeys` | src/agent/executor.rs:145-163 | the keys are the planned ones and the actual ones with a value other than null |
| `ArgumentMerge.ActualWins` | src/agent/executor.rs:145-163 | at every depth, an actual value other than null or an object is the merged value |
| `ArgumentMerge.NullKeepsPlanned` | src/agent/executor.rs:155-161 | a null, or a key that is not given, keeps what is planned; a value that is no object replaces it |
| `ArgumentMerge.FastPathArguments` | src/agent/executor.rs:1583-1589 | the call handed on by the deterministic fast path is the planned call, with exactly the planned arguments, if and only if it does not write a file whose path is a text ending in `.pdf` in any case |
| `ArgumentMerge.PlannedPdfIsRewritten` | src/agent/executor.rs:165-184 | a planned `file_write` to `a.pdf` is on the fast path and becomes a `pdf_create` with other arguments |
| `ArgumentMerge.RewrittenCall` | src/agent/executor.rs:165-184 | every rewritten call keeps path and content and is titled by the file name without its extension |
| `ArgumentMerge.OtherCalls` | src/agent/executor.rs:369-378 | calls of other tools go through as they are, and the model's own worker is never called |
| `ArgumentMerge.RewrittenIntoPlan` | src/agent/executor.rs:1583-1589 | a rewritten call is merged into a plan that creates a PDF itself: its keys are the planned ones and the three of the rewriting, and its path wins |
| `LinearLoop.Budget` | src/agent/loop.rs:1547-1595 | whatever the model answers, the retry count stays within 0..3, a step runs at most four times and waits at most 70 seconds |
| `LinearLoop.TurnDecreases` | src/agent/loop.rs:1196-1595 | every turn that does not end the run moves to the next step or uses up a retry |
| `LinearLoop.RunLength` | src/agent/loop.rs:1196-1595 | a run of n steps ends within 4 n + 4 turns |
| `LinearLoop.BudgetIsTight` | src/agent/evaluator.rs:101-187 | a step that keeps failing uses the whole budget and then ends the run |
| `LinearLoop.DecidedTurns` | src/agent/evaluator.rs:109-262 | the turns the model has no say in: successes, used-up retries, policy blocks and repeated errors |
| `LinearLoop.ModelTurns` | src/agent/loop.rs:1350-1595 | in all other turns the model's verdict moves on, retries with the error remembered, or ends the run |
| `LinearLoop.CleanRun` | src/agent/loop.rs:1350-1420 | a plan of n clean successes ends after n turns with every step run once and no waiting |
| `LinearLoop.LinearAgent.RunStep` | src/agent/loop.rs:1359-1595 | one turn on the agent's state fields and the delay it schedules |
| `StepHistories.StepHistory.Push` | src/agent/prompts.rs:1469-1476 | appends the entry, keeps at most 30, and stays the capped history of all operations |
| `StepHistories.StepHistory.InjectFacts` | src/agent/prompts.rs:1478-1489 | appends non-empty facts without capping |
| `StepHistories.KeptIsSuffix` | src/agent/prompts.rs:1469-1489 | the kept entries are a suffix of everything logged, at most 30 after a push |
| `StepHistories.KeptAre` | src/agent/prompts.rs:1469-1489 | a push keeps its entry and up to 29 before it, as many as there are; facts are appended and nothing is cut off for them |
| `StepHistories.CapCommutesWithRendering` | src/agent/prompts.rs:1491-1522 | the rendered lines are the last lines of rendering the full log |
| `StepHistories.LinesShow` | src/agent/prompts.rs:1491-1522 | what each line shows: number, mark, description, and 600, 200 or no characters of output by its distance from the end |

## Left out

- Schemas, timing columns, descriptions, agent and tenant ids, and the texts of errors: no modelled branch reads them; a schema mismatch is one of the failure causes.
- The pattern matching of `matches_retry_condition`: whether some pattern matches is part of a failure. The Postgres store reloads every policy with no patterns; the model keeps them.
- The Postgres store narrows `max_attempts` and `backoff_secs` to 32 bits (src/storage/dag_store.rs:216-217 and 499-500); the model keeps them as they are.
- The payloads of AwaitingInput and AwaitingChildren, and how those states are left: nothing in the modelled files leaves them.
- Failed reads and writes of the store other than the clash on insert, cancellation of a run, events, and tasks that panic before their step is stored as Running.
- Overflow checks of debug builds and the range of chrono's dates: the backoff is in the wrapping 64-bit arithmetic of a release build, and times are unbounded.
- f64 rounding: the value of a JSON number is a real and comparing it is exact. Numbers are equal when value and printed text are, which tells 1 from 1.0 but also 0.0 from -0.0.
- The model's own answers, tools and executors: they are the verdicts and results that runs range over.
- Linear loop: its own evaluation of structured conditions, clarification pauses, infrastructure errors, plan revision and the direct-response path.
- How `resolve_single_var` looks up a variable: the names it resolves and their texts are a parameter of the in-place substituter.
- Walking `resolve_templates` and `resolve_template_value` through arrays and objects: it applies the modelled text substitution to every text.
- `Workflows.Workflow.ExpandForeachNodes`: requires that the renderings end, as a method that never returns has no result; `ForeachSources.HangsIff` says when they do. It also requires unique ids and template names as plans give them; on other names the join of one template could be another template.
- `DagEngines.DagEngine.RunCycle`: requires that the expansion returns; the cycle of the transition system is `Hung` otherwise.
- `DagEngines.DagEngine.RunWorkflow`: requires that no cycle hangs; sleeping between cycles is the clock of the next input, and the loop ends when the supplied inputs do.
- `BatchExecution.ExecuteBatch`: runs the tasks in list order; that every interleaving comes to the same is `BatchInterleaving.InterleavingsHaveOneMeaning`.
- `ArgumentMerge.FastPathArguments`: stops before the templates in the arguments are resolved, which is `TemplateValues.ResolveTemplateString`.
- Prompts, roles, policies, the compiler, embeddings, the knowledge graph, configuration and the user interface.
