/**
 The scheduler: one cycle loads the stored graph, expands templates, checks for completion and
 deadlock, and runs every ready step. What a step does, and when, is the cycle's input.
 */
module Engine {
  import opened Wrappers
  import opened JsonValues
  import opened Conditions
  import opened Dag

  /** Where a failure came from; all four go through `handle_failure`. */
  datatype FailureCause = ToolFailure | SchemaMismatch | RuleAbort | Infrastructure

  /** What the executor returns for a step that succeeded. */
  datatype StepResult = StepResult(output: string, answer: Option<string>, toolResults: seq<ToolResult>)

  datatype ToolResult = ToolResult(success: bool, output: Json, error: Option<string>)

  function TextOrNull(s: Option<string>): Json { if s.Some? then Str(s.value) else Null }

  function ToolResultValue(r: ToolResult): Json {
    Object(map["success" := Bool(r.success), "output" := r.output, "error" := TextOrNull(r.error)])
  }

  function ToolResultValues(results: seq<ToolResult>): (values: seq<Json>)
    ensures |values| == |results|
  {
    seq(|results|, i requires 0 <= i < |results| => ToolResultValue(results[i]))
  }

  /** The output stored for a step that succeeded; tool results are there only if there are any. */
  function OutputValue(r: StepResult): Json {
    var plain := map["output" := Str(r.output), "final_answer_candidate" := TextOrNull(r.answer)];
    Object(if r.toolResults == [] then plain else plain["tool_results" := Array(ToolResultValues(r.toolResults))])
  }

  /** What running a step comes to. `Lost`: the task panicked after the step was stored as Running. */
  datatype Verdict =
    | Success(result: StepResult)
    | Failure(cause: FailureCause, patternHit: bool)
    | NeedsInput
    | Delegated
    | Lost

  /** The outside of one cycle: its clock, and for each step a verdict and the time it was recorded. */
  datatype CycleInput = CycleInput(now: Time, verdicts: map<Id, Verdict>, doneAt: map<Id, Time>)
  {
    function VerdictOf(id: Id): Verdict { if id in verdicts then verdicts[id] else Lost }
    function DoneAt(id: Id): Time { if id in doneAt then doneAt[id] else now }
  }

  datatype CycleOutcome =
    | Continue
    | WaitUntil(at: Time)
    | Complete
    | Deadlocked(blocked: set<Id>)
    | StoreError
    | Hung

  datatype CycleResult = CycleResult(rows: Graph, outcome: CycleOutcome)

  const POLL_SECONDS := 2

  // ── One step ─────────────────────────────────────────────────────────

  /** The isolated input of a step: the stored outputs of its dependencies. */
  function Inputs(g: Graph, n: StepNode): StepInput {
    map d | d in n.dependsOn && OutputOf(g, d).Some? :: OutputOf(g, d).value
  }

  predicate GatePasses(n: StepNode, input: StepInput) {
    n.condition.None? || EvaluateCondition(n.condition.value, input)
  }

  function ApplyVerdict(n: StepNode, v: Verdict, at: Time): StepNode {
    match v
    case Success(result) => n.(status := Succeeded, output := Some(OutputValue(result)))
    case Failure(_, patternHit) => FailStep(n, patternHit, at)
    case NeedsInput => n.(status := AwaitingInput)
    case Delegated => n.(status := AwaitingChildren)
    case Lost => n.(status := Running)
  }

  function FinishStep(g: Graph, n: StepNode, input: CycleInput): StepNode {
    if GatePasses(n, Inputs(g, n)) then ApplyVerdict(n, input.VerdictOf(n.id), input.DoneAt(n.id))
    else n.(status := Skipped)
  }

  /** All steps of `batch` run against the same stored graph. */
  function RunBatch(g: Graph, batch: set<Id>, input: CycleInput): Graph {
    map id | id in g :: if id in batch then FinishStep(g, g[id], input) else g[id]
  }

  // ── One cycle ────────────────────────────────────────────────────────

  predicate RetryingAt(g: Graph, id: Id, at: Time) {
    id in g && g[id].status.Retrying? && g[id].status.nextRetryAt == at
  }

  ghost predicate IsEarliestRetry(g: Graph, at: Time) {
    && (exists id :: RetryingAt(g, id, at))
    && forall id :: id in g && g[id].status.Retrying? ==> at <= g[id].status.nextRetryAt
  }

  ghost predicate HasRetrying(g: Graph) { exists id :: id in g && g[id].status.Retrying? }

  lemma EarliestRetryExists(g: Graph)
    requires HasRetrying(g)
    ensures exists at :: IsEarliestRetry(g, at)
  {
    var retrying := set id | id in g && g[id].status.Retrying?;
    var one :| one in g && g[one].status.Retrying?;
    assert one in retrying;
    var id := EarliestAmong(g, retrying);
    assert RetryingAt(g, id, g[id].status.nextRetryAt);
    assert IsEarliestRetry(g, g[id].status.nextRetryAt);
  }

  lemma EarliestAmong(g: Graph, ids: set<Id>) returns (least: Id)
    requires ids != {} && forall id :: id in ids ==> id in g && g[id].status.Retrying?
    ensures least in ids
    ensures forall id :: id in ids ==> g[least].status.nextRetryAt <= g[id].status.nextRetryAt
  {
    var one :| one in ids;
    var others := ids - {one};
    if others == {} {
      assert ids == {one};
      least := one;
    } else {
      least := EarliestAmong(g, others);
      if g[one].status.nextRetryAt < g[least].status.nextRetryAt { least := one; }
    }
  }

  /** When to look again if nothing is ready: the earliest retry, else a poll. */
  ghost function WakeTime(g: Graph, now: Time): Time {
    if HasRetrying(g) then EarliestRetryExists(g); var at :| IsEarliestRetry(g, at); at
    else now + POLL_SECONDS
  }

  /**
   What the store holds after an expansion. `save_expanded_nodes` is given the new nodes and the
   rewritten dependency lists only; a durable store also keeps that the templates are done.
   */
  function Persisted(durable: bool, g: Graph, expanded: set<Id>): Graph {
    if durable then g
    else map id | id in g :: if id in expanded then g[id].(status := Pending) else g[id]
  }

  /** `INSERT` fails when an id is already taken. */
  ghost predicate InsertFails(g: Graph) { !(NewIds(g, Expandable(g)) !! g.Keys) }

  /** `expand_foreach_nodes` does not return: rendering some item of a template it expands never ends. */
  ghost predicate Hangs(g: Graph) { exists t :: t in Expandable(g) && !RendersAll(g, g[t]) }

  /** A cycle that goes no further than its expansion. */
  ghost predicate Stops(g: Graph) { Hangs(g) || InsertFails(g) }

  ghost function InMemory(g: Graph): Graph { Expand(g, Expandable(g)) }

  ghost function Stored(durable: bool, g: Graph): Graph { Persisted(durable, InMemory(g), Expandable(g)) }

  /** What a cycle does once the graph is expanded in memory and stored. */
  ghost function Decide(memory: Graph, stored: Graph, input: CycleInput): CycleResult {
    var ready := ReadySet(memory, input.now);
    if IsComplete(memory) then CycleResult(stored, Complete)
    else if IsDeadlocked(memory, input.now) then CycleResult(stored, Deadlocked(FailedSteps(memory)))
    else if ready == {} then CycleResult(stored, WaitUntil(WakeTime(memory, input.now)))
    else CycleResult(RunBatch(stored, ready, input), Continue)
  }

  ghost function RunCycle(durable: bool, g: Graph, input: CycleInput): CycleResult {
    if Hangs(g) then CycleResult(g, Hung)
    else if InsertFails(g) then CycleResult(g, StoreError)
    else Decide(InMemory(g), Stored(durable, g), input)
  }

  /** What a cycle can do to the store. A cycle that hangs does not return; its row says what the store then holds. */
  lemma CycleCases(durable: bool, g: Graph, input: CycleInput)
    ensures var r := RunCycle(durable, g, input);
            var ready := ReadySet(InMemory(g), input.now);
            if Stops(g) then r == CycleResult(g, if Hangs(g) then Hung else StoreError)
            else if r.outcome.Continue? then ready != {} && r.rows == RunBatch(Stored(durable, g), ready, input)
            else r.rows == Stored(durable, g) && !r.outcome.StoreError? && !r.outcome.Hung?
  {
  }

  // ── Runs ─────────────────────────────────────────────────────────────

  /** The stored graph after the cycles with these inputs. */
  ghost function After(durable: bool, g: Graph, inputs: seq<CycleInput>): Graph {
    if inputs == [] then g
    else RunCycle(durable, After(durable, g, inputs[..|inputs| - 1]), inputs[|inputs| - 1]).rows
  }

  lemma AfterLast(durable: bool, g: Graph, inputs: seq<CycleInput>, before: seq<CycleInput>, last: CycleInput)
    requires inputs == before + [last]
    ensures After(durable, g, inputs) == RunCycle(durable, After(durable, g, before), last).rows
  {
    assert inputs[..|inputs| - 1] == before;
  }

  lemma AfterOneMore(durable: bool, g: Graph, inputs: seq<CycleInput>, more: seq<CycleInput>)
    requires more != []
    ensures After(durable, g, inputs + more) ==
            RunCycle(durable, After(durable, g, inputs + more[..|more| - 1]), more[|more| - 1]).rows
  {
    var last := more[|more| - 1];
    assert inputs + more == (inputs + more[..|more| - 1]) + [last];
    AfterLast(durable, g, inputs + more, inputs + more[..|more| - 1], last);
  }
}
