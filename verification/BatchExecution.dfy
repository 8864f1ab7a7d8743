/**
 `execute_parallel` and what `run_cycle` makes of its results: every task leaves a row and a report,
 and the reports are then recorded, one after the other, through the transitions of the workflow.
 */
module BatchExecution {
  import opened Wrappers
  import opened JsonValues
  import opened Conditions
  import opened Dag
  import opened Engine
  import opened GraphShape
  import opened RunInvariants
  import opened Workflows
  import opened BatchInterleaving

  datatype TaskOutcome = GateSkip | Ran(verdict: Verdict)

  datatype Report = Report(stepId: Id, outcome: TaskOutcome)

  // ── One task ─────────────────────────────────────────────────────────

  /** `StepInput::from_predecessors`: one read of the store per dependency. */
  method FromPredecessors(rows: Graph, step: StepNode) returns (input: StepInput)
    ensures input == Inputs(rows, step)
  {
    input := map[];
    for i := 0 to |step.dependsOn|
      invariant input == InputsUpTo(rows, step.dependsOn[..i])
    {
      var d := step.dependsOn[i];
      assert step.dependsOn[..i + 1] == step.dependsOn[..i] + [d];
      var output := OutputOf(rows, d);
      if output.Some? { input := input[d := output.value]; }
    }
    assert step.dependsOn[..|step.dependsOn|] == step.dependsOn;
  }

  predicate Passes(g: Graph, n: StepNode) { GatePasses(n, Inputs(g, n)) }

  /** The row a task leaves behind. */
  function TaskRow(n: StepNode, passes: bool, v: Verdict): StepNode {
    if passes then ReturnRow(UpdateRow(n, Running, n.attempt, None), n, v) else UpdateRow(n, Skipped, n.attempt, None)
  }

  /** Its report; that of a task that panicked does not say which step it was. */
  function ReportOf(n: StepNode, passes: bool, v: Verdict): Report {
    if !passes then Report(n.id, GateSkip)
    else if v.Lost? then Report(UNKNOWN, Ran(Failure(Infrastructure, false)))
    else Report(n.id, Ran(v))
  }

  method RunTask(rows: Graph, step: StepNode, verdict: Verdict) returns (rows': Graph, report: Report)
    requires step.id in rows && rows[step.id] == step
    ensures rows' == rows[step.id := TaskRow(step, Passes(rows, step), verdict)]
    ensures report == ReportOf(step, Passes(rows, step), verdict)
  {
    var input := FromPredecessors(rows, step);
    if !GatePasses(step, input) {
      rows' := rows[step.id := UpdateRow(step, Skipped, step.attempt, None)];
      return rows', Report(step.id, GateSkip);
    }
    var row := UpdateRow(step, Running, step.attempt, None);
    row := ReturnRow(row, step, verdict);
    rows' := rows[step.id := row];
    report := if verdict.Lost? then Report(UNKNOWN, Ran(Failure(Infrastructure, false))) else Report(step.id, Ran(verdict));
  }

  // ── All tasks ────────────────────────────────────────────────────────

  ghost function TasksRun(g: Graph, done: set<Id>, input: CycleInput): Graph {
    map id | id in g :: if id in done then TaskRow(g[id], Passes(g, g[id]), input.VerdictOf(id)) else g[id]
  }

  ghost function Reports(g: Graph, ready: seq<StepNode>, input: CycleInput): (r: seq<Report>)
    ensures |r| == |ready|
  {
    seq(|ready|, i requires 0 <= i < |ready| => ReportOf(ready[i], Passes(g, ready[i]), input.VerdictOf(ready[i].id)))
  }

  function IdsOf(nodes: seq<StepNode>): set<Id> { set n | n in nodes :: n.id }

  /** The steps of a batch, with their rows as they are stored. */
  ghost predicate ReadyBatch(g: Graph, ready: seq<StepNode>) {
    && UniqueIds(ready)
    && (forall i :: 0 <= i < |ready| ==> ready[i].id in g && g[ready[i].id] == ready[i] && Runnable(g, ready[i].id))
  }

  lemma BatchIsRunnable(g: Graph, ready: seq<StepNode>)
    requires ReadyBatch(g, ready)
    ensures RunnableBatch(g, IdsOf(ready))
  {
    forall id | id in IdsOf(ready) ensures Runnable(g, id) {
      var n :| n in ready && n.id == id;
      var i :| 0 <= i < |ready| && ready[i] == n;
    }
  }

  lemma OneMoreId(ready: seq<StepNode>, i: nat)
    requires UniqueIds(ready) && i < |ready|
    ensures IdsOf(ready[..i + 1]) == IdsOf(ready[..i]) + {ready[i].id}
    ensures ready[i].id !in IdsOf(ready[..i]) && ready[i].id in IdsOf(ready) && IdsOf(ready[..i]) <= IdsOf(ready)
  {
    assert ready[..i + 1] == ready[..i] + [ready[i]];
  }

  /** A task that runs after some others reads what it would have read first, and finds its row as it was. */
  lemma NextTask(g: Graph, ready: seq<StepNode>, i: nat, input: CycleInput)
    requires ReadyBatch(g, ready) && i < |ready|
    ensures var rows, step := TasksRun(g, IdsOf(ready[..i]), input), ready[i];
            && step.id in rows && rows[step.id] == step && Passes(rows, step) == Passes(g, step)
            && TasksRun(g, IdsOf(ready[..i + 1]), input)
               == rows[step.id := TaskRow(step, Passes(g, step), input.VerdictOf(step.id))]
  {
    OneMoreId(ready, i);
    BatchIsRunnable(g, ready);
    ReadsAreStable(g, IdsOf(ready), TasksRun(g, IdsOf(ready[..i]), input), ready[i].id);
    assert Inputs(TasksRun(g, IdsOf(ready[..i]), input), ready[i]) == Inputs(g, ready[i]);
  }

  method ExecuteParallel(g: Graph, ready: seq<StepNode>, input: CycleInput) returns (rows: Graph, reports: seq<Report>)
    requires ReadyBatch(g, ready)
    ensures rows == TasksRun(g, IdsOf(ready), input) && reports == Reports(g, ready, input)
  {
    rows, reports := g, [];
    assert ready[..0] == [] && IdsOf([]) == {};
    for i := 0 to |ready|
      invariant rows == TasksRun(g, IdsOf(ready[..i]), input) && reports == Reports(g, ready, input)[..i]
    {
      NextTask(g, ready, i, input);
      var report;
      rows, report := RunTask(rows, ready[i], input.VerdictOf(ready[i].id));
      reports := reports + [report];
    }
    assert ready[..|ready|] == ready;
  }

  // ── Recording ────────────────────────────────────────────────────────

  /** Only the node with this id may have changed, and it kept its id. */
  predicate SameBut(nodes: seq<StepNode>, nodes': seq<StepNode>, id: Id) {
    && |nodes'| == |nodes|
    && forall j :: 0 <= j < |nodes| ==> nodes'[j].id == nodes[j].id && (nodes[j].id != id ==> nodes'[j] == nodes[j])
  }

  lemma FoundAt(nodes: seq<StepNode>, k: nat)
    requires UniqueIds(nodes) && k < |nodes|
    ensures IndexOf(nodes, nodes[k].id) == Some(k)
  {
  }

  /** The row after recording: a skipped step was stored by its task. */
  function Recorded(n: StepNode, passes: bool, v: Verdict, at: Time): StepNode {
    if passes then RecordRow(TaskRow(n, passes, v), n, v, at) else TaskRow(n, passes, v)
  }

  /** What a report and the workflow in memory must be for a step of the batch. */
  ghost predicate Recordable(workflow: Workflow, step: StepNode, passes: bool)
    reads workflow
  {
    && UniqueIds(workflow.nodes) && step in workflow.nodes
    && (step.status.Pending? || step.status.Retrying?) && (!passes ==> step.status.Pending?)
    && forall n :: n in workflow.nodes ==> n.id != UNKNOWN
  }

  /** One report: the transition in memory, then the store. No transition is refused but that of an unknown step. */
  method Record(rows: Graph, workflow: Workflow, report: Report, at: Time,
                ghost step: StepNode, ghost passes: bool, ghost v: Verdict)
    returns (rows': Graph, refused: Option<WorkflowError>)
    requires Recordable(workflow, step, passes) && report == ReportOf(step, passes, v)
    requires step.id in rows && rows[step.id] == TaskRow(step, passes, v)
    modifies workflow
    ensures SameBut(old(workflow.nodes), workflow.nodes, step.id)
    ensures rows' == rows[step.id := Recorded(step, passes, v, at)]
    ensures refused == if passes && v.Lost? then Some(StepNotFound(UNKNOWN)) else None
  {
    ghost var k: nat :| k < |workflow.nodes| && workflow.nodes[k] == step;
    FoundAt(workflow.nodes, k);
    var id := report.stepId;
    rows', refused := rows, None;
    match report.outcome
    case GateSkip =>
      var r := workflow.MarkSkipped(id);
      refused := ErrorOf(r);
    case Ran(Success(result)) =>
      rows', refused := RecordSuccess(rows, workflow, id, OutputValue(result), k);
    case Ran(Failure(_, hit)) =>
      rows', refused := RecordFailure(rows, workflow, id, hit, at);
    case Ran(NeedsInput) => workflow.SetStatus(id, AwaitingInput);
    case Ran(Delegated) => workflow.SetStatus(id, AwaitingChildren);
    case Ran(Lost) =>
  }

  function ErrorOf(r: Result<(), WorkflowError>): Option<WorkflowError> { if r.Err? then Some(r.error) else None }

  function AttemptOf(nodes: seq<StepNode>, id: Id): nat {
    var i := IndexOf(nodes, id);
    if i.Some? then nodes[i.value].attempt else 0
  }

  /** A success: `mark_succeeded` in memory, and the output in the store. */
  method RecordSuccess(rows: Graph, workflow: Workflow, id: Id, output: Json, ghost k: nat)
    returns (rows': Graph, refused: Option<WorkflowError>)
    requires UniqueIds(workflow.nodes) && k < |workflow.nodes| && workflow.nodes[k].id == id && id in rows
    requires workflow.nodes[k].status.Pending? || workflow.nodes[k].status.Retrying?
    modifies workflow
    ensures SameBut(old(workflow.nodes), workflow.nodes, id)
    ensures rows' == rows[id := UpdateRow(rows[id], Succeeded, old(workflow.nodes)[k].attempt, Some(output))]
    ensures refused == None
  {
    FoundAt(workflow.nodes, k);
    workflow.MarkRunningInMemory(id);
    FoundAt(workflow.nodes, k);
    var attempt := AttemptOf(workflow.nodes, id);
    var r := workflow.MarkSucceeded(id, output);
    refused := ErrorOf(r);
    rows' := rows[id := UpdateRow(rows[id], Succeeded, attempt, Some(output))];
  }

  /** A failure: the workflow decides between a retry and the end, and the store is given its status and attempt. */
  method RecordFailure(rows: Graph, workflow: Workflow, id: Id, hit: bool, at: Time)
    returns (rows': Graph, refused: Option<WorkflowError>)
    requires UniqueIds(workflow.nodes)
    requires forall n :: n in workflow.nodes && n.id == id ==> id in rows && (n.status.Pending? || n.status.Retrying?)
    modifies workflow
    ensures SameBut(old(workflow.nodes), workflow.nodes, id)
    ensures match IndexOf(old(workflow.nodes), id)
      case None => rows' == rows && refused == Some(StepNotFound(id))
      case Some(k) =>
        var failed := FailStep(old(workflow.nodes)[k].(status := Running), hit, at);
        rows' == rows[id := UpdateRow(rows[id], failed.status, failed.attempt, None)] && refused == None
  {
    ghost var before := IndexOf(workflow.nodes, id);
    rows', refused := rows, None;
    assert before.Some? ==> workflow.nodes[before.value] in workflow.nodes;
    workflow.MarkRunningInMemory(id);
    if before.Some? { FoundAt(workflow.nodes, before.value); }
    var r := workflow.HandleFailure(id, hit, at);
    if r.Err? { return rows', Some(r.error); }
    FoundAt(workflow.nodes, before.value);
    rows' := rows[id := UpdateRow(rows[id], r.value, AttemptOf(workflow.nodes, id), None)];
  }

  // ── All reports ──────────────────────────────────────────────────────

  lemma RecordedIsFinished(g: Graph, n: StepNode, input: CycleInput)
    requires n.output.None?
    ensures Recorded(n, Passes(g, n), input.VerdictOf(n.id), input.DoneAt(n.id)) == FinishStep(g, n, input)
  {
  }

  /** The table when the steps in `batch` have run and those in `done` are recorded. */
  ghost function PartlyRecorded(g: Graph, batch: set<Id>, done: set<Id>, input: CycleInput): Graph {
    map id | id in g :: if id in done then FinishStep(g, g[id], input) else TasksRun(g, batch, input)[id]
  }

  lemma NextRecord(g: Graph, ready: seq<StepNode>, i: nat, input: CycleInput)
    requires ReadyBatch(g, ready) && i < |ready| && ready[i].output.None?
    ensures var step, v := ready[i], input.VerdictOf(ready[i].id);
            var rows := PartlyRecorded(g, IdsOf(ready), IdsOf(ready[..i]), input);
            && step.id in rows && rows[step.id] == TaskRow(step, Passes(g, step), v)
            && PartlyRecorded(g, IdsOf(ready), IdsOf(ready[..i + 1]), input)
               == rows[step.id := Recorded(step, Passes(g, step), v, input.DoneAt(step.id))]
  {
    OneMoreId(ready, i);
    RecordedIsFinished(g, ready[i], input);
  }

  /** The steps from `i` on are in memory as they were when the batch was chosen. */
  ghost predicate StillThere(g: Graph, nodes: seq<StepNode>, ready: seq<StepNode>, i: nat) {
    && UniqueIds(nodes) && (forall n :: n in nodes ==> n.id != UNKNOWN)
    && (forall j :: i <= j < |ready| ==> ready[j] in nodes)
  }

  lemma StillThereNext(g: Graph, nodes: seq<StepNode>, nodes': seq<StepNode>, ready: seq<StepNode>, i: nat)
    requires UniqueIds(ready) && i < |ready| && StillThere(g, nodes, ready, i) && SameBut(nodes, nodes', ready[i].id)
    ensures StillThere(g, nodes', ready, i + 1)
  {
    forall n | n in nodes' ensures n.id != UNKNOWN {
      var j :| 0 <= j < |nodes'| && nodes'[j] == n;
      assert nodes[j] in nodes;
    }
    forall j | i + 1 <= j < |ready| ensures ready[j] in nodes' {
      var k :| 0 <= k < |nodes| && nodes[k] == ready[j];
      assert nodes'[k] == nodes[k];
    }
  }

  /** Nothing is stored of the steps yet, and only Pending ones can be skipped. */
  ghost predicate AllFresh(g: Graph, ready: seq<StepNode>) {
    forall i :: 0 <= i < |ready| ==> ready[i].output.None? && (!Passes(g, ready[i]) ==> ready[i].status.Pending?)
  }

  /** In every reachable state a ready batch is fresh: a retrying step passed its gate before, and passes it again. */
  lemma BatchIsFresh(g0: Graph, g: Graph, ready: seq<StepNode>)
    requires Inv(g0, g) && ReadyBatch(g, ready)
    ensures AllFresh(g, ready)
  {
    forall i | 0 <= i < |ready| ensures ready[i].output.None? && (!Passes(g, ready[i]) ==> ready[i].status.Pending?) {
      assert NodeOk(g0, g, g[ready[i].id]);
    }
  }

  /** The next report in order. */
  method RecordNext(g: Graph, rows: Graph, workflow: Workflow, ready: seq<StepNode>, i: nat, report: Report, input: CycleInput)
    returns (rows': Graph, refused: Option<WorkflowError>)
    requires ReadyBatch(g, ready) && AllFresh(g, ready) && i < |ready| && Progress(g, rows, workflow.nodes, ready, i, input)
    requires report == Reports(g, ready, input)[i]
    modifies workflow
    ensures Progress(g, rows', workflow.nodes, ready, i + 1, input)
    ensures refused.Some? ==> refused.value == StepNotFound(UNKNOWN) && input.VerdictOf(ready[i].id).Lost?
  {
    ghost var step, nodes := ready[i], workflow.nodes;
    NextRecord(g, ready, i, input);
    rows', refused := Record(rows, workflow, report, input.DoneAt(ready[i].id), step, Passes(g, step), input.VerdictOf(step.id));
    StillThereNext(g, nodes, workflow.nodes, ready, i);
  }

  /** The first `i` reports are recorded. */
  ghost predicate Progress(g: Graph, rows: Graph, nodes: seq<StepNode>, ready: seq<StepNode>, i: nat, input: CycleInput)
    requires i <= |ready|
  {
    StillThere(g, nodes, ready, i) && rows == PartlyRecorded(g, IdsOf(ready), IdsOf(ready[..i]), input)
  }

  lemma NothingRecorded(g: Graph, nodes: seq<StepNode>, ready: seq<StepNode>, input: CycleInput)
    requires StillThere(g, nodes, ready, 0)
    ensures Progress(g, TasksRun(g, IdsOf(ready), input), nodes, ready, 0, input)
  {
    assert ready[..0] == [] && IdsOf([]) == {};
  }

  lemma AllRecorded(g: Graph, rows: Graph, nodes: seq<StepNode>, ready: seq<StepNode>, input: CycleInput)
    requires Progress(g, rows, nodes, ready, |ready|, input)
    ensures rows == RunBatch(g, IdsOf(ready), input)
  {
    assert ready[..|ready|] == ready;
  }

  predicate NoneLost(ready: seq<StepNode>, input: CycleInput) {
    forall i :: 0 <= i < |ready| ==> !input.VerdictOf(ready[i].id).Lost?
  }

  /**
   The batch as the engine runs it: all tasks, then all reports. The table ends as if every step had
   run alone, and the only transition ever refused is that for the report of a panicked task.
   */
  method ExecuteBatch(g: Graph, workflow: Workflow, ready: seq<StepNode>, input: CycleInput)
    returns (rows: Graph, refused: seq<WorkflowError>)
    requires ReadyBatch(g, ready) && AllFresh(g, ready) && StillThere(g, workflow.nodes, ready, 0)
    modifies workflow
    ensures rows == RunBatch(g, IdsOf(ready), input)
    ensures forall e :: e in refused ==> e == StepNotFound(UNKNOWN)
    ensures NoneLost(ready, input) ==> refused == []
  {
    var reports;
    rows, reports := ExecuteParallel(g, ready, input);
    refused := [];
    NothingRecorded(g, workflow.nodes, ready, input);
    for i := 0 to |ready|
      invariant Progress(g, rows, workflow.nodes, ready, i, input)
      invariant forall e :: e in refused ==> e == StepNotFound(UNKNOWN)
      invariant NoneLost(ready, input) ==> refused == []
    {
      var error;
      rows, error := RecordNext(g, rows, workflow, ready, i, reports[i], input);
      if error.Some? { refused := refused + [error.value]; }
    }
    AllRecorded(g, rows, workflow.nodes, ready, input);
  }
}
