/**
 `execute_parallel`: the steps of a batch run as concurrent tasks against one store. A task reads
 the outputs of its dependencies one by one, evaluates its gate, writes its own row, executes, and
 has its verdict recorded. Whatever the interleaving, the table ends as if every step had run alone
 on the table the batch started from.
 */
module BatchInterleaving {
  import opened Wrappers
  import opened Arithmetic
  import opened JsonValues
  import opened Conditions
  import opened Dag
  import opened Engine
  import opened GraphShape
  import opened RunInvariants
  import opened RunSafety
  import opened RunVerdict
  import opened RunConfluence

  datatype Task =
    | Reading(next: nat, got: StepInput)
    | Executing(input: StepInput)
    | Returned(verdict: Verdict)
    | Done

  datatype BatchState = BatchState(rows: Graph, tasks: map<Id, Task>)

  function Start(g: Graph, batch: set<Id>): BatchState {
    BatchState(g, map id | id in batch :: Reading(0, map[]))
  }

  /** `update_step_status`: the output column is kept when no output is given. */
  function UpdateRow(row: StepNode, status: StepStatus, attempt: nat, output: Option<Json>): StepNode {
    row.(status := status, attempt := attempt, output := if output.Some? then output else row.output)
  }

  /** The row a task leaves behind when its execution returns. */
  function ReturnRow(row: StepNode, step: StepNode, v: Verdict): StepNode {
    match v
    case NeedsInput => UpdateRow(row, AwaitingInput, step.attempt, None)
    case Delegated => UpdateRow(row, AwaitingChildren, step.attempt, None)
    case _ => row
  }

  /** The row after the engine recorded the verdict: `mark_succeeded` or `handle_failure` on its own copy. */
  function RecordRow(row: StepNode, step: StepNode, v: Verdict, at: Time): StepNode {
    var running := step.(status := Running);
    match v
    case Success(result) => UpdateRow(row, Succeeded, running.attempt, Some(OutputValue(result)))
    case Failure(_, hit) =>
      var failed := FailStep(running, hit, at);
      UpdateRow(row, failed.status, failed.attempt, None)
    case _ => row
  }

  /** One turn of one task; `step` is the task's own copy of its step. */
  function Turn(b: Behaviour, step: StepNode, at: Time, rows: Graph, task: Task): (StepNode, Task)
    requires step.id in rows
  {
    var row := rows[step.id];
    match task
    case Reading(next, got) =>
      if next < |step.dependsOn| then
        var d := step.dependsOn[next];
        var output := OutputOf(rows, d);
        (row, Reading(next + 1, if output.Some? then got[d := output.value] else got))
      else if GatePasses(step, got) then (UpdateRow(row, Running, step.attempt, None), Executing(got))
      else (UpdateRow(row, Skipped, step.attempt, None), Done)
    case Executing(input) =>
      var v := b(Static(step), input, step.attempt);
      (ReturnRow(row, step, v), Returned(v))
    case Returned(v) => (RecordRow(row, step, v, at), Done)
    case Done => (row, Done)
  }

  /** `schedule` says whose turn it is, over and over. */
  function RunSchedule(b: Behaviour, g: Graph, batch: set<Id>, input: CycleInput, schedule: seq<Id>): (s: BatchState)
    requires batch <= g.Keys && forall id :: id in g ==> g[id].id == id
    ensures s.rows.Keys == g.Keys && s.tasks.Keys == batch
  {
    if schedule == [] then Start(g, batch)
    else
      var s := RunSchedule(b, g, batch, input, schedule[..|schedule| - 1]);
      var id := schedule[|schedule| - 1];
      if id !in batch then s
      else
        var (row, task) := Turn(b, g[id], input.DoneAt(id), s.rows, s.tasks[id]);
        BatchState(s.rows[id := row], s.tasks[id := task])
  }

  // ── Isolation ────────────────────────────────────────────────────────

  /** No step of a ready batch is an ancestor of another. */
  lemma BatchIsAntichain(g0: Graph, g: Graph, batch: set<Id>, p: seq<Id>)
    requires Inv(g0, g) && RunnableBatch(g, batch)
    requires IsPath(g, p) && |p| > 1 && p[0] in batch
    ensures p[|p| - 1] !in batch
  {
    assert Runnable(g, p[0]);
    PathTail(g, p);
    SatisfiedAllTheWay(g0, g, p[1..]);
    assert Satisfied(g, p[|p| - 1]);
    assert forall id :: id in batch ==> Runnable(g, id);
  }

  function InputsUpTo(g: Graph, deps: seq<Id>): StepInput {
    map d | d in deps && OutputOf(g, d).Some? :: OutputOf(g, d).value
  }

  ghost predicate TaskOk(b: Behaviour, g: Graph, n: StepNode, at: Time, row: StepNode, task: Task) {
    var verdict := b(Static(n), Inputs(g, n), n.attempt);
    match task
    case Reading(next, got) =>
      row == n && next <= |n.dependsOn| && got == InputsUpTo(g, n.dependsOn[..next])
    case Executing(input) =>
      GatePasses(n, Inputs(g, n)) && row == n.(status := Running) && input == Inputs(g, n)
    case Returned(v) =>
      GatePasses(n, Inputs(g, n)) && v == verdict && row == ReturnRow(n.(status := Running), n, verdict)
    case Done =>
      row == if GatePasses(n, Inputs(g, n)) then ApplyVerdict(n, verdict, at) else n.(status := Skipped)
  }

  lemma TurnKeepsOk(b: Behaviour, g: Graph, rows: Graph, n: StepNode, at: Time, task: Task)
    requires n.id in rows && n.output.None?
    requires forall d :: d in n.dependsOn ==> OutputOf(rows, d) == OutputOf(g, d)
    requires TaskOk(b, g, n, at, rows[n.id], task)
    ensures var (row, task') := Turn(b, n, at, rows, task); TaskOk(b, g, n, at, row, task')
  {
    match task
    case Reading(next, got) => ReadKeepsOk(g, rows, n, next, got);
    case _ =>
  }

  /** One more read of a task; when all are made, it has its inputs. */
  lemma ReadKeepsOk(g: Graph, rows: Graph, n: StepNode, next: nat, got: StepInput)
    requires forall d :: d in n.dependsOn ==> OutputOf(rows, d) == OutputOf(g, d)
    requires next <= |n.dependsOn| && got == InputsUpTo(g, n.dependsOn[..next])
    ensures next == |n.dependsOn| ==> got == Inputs(g, n)
    ensures next < |n.dependsOn| ==>
              var d := n.dependsOn[next];
              (if OutputOf(rows, d).Some? then got[d := OutputOf(rows, d).value] else got) == InputsUpTo(g, n.dependsOn[..next + 1])
  {
    if next < |n.dependsOn| {
      assert n.dependsOn[..next + 1] == n.dependsOn[..next] + [n.dependsOn[next]];
    } else {
      assert n.dependsOn[..next] == n.dependsOn;
    }
  }

  /** The batch is on its way: other rows are untouched, and every task has done what it should have so far. */
  ghost predicate AllOk(b: Behaviour, g: Graph, batch: set<Id>, input: CycleInput, s: BatchState)
    requires batch <= g.Keys && s.rows.Keys == g.Keys && s.tasks.Keys == batch
  {
    && (forall id :: id in g && id !in batch ==> s.rows[id] == g[id])
    && (forall id :: id in batch ==> TaskOk(b, g, g[id], input.DoneAt(id), s.rows[id], s.tasks[id]))
  }

  /** A step of a runnable batch is called by its key and has no output yet. */
  lemma FreshRow(g0: Graph, g: Graph, batch: set<Id>, who: Id)
    requires Inv(g0, g) && RunnableBatch(g, batch) && who in batch
    ensures who in g && g[who].id == who && g[who].output.None?
  {
    assert Runnable(g, who) && NodeOk(g0, g, g[who]);
  }

  lemma StepKeepsOk(b: Behaviour, g: Graph, batch: set<Id>, input: CycleInput, s: BatchState, who: Id)
    requires RunnableBatch(g, batch) && who in batch
    requires batch <= g.Keys && s.rows.Keys == g.Keys && s.tasks.Keys == batch && AllOk(b, g, batch, input, s)
    requires g[who].id == who && g[who].output.None?
    ensures var (row, task) := Turn(b, g[who], input.DoneAt(who), s.rows, s.tasks[who]);
            AllOk(b, g, batch, input, BatchState(s.rows[who := row], s.tasks[who := task]))
  {
    ReadsAreStable(g, batch, s.rows, who);
    TurnKeepsOk(b, g, s.rows, g[who], input.DoneAt(who), s.tasks[who]);
  }

  lemma {:induction false} ScheduleKeepsOk(b: Behaviour, g0: Graph, g: Graph, batch: set<Id>, input: CycleInput, schedule: seq<Id>)
    requires Inv(g0, g) && RunnableBatch(g, batch)
    ensures AllOk(b, g, batch, input, RunSchedule(b, g, batch, input, schedule))
  {
    if schedule == [] {
      forall id | id in batch ensures g[id].dependsOn[..0] == [] {}
    } else {
      var before, who := schedule[..|schedule| - 1], schedule[|schedule| - 1];
      ScheduleKeepsOk(b, g0, g, batch, input, before);
      if who in batch {
        FreshRow(g0, g, batch, who);
        StepKeepsOk(b, g, batch, input, RunSchedule(b, g, batch, input, before), who);
      }
    }
  }

  /** What a task reads, no task of the batch writes. */
  lemma ReadsAreStable(g: Graph, batch: set<Id>, rows: Graph, who: Id)
    requires RunnableBatch(g, batch) && who in batch
    requires rows.Keys == g.Keys && forall id :: id in g && id !in batch ==> rows[id] == g[id]
    ensures forall d :: d in g[who].dependsOn ==> OutputOf(rows, d) == OutputOf(g, d)
  {
    assert Runnable(g, who);
    forall d | d in g[who].dependsOn ensures OutputOf(rows, d) == OutputOf(g, d) {
      assert Satisfied(g, d);
      assert d in batch ==> Runnable(g, d);
    }
  }

  // ── One meaning ──────────────────────────────────────────────────────

  /** When all tasks are done, the table is that of `RunBatch`, whatever the schedule was. */
  lemma InterleavingsHaveOneMeaning(b: Behaviour, g0: Graph, g: Graph, batch: set<Id>, input: CycleInput, schedule: seq<Id>)
    requires Inv(g0, g) && RunnableBatch(g, batch) && BatchFollows(b, g, batch, input)
    requires forall id :: id in batch ==> RunSchedule(b, g, batch, input, schedule).tasks[id].Done?
    ensures RunSchedule(b, g, batch, input, schedule).rows == RunBatch(g, batch, input)
  {
    var s := RunSchedule(b, g, batch, input, schedule);
    ScheduleKeepsOk(b, g0, g, batch, input, schedule);
    forall id | id in g ensures s.rows[id] == RunBatch(g, batch, input)[id] {
      if id in batch {
        assert g[id].id == id;
        assert TaskOk(b, g, g[id], input.DoneAt(id), s.rows[id], s.tasks[id]);
      }
    }
  }

  function Turns(schedule: seq<Id>, id: Id): nat {
    if schedule == [] then 0
    else Turns(schedule[..|schedule| - 1], id) + if schedule[|schedule| - 1] == id then 1 else 0
  }

  function TurnsLeft(n: StepNode, task: Task): int {
    match task
    case Reading(next, _) => |n.dependsOn| - next + 3
    case Executing(_) => 2
    case Returned(_) => 1
    case Done => 0
  }

  /** A task that gets three turns more than it has dependencies is done. */
  lemma {:induction false} EnoughTurnsFinish(b: Behaviour, g: Graph, batch: set<Id>, input: CycleInput, schedule: seq<Id>, id: Id)
    requires batch <= g.Keys && forall id :: id in g ==> g[id].id == id
    requires id in batch
    ensures var task := RunSchedule(b, g, batch, input, schedule).tasks[id];
            && (task.Reading? ==> task.next <= |g[id].dependsOn|)
            && 0 <= TurnsLeft(g[id], task) <= Max(0, |g[id].dependsOn| + 3 - Turns(schedule, id))
            && (Turns(schedule, id) >= |g[id].dependsOn| + 3 ==> task.Done?)
  {
    if schedule == [] {
    } else {
      EnoughTurnsFinish(b, g, batch, input, schedule[..|schedule| - 1], id);
    }
  }
}
