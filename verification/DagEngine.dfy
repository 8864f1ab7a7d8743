/** The engine object: the scheduler loop over the stored table. */
module DagEngines {
  import opened Wrappers
  import opened JsonValues
  import opened Conditions
  import opened Dag
  import Engine
  import opened GraphShape
  import opened RunInvariants
  import opened RunVerdict
  import opened StoreFidelity
  import opened Workflows
  import opened ExpansionLists
  import opened BatchExecution

  datatype WorkflowOutcome = Completed | DeadlockFailure(blocked: set<Id>) | EngineError | StillRunning

  // ── Small steps of a cycle ───────────────────────────────────────────

  lemma EarliestRetryUnique(g: Graph, a: Time, b: Time)
    requires Engine.IsEarliestRetry(g, a) && Engine.IsEarliestRetry(g, b)
    ensures a == b
  {
    var x :| Engine.RetryingAt(g, x, a);
    var y :| Engine.RetryingAt(g, y, b);
  }

  /** The rows of a table as a list, in whatever order the store returns them. */
  method LoadNodes(rows: Graph) returns (nodes: seq<StepNode>)
    requires KeyedById(rows)
    ensures UniqueIds(nodes) && GraphOf(nodes) == rows
  {
    nodes := [];
    var left := rows.Keys;
    while left != {}
      invariant left <= rows.Keys && UniqueIds(nodes)
      invariant forall n :: n in nodes ==> n.id in rows && rows[n.id] == n && n.id !in left
      invariant forall id :: id in rows && id !in left ==> rows[id] in nodes
      decreases |left|
    {
      var id :| id in left;
      nodes := nodes + [rows[id]];
      left := left - {id};
    }
    AllLoaded(nodes, rows);
  }

  lemma AllLoaded(nodes: seq<StepNode>, rows: Graph)
    requires UniqueIds(nodes)
    requires forall n :: n in nodes ==> n.id in rows && rows[n.id] == n
    requires forall id :: id in rows ==> rows[id].id == id && rows[id] in nodes
    ensures GraphOf(nodes) == rows
  {
    forall id | id in rows ensures id in GraphOf(nodes) && GraphOf(nodes)[id] == rows[id] {
      GraphOfMember(nodes, rows[id]);
    }
  }

  // ── The ready steps ──────────────────────────────────────────────────

  /** The workflow in memory holds the stored rows of its ready steps, and they can be run. */
  ghost predicate CanRun(rows: Graph, nodes: seq<StepNode>, now: Time) {
    && UniqueIds(nodes)
    && (forall n :: n in nodes ==> n.id != UNKNOWN)
    && (forall n :: n in nodes && IsReady(GraphOf(nodes), n, now) ==>
          n.id in rows && rows[n.id] == n && Runnable(rows, n.id))
  }

  lemma NoneReadyIff(g: Graph, ready: seq<StepNode>, now: Time)
    requires IdsOf(ready) == ReadySet(g, now)
    ensures ready == [] <==> ReadySet(g, now) == {}
  {
    if ready != [] { assert ready[0].id in IdsOf(ready); }
  }

  lemma ReadyIsBatch(rows: Graph, nodes: seq<StepNode>, ready: seq<StepNode>, now: Time)
    requires CanRun(rows, nodes, now) && UniqueIds(ready)
    requires forall n :: n in ready <==> n in nodes && IsReady(GraphOf(nodes), n, now)
    ensures ReadyBatch(rows, ready) && StillThere(rows, nodes, ready, 0)
  {
    forall i | 0 <= i < |ready|
      ensures ready[i].id in rows && rows[ready[i].id] == ready[i] && Runnable(rows, ready[i].id) && ready[i] in nodes
    {
      assert ready[i] in ready;
    }
  }

  /** When to look again: at the earliest retry, else after the poll interval. */
  method WaitFor(workflow: Workflow, now: Time) returns (outcome: Engine.CycleOutcome)
    requires UniqueIds(workflow.nodes)
    ensures outcome == Engine.WaitUntil(Engine.WakeTime(GraphOf(workflow.nodes), now))
  {
    var next := workflow.NextRetryTime();
    if next.None? { return Engine.WaitUntil(now + Engine.POLL_SECONDS); }
    EarliestRetryUnique(GraphOf(workflow.nodes), next.value, Engine.WakeTime(GraphOf(workflow.nodes), now));
    return Engine.WaitUntil(next.value);
  }

  // ── The object ───────────────────────────────────────────────────────

  class DagEngine {
    const durable: bool
    var rows: Graph
    ghost const plan: Graph

    ghost predicate Valid()
      reads this
    {
      InitialGraph(plan) && Inv(plan, rows)
    }

    constructor (durable: bool, rows: Graph)
      requires InitialGraph(rows)
      ensures Valid() && this.rows == rows && this.plan == rows && this.durable == durable
    {
      this.durable, this.rows, this.plan := durable, rows, rows;
      InitialInv(rows);
    }

    /** Expansion in memory and in the store; false when the insert clashes. */
    method ExpandAndSave(workflow: Workflow) returns (saved: bool)
      requires Valid() && UniqueIds(workflow.nodes) && GraphOf(workflow.nodes) == rows && !Engine.Hangs(rows)
      modifies this`rows, workflow
      ensures saved <==> !Engine.InsertFails(old(rows))
      ensures !saved ==> rows == old(rows)
      ensures saved ==>
        && UniqueIds(workflow.nodes) && GraphOf(workflow.nodes) == Engine.InMemory(old(rows))
        && rows == Engine.Stored(durable, old(rows))
    {
      var nodes := workflow.nodes;
      ghost var g, ts := rows, Templates(nodes);
      TemplatesAreAll(nodes);
      forall i | 0 <= i < |nodes| && nodes[i].kind.ForEachTemplate? ensures BaseName(nodes[i].id) {
        GraphOfRow(nodes, i);
        TemplatesAreOriginal(plan, g, nodes[i].id);
      }
      var e := workflow.ExpandForeachNodes();
      if e.None? {
        ExpandNothing(g);
        return true;
      }
      forall id ensures id in NewIds(g, ToSet(ts)) <==> exists k :: 0 <= k < |e.value.newSteps| && e.value.newSteps[k].id == id {
        NewIdsListed(g, ts, id);
      }
      if exists k :: 0 <= k < |e.value.newSteps| && e.value.newSteps[k].id in rows {
        return false;
      }
      assert CanExpand(g, ts);
      forall t | t in ts ensures BaseName(t) && g[t].status.Pending? { TemplatesAreOriginal(plan, g, t); }
      ListExpansion(nodes, ts);
      SavedExpansion(nodes, ts);
      if durable {
        rows := GraphOf(workflow.nodes);
      } else {
        rows := SavedRows(rows, e.value.newSteps, e.value.updatedDeps);
      }
      return true;
    }

    /** Completion, deadlock, waiting, or running the ready steps. */
    method Schedule(workflow: Workflow, input: Engine.CycleInput) returns (outcome: Engine.CycleOutcome)
      requires Valid() && CanRun(rows, workflow.nodes, input.now)
      modifies this`rows, workflow
      ensures Engine.CycleResult(rows, outcome) == Engine.Decide(GraphOf(old(workflow.nodes)), old(rows), input)
    {
      var memory := GraphOf(workflow.nodes);
      if IsComplete(memory) { return Engine.Complete; }
      var ready := workflow.ReadySteps(input.now);
      NoneReadyIff(memory, ready, input.now);
      if !HasActive(memory) && ready == [] { return Engine.Deadlocked(FailedSteps(memory)); }
      if ready == [] {
        outcome := WaitFor(workflow, input.now);
        return;
      }
      ReadyIsBatch(rows, workflow.nodes, ready, input.now);
      BatchIsFresh(plan, rows, ready);
      var refused;
      rows, refused := ExecuteBatch(rows, workflow, ready, input);
      return Engine.Continue;
    }

    /** One scheduling cycle, if its expansion returns. */
    method RunCycle(input: Engine.CycleInput) returns (outcome: Engine.CycleOutcome)
      requires Valid() && !Engine.Hangs(rows)
      modifies this`rows
      ensures Valid()
      ensures Engine.CycleResult(rows, outcome) == Engine.RunCycle(durable, old(rows), input)
    {
      ghost var g := rows;
      CycleKeepsInv(plan, durable, g, input);
      var nodes := LoadNodes(rows);
      var workflow := new Workflow(nodes);
      var saved := ExpandAndSave(workflow);
      if !saved { return Engine.StoreError; }
      StoredInv(plan, durable, g);
      ExpandedCanRun(plan, durable, g, workflow.nodes, input.now);
      outcome := Schedule(workflow, input);
    }

    /** The scheduler loop, over the cycles for which the environment supplies inputs. */
    method RunWorkflow(inputs: seq<Engine.CycleInput>) returns (outcome: WorkflowOutcome, cycles: nat)
      requires Valid()
      requires forall k :: 0 <= k < |inputs| ==> !Engine.Hangs(Engine.After(durable, rows, inputs[..k]))
      modifies this`rows
      ensures Valid() && cycles <= |inputs|
      ensures rows == Engine.After(durable, old(rows), inputs[..cycles])
      ensures outcome.Completed? ==> IsComplete(rows)
      ensures outcome.DeadlockFailure? ==> !IsComplete(rows) && !HasActive(rows) && outcome.blocked == FailedSteps(rows)
      ensures outcome.EngineError? ==> Engine.InsertFails(rows)
      ensures outcome.StillRunning? ==> cycles == |inputs|
    {
      ghost var start := rows;
      assert inputs[..0] == [];
      for k := 0 to |inputs|
        invariant Valid() && rows == Engine.After(durable, start, inputs[..k])
      {
        assert inputs[..k + 1][..k] == inputs[..k];
        ghost var g := rows;
        var r := RunCycle(inputs[k]);
        FinalCycle(plan, durable, g, inputs[k]);
        match r
        case Continue =>
        case WaitUntil(_) =>
        case Complete => return Completed, k;
        case Deadlocked(blocked) => return DeadlockFailure(blocked), k;
        case StoreError => return EngineError, k;
        case Hung => assert false;
      }
      assert inputs[..|inputs|] == inputs;
      return StillRunning, |inputs|;
    }
  }

  /** What the three final outcomes of a cycle say about the table it found, and left. */
  lemma FinalCycle(g0: Graph, durable: bool, g: Graph, input: Engine.CycleInput)
    requires InitialGraph(g0) && Inv(g0, g)
    ensures var r := Engine.RunCycle(durable, g, input);
            && (r.outcome.Complete? ==> r.rows == g && IsComplete(g))
            && (r.outcome.Deadlocked? ==> r.rows == g && IsDeadlocked(g, input.now) && r.outcome.blocked == FailedSteps(g))
            && (r.outcome.StoreError? ==> r.rows == g && Engine.InsertFails(g))
            && (r.outcome.Hung? ==> Engine.Hangs(g))
  {
    var r := Engine.RunCycle(durable, g, input);
    Engine.CycleCases(durable, g, input);
    if r.outcome.Complete? || r.outcome.Deadlocked? { QuietCycle(g0, durable, g, input); }
  }

  /** After the expansion, the copies the tasks work on are the stored rows, and they can be run. */
  lemma ExpandedCanRun(g0: Graph, durable: bool, g: Graph, nodes: seq<StepNode>, now: Time)
    requires InitialGraph(g0) && Inv(g0, g) && !Engine.InsertFails(g)
    requires UniqueIds(nodes) && GraphOf(nodes) == Engine.InMemory(g)
    ensures CanRun(Engine.Stored(durable, g), nodes, now)
  {
    StoredInv(g0, durable, g);
    NoStepIsUnknown(g0, Engine.Stored(durable, g));
    ReadyIsRunnable(g0, durable, g, now);
    forall n | n in nodes ensures n.id != UNKNOWN { GraphOfMember(nodes, n); }
    forall n | n in nodes && IsReady(GraphOf(nodes), n, now)
      ensures n.id in Engine.Stored(durable, g) && Engine.Stored(durable, g)[n.id] == n && Runnable(Engine.Stored(durable, g), n.id)
    {
      GraphOfMember(nodes, n);
      assert n.id in ReadySet(Engine.InMemory(g), now);
      if n.id in Expandable(g) { ExpandedAreDone(g0, g, n.id); }
    }
  }

  lemma ExpandedAreDone(g0: Graph, g: Graph, id: Id)
    requires InitialGraph(g0) && Inv(g0, g) && !Engine.InsertFails(g) && id in Expandable(g)
    ensures Engine.InMemory(g)[id].status.Succeeded?
  {
    assert g[id].id == id;
  }
}
