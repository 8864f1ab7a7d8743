/**
 What every cycle keeps, and so what holds in every reachable state: dependency safety, the
 bookkeeping of retries and outputs, and the verdict of the gate.
 */
module RunInvariants {
  import opened Wrappers
  import opened Arithmetic
  import opened JsonValues
  import opened Conditions
  import opened Dag
  import opened Engine
  import opened GraphShape

  /** Every node that left Pending has its dependencies satisfied, and so has every expanded template. */
  predicate NodeSafe(g0: Graph, g: Graph, n: StepNode) {
    !n.status.Pending? || n.id in Expanded(g0, g) ==> DepsSatisfied(g, n)
  }

  predicate TemplateOk(g0: Graph, g: Graph, n: StepNode) {
    n.kind.ForEachTemplate? ==>
      && (n.status.Pending? || (n.status.Succeeded? && n.id in Expanded(g0, g)))
      && n.attempt == 0 && n.output.None?
  }

  /** The number of executions a policy allows. */
  function Budget(p: RetryPolicy): nat { Max(1, p.maxAttempts) }

  predicate BooksOk(n: StepNode) {
    && !n.status.Ready?
    && (n.status.Pending? ==> n.attempt == 0)
    && (n.status.Retrying? ==> n.status.attempt == n.attempt && 0 < n.attempt < n.retryPolicy.maxAttempts)
    && (if n.status.Failed? then 0 < n.attempt <= Budget(n.retryPolicy) else n.attempt < Budget(n.retryPolicy))
    && (n.output.Some? <==> n.status.Succeeded? && !n.kind.ForEachTemplate?)
  }

  /** Skipped exactly by a failing gate; everything else that started, by a passing one. */
  predicate GateOk(g: Graph, n: StepNode) {
    !n.kind.ForEachTemplate? && !n.status.Pending? ==>
      (n.status.Skipped? <==> !GatePasses(n, Inputs(g, n)))
  }

  predicate NodeOk(g0: Graph, g: Graph, n: StepNode) {
    NodeSafe(g0, g, n) && TemplateOk(g0, g, n) && BooksOk(n) && GateOk(g, n)
  }

  predicate Inv(g0: Graph, g: Graph) {
    Shape(g0, g) && forall id :: id in g ==> NodeOk(g0, g, g[id])
  }

  // ── Stability of inputs ──────────────────────────────────────────────

  /** Satisfied steps stay satisfied, with the same output. */
  ghost predicate KeepsSatisfied(g: Graph, g': Graph) {
    forall d :: Satisfied(g, d) ==> Satisfied(g', d) && g'[d].output == g[d].output
  }

  lemma SatisfiedStays(g: Graph, g': Graph, n: StepNode)
    requires DepsSatisfied(g, n) && KeepsSatisfied(g, g')
    ensures DepsSatisfied(g', n) && Inputs(g', n) == Inputs(g, n)
  {
    forall d | d in n.dependsOn ensures Satisfied(g', d) && OutputOf(g', d) == OutputOf(g, d) {
      assert Satisfied(g, d);
    }
  }

  lemma NodeOkStays(g0: Graph, g: Graph, g': Graph, n: StepNode)
    requires NodeOk(g0, g, n) && KeepsSatisfied(g, g')
    requires n.id in Expanded(g0, g') <==> n.id in Expanded(g0, g)
    ensures NodeOk(g0, g', n)
  {
    if !n.status.Pending? || n.id in Expanded(g0, g) { SatisfiedStays(g, g', n); }
  }

  // ── Expansion ────────────────────────────────────────────────────────

  lemma ExpandKeepsSatisfied(g: Graph)
    requires !InsertFails(g)
    requires forall id :: id in g ==> g[id].id == id
    ensures KeepsSatisfied(g, InMemory(g))
  {
  }

  /** A node that left Pending is not touched by an expansion. */
  lemma ExpandLeavesStarted(g0: Graph, g: Graph, id: Id)
    requires Inv(g0, g) && !InsertFails(g) && id in g && !g[id].status.Pending?
    ensures InMemory(g)[id] == g[id]
  {
    assert NodeOk(g0, g, g[id]);
    SatisfiedDepsKept(g, g[id]);
  }

  lemma ExpandKeepsNode(g0: Graph, g: Graph, id: Id)
    requires InitialGraph(g0) && Inv(g0, g) && !InsertFails(g) && id in InMemory(g)
    ensures NodeOk(g0, InMemory(g), InMemory(g)[id])
  {
    var memory, T := InMemory(g), Expandable(g);
    ExpandKeepsShape(g0, g);
    ExpandKeepsSatisfied(g);
    if id !in g {
      var t, i := NewIdOrigin(g, T, id);
      ExpandNew(g, T, t);
      NewNamesAreNotBase(t, i);
      assert NodeOk(g0, g, g[t]);
    } else {
      assert NodeOk(g0, g, g[id]);
      if id in T {
        SatisfiedDepsKept(g, g[id]);
        SatisfiedStays(g, memory, g[id]);
      } else if id in Expanded(g0, g) || !g[id].status.Pending? {
        SatisfiedDepsKept(g, g[id]);
        NodeOkStays(g0, g, memory, g[id]);
      }
    }
  }

  lemma ExpandKeepsInv(g0: Graph, g: Graph)
    requires InitialGraph(g0) && Inv(g0, g) && !InsertFails(g)
    ensures Inv(g0, InMemory(g))
    ensures Expanded(g0, InMemory(g)) == Expanded(g0, g) + Expandable(g)
  {
    ExpandKeepsShape(g0, g);
    forall id | id in InMemory(g) ensures NodeOk(g0, InMemory(g), InMemory(g)[id]) {
      ExpandKeepsNode(g0, g, id);
    }
  }

  /** Forgetting that a template was expanded changes nothing for anybody else. */
  lemma PersistKeepsInv(g0: Graph, durable: bool, g: Graph, T: set<Id>)
    requires InitialGraph(g0) && Inv(g0, g) && T <= Expanded(g0, g)
    ensures Inv(g0, Persisted(durable, g, T))
    ensures SameStatic(g, Persisted(durable, g, T))
    ensures Expanded(g0, Persisted(durable, g, T)) == Expanded(g0, g)
  {
    var stored := Persisted(durable, g, T);
    ProgressKeepsShape(g0, g, stored);
    forall id | id in stored ensures NodeOk(g0, stored, stored[id]) { PersistKeepsNode(g0, durable, g, T, id); }
  }

  lemma PersistKeepsNode(g0: Graph, durable: bool, g: Graph, T: set<Id>, id: Id)
    requires InitialGraph(g0) && Inv(g0, g) && T <= Expanded(g0, g) && id in g
    requires Expanded(g0, Persisted(durable, g, T)) == Expanded(g0, g)
    ensures NodeOk(g0, Persisted(durable, g, T), Persisted(durable, g, T)[id])
  {
    var stored := Persisted(durable, g, T);
    PersistLeavesInputs(g0, durable, g, T, id);
    assert NodeOk(g0, g, g[id]);
    if id in T {
      assert NodeShape(g0, g, g[id]);
      assert g[id].kind.ForEachTemplate?;
      assert DepsSatisfied(stored, stored[id]) == DepsSatisfied(stored, g[id]);
    }
  }

  lemma PersistLeavesInputs(g0: Graph, durable: bool, g: Graph, T: set<Id>, id: Id)
    requires InitialGraph(g0) && Shape(g0, g) && T <= Expanded(g0, g) && id in g
    ensures DepsSatisfied(Persisted(durable, g, T), g[id]) == DepsSatisfied(g, g[id])
    ensures Inputs(Persisted(durable, g, T), g[id]) == Inputs(g, g[id])
  {
    var stored := Persisted(durable, g, T);
    forall d | d in g[id].dependsOn
      ensures Satisfied(stored, d) == Satisfied(g, d) && OutputOf(stored, d) == OutputOf(g, d)
    {
      DependencyInside(g0, g, id, d);
    }
  }

  // ── A batch ──────────────────────────────────────────────────────────

  /** What the engine may run: steps that are not templates, with satisfied dependencies. */
  predicate Runnable(g: Graph, id: Id) {
    && id in g && !g[id].kind.ForEachTemplate?
    && (g[id].status.Pending? || g[id].status.Retrying?)
    && DepsSatisfied(g, g[id])
  }

  predicate RunnableBatch(g: Graph, batch: set<Id>) { forall id :: id in batch ==> Runnable(g, id) }

  lemma BatchKeepsSatisfied(g: Graph, batch: set<Id>, input: CycleInput)
    requires RunnableBatch(g, batch)
    ensures KeepsSatisfied(g, RunBatch(g, batch, input))
  {
    forall d | Satisfied(g, d) ensures d !in batch {}
  }

  lemma FinishedBooks(g: Graph, n: StepNode, input: CycleInput)
    requires BooksOk(n) && !n.kind.ForEachTemplate? && (n.status.Pending? || n.status.Retrying?)
    ensures BooksOk(FinishStep(g, n, input))
    ensures Static(FinishStep(g, n, input)) == Static(n)
    ensures !FinishStep(g, n, input).status.Pending?
  {
  }

  lemma BatchKeepsNode(g0: Graph, g: Graph, batch: set<Id>, input: CycleInput, id: Id)
    requires InitialGraph(g0) && Inv(g0, g) && RunnableBatch(g, batch) && id in g
    requires Expanded(g0, RunBatch(g, batch, input)) == Expanded(g0, g)
    ensures NodeOk(g0, RunBatch(g, batch, input), RunBatch(g, batch, input)[id])
  {
    var g' := RunBatch(g, batch, input);
    BatchKeepsSatisfied(g, batch, input);
    assert NodeOk(g0, g, g[id]);
    if id in batch {
      assert Runnable(g, id);
      FinishedBooks(g, g[id], input);
      SatisfiedStays(g, g', g[id]);
      FinishedGate(g, g', g[id], input);
    } else {
      NodeOkStays(g0, g, g', g[id]);
    }
  }

  lemma FinishedGate(g: Graph, g': Graph, n: StepNode, input: CycleInput)
    requires Inputs(g', n) == Inputs(g, n) && DepsSatisfied(g', n)
    ensures GateOk(g', FinishStep(g, n, input))
    ensures DepsSatisfied(g', FinishStep(g, n, input))
  {
    var n' := FinishStep(g, n, input);
    assert Inputs(g', n') == Inputs(g', n);
    assert GatePasses(n', Inputs(g', n')) == GatePasses(n, Inputs(g, n));
  }

  lemma BatchKeepsInv(g0: Graph, g: Graph, batch: set<Id>, input: CycleInput)
    requires InitialGraph(g0) && Inv(g0, g) && RunnableBatch(g, batch)
    ensures Inv(g0, RunBatch(g, batch, input))
    ensures Expanded(g0, RunBatch(g, batch, input)) == Expanded(g0, g)
    ensures SameStatic(g, RunBatch(g, batch, input))
  {
    var g' := RunBatch(g, batch, input);
    forall id | id in g ensures Static(g[id]) == Static(g'[id]) {
      if id in batch {
        assert Runnable(g, id) && NodeOk(g0, g, g[id]);
        FinishedBooks(g, g[id], input);
      }
    }
    ProgressKeepsShape(g0, g, g');
    forall id | id in g' ensures NodeOk(g0, g', g'[id]) { BatchKeepsNode(g0, g, batch, input, id); }
  }

  // ── A cycle ──────────────────────────────────────────────────────────

  /** After expansion no template is ready: one is either expanded or still blocked. */
  lemma NoTemplateReady(g0: Graph, g: Graph, now: Time, id: Id)
    requires InitialGraph(g0) && Inv(g0, g) && !InsertFails(g)
    requires id in ReadySet(InMemory(g), now)
    ensures !InMemory(g)[id].kind.ForEachTemplate?
  {
    var memory := InMemory(g);
    if memory[id].kind.ForEachTemplate? {
      ExpandKeepsInv(g0, g);
      TemplatesAreOriginal(g0, memory, id);
      assert NodeOk(g0, memory, memory[id]) && NodeOk(g0, g, g[id]);
      BlockedTemplateStays(g0, g, id);
    }
  }

  lemma BlockedTemplateStays(g0: Graph, g: Graph, id: Id)
    requires Inv(g0, g) && !InsertFails(g) && id in g && !DepsSatisfied(g, g[id])
    ensures !DepsSatisfied(InMemory(g), InMemory(g)[id])
  {
    var memory, T := InMemory(g), Expandable(g);
    var d :| d in g[id].dependsOn && !Satisfied(g, d);
    var i :| 0 <= i < |g[id].dependsOn| && g[id].dependsOn[i] == d;
    var d' := RewriteDeps(g[id].dependsOn, T)[i];
    assert d' in memory[id].dependsOn;
    if d in T { ExpandNew(g, T, d); } else { UnsatisfiedStays(g, d); }
    assert !Satisfied(memory, d');
  }

  lemma UnsatisfiedStays(g: Graph, d: Id)
    requires !InsertFails(g) && !Satisfied(g, d) && d !in Expandable(g)
    requires forall id :: id in g ==> g[id].id == id
    ensures !Satisfied(InMemory(g), d)
  {
    var memory, T := InMemory(g), Expandable(g);
    if d in memory && d !in g {
      var t, i := NewIdOrigin(g, T, d);
      ExpandNew(g, T, t);
    }
  }

  /** What is ready in memory can be run against the store. */
  lemma ReadyIsRunnable(g0: Graph, durable: bool, g: Graph, now: Time)
    requires InitialGraph(g0) && Inv(g0, g) && !InsertFails(g)
    ensures RunnableBatch(Stored(durable, g), ReadySet(InMemory(g), now))
  {
    var memory, stored, T := InMemory(g), Stored(durable, g), Expandable(g);
    ExpandKeepsInv(g0, g);
    forall id | id in ReadySet(memory, now) ensures Runnable(stored, id) {
      NoTemplateReady(g0, g, now, id);
      assert NodeOk(g0, memory, memory[id]);
      assert NodeShape(g0, memory, memory[id]);
      if id in T { TemplatesAreOriginal(g0, g, id); }
      PersistLeavesInputs(g0, durable, memory, T, id);
    }
  }

  lemma StoredInv(g0: Graph, durable: bool, g: Graph)
    requires InitialGraph(g0) && Inv(g0, g) && !InsertFails(g)
    ensures Inv(g0, Stored(durable, g))
    ensures SameStatic(InMemory(g), Stored(durable, g))
    ensures Expanded(g0, Stored(durable, g)) == Expanded(g0, g) + Expandable(g)
  {
    ExpandKeepsInv(g0, g);
    PersistKeepsInv(g0, durable, InMemory(g), Expandable(g));
  }

  lemma CycleKeepsInv(g0: Graph, durable: bool, g: Graph, input: CycleInput)
    requires InitialGraph(g0) && Inv(g0, g)
    ensures Inv(g0, RunCycle(durable, g, input).rows)
  {
    CycleCases(durable, g, input);
    if !Stops(g) {
      StoredInv(g0, durable, g);
      ReadyIsRunnable(g0, durable, g, input.now);
      BatchKeepsInv(g0, Stored(durable, g), ReadySet(InMemory(g), input.now), input);
    }
  }

  lemma InitialInv(g0: Graph)
    requires InitialGraph(g0)
    ensures Inv(g0, g0)
  {
    InitialShape(g0);
    forall id | id in g0 ensures NodeOk(g0, g0, g0[id]) { assert InitialNode(g0, g0[id]); }
  }

  /** The invariant holds in every reachable state. */
  lemma {:induction false} RunKeepsInv(durable: bool, g0: Graph, inputs: seq<CycleInput>)
    requires InitialGraph(g0)
    ensures Inv(g0, After(durable, g0, inputs))
  {
    if inputs == [] {
      InitialInv(g0);
    } else {
      var before := inputs[..|inputs| - 1];
      RunKeepsInv(durable, g0, before);
      CycleKeepsInv(g0, durable, After(durable, g0, before), inputs[|inputs| - 1]);
    }
  }
}
