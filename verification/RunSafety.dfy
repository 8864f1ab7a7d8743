/** Safety over whole runs: what no cycle undoes, and what the rewriting of the graph guarantees. */
module RunSafety {
  import opened Wrappers
  import opened Conditions
  import opened Dag
  import opened Engine
  import opened GraphShape
  import opened RunInvariants

  /** In every reachable state a step that is not Pending has all its dependencies Succeeded or Skipped. */
  lemma DependencySafety(durable: bool, g0: Graph, inputs: seq<CycleInput>, id: Id)
    requires InitialGraph(g0) && id in After(durable, g0, inputs)
    requires !After(durable, g0, inputs)[id].status.Pending?
    ensures forall d :: d in After(durable, g0, inputs)[id].dependsOn ==> Satisfied(After(durable, g0, inputs), d)
  {
    RunKeepsInv(durable, g0, inputs);
    assert NodeOk(g0, After(durable, g0, inputs), After(durable, g0, inputs)[id]);
  }

  // ── Stability ────────────────────────────────────────────────────────

  /** What one cycle keeps of a node that left Pending. */
  predicate Steady(n: StepNode, n': StepNode) {
    && Static(n') == Static(n)
    && !n'.status.Pending?
    && (n.status.Terminal() ==> n' == n)
    && (n'.status.Skipped? ==> n.status.Skipped?)
  }

  lemma BatchKeepsStarted(g0: Graph, g: Graph, batch: set<Id>, input: CycleInput, id: Id)
    requires InitialGraph(g0) && Inv(g0, g) && RunnableBatch(g, batch)
    requires id in g && !g[id].status.Pending?
    ensures Steady(g[id], RunBatch(g, batch, input)[id])
  {
    assert NodeOk(g0, g, g[id]);
    if id in batch {
      assert Runnable(g, id);
      FinishedRetry(g, g[id], input);
    }
  }

  /** A retried step whose gate passed is run, not skipped. */
  lemma FinishedRetry(g: Graph, n: StepNode, input: CycleInput)
    requires BooksOk(n) && GateOk(g, n) && !n.kind.ForEachTemplate? && n.status.Retrying?
    ensures Steady(n, FinishStep(g, n, input))
  {
    assert GatePasses(n, Inputs(g, n));
    FinishedBooks(g, n, input);
  }

  lemma SteadyTransitive(a: StepNode, b: StepNode, c: StepNode)
    requires Steady(a, b) && Steady(b, c)
    ensures Steady(a, c)
  {
  }

  /** A node that left Pending is stored as it was. */
  lemma StoredKeepsStarted(g0: Graph, durable: bool, g: Graph, id: Id)
    requires InitialGraph(g0) && Inv(g0, g) && !InsertFails(g) && id in g && !g[id].status.Pending?
    ensures id in Stored(durable, g) && Stored(durable, g)[id] == g[id]
  {
    ExpandLeavesStarted(g0, g, id);
  }

  lemma CycleKeepsStarted(g0: Graph, durable: bool, g: Graph, input: CycleInput, id: Id)
    requires InitialGraph(g0) && Inv(g0, g) && id in g && !g[id].status.Pending?
    ensures id in RunCycle(durable, g, input).rows
    ensures Steady(g[id], RunCycle(durable, g, input).rows[id])
  {
    CycleCases(durable, g, input);
    if !Stops(g) {
      StoredInv(g0, durable, g);
      StoredKeepsStarted(g0, durable, g, id);
      ReadyIsRunnable(g0, durable, g, input.now);
      BatchKeepsStarted(g0, Stored(durable, g), ReadySet(InMemory(g), input.now), input, id);
    }
  }

  /**
   Gate stability: however the run goes on, a terminal row never changes, a step that left Pending
   keeps its dependency list and everything else that is fixed about it, and a step whose gate once
   passed is never skipped later.
   */
  lemma {:induction false} GateStability(durable: bool, g0: Graph, inputs: seq<CycleInput>, more: seq<CycleInput>, id: Id)
    requires InitialGraph(g0)
    requires id in After(durable, g0, inputs) && !After(durable, g0, inputs)[id].status.Pending?
    ensures id in After(durable, g0, inputs + more)
    ensures Steady(After(durable, g0, inputs)[id], After(durable, g0, inputs + more)[id])
    decreases |more|
  {
    if more == [] {
      assert inputs + more == inputs;
    } else {
      var rest := more[..|more| - 1];
      GateStability(durable, g0, inputs, rest, id);
      RunKeepsInv(durable, g0, inputs + rest);
      AfterOneMore(durable, g0, inputs, more);
      var g, g' := After(durable, g0, inputs + rest), After(durable, g0, inputs + more);
      CycleKeepsStarted(g0, durable, g, more[|more| - 1], id);
      SteadyTransitive(After(durable, g0, inputs)[id], g[id], g'[id]);
    }
  }

  /** So are the inputs of a step that left Pending. */
  lemma InputStability(durable: bool, g0: Graph, inputs: seq<CycleInput>, more: seq<CycleInput>, id: Id)
    requires InitialGraph(g0)
    requires id in After(durable, g0, inputs) && !After(durable, g0, inputs)[id].status.Pending?
    ensures id in After(durable, g0, inputs + more)
    ensures Inputs(After(durable, g0, inputs + more), After(durable, g0, inputs + more)[id])
         == Inputs(After(durable, g0, inputs), After(durable, g0, inputs)[id])
  {
    var g, g' := After(durable, g0, inputs), After(durable, g0, inputs + more);
    GateStability(durable, g0, inputs, more, id);
    RunKeepsInv(durable, g0, inputs);
    assert NodeOk(g0, g, g[id]);
    forall d | d in g[id].dependsOn ensures OutputOf(g', d) == OutputOf(g, d) {
      assert Satisfied(g, d);
      GateStability(durable, g0, inputs, more, d);
    }
    SameInputs(g, g', g[id], g'[id]);
  }

  lemma SameInputs(g: Graph, g': Graph, n: StepNode, n': StepNode)
    requires Static(n') == Static(n) && forall d :: d in n.dependsOn ==> OutputOf(g', d) == OutputOf(g, d)
    ensures Inputs(g', n') == Inputs(g, n)
  {
    assert n'.dependsOn == Static(n').dependsOn == n.dependsOn;
  }

  // ── The rewritten graph ──────────────────────────────────────────────

  /** A chain of dependencies. */
  ghost predicate IsPath(g: Graph, p: seq<Id>) {
    && |p| > 0
    && (forall i :: 0 <= i < |p| ==> p[i] in g)
    && forall i :: 0 <= i < |p| - 1 ==> p[i + 1] in g[p[i]].dependsOn
  }

  lemma {:induction false} PathDescends(g0: Graph, rho: map<Id, nat>, g: Graph, p: seq<Id>)
    requires InitialGraph(g0) && Ranked(g0, rho) && Shape(g0, g) && IsPath(g, p)
    ensures |p| > 1 ==> Rank(rho, g[p[|p| - 1]]) < Rank(rho, g[p[0]])
    decreases |p|
  {
    if |p| == 1 {
    } else {
      DependencyRanks(g0, rho, g, p[0], p[1]);
      assert IsPath(g, p[1..]) by {
        forall i | 0 <= i < |p[1..]| - 1 ensures p[1..][i + 1] in g[p[1..][i]].dependsOn {
          assert p[(i + 1) + 1] in g[p[i + 1]].dependsOn;
        }
      }
      PathDescends(g0, rho, g, p[1..]);
    }
  }

  predicate Closed(g0: Graph, g: Graph) {
    forall id :: id in g ==> forall d :: d in g[id].dependsOn ==> d in g && d !in Expanded(g0, g)
  }

  ghost predicate Acyclic(g: Graph) { forall p :: IsPath(g, p) && |p| > 1 ==> p[0] != p[|p| - 1] }

  lemma ShapeIsClosed(g0: Graph, g: Graph)
    requires InitialGraph(g0) && Shape(g0, g)
    ensures Closed(g0, g)
  {
    forall id | id in g ensures forall d :: d in g[id].dependsOn ==> d in g && d !in Expanded(g0, g) {
      forall d | d in g[id].dependsOn ensures d in g && d !in Expanded(g0, g) { DependencyInside(g0, g, id, d); }
    }
  }

  lemma ShapeIsAcyclic(g0: Graph, rho: map<Id, nat>, g: Graph)
    requires InitialGraph(g0) && Ranked(g0, rho) && Shape(g0, g)
    ensures Acyclic(g)
  {
    forall p | IsPath(g, p) && |p| > 1 ensures p[0] != p[|p| - 1] { PathDescends(g0, rho, g, p); }
  }

  /**
   Every reachable graph, rewritten or not, keeps the planned steps, names its steps by its keys, is
   closed, has no cycle, and has no edge to a template that was expanded.
   */
  lemma GraphStaysSound(durable: bool, g0: Graph, rho: map<Id, nat>, inputs: seq<CycleInput>)
    requires InitialGraph(g0) && Ranked(g0, rho)
    ensures g0.Keys <= After(durable, g0, inputs).Keys
    ensures forall id :: id in After(durable, g0, inputs) ==> After(durable, g0, inputs)[id].id == id
    ensures Closed(g0, After(durable, g0, inputs)) && Acyclic(After(durable, g0, inputs))
  {
    var g := After(durable, g0, inputs);
    RunKeepsInv(durable, g0, inputs);
    ShapeIsClosed(g0, g);
    ShapeIsAcyclic(g0, rho, g);
  }

  /** A step that waited for a template starts only when the join and every item are done. */
  lemma DependentsWaitForItems(durable: bool, g0: Graph, inputs: seq<CycleInput>, id: Id, t: Id)
    requires InitialGraph(g0) && id in g0 && t in g0[id].dependsOn && IsTemplate(g0, t)
    requires id in After(durable, g0, inputs) && !After(durable, g0, inputs)[id].status.Pending?
    ensures var g := After(durable, g0, inputs);
            && Satisfied(g, JoinId(t))
            && g[JoinId(t)].dependsOn == ItemIds(t, |g[JoinId(t)].dependsOn|)
            && (forall i :: 0 <= i < |g[JoinId(t)].dependsOn| ==> Satisfied(g, ItemId(t, i)))
            && (forall i: nat :: ItemId(t, i) in g ==> i < |g[JoinId(t)].dependsOn|)
  {
    var g := After(durable, g0, inputs);
    RunKeepsInv(durable, g0, inputs);
    StartedNeedsJoin(g0, g, id, t);
    JoinNeedsItems(g0, g, t);
  }

  lemma StartedNeedsJoin(g0: Graph, g: Graph, id: Id, t: Id)
    requires InitialGraph(g0) && Inv(g0, g) && id in g0 && t in g0[id].dependsOn && IsTemplate(g0, t)
    requires id in g && !g[id].status.Pending?
    ensures t in Expanded(g0, g) && Satisfied(g, JoinId(t))
  {
    assert NodeOk(g0, g, g[id]) && NodeShape(g0, g, g[id]) && NodeShape(g0, g, g[t]) && NodeOk(g0, g, g[t]);
    var i :| 0 <= i < |g0[id].dependsOn| && g0[id].dependsOn[i] == t;
    var d := RewriteDeps(g0[id].dependsOn, Expanded(g0, g))[i];
    assert d in g[id].dependsOn && Satisfied(g, d);
  }

  lemma JoinNeedsItems(g0: Graph, g: Graph, t: Id)
    requires InitialGraph(g0) && Inv(g0, g) && t in Expanded(g0, g) && Satisfied(g, JoinId(t))
    ensures g[JoinId(t)].dependsOn == ItemIds(t, |g[JoinId(t)].dependsOn|)
    ensures forall i :: 0 <= i < |g[JoinId(t)].dependsOn| ==> Satisfied(g, ItemId(t, i))
    ensures forall i: nat :: ItemId(t, i) in g ==> i < |g[JoinId(t)].dependsOn|
  {
    var d := JoinId(t);
    JoinKind(g0, g, t);
    NewNamesAreNotBase(t, 0);
    assert NodeShape(g0, g, g[d]) && NodeOk(g0, g, g[d]);
    assert JoinShape(g0, g, g[d]);
    forall k | 0 <= k < |g[d].dependsOn| ensures Satisfied(g, ItemId(t, k)) { assert g[d].dependsOn[k] == ItemId(t, k); }
    forall k: nat | ItemId(t, k) in g ensures k < |g[d].dependsOn| {
      ItemKind(g0, g, t, k);
      NewNamesAreNotBase(t, k);
      assert NodeShape(g0, g, g[ItemId(t, k)]);
    }
  }

  /** A template is expanded at most once: a cycle that goes through expands none of the expanded ones. */
  lemma ExpandedAtMostOnce(durable: bool, g0: Graph, inputs: seq<CycleInput>, input: CycleInput)
    requires InitialGraph(g0)
    requires var outcome := RunCycle(durable, After(durable, g0, inputs), input).outcome;
             !outcome.StoreError? && !outcome.Hung?
    ensures Expandable(After(durable, g0, inputs)) * Expanded(g0, After(durable, g0, inputs)) == {}
    ensures Expanded(g0, RunCycle(durable, After(durable, g0, inputs), input).rows)
         == Expanded(g0, After(durable, g0, inputs)) + Expandable(After(durable, g0, inputs))
  {
    var g := After(durable, g0, inputs);
    RunKeepsInv(durable, g0, inputs);
    InsertFailsIff(g0, g);
    CycleCases(durable, g, input);
    CycleExpands(g0, durable, g, input);
  }

  lemma CycleExpands(g0: Graph, durable: bool, g: Graph, input: CycleInput)
    requires InitialGraph(g0) && Inv(g0, g) && !Stops(g)
    ensures Expanded(g0, RunCycle(durable, g, input).rows) == Expanded(g0, g) + Expandable(g)
  {
    CycleCases(durable, g, input);
    StoredInv(g0, durable, g);
    ReadyIsRunnable(g0, durable, g, input.now);
    BatchKeepsInv(g0, Stored(durable, g), ReadySet(InMemory(g), input.now), input);
  }
}
