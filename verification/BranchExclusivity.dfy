/** Two steps guarded by opposite conditions: exactly one of them runs. */
module BranchExclusivity {
  import opened Wrappers
  import opened Conditions
  import opened Dag
  import opened Engine
  import opened GraphShape
  import opened RunInvariants
  import opened RunVerdict
  import opened RetryBudget

  /** A skipped step was never executed. */
  lemma {:induction false} SkippedIsUntouched(durable: bool, g0: Graph, inputs: seq<CycleInput>, id: Id)
    requires InitialGraph(g0) && id in After(durable, g0, inputs) && After(durable, g0, inputs)[id].status.Skipped?
    ensures After(durable, g0, inputs)[id].attempt == 0
  {
    if inputs == [] {
      assert InitialNode(g0, g0[id]);
    } else {
      var before, last := inputs[..|inputs| - 1], inputs[|inputs| - 1];
      var g := After(durable, g0, before);
      RunKeepsInv(durable, g0, before);
      SkippedInCycle(g0, durable, g, last, id);
      if id in g && g[id].status.Skipped? { SkippedIsUntouched(durable, g0, before, id); }
    }
  }

  /** A cycle skips only steps that were never executed. */
  lemma SkippedInCycle(g0: Graph, durable: bool, g: Graph, input: CycleInput, id: Id)
    requires InitialGraph(g0) && Inv(g0, g)
    requires id in RunCycle(durable, g, input).rows && RunCycle(durable, g, input).rows[id].status.Skipped?
    ensures || RunCycle(durable, g, input).rows[id].attempt == 0
            || (id in g && g[id].status.Skipped? && g[id].attempt == RunCycle(durable, g, input).rows[id].attempt)
  {
    if Stops(g) {
      CycleCases(durable, g, input);
    } else {
      var stored := Stored(durable, g);
      CycleRow(g0, durable, g, input, id);
      StoredInv(g0, durable, g);
      assert NodeOk(g0, stored, stored[id]);
      if stored[id].status.Skipped? {
        StoredSkipped(g0, durable, g, id);
      } else {
        SkipNeedsFailingGate(stored, stored[id], input);
      }
    }
  }

  lemma SkipNeedsFailingGate(g: Graph, n: StepNode, input: CycleInput)
    requires BooksOk(n) && GateOk(g, n) && (n.status.Pending? || n.status.Retrying?)
    requires FinishStep(g, n, input).status.Skipped? && !n.kind.ForEachTemplate?
    ensures n.status.Pending? && FinishStep(g, n, input).attempt == 0
  {
    assert !GatePasses(n, Inputs(g, n));
  }

  lemma StoredSkipped(g0: Graph, durable: bool, g: Graph, id: Id)
    requires InitialGraph(g0) && Inv(g0, g) && !InsertFails(g)
    requires id in Stored(durable, g) && Stored(durable, g)[id].status.Skipped?
    ensures id in g && g[id].status.Skipped? && g[id].attempt == Stored(durable, g)[id].attempt
  {
    if id !in g {
      var t, i := NewIdOrigin(g, Expandable(g), id);
      ExpandNew(g, Expandable(g), t);
    } else {
      assert g[id].id == id;
    }
  }

  /** Both steps test the same value, with these operators. */
  predicate Siblings(a: StepNode, b: StepNode, opA: ConditionOp, opB: ConditionOp) {
    && a.dependsOn == b.dependsOn && !a.kind.ForEachTemplate? && !b.kind.ForEachTemplate?
    && a.condition.Some? && a.condition.value.Deterministic? && a.condition.value.operator == opA
    && b.condition == Some(a.condition.value.(operator := opB))
  }

  /** In a completed run a step was executed exactly when its gate passes on its final inputs. */
  lemma CompletedGate(durable: bool, g0: Graph, inputs: seq<CycleInput>, last: CycleInput, id: Id)
    requires InitialGraph(g0) && RunCycle(durable, After(durable, g0, inputs), last).outcome.Complete?
    requires id in After(durable, g0, inputs) && !After(durable, g0, inputs)[id].kind.ForEachTemplate?
    ensures var g := After(durable, g0, inputs);
            && (Executions(durable, g0, inputs, id) > 0 <==> GatePasses(g[id], Inputs(g, g[id])))
            && (g[id].status.Skipped? <==> !GatePasses(g[id], Inputs(g, g[id])))
  {
    var g := After(durable, g0, inputs);
    CompleteIff(durable, g0, inputs, last);
    RunKeepsInv(durable, g0, inputs);
    ExecutionsCounted(durable, g0, inputs, id);
    assert NodeOk(g0, g, g[id]);
    if g[id].status.Skipped? { SkippedIsUntouched(durable, g0, inputs, id); }
  }

  /**
   Of two siblings with dual operators exactly one is executed and exactly one skipped in any
   completed run; ordered duals both run when an operand is not a number.
   */
  lemma BranchesExclude(durable: bool, g0: Graph, inputs: seq<CycleInput>, last: CycleInput,
                        a: Id, b: Id, opA: ConditionOp, opB: ConditionOp)
    requires InitialGraph(g0) && RunCycle(durable, After(durable, g0, inputs), last).outcome.Complete?
    requires a in After(durable, g0, inputs) && b in After(durable, g0, inputs)
    requires Siblings(After(durable, g0, inputs)[a], After(durable, g0, inputs)[b], opA, opB)
    ensures var g := After(durable, g0, inputs);
            var tested := ResolvePath(g[a].condition.value.left, Inputs(g, g[a]));
            var ranA, ranB := Executions(durable, g0, inputs, a) > 0, Executions(durable, g0, inputs, b) > 0;
            && (Dual(opA, opB) ==> ranA != ranB && g[a].status.Skipped? != g[b].status.Skipped?)
            && (OrderedDual(opA, opB) ==> (ranA != ranB <==> BothNumeric(tested, g[a].condition.value.right)))
            && (OrderedDual(opA, opB) && !BothNumeric(tested, g[a].condition.value.right) ==> ranA && ranB)
  {
    var g := After(durable, g0, inputs);
    CompletedGate(durable, g0, inputs, last, a);
    CompletedGate(durable, g0, inputs, last, b);
    var condition := g[a].condition.value;
    assert Inputs(g, g[a]) == Inputs(g, g[b]);
    DualsExclude(opA, opB, ResolvePath(condition.left, Inputs(g, g[a])), condition.right);
  }
}
