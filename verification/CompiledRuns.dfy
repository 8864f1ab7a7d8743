/** Runs of compiled workflows: which steps run is decided by the conditions that were compiled. */
module CompiledRuns {
  import opened Wrappers
  import opened JsonValues
  import opened Conditions
  import opened Paths
  import opened ConditionLaws
  import opened Dag
  import opened Engine
  import opened GraphShape
  import opened RunInvariants
  import opened RetryBudget
  import opened BranchExclusivity
  import opened ItemArguments
  import opened StoredOutputs
  import opened Translation

  /** A node of a run still has the tool, arguments and condition of its compiled step. */
  lemma RunCarries(durable: bool, steps: seq<CompiledStep>, inputs: seq<CycleInput>, i: nat)
    requires WellNamed(steps) && i < |steps|
    ensures PlanOk(FromCompiled(steps))
    ensures StepName(i) in After(durable, PlanGraph(FromCompiled(steps)), inputs)
    ensures var n := After(durable, PlanGraph(FromCompiled(steps)), inputs)[StepName(i)];
            && n.tool == steps[i].tool && n.condition == steps[i].condition && n.kind == Normal
            && n.toolArgs.Some? && ArgumentsOf(steps[i], n.toolArgs.value)
  {
    TranslationSound(steps);
    var g0 := PlanGraph(FromCompiled(steps));
    assert Carries(g0, i, steps[i]);
    assert [] + inputs == inputs;
    WorkNeverChanges(durable, g0, [], inputs, StepName(i));
  }

  /**
   In every completed run of a compiled workflow a step is skipped exactly when its compiled condition
   fails on what its dependencies left, and is executed exactly when it does not.
   */
  lemma CompiledConditionDecides(durable: bool, steps: seq<CompiledStep>, inputs: seq<CycleInput>, last: CycleInput, i: nat)
    requires WellNamed(steps) && i < |steps| && PlanOk(FromCompiled(steps))
    requires RunCycle(durable, After(durable, PlanGraph(FromCompiled(steps)), inputs), last).outcome.Complete?
    ensures StepName(i) in After(durable, PlanGraph(FromCompiled(steps)), inputs)
    ensures var g0 := PlanGraph(FromCompiled(steps));
            var g := After(durable, g0, inputs);
            var fails := steps[i].condition.Some? && !EvaluateCondition(steps[i].condition.value, Inputs(g, g[StepName(i)]));
            && (g[StepName(i)].status.Skipped? <==> fails)
            && (Executions(durable, g0, inputs, StepName(i)) > 0 <==> !fails)
  {
    TranslationSound(steps);
    RunCarries(durable, steps, inputs, i);
    CompletedGate(durable, PlanGraph(FromCompiled(steps)), inputs, last, StepName(i));
  }

  lemma StepNameIsName(i: nat)
    ensures IsName(StepName(i)) && !Text.StartsWith(StepName(i), "result_of_step_") && StepName(i) != "deps" && StepName(i) != "$"
  {
    var d := Text.Decimal(i);
    var s := StepName(i);
    assert forall k :: 0 <= k < |d| ==> Text.IsDigit(d[k]);
    assert s[0] == 's' && s[1] == 't' && s[|s| - 1] == d[|d| - 1];
    assert "result_of_step_"[0] == 'r' && "deps"[0] == 'd';
  }

  /** There is a value other than null at this place of an output. */
  predicate LeavesValue(output: Option<Json>, sels: seq<Selector>) {
    output.Some? && Walk(output.value, sels) != None && Walk(output.value, sels) != Some(Null)
  }

  /**
   At work: a compiled step that asks for a value in the output of a step it depends on runs exactly when
   that step left one there.
   */
  lemma ExistsGateAtWork(durable: bool, steps: seq<CompiledStep>, inputs: seq<CycleInput>, last: CycleInput,
                         i: nat, j: nat, prefix: Prefix, sels: seq<Selector>)
    requires WellNamed(steps) && i < |steps| && j < |steps| && PlanOk(FromCompiled(steps)) && AllSelectors(sels)
    requires RunCycle(durable, After(durable, PlanGraph(FromCompiled(steps)), inputs), last).outcome.Complete?
    requires steps[i].condition == Some(Deterministic(Spell(prefix, StepName(j), sels), Exists, None))
    requires StepName(i) in After(durable, PlanGraph(FromCompiled(steps)), inputs)
    requires StepName(j) in After(durable, PlanGraph(FromCompiled(steps)), inputs)[StepName(i)].dependsOn
    ensures StepName(j) in After(durable, PlanGraph(FromCompiled(steps)), inputs)
    ensures Executions(durable, PlanGraph(FromCompiled(steps)), inputs, StepName(i)) > 0
       <==> LeavesValue(After(durable, PlanGraph(FromCompiled(steps)), inputs)[StepName(j)].output, sels)
  {
    var g0 := PlanGraph(FromCompiled(steps));
    var g := After(durable, g0, inputs);
    CompiledConditionDecides(durable, steps, inputs, last, i);
    RunCarries(durable, steps, inputs, j);
    StepNameIsName(j);
    var input := Inputs(g, g[StepName(i)]);
    InputsAre(g, g[StepName(i)], StepName(j));
    StructuredGate(prefix, StepName(j), sels, "", "", Exists, None, input);
    assert "" + (Spell(prefix, StepName(j), sels) + "") == Spell(prefix, StepName(j), sels);
    ExistenceMeans(Named(input, StepName(j), sels), None);
  }
}
