/**
 What an execution leaves behind: the stored output of a success, field by field, from the cycle that
 recorded it on, and what the steps that depend on it read of it.
 */
module StoredOutputs {
  import opened Wrappers
  import opened Text
  import opened JsonValues
  import opened Conditions
  import opened Paths
  import opened ConditionLaws
  import opened Dag
  import opened Engine
  import opened GraphShape
  import opened RunInvariants
  import opened RunSafety
  import opened RetryBudget
  import opened BranchExclusivity

  // ── The output of a success ──────────────────────────────────────────

  /** A tool result as it is stored: success, output and error, and nothing else. */
  predicate IsStored(v: Json, r: ToolResult) {
    && v.Object? && v.fields.Keys == {"success", "output", "error"}
    && v.fields["success"] == Bool(r.success)
    && v.fields["output"] == r.output
    && v.fields["error"] == match r.error case Some(text) => Str(text) case None => Null
  }

  /** The output of a step as it is stored. */
  predicate IsOutputOf(v: Json, r: StepResult) {
    && v.Object?
    && Field(v, "output") == Some(Str(r.output))
    && Field(v, "final_answer_candidate") == Some(match r.answer case Some(text) => Str(text) case None => Null)
    && (if r.toolResults == [] then v.fields.Keys == {"output", "final_answer_candidate"}
        else
          && v.fields.Keys == {"output", "final_answer_candidate", "tool_results"}
          && v.fields["tool_results"].Array? && |v.fields["tool_results"].items| == |r.toolResults|
          && forall k :: 0 <= k < |r.toolResults| ==> IsStored(v.fields["tool_results"].items[k], r.toolResults[k]))
  }

  lemma OutputIsStored(r: StepResult)
    ensures IsOutputOf(OutputValue(r), r)
  {
    forall k | 0 <= k < |r.toolResults| ensures IsStored(ToolResultValues(r.toolResults)[k], r.toolResults[k]) {}
  }

  // ── The row of an execution ──────────────────────────────────────────

  /** The row a cycle leaves of a step that it executed. */
  lemma ExecutedRow(g0: Graph, durable: bool, g: Graph, input: CycleInput, id: Id)
    requires InitialGraph(g0) && Inv(g0, g) && ExecutedIn(durable, g, input, id)
    ensures id in RunCycle(durable, g, input).rows
    ensures var n, v := RunCycle(durable, g, input).rows[id], input.VerdictOf(id);
            && (v.Success? ==> n.status == Succeeded && n.output == Some(OutputValue(v.result)))
            && (v.NeedsInput? ==> n.status == AwaitingInput && n.output == None)
            && (v.Delegated? ==> n.status == AwaitingChildren && n.output == None)
            && (v.Lost? ==> n.status == Running && n.output == None)
  {
    var stored := Stored(durable, g);
    CycleCases(durable, g, input);
    StoredInv(g0, durable, g);
    ReadyIsRunnable(g0, durable, g, input.now);
    assert Runnable(stored, id) && NodeOk(g0, stored, stored[id]) && stored[id].id == id;
    ExecutedStep(stored, stored[id], input);
  }

  lemma ExecutedStep(g: Graph, n: StepNode, input: CycleInput)
    requires n.output == None && GatePasses(n, Inputs(g, n))
    ensures var n', v := FinishStep(g, n, input), input.VerdictOf(n.id);
            && (v.Success? ==> n'.status == Succeeded && n'.output == Some(OutputValue(v.result)))
            && (v.NeedsInput? ==> n'.status == AwaitingInput && n'.output == None)
            && (v.Delegated? ==> n'.status == AwaitingChildren && n'.output == None)
            && (v.Lost? ==> n'.status == Running && n'.output == None)
  {
  }

  /** In every run, a success is stored as the step's output, field by field, and stays so however the run goes on. */
  lemma SuccessIsStored(durable: bool, g0: Graph, inputs: seq<CycleInput>, input: CycleInput, more: seq<CycleInput>,
                        id: Id, result: StepResult)
    requires InitialGraph(g0) && ExecutedIn(durable, After(durable, g0, inputs), input, id)
    requires input.VerdictOf(id) == Success(result)
    ensures id in After(durable, g0, inputs + [input] + more)
    ensures var n := After(durable, g0, inputs + [input] + more)[id];
            n.status == Succeeded && n.output.Some? && IsOutputOf(n.output.value, result)
  {
    RunKeepsInv(durable, g0, inputs);
    ExecutedRow(g0, durable, After(durable, g0, inputs), input, id);
    AfterLast(durable, g0, inputs + [input], inputs, input);
    OutputIsStored(result);
    GateStability(durable, g0, inputs + [input], more, id);
  }

  // ── Steps that are waited for ────────────────────────────────────────

  predicate Waiting(s: StepStatus) { s.Running? || s.AwaitingInput? || s.AwaitingChildren? }

  lemma CycleKeepsWaiting(g0: Graph, durable: bool, g: Graph, input: CycleInput, id: Id)
    requires InitialGraph(g0) && Inv(g0, g) && id in g && Waiting(g[id].status)
    ensures id in RunCycle(durable, g, input).rows && RunCycle(durable, g, input).rows[id] == g[id]
  {
    CycleCases(durable, g, input);
    if !Stops(g) {
      StoredKeepsStarted(g0, durable, g, id);
      ExpandLeavesStarted(g0, g, id);
      assert id !in ReadySet(InMemory(g), input.now);
    }
  }

  lemma {:induction false} WaitingStays(durable: bool, g0: Graph, inputs: seq<CycleInput>, more: seq<CycleInput>, id: Id)
    requires InitialGraph(g0) && id in After(durable, g0, inputs) && Waiting(After(durable, g0, inputs)[id].status)
    ensures id in After(durable, g0, inputs + more) && After(durable, g0, inputs + more)[id] == After(durable, g0, inputs)[id]
    decreases |more|
  {
    if more == [] {
      assert inputs + more == inputs;
    } else {
      var rest := more[..|more| - 1];
      WaitingStays(durable, g0, inputs, rest, id);
      RunKeepsInv(durable, g0, inputs + rest);
      AfterOneMore(durable, g0, inputs, more);
      CycleKeepsWaiting(g0, durable, After(durable, g0, inputs + rest), more[|more| - 1], id);
    }
  }

  /** A step that needs input, delegates or is lost is recorded as such, and the engine never touches it again. */
  lemma WaitingIsForever(durable: bool, g0: Graph, inputs: seq<CycleInput>, input: CycleInput, more: seq<CycleInput>, id: Id)
    requires InitialGraph(g0) && ExecutedIn(durable, After(durable, g0, inputs), input, id)
    ensures var v := input.VerdictOf(id);
            v.NeedsInput? || v.Delegated? || v.Lost? ==>
              && id in After(durable, g0, inputs + [input] + more)
              && var n := After(durable, g0, inputs + [input] + more)[id];
                 && (v.NeedsInput? ==> n.status == AwaitingInput) && (v.Delegated? ==> n.status == AwaitingChildren)
                 && (v.Lost? ==> n.status == Running) && n.output == None
  {
    RunKeepsInv(durable, g0, inputs);
    ExecutedRow(g0, durable, After(durable, g0, inputs), input, id);
    AfterLast(durable, g0, inputs + [input], inputs, input);
    var v := input.VerdictOf(id);
    if v.NeedsInput? || v.Delegated? || v.Lost? { WaitingStays(durable, g0, inputs + [input], more, id); }
  }

  // ── What dependents read ─────────────────────────────────────────────

  /** The inputs of a step are the stored outputs of its dependencies, by name. */
  lemma InputsAre(g: Graph, n: StepNode, d: Id)
    ensures d in Inputs(g, n) <==> d in n.dependsOn && d in g && g[d].output.Some?
    ensures d in Inputs(g, n) ==> Some(Inputs(g, n)[d]) == g[d].output
  {
  }

  /** A path that names a dependency leads, in every spelling, to where the same walk into its stored output leads. */
  lemma DependentReads(g: Graph, n: StepNode, d: Id, prefix: Prefix, sels: seq<Selector>)
    requires d in n.dependsOn && d in g && g[d].output.Some?
    requires IsName(d) && AllSelectors(sels) && !StartsWith(d, "result_of_step_") && (prefix.Bare? ==> d != "deps" && d != "$")
    ensures ResolvePath(Spell(prefix, d, sels), Inputs(g, n)) == Walk(g[d].output.value, sels)
  {
    InputsAre(g, n, d);
    PathRoundTrip(prefix, d, sels, "", "", Inputs(g, n));
    assert "" + (Spell(prefix, d, sels) + "") == Spell(prefix, d, sels);
  }

  /** So in every run, the path to the `output` of a step that succeeded reads the text the step returned. */
  lemma DependentReadsOutput(durable: bool, g0: Graph, inputs: seq<CycleInput>, input: CycleInput, more: seq<CycleInput>,
                             id: Id, result: StepResult, n: StepNode, prefix: Prefix)
    requires InitialGraph(g0) && ExecutedIn(durable, After(durable, g0, inputs), input, id)
    requires input.VerdictOf(id) == Success(result) && id in n.dependsOn
    requires IsName(id) && !StartsWith(id, "result_of_step_") && (prefix.Bare? ==> id != "deps" && id != "$")
    ensures ResolvePath(Spell(prefix, id, [Key("output")]), Inputs(After(durable, g0, inputs + [input] + more), n))
         == Some(Str(result.output))
  {
    var g := After(durable, g0, inputs + [input] + more);
    SuccessIsStored(durable, g0, inputs, input, more, id, result);
    OutputIsKey();
    DependentReads(g, n, id, prefix, [Key("output")]);
    WalkOne(g[id].output.value, "output");
  }

  lemma OutputIsKey()
    ensures AllSelectors([Key("output")])
  {
    var s := "output";
    assert s[0] == 'o' && s[5] == 't' && '.' !in s && ParseUsize(s).None?;
  }

  lemma WalkOne(v: Json, key: string)
    ensures Walk(v, [Key(key)]) == Field(v, key)
  {
    var sels := [Key(key)];
    assert sels[1..] == [];
    assert Select(v, sels[0]) == Field(v, key);
    if Field(v, key).Some? { assert Walk(Field(v, key).value, sels[1..]) == Field(v, key); }
  }
}
