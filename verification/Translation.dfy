/** From a compiled workflow to a plan, and from a plan to the execution DAG. */
module Translation {
  import opened Wrappers
  import opened Text
  import opened JsonValues
  import opened Conditions
  import opened Dag
  import opened Engine
  import opened GraphShape
  import opened RunSafety
  import opened RunInvariants

  /** What a compiled step says about a call of the model, its defaults filled in. */
  datatype LlmSettings = LlmSettings(
    role: Json, executionIntent: Json, budgetTier: Json, temperature: Json, maxTokens: Json, costBudget: Json, outputSchema: Json)

  datatype CompiledStep = CompiledStep(
    id: string, tool: Option<string>, args: Json, llm: LlmSettings, condition: Option<StepCondition>, dependsOn: seq<string>)

  datatype PlannedStep = PlannedStep(
    index: nat, tool: Option<string>, toolArgs: Option<Json>, condition: Option<StepCondition>,
    foreach: Option<string>, dependsOn: seq<nat>)

  // ── Compiled workflow to plan ────────────────────────────────────────

  /** `step_N` names the step at position N - 1; other names are dropped. */
  function StepReference(dep: string): Option<nat> {
    var rest := StripPrefix(dep, "step_");
    if rest.None? then None
    else
      var n := ParseUsize(rest.value);
      if n.None? then None else Some(if n.value == 0 then 0 else n.value - 1)
  }

  function References(deps: seq<string>): seq<nat> {
    if deps == [] then []
    else
      var first := StepReference(deps[0]);
      (if first.Some? then [first.value] else []) + References(deps[1..])
  }

  const LLM_WORKER_TOOL := "llm_worker"

  function LlmArguments(llm: LlmSettings): map<string, Json> {
    map[
      "llm_role" := llm.role,
      "execution_intent" := llm.executionIntent,
      "budget_tier" := llm.budgetTier,
      "temperature" := llm.temperature,
      "max_tokens" := llm.maxTokens,
      "cost_budget_usd" := llm.costBudget,
      "response_format" := Str("json"),
      "output_schema" := llm.outputSchema]
  }

  /** The arguments of a call of the model are the compiled ones with the settings written over them. */
  function PlannedArgs(step: CompiledStep): Json {
    if step.tool == Some(LLM_WORKER_TOOL) && step.args.Object?
    then Object(step.args.fields + LlmArguments(step.llm)) else step.args
  }

  function PlanStep(index: nat, step: CompiledStep): PlannedStep {
    PlannedStep(index, step.tool, Some(PlannedArgs(step)), step.condition, None, References(step.dependsOn))
  }

  function FromCompiled(steps: seq<CompiledStep>): (plan: seq<PlannedStep>) {
    seq(|steps|, i requires 0 <= i < |steps| => PlanStep(i, steps[i]))
  }

  // ── Plan to DAG ──────────────────────────────────────────────────────

  function StepName(index: nat): Id { "step-" + Decimal(index) }

  function StepNames(indices: seq<nat>): seq<Id> {
    seq(|indices|, i requires 0 <= i < |indices| => StepName(indices[i]))
  }

  /** A step without listed dependencies waits for its predecessor. */
  function DagDeps(step: PlannedStep): seq<Id> {
    if step.dependsOn != [] then StepNames(step.dependsOn)
    else if step.index > 0 then [StepName(step.index - 1)]
    else []
  }

  function FromStep(step: PlannedStep): StepNode {
    StepNode(StepName(step.index), step.index, step.tool,
             step.toolArgs, step.condition, step.foreach,
             if step.foreach.Some? then ForEachTemplate else Normal,
             DagDeps(step), Pending, 0, DEFAULT_POLICY, None)
  }

  function FromPlan(plan: seq<PlannedStep>): (nodes: seq<StepNode>) {
    seq(|plan|, i requires 0 <= i < |plan| => FromStep(plan[i]))
  }

  // ── Names ────────────────────────────────────────────────────────────

  lemma StepNameInjective(i: nat, j: nat)
    requires StepName(i) == StepName(j)
    ensures i == j
  {
    assert StepName(i)[5..] == Decimal(i) && StepName(j)[5..] == Decimal(j);
    DecimalInjective(i, j);
  }

  lemma StepNameIsBase(i: nat)
    ensures BaseName(StepName(i))
  {
    assert forall k :: 0 <= k < |Decimal(i)| ==> IsDigit(Decimal(i)[k]);
    assert StepName(i)[0] == 's' && UNKNOWN[0] == 'u';
  }

  lemma ReferenceOfName(j: nat)
    requires j + 1 <= USIZE_MAX
    ensures StepReference("step_" + Decimal(j + 1)) == Some(j)
  {
    var name := "step_" + Decimal(j + 1);
    assert name[..5] == "step_" && name[5..] == Decimal(j + 1);
    ParseDecimal(j + 1);
  }

  // ── Well-formed plans give sound graphs ──────────────────────────────

  /** Steps are numbered by position and depend on earlier ones. */
  predicate PlanOk(plan: seq<PlannedStep>) {
    forall i :: 0 <= i < |plan| ==>
      plan[i].index == i && forall k :: 0 <= k < |plan[i].dependsOn| ==> plan[i].dependsOn[k] < i
  }

  lemma PlanIdsUnique(plan: seq<PlannedStep>)
    requires PlanOk(plan)
    ensures UniqueIds(FromPlan(plan))
  {
    forall i, j | 0 <= i < j < |plan| ensures FromPlan(plan)[i].id != FromPlan(plan)[j].id {
      if StepName(i) == StepName(j) { StepNameInjective(i, j); }
    }
  }

  ghost function PlanGraph(plan: seq<PlannedStep>): Graph
    requires PlanOk(plan)
  {
    PlanIdsUnique(plan);
    GraphOf(FromPlan(plan))
  }

  /** A step's position, as the rank of its node. */
  ghost function PlanRank(plan: seq<PlannedStep>): map<Id, nat>
    requires PlanOk(plan)
  {
    map id | id in PlanGraph(plan) :: PlanGraph(plan)[id].index
  }

  lemma PlanRow(plan: seq<PlannedStep>, i: nat)
    requires PlanOk(plan) && i < |plan|
    ensures StepName(i) in PlanGraph(plan) && PlanGraph(plan)[StepName(i)] == FromStep(plan[i])
  {
    PlanIdsUnique(plan);
    assert FromPlan(plan)[i] in FromPlan(plan);
    GraphOfRow(FromPlan(plan), i);
  }

  lemma PlanId(plan: seq<PlannedStep>, id: Id) returns (i: nat)
    requires PlanOk(plan) && id in PlanGraph(plan)
    ensures i < |plan| && id == StepName(i)
  {
    PlanIdsUnique(plan);
    var n :| n in FromPlan(plan) && n.id == id;
    i :| 0 <= i < |plan| && FromPlan(plan)[i] == n;
  }

  /** The graph of a well-formed plan is closed, acyclic and uniquely named, so every engine result applies to it. */
  lemma PlanGraphSound(plan: seq<PlannedStep>)
    requires PlanOk(plan)
    ensures UniqueIds(FromPlan(plan))
    ensures InitialGraph(PlanGraph(plan)) && Ranked(PlanGraph(plan), PlanRank(plan))
    ensures PlanGraph(plan).Keys == set i | 0 <= i < |plan| :: StepName(i)
  {
    var g := PlanGraph(plan);
    PlanIdsUnique(plan);
    forall id | id in g ensures PlanNodeOk(g, id) {
      var i := PlanId(plan, id);
      PlanNodeSound(plan, i);
    }
    PlanNodesSound(g, PlanRank(plan));
    PlanKeys(plan);
  }

  ghost predicate PlanNodeOk(g: Graph, id: Id)
    requires id in g
  {
    && g[id].id == id && InitialNode(g, g[id])
    && forall d :: d in g[id].dependsOn ==> d in g && g[d].index < g[id].index
  }

  lemma PlanNodesSound(g: Graph, rho: map<Id, nat>)
    requires forall id :: id in g ==> PlanNodeOk(g, id)
    requires rho.Keys == g.Keys && forall id :: id in g ==> rho[id] == g[id].index
    ensures InitialGraph(g) && Ranked(g, rho)
  {
  }

  lemma PlanKeys(plan: seq<PlannedStep>)
    requires PlanOk(plan)
    ensures PlanGraph(plan).Keys == set i | 0 <= i < |plan| :: StepName(i)
  {
    forall i | 0 <= i < |plan| ensures StepName(i) in PlanGraph(plan) { PlanRow(plan, i); }
    forall id | id in PlanGraph(plan) ensures id in set i | 0 <= i < |plan| :: StepName(i) { var i := PlanId(plan, id); }
  }

  lemma PlanNodeSound(plan: seq<PlannedStep>, i: nat)
    requires PlanOk(plan) && i < |plan|
    ensures StepName(i) in PlanGraph(plan)
    ensures PlanNodeOk(PlanGraph(plan), StepName(i))
  {
    var g := PlanGraph(plan);
    PlanRow(plan, i);
    StepNameIsBase(i);
    forall d | d in g[StepName(i)].dependsOn ensures d in g && g[d].index < i {
      var j := DagDepIndex(plan[i], d);
      PlanRow(plan, j);
    }
  }

  lemma DagDepIndex(step: PlannedStep, d: Id) returns (j: nat)
    requires d in DagDeps(step) && forall k :: 0 <= k < |step.dependsOn| ==> step.dependsOn[k] < step.index
    ensures d == StepName(j) && j < step.index
    ensures step.dependsOn == [] ==> j == step.index - 1
    ensures step.dependsOn != [] ==> j in step.dependsOn
  {
    if step.dependsOn != [] {
      var k :| 0 <= k < |step.dependsOn| && StepNames(step.dependsOn)[k] == d;
      j := step.dependsOn[k];
    } else {
      j := step.index - 1;
    }
  }

  // ── The compiled workflow ────────────────────────────────────────────

  /** Compiled steps are named `step_1 .. step_n` by position and depend on earlier ones. */
  ghost predicate WellNamed(steps: seq<CompiledStep>) {
    && |steps| <= USIZE_MAX
    && forall i :: 0 <= i < |steps| ==>
         && steps[i].id == "step_" + Decimal(i + 1)
         && forall k :: 0 <= k < |steps[i].dependsOn| ==> NamesEarlier(steps, i, steps[i].dependsOn[k])
  }

  ghost predicate NamesEarlier(steps: seq<CompiledStep>, i: nat, dep: string)
    requires i <= |steps|
  {
    exists j :: 0 <= j < i && dep == steps[j].id
  }

  lemma {:induction false} ReferencesOf(steps: seq<CompiledStep>, i: nat, deps: seq<string>)
    requires WellNamed(steps) && i < |steps|
    requires forall k :: 0 <= k < |deps| ==> NamesEarlier(steps, i, deps[k])
    ensures |References(deps)| == |deps|
    ensures forall k :: 0 <= k < |deps| ==> References(deps)[k] < i && deps[k] == steps[References(deps)[k]].id
  {
    if deps == [] {
    } else {
      assert NamesEarlier(steps, i, deps[0]);
      var j :| 0 <= j < i && deps[0] == steps[j].id;
      ReferenceOfName(j);
      ReferencesOf(steps, i, deps[1..]);
      var rest := References(deps[1..]);
      assert References(deps) == [j] + rest;
      forall k | 1 <= k < |deps| ensures References(deps)[k] < i && deps[k] == steps[References(deps)[k]].id {
        assert References(deps)[k] == rest[k - 1] && deps[k] == deps[1..][k - 1];
      }
    }
  }

  lemma CompiledPlanOk(steps: seq<CompiledStep>)
    requires WellNamed(steps)
    ensures PlanOk(FromCompiled(steps))
  {
    var plan := FromCompiled(steps);
    forall i | 0 <= i < |steps|
      ensures plan[i].index == i && forall k :: 0 <= k < |plan[i].dependsOn| ==> plan[i].dependsOn[k] < i
    {
      ReferencesOf(steps, i, steps[i].dependsOn);
    }
  }

  lemma CompiledEdgesOf(steps: seq<CompiledStep>, i: nat)
    requires WellNamed(steps) && PlanOk(FromCompiled(steps)) && i < |steps|
    ensures CompiledEdges(steps, PlanGraph(FromCompiled(steps)), i)
  {
    PlanRow(FromCompiled(steps), i);
    ReferencesOf(steps, i, steps[i].dependsOn);
    EdgesOfReferences(steps, i, References(steps[i].dependsOn));
    assert PlanGraph(FromCompiled(steps))[StepName(i)] == FromStep(PlanStep(i, steps[i]));
  }

  lemma EdgesOfReferences(steps: seq<CompiledStep>, i: nat, refs: seq<nat>)
    requires i < |steps| && |refs| == |steps[i].dependsOn|
    requires forall k :: 0 <= k < |refs| ==> refs[k] < i && steps[i].dependsOn[k] == steps[refs[k]].id
    ensures forall k :: 0 <= k < |refs| ==> SameEarlierStep(steps, i, StepNames(refs)[k], steps[i].dependsOn[k])
  {
    forall k | 0 <= k < |refs| ensures SameEarlierStep(steps, i, StepNames(refs)[k], steps[i].dependsOn[k]) {
      assert StepNames(refs)[k] == StepName(refs[k]);
    }
  }

  /** What the arguments of a node are: those compiled, and for a call of the model its settings besides. */
  predicate ArgumentsOf(step: CompiledStep, args: Json) {
    if step.tool != Some("llm_worker") || !step.args.Object? then args == step.args
    else
      && args.Object?
      && args.fields.Keys == step.args.fields.Keys + LLM_KEYS
      && Field(args, "llm_role") == Some(step.llm.role)
      && Field(args, "execution_intent") == Some(step.llm.executionIntent)
      && Field(args, "budget_tier") == Some(step.llm.budgetTier)
      && Field(args, "temperature") == Some(step.llm.temperature)
      && Field(args, "max_tokens") == Some(step.llm.maxTokens)
      && Field(args, "cost_budget_usd") == Some(step.llm.costBudget)
      && Field(args, "response_format") == Some(Str("json"))
      && Field(args, "output_schema") == Some(step.llm.outputSchema)
      && forall key :: key in step.args.fields && key !in LLM_KEYS ==> Field(args, key) == Some(step.args.fields[key])
  }

  const LLM_KEYS := {
    "llm_role", "execution_intent", "budget_tier", "temperature", "max_tokens", "cost_budget_usd", "response_format", "output_schema"}

  lemma PlannedArgsAre(step: CompiledStep)
    ensures ArgumentsOf(step, PlannedArgs(step))
  {
  }

  /** A node is the step it was made from: its tool, arguments and condition, not yet started. */
  ghost predicate Carries(g: Graph, i: nat, step: CompiledStep) {
    && StepName(i) in g
    && var n := g[StepName(i)];
       && n.index == i && n.tool == step.tool && n.condition == step.condition && n.foreach == None
       && n.toolArgs.Some? && ArgumentsOf(step, n.toolArgs.value)
       && n.kind == Normal && n.status == Pending && n.attempt == 0 && n.output == None
  }

  lemma NodeCarries(steps: seq<CompiledStep>, i: nat)
    requires WellNamed(steps) && PlanOk(FromCompiled(steps)) && i < |steps|
    ensures Carries(PlanGraph(FromCompiled(steps)), i, steps[i])
  {
    PlanRow(FromCompiled(steps), i);
    PlannedArgsAre(steps[i]);
  }

  /** A node of a plan carries its step, and is a template exactly when the step has a foreach. */
  lemma PlanNodeCarries(plan: seq<PlannedStep>, i: nat)
    requires PlanOk(plan) && i < |plan|
    ensures StepName(i) in PlanGraph(plan)
    ensures var n := PlanGraph(plan)[StepName(i)];
            && n.id == "step-" + Decimal(i) && n.index == i && n.tool == plan[i].tool && n.toolArgs == plan[i].toolArgs
            && n.condition == plan[i].condition && n.foreach == plan[i].foreach && n.retryPolicy == RetryPolicy(1, 2, [])
            && (n.kind == ForEachTemplate <==> plan[i].foreach.Some?) && (n.kind == Normal <==> plan[i].foreach.None?)
            && |n.dependsOn| == (if plan[i].dependsOn != [] then |plan[i].dependsOn| else if i > 0 then 1 else 0)
            && (forall k :: 0 <= k < |plan[i].dependsOn| ==> n.dependsOn[k] == "step-" + Decimal(plan[i].dependsOn[k]))
            && (plan[i].dependsOn == [] && i > 0 ==> n.dependsOn[0] == "step-" + Decimal(i - 1))
  {
    PlanRow(plan, i);
  }

  /** A dependency is read exactly from `step_` and a number, counted from one; `step_0` is taken for `step_1`. */
  lemma ReferenceIff(dep: string, k: nat)
    ensures StepReference(dep) == Some(k) <==>
              exists n :: StartsWith(dep, "step_") && ParseUsize(dep[5..]) == Some(n) && k == (if n == 0 then 0 else n - 1)
  {
  }

  /**
   The DAG of a compiled workflow is sound, has one node per compiled step, which carries that step, and
   has exactly the compiled edges, plus an edge to the predecessor for a step that lists none.
   */
  lemma TranslationSound(steps: seq<CompiledStep>)
    requires WellNamed(steps)
    ensures PlanOk(FromCompiled(steps))
    ensures InitialGraph(PlanGraph(FromCompiled(steps)))
    ensures Ranked(PlanGraph(FromCompiled(steps)), PlanRank(FromCompiled(steps)))
    ensures PlanGraph(FromCompiled(steps)).Keys == set i | 0 <= i < |steps| :: StepName(i)
    ensures forall i :: 0 <= i < |steps| ==> CompiledEdges(steps, PlanGraph(FromCompiled(steps)), i)
    ensures forall i :: 0 <= i < |steps| ==> Carries(PlanGraph(FromCompiled(steps)), i, steps[i])
  {
    CompiledPlanOk(steps);
    PlanGraphSound(FromCompiled(steps));
    forall i | 0 <= i < |steps| ensures Carries(PlanGraph(FromCompiled(steps)), i, steps[i]) { NodeCarries(steps, i); }
    forall i | 0 <= i < |steps| ensures CompiledEdges(steps, PlanGraph(FromCompiled(steps)), i) {
      CompiledEdgesOf(steps, i);
    }
  }

  /** The dependencies of node `i`: the compiled ones in order, or the predecessor if there are none. */
  ghost predicate CompiledEdges(steps: seq<CompiledStep>, g: Graph, i: nat)
    requires i < |steps|
  {
    && StepName(i) in g && g[StepName(i)].kind.Normal?
    && var deps := g[StepName(i)].dependsOn;
       if steps[i].dependsOn == [] then deps == if i > 0 then [StepName(i - 1)] else []
       else
         && |deps| == |steps[i].dependsOn|
         && forall k :: 0 <= k < |deps| ==> SameEarlierStep(steps, i, deps[k], steps[i].dependsOn[k])
  }

  /** A node and a compiled name stand for the same step before `i`. */
  ghost predicate SameEarlierStep(steps: seq<CompiledStep>, i: nat, node: Id, name: string)
    requires i <= |steps|
  {
    exists j :: 0 <= j < i && node == StepName(j) && name == steps[j].id
  }

  // ── Sequential plans ─────────────────────────────────────────────────

  predicate NoListedDeps(steps: seq<CompiledStep>) {
    forall i :: 0 <= i < |steps| ==> steps[i].dependsOn == []
  }

  lemma NoTemplatesNoRewriting(g0: Graph, g: Graph, id: Id)
    requires Shape(g0, g) && id in g0
    requires forall t :: t in g0 ==> g0[t].kind.Normal?
    ensures g[id].dependsOn == g0[id].dependsOn
  {
    assert NodeShape(g0, g, g[id]);
    assert Expanded(g0, g) == {};
    assert RewriteDeps(g0[id].dependsOn, {}) == g0[id].dependsOn;
  }

  /** In a sequential plan each step waits for the one before it, in every reachable state. */
  lemma WaitsForPrevious(durable: bool, steps: seq<CompiledStep>, inputs: seq<CycleInput>, j: nat)
    requires WellNamed(steps) && NoListedDeps(steps) && 0 < j < |steps| && PlanOk(FromCompiled(steps))
    ensures var g := After(durable, PlanGraph(FromCompiled(steps)), inputs);
            StepName(j) in g && StepName(j - 1) in g[StepName(j)].dependsOn
  {
    var plan := FromCompiled(steps);
    var g0 := PlanGraph(plan);
    TranslationSound(steps);
    RunKeepsInv(durable, g0, inputs);
    assert CompiledEdges(steps, g0, j);
    forall t | t in g0 ensures g0[t].kind.Normal? {
      var k := PlanId(plan, t);
      assert CompiledEdges(steps, g0, k);
    }
    NoTemplatesNoRewriting(g0, After(durable, g0, inputs), StepName(j));
  }

  /** Once a step of a sequential plan left Pending, all earlier ones are done. */
  lemma {:induction false} EarlierDone(durable: bool, steps: seq<CompiledStep>, inputs: seq<CycleInput>, i: nat, j: nat)
    requires WellNamed(steps) && NoListedDeps(steps) && i < j < |steps|
    requires PlanOk(FromCompiled(steps)) && InitialGraph(PlanGraph(FromCompiled(steps)))
    requires StepName(j) in After(durable, PlanGraph(FromCompiled(steps)), inputs)
    requires !After(durable, PlanGraph(FromCompiled(steps)), inputs)[StepName(j)].status.Pending?
    ensures Satisfied(After(durable, PlanGraph(FromCompiled(steps)), inputs), StepName(i))
    decreases j
  {
    WaitsForPrevious(durable, steps, inputs, j);
    DependencySafety(durable, PlanGraph(FromCompiled(steps)), inputs, StepName(j));
    if i == j - 1 {
    } else {
      EarlierDone(durable, steps, inputs, i, j - 1);
    }
  }

  /** A finished prefix of length `k`, one step in any state, then only Pending steps. */
  ghost predicate PrefixState(g: Graph, n: nat, k: nat) {
    && k <= n
    && (forall i :: 0 <= i < k ==> Satisfied(g, StepName(i)))
    && (forall i :: k < i < n ==> StepName(i) in g && g[StepName(i)].status.Pending?)
  }

  /** The last step that left Pending, if there is one, ends the prefix. */
  lemma {:induction false} LastStarted(g: Graph, n: nat, m: nat) returns (k: nat)
    requires m <= n && forall i :: 0 <= i < n ==> StepName(i) in g
    requires forall i :: m <= i < n ==> g[StepName(i)].status.Pending?
    ensures k <= n && forall i :: k < i < n ==> g[StepName(i)].status.Pending?
    ensures k == 0 || (k < n && !g[StepName(k)].status.Pending?)
  {
    if m == 0 {
      k := 0;
    } else if g[StepName(m - 1)].status.Pending? {
      k := LastStarted(g, n, m - 1);
    } else {
      k := m - 1;
    }
  }

  /** Every reachable state of a sequential plan is a finished prefix, at most one other step, and the rest Pending. */
  lemma SequentialRuns(durable: bool, steps: seq<CompiledStep>, inputs: seq<CycleInput>)
    requires WellNamed(steps) && NoListedDeps(steps)
    ensures PlanOk(FromCompiled(steps))
    ensures exists k :: PrefixState(After(durable, PlanGraph(FromCompiled(steps)), inputs), |steps|, k)
  {
    TranslationSound(steps);
    var g0 := PlanGraph(FromCompiled(steps));
    var g := After(durable, g0, inputs);
    RunKeepsInv(durable, g0, inputs);
    forall i | 0 <= i < |steps| ensures StepName(i) in g { assert StepName(i) in g0.Keys; }
    var k := LastStarted(g, |steps|, |steps|);
    forall i | 0 <= i < k ensures Satisfied(g, StepName(i)) { EarlierDone(durable, steps, inputs, i, k); }
    assert PrefixState(g, |steps|, k);
  }
}
