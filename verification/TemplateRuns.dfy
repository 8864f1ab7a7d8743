/** Concrete runs with a template: one that fails on its second expansion, and one that hangs on its first. */
module TemplateRuns {
  import opened Wrappers
  import opened Text
  import opened JsonValues
  import opened Conditions
  import opened Dag
  import opened Engine
  import opened GraphShape
  import opened RunInvariants
  import opened RunVerdict
  import opened StoreFidelity
  import opened Translation
  import opened ForeachSources
  import opened JsonText
  import opened Placeholders
  import opened ItemTemplates
  import opened ItemArguments

  // ── A second expansion ───────────────────────────────────────────────

  /** A single template without arguments. */
  const LONE_TEMPLATE := PlannedStep(0, None, None, None, Some("deps.x"), [])

  lemma LoneTemplateGraph()
    ensures PlanOk([LONE_TEMPLATE]) && InitialGraph(PlanGraph([LONE_TEMPLATE]))
    ensures PlanGraph([LONE_TEMPLATE]) == map[StepName(0) := FromStep(LONE_TEMPLATE)]
  {
    assert PlanOk([LONE_TEMPLATE]);
    PlanRow([LONE_TEMPLATE], 0);
    PlanGraphSound([LONE_TEMPLATE]);
  }

  /** Templates without arguments have nothing to render. */
  lemma NothingToRender(g0: Graph, g: Graph)
    requires InitialGraph(g0) && Inv(g0, g)
    requires forall t :: IsTemplate(g0, t) ==> g0[t].toolArgs.None?
    ensures !Hangs(g)
  {
    forall t | t in Expandable(g) ensures RendersAll(g, g[t]) {
      TemplatesAreOriginal(g0, g, t);
      assert NodeShape(g0, g, g[t]);
    }
  }

  /** With the Postgres store the first cycle expands the template and goes on, and the second fails. */
  lemma SecondExpansionFails(input: CycleInput, next: CycleInput)
    ensures PlanOk([LONE_TEMPLATE])
    ensures RunCycle(false, PlanGraph([LONE_TEMPLATE]), input).outcome == Continue
    ensures RunCycle(false, After(false, PlanGraph([LONE_TEMPLATE]), [input]), next).outcome == StoreError
  {
    LoneTemplateGraph();
    var g0, t := PlanGraph([LONE_TEMPLATE]), StepName(0);
    assert t in Expandable(g0);
    InitialInv(g0);
    InitialShape(g0);
    InsertFailsIff(g0, g0);
    NothingToRender(g0, g0);
    ExpansionFindsReady(g0, false, g0, input);
    assert [] + [input] == [input];
    ExpansionIsTheEnd(g0, [], input, next);
    RunKeepsInv(false, g0, [input]);
    NothingToRender(g0, After(false, g0, [input]));
  }

  // ── A rendering that does not end ────────────────────────────────────

  lemma TwoStepGraph(plan: seq<PlannedStep>)
    requires |plan| == 2 && PlanOk(plan)
    ensures InitialGraph(PlanGraph(plan)) && StepName(0) != StepName(1)
    ensures PlanGraph(plan) == map[StepName(0) := FromStep(plan[0]), StepName(1) := FromStep(plan[1])]
  {
    PlanRow(plan, 0);
    PlanRow(plan, 1);
    PlanGraphSound(plan);
    assert FromStep(plan[0]).index != FromStep(plan[1]).index;
    forall id | id in PlanGraph(plan) ensures id in {StepName(0), StepName(1)} { var i := PlanId(plan, id); }
  }

  lemma ThreeParts(a: string, b: string, c: string)
    requires '.' !in a && '.' !in b && '.' !in c
    ensures Split(a + (['.'] + (b + (['.'] + c))), '.') == [a, b, c]
  {
    SplitWhole(c, '.');
    SplitAt(b, '.', c);
    SplitAt(a, '.', b + (['.'] + c));
  }

  /** A step and a template that waits for it: the cycle runs the step only. */
  lemma FirstOfTwo(durable: bool, g: Graph, first: Id, second: Id, input: CycleInput)
    requires first != second && g.Keys == {first, second} && g[first].id == first && g[second].id == second
    requires g[first].kind.Normal? && g[first].status.Pending? && g[first].dependsOn == [] && g[first].condition.None?
    requires g[second].kind.ForEachTemplate? && g[second].status.Pending? && g[second].dependsOn == [first]
    ensures RunCycle(durable, g, input).rows
         == g[first := ApplyVerdict(g[first], input.VerdictOf(first), input.DoneAt(first))]
  {
    assert first in g[second].dependsOn && !Satisfied(g, first);
    assert Expandable(g) == {};
    ExpandNothing(g);
    assert ReadySet(g, input.now) == {first};
    assert !g[first].status.Terminal();
    CycleCases(durable, g, input);
  }

  /** Once the step has returned tool results, an argument that asks them for another key hangs the cycle. */
  lemma SecondHangs(durable: bool, g0: Graph, inputs: seq<CycleInput>, next: CycleInput, t: Id, first: Id, result: StepResult,
                    field: string, key: string)
    requires InitialGraph(g0)
    requires var g := After(durable, g0, inputs);
             && t in g && g[t].kind.ForEachTemplate? && g[t].status.Pending? && g[t].dependsOn == [first]
             && g[t].foreach.Some? && Split(g[t].foreach.value, '.') == ["deps", first, "tool_results"]
             && g[t].toolArgs.Some? && Field(g[t].toolArgs.value, field) == Some(Str("{item." + key + "}"))
             && first in g && g[first].status.Succeeded? && g[first].output == Some(OutputValue(result))
    requires result.toolResults != []
    requires '{' !in key && '}' !in key && key !in {"success", "output", "error"}
    ensures RunCycle(durable, After(durable, g0, inputs), next).outcome == Hung
  {
    assert t in Expandable(After(durable, g0, inputs));
    FieldsOfOutput(result, "");
    HasItemsIff(durable, g0, inputs, t);
    UnknownKeyHangs(durable, g0, inputs, next, t, field, key);
  }

  const SOURCE_STEP := PlannedStep(0, None, None, None, None, [])

  /** A foreach over the tool results of the first step, one of whose arguments is `{item.key}`. */
  function KeyTemplate(field: string, key: string): PlannedStep {
    PlannedStep(1, None, Some(Object(map[field := Str("{item." + key + "}")])), None, Some(SourcePath(StepName(0))), [])
  }

  function SourcePath(id: Id): string { "deps" + (['.'] + (id + (['.'] + "tool_results"))) }

  function KeyPlan(field: string, key: string): seq<PlannedStep> { [SOURCE_STEP, KeyTemplate(field, key)] }

  lemma KeyGraph(field: string, key: string)
    ensures var plan := KeyPlan(field, key);
            && PlanOk(plan) && InitialGraph(PlanGraph(plan)) && StepName(0) != StepName(1)
            && PlanGraph(plan) == map[StepName(0) := FromStep(SOURCE_STEP), StepName(1) := FromStep(KeyTemplate(field, key))]
  {
    assert PlanOk(KeyPlan(field, key));
    TwoStepGraph(KeyPlan(field, key));
  }

  lemma PathParts(id: Id)
    requires '.' !in id
    ensures Split(SourcePath(id), '.') == ["deps", id, "tool_results"]
  {
    ThreeParts("deps", id, "tool_results");
  }

  lemma NoDotInName(i: nat)
    ensures '.' !in StepName(i)
  {
    assert forall k :: 0 <= k < |Decimal(i)| ==> IsDigit(Decimal(i)[k]);
  }

  /** If the first step returns a tool result, the second cycle never returns. */
  lemma KeyPlanHangs(durable: bool, field: string, key: string, input: CycleInput, next: CycleInput, result: StepResult)
    requires '{' !in key && '}' !in key && key !in {"success", "output", "error"}
    requires input.VerdictOf(StepName(0)) == Success(result) && result.toolResults != []
    ensures PlanOk(KeyPlan(field, key))
    ensures RunCycle(durable, After(durable, PlanGraph(KeyPlan(field, key)), [input]), next).outcome == Hung
  {
    KeyGraph(field, key);
    NoDotInName(0);
    PathParts(StepName(0));
    var g0 := PlanGraph(KeyPlan(field, key));
    FirstOfTwo(durable, g0, StepName(0), StepName(1), input);
    AfterLast(durable, g0, [input], [], input);
    SecondHangs(durable, g0, [input], next, StepName(1), StepName(0), result, field, key);
  }

  /** At a concrete input: the argument `{item.name}`, and a tool result without an output. */
  lemma NamingHangs(durable: bool, next: CycleInput)
    ensures PlanOk(KeyPlan("q", "name"))
    ensures var result := StepResult("done", None, [ToolResult(true, Null, None)]);
            var input := CycleInput(0, map[StepName(0) := Success(result)], map[]);
            RunCycle(durable, After(durable, PlanGraph(KeyPlan("q", "name")), [input]), next).outcome == Hung
  {
    var result := StepResult("done", None, [ToolResult(true, Null, None)]);
    KeyPlanHangs(durable, "q", "name", CycleInput(0, map[StepName(0) := Success(result)], map[]), next, result);
  }

  // ── A rendering that ends ────────────────────────────────────────────

  /** The text `{item.key}` stands for the field, if neither has a brace. */
  lemma OneField(key: string, item: Json, text: string)
    requires '{' !in key && '}' !in key && Field(item, key) == Some(Str(text)) && '{' !in text
    ensures var s := "{item." + key + "}";
            && s == Written(ITEM, [Part("", key)], "") && PlainItemParts([Part("", key)], "", item)
            && ItemInert(s, item) && KeysKnown(Parse(ITEM, WithItem(s, item)), item) && TextEnds(s, item)
            && Filled([Part("", key)], "", k => TextOfField(item, k)) == text
  {
    var parts := [Part("", key)];
    assert parts[1..] == [];
    assert "" + "{item." + (key + "}" + "") == "{item." + key + "}";
    assert Written(ITEM, parts, "") == "{item." + key + "}";
    RendersFields(parts, "", item);
    assert "" + text + "" == text;
  }

  /** One argument that is `{item.key}`. */
  lemma OneArgument(field: string, key: string, item: Json, text: string)
    requires '{' !in key && '}' !in key && Field(item, key) == Some(Str(text)) && '{' !in text
    ensures var args := Object(map[field := Str("{item." + key + "}")]);
            TreeInert(args, item) && TreeKnown(args, item) && Ends(args, item)
  {
    OneField(key, item, text);
    var args := Object(map[field := Str("{item." + key + "}")]);
    assert TreeInert(args.fields[field], item) && TreeKnown(args.fields[field], item);
    EndsIff(args, item);
  }

  lemma LoneField(v: Json, field: string, w: Json)
    requires v.Object? && v.fields.Keys == {field} && Reach(v, [Key(field)]) == Some(w)
    ensures v == Object(map[field := w])
  {
    var path := [Key(field)];
    assert path[1..] == [];
    assert Reach(v.fields[field], path[1..]) == Some(v.fields[field]);
  }

  /** In any run, the one argument `{item.key}` of a template is, in the row of an item, the text of that item's field. */
  lemma OneArgumentRendered(durable: bool, g0: Graph, inputs: seq<CycleInput>, input: CycleInput, t: Id, i: nat,
                            field: string, key: string, text: string)
    requires InitialGraph(g0) && t in Expandable(After(durable, g0, inputs)) && !Stops(After(durable, g0, inputs))
    requires var g := After(durable, g0, inputs);
             && g[t].toolArgs == Some(Object(map[field := Str("{item." + key + "}")]))
             && i < |Items(g, g[t])| && Field(Items(g, g[t])[i], key) == Some(Str(text))
    requires '{' !in key && '}' !in key && '{' !in text
    ensures ItemId(t, i) in After(durable, g0, inputs + [input] + [])
    ensures After(durable, g0, inputs + [input] + [])[ItemId(t, i)].toolArgs == Some(Object(map[field := Str(text)]))
  {
    var g := After(durable, g0, inputs);
    var item, args, path := Items(g, g[t])[i], g[t].toolArgs.value, [Key(field)];
    OneArgument(field, key, item, text);
    OneField(key, item, text);
    assert path[1..] == [];
    assert Reach(args.fields[field], path[1..]) == Some(args.fields[field]);
    ItemTextAt(durable, g0, inputs, input, [], t, i, path, [Part("", key)], "");
    ItemArgumentsAt(durable, g0, inputs, input, [], t, i, []);
    LoneField(After(durable, g0, inputs + [input] + [])[ItemId(t, i)].toolArgs.value, field, Str(text));
  }

  /** Its only template to expand has items, and rendering them ends: the cycle hangs on none. */
  lemma OneArgumentEnds(g: Graph, t: Id, field: string, key: string, texts: seq<string>)
    requires Expandable(g) == {t} && g[t].toolArgs == Some(Object(map[field := Str("{item." + key + "}")]))
    requires '{' !in key && '}' !in key && |texts| == |Items(g, g[t])|
    requires forall i :: 0 <= i < |texts| ==> Field(Items(g, g[t])[i], key) == Some(Str(texts[i])) && '{' !in texts[i]
    ensures !Hangs(g)
  {
    forall i | 0 <= i < |Items(g, g[t])| ensures Ends(g[t].toolArgs.value, Items(g, g[t])[i]) {
      OneArgument(field, key, Items(g, g[t])[i], texts[i]);
    }
    assert RendersAll(g, g[t]);
  }

  lemma FirstExpansionFits(g0: Graph, g: Graph, t: Id)
    requires InitialGraph(g0) && Inv(g0, g) && Expandable(g) == {t} && JoinId(t) !in g
    ensures !InsertFails(g)
  {
    InsertFailsIff(g0, g);
  }

  /** The items of a template that waits for a step which has returned. */
  lemma SecondItems(g: Graph, first: Id, second: Id, result: StepResult)
    requires first != second && g.Keys == {first, second} && g[first].kind.Normal? && g[first].status == Succeeded
    requires g[first].output == Some(OutputValue(result)) && result.toolResults != []
    requires g[second].kind.ForEachTemplate? && g[second].status.Pending? && g[second].dependsOn == [first]
    requires g[second].foreach.Some? && Split(g[second].foreach.value, '.') == ["deps", first, "tool_results"]
    ensures Expandable(g) == {second} && Items(g, g[second]) == ToolResultValues(result.toolResults)
  {
    FieldsOfOutput(result, "");
    assert Satisfied(g, first);
  }

  /** The state after the first cycle. */
  lemma KeyState(durable: bool, field: string, key: string, input: CycleInput, result: StepResult)
    requires input.VerdictOf(StepName(0)) == Success(result) && result.toolResults != []
    ensures PlanOk(KeyPlan(field, key)) && InitialGraph(PlanGraph(KeyPlan(field, key)))
    ensures var g := After(durable, PlanGraph(KeyPlan(field, key)), [input]);
            && g.Keys == {StepName(0), StepName(1)} && Expandable(g) == {StepName(1)}
            && g[StepName(1)].toolArgs == Some(Object(map[field := Str("{item." + key + "}")]))
            && Items(g, g[StepName(1)]) == ToolResultValues(result.toolResults)
  {
    KeyGraph(field, key);
    NoDotInName(0);
    PathParts(StepName(0));
    var g0 := PlanGraph(KeyPlan(field, key));
    FirstOfTwo(durable, g0, StepName(0), StepName(1), input);
    AfterLast(durable, g0, [input], [], input);
    SecondItems(After(durable, g0, [input]), StepName(0), StepName(1), result);
  }

  function Texts(results: seq<ToolResult>): (texts: seq<string>)
    requires forall r :: r in results ==> r.output.Str?
    ensures |texts| == |results|
  {
    seq(|results|, i requires 0 <= i < |results| => results[i].output.s)
  }

  lemma OutputTexts(results: seq<ToolResult>)
    requires forall r :: r in results ==> r.output.Str? && '{' !in r.output.s
    ensures forall i :: 0 <= i < |results| ==>
              Field(ToolResultValues(results)[i], "output") == Some(Str(Texts(results)[i])) && '{' !in Texts(results)[i]
  {
    forall i | 0 <= i < |results|
      ensures Field(ToolResultValues(results)[i], "output") == Some(Str(Texts(results)[i])) && '{' !in Texts(results)[i]
    {
      assert results[i] in results;
    }
  }

  /** The arguments `{item.output}` of the items are what the tools returned. */
  lemma KeyPlanRenders(durable: bool, field: string, input: CycleInput, next: CycleInput, result: StepResult, k: nat)
    requires input.VerdictOf(StepName(0)) == Success(result) && k < |result.toolResults|
    requires forall r :: r in result.toolResults ==> r.output.Str? && '{' !in r.output.s
    ensures PlanOk(KeyPlan(field, "output"))
    ensures var g, id := After(durable, PlanGraph(KeyPlan(field, "output")), [input, next]), ItemId(StepName(1), k);
            id in g && g[id].toolArgs == Some(Object(map[field := Str(Texts(result.toolResults)[k])]))
  {
    var texts := Texts(result.toolResults);
    OutputTexts(result.toolResults);
    KeyAboutToRender(durable, field, "output", input, result, texts);
    SecondRenders(durable, PlanGraph(KeyPlan(field, "output")), [input], next, StepName(1), field, "output", texts, k);
    assert [input] + [next] + [] == [input, next];
  }

  /** A template to expand whose one argument is `{item.key}`, and items whose fields of that name are texts. */
  ghost predicate AboutToRender(g: Graph, t: Id, field: string, key: string, texts: seq<string>) {
    && Expandable(g) == {t} && JoinId(t) !in g && g[t].toolArgs == Some(Object(map[field := Str("{item." + key + "}")]))
    && '{' !in key && '}' !in key && |texts| == |Items(g, g[t])|
    && forall i :: 0 <= i < |texts| ==> Field(Items(g, g[t])[i], key) == Some(Str(texts[i])) && '{' !in texts[i]
  }

  lemma KeyAboutToRender(durable: bool, field: string, key: string, input: CycleInput, result: StepResult, texts: seq<string>)
    requires input.VerdictOf(StepName(0)) == Success(result) && result.toolResults != []
    requires '{' !in key && '}' !in key && |texts| == |result.toolResults|
    requires forall i :: 0 <= i < |texts| ==>
               Field(ToolResultValues(result.toolResults)[i], key) == Some(Str(texts[i])) && '{' !in texts[i]
    ensures PlanOk(KeyPlan(field, key)) && InitialGraph(PlanGraph(KeyPlan(field, key)))
    ensures AboutToRender(After(durable, PlanGraph(KeyPlan(field, key)), [input]), StepName(1), field, key, texts)
  {
    KeyState(durable, field, key, input, result);
    NewIsNew(1);
  }

  lemma SecondRenders(durable: bool, g0: Graph, inputs: seq<CycleInput>, next: CycleInput, t: Id,
                      field: string, key: string, texts: seq<string>, k: nat)
    requires InitialGraph(g0) && AboutToRender(After(durable, g0, inputs), t, field, key, texts) && k < |texts|
    ensures ItemId(t, k) in After(durable, g0, inputs + [next] + [])
    ensures After(durable, g0, inputs + [next] + [])[ItemId(t, k)].toolArgs == Some(Object(map[field := Str(texts[k])]))
  {
    var g := After(durable, g0, inputs);
    OneArgumentEnds(g, t, field, key, texts);
    RunKeepsInv(durable, g0, inputs);
    FirstExpansionFits(g0, g, t);
    OneArgumentRendered(durable, g0, inputs, next, t, k, field, key, texts[k]);
  }

  lemma NewIsNew(i: nat)
    ensures JoinId(StepName(i)) !in {StepName(0), StepName(1)}
  {
    NewNamesAreNotBase(StepName(i), 0);
    StepNameIsBase(0);
    StepNameIsBase(1);
  }

  /** At a concrete input: the tool returned `a`, and the row of the item carries `a`. */
  lemma ItemCarriesOutput(durable: bool, next: CycleInput)
    ensures PlanOk(KeyPlan("q", "output"))
    ensures var result := StepResult("done", None, [ToolResult(true, Str("a"), None)]);
            var input := CycleInput(0, map["step-0" := Success(result)], map[]);
            var g := After(durable, PlanGraph(KeyPlan("q", "output")), [input, next]);
            "step-1[0]" in g && g["step-1[0]"].toolArgs == Some(Object(map["q" := Str("a")]))
  {
    var result := StepResult("done", None, [ToolResult(true, Str("a"), None)]);
    assert Decimal(0) == "0" && Decimal(1) == "1";
    assert StepName(0) == "step-0" && StepName(1) == "step-1" && ItemId(StepName(1), 0) == "step-1[0]";
    KeyPlanRenders(durable, "q", CycleInput(0, map["step-0" := Success(result)], map[]), next, result, 0);
  }
}
