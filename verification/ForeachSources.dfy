/** What a foreach expression can draw from, exactly, and when rendering its items ends. */
module ForeachSources {
  import opened Wrappers
  import opened Text
  import opened JsonValues
  import opened Conditions
  import opened Dag
  import opened Engine
  import opened GraphShape
  import opened RunInvariants
  import opened ItemTemplates

  /** An expression is understood exactly when it starts with `deps.`: the documented `$.deps.` form does not. */
  lemma CollectionIff(expression: string)
    ensures !ParseCollection(expression).NoCollection? <==> StartsWith(expression, "deps.")
  {
    SplitFirst(expression, '.', "deps");
    assert "deps" + ['.'] == "deps.";
  }

  /** So the documented form, whatever follows its prefix, expands into no item in any graph. */
  lemma DocumentedFormHasNoItems(g: Graph, n: StepNode, path: string)
    requires n.foreach == Some("$.deps." + path)
    ensures Items(g, n) == []
  {
    CollectionIff("$.deps." + path);
    assert ("$.deps." + path)[0] == '$' && "deps."[0] == 'd';
  }

  /**
   A template never gets an output, so a foreach over another template has no items in any reachable
   state, and its expansion is a join without dependencies.
   */
  lemma ForeachOverTemplate(durable: bool, g0: Graph, inputs: seq<CycleInput>, t: Id)
    requires InitialGraph(g0) && IsTemplate(g0, t)
    requires !ForeachCollection(g0[t]).NoCollection? && IsTemplate(g0, ForeachCollection(g0[t]).dep)
    ensures var g := After(durable, g0, inputs);
            && t in g && Items(g, g[t]) == []
            && (t in Expandable(g) && !InsertFails(g) ==>
                  JoinId(t) in InMemory(g) && InMemory(g)[JoinId(t)].dependsOn == [])
  {
    var g, source := After(durable, g0, inputs), ForeachCollection(g0[t]).dep;
    RunKeepsInv(durable, g0, inputs);
    assert NodeShape(g0, g, g[t]) && NodeShape(g0, g, g[source]) && NodeOk(g0, g, g[source]);
    assert ForeachCollection(g[t]) == ForeachCollection(g0[t]);
    if t in Expandable(g) && !InsertFails(g) { ExpandNew(g, Expandable(g), t); }
  }

  // ── The shape of outputs ─────────────────────────────────────────────

  ghost predicate Shaped(output: Option<Json>) { output.Some? ==> exists r :: output.value == OutputValue(r) }

  ghost predicate OutputsShaped(g: Graph) { forall id :: id in g ==> Shaped(g[id].output) }

  lemma FinishKeepsShaped(g: Graph, n: StepNode, input: CycleInput)
    requires Shaped(n.output)
    ensures Shaped(FinishStep(g, n, input).output)
  {
  }

  lemma BatchKeepsShaped(g: Graph, batch: set<Id>, input: CycleInput)
    requires OutputsShaped(g)
    ensures OutputsShaped(RunBatch(g, batch, input))
  {
    forall id | id in g ensures Shaped(FinishStep(g, g[id], input).output) { FinishKeepsShaped(g, g[id], input); }
  }

  lemma StoredShaped(durable: bool, g: Graph)
    requires OutputsShaped(g) && !InsertFails(g)
    ensures OutputsShaped(Stored(durable, g))
  {
    forall id | id in Stored(durable, g) ensures Shaped(Stored(durable, g)[id].output) {
      if id !in g {
        var t, i := NewIdOrigin(g, Expandable(g), id);
        ExpandNew(g, Expandable(g), t);
        assert Shaped(g[t].output);
      } else {
        assert Shaped(g[id].output);
      }
    }
  }

  lemma CycleKeepsShaped(durable: bool, g: Graph, input: CycleInput)
    requires OutputsShaped(g)
    ensures OutputsShaped(RunCycle(durable, g, input).rows)
  {
    CycleCases(durable, g, input);
    if !Stops(g) {
      StoredShaped(durable, g);
      BatchKeepsShaped(Stored(durable, g), ReadySet(InMemory(g), input.now), input);
    }
  }

  /** In every reachable state every output is one the engine made of a step result. */
  lemma {:induction false} RunShaped(durable: bool, g0: Graph, inputs: seq<CycleInput>)
    requires InitialGraph(g0)
    ensures OutputsShaped(After(durable, g0, inputs))
  {
    if inputs == [] {
      assert forall id :: id in g0 ==> InitialNode(g0, g0[id]);
    } else {
      var before := inputs[..|inputs| - 1];
      RunShaped(durable, g0, before);
      CycleKeepsShaped(durable, After(durable, g0, before), inputs[|inputs| - 1]);
    }
  }

  // ── Which expressions have items ─────────────────────────────────────

  /** The expression asks for `deps.<step>.tool_results`, and whatever follows that. */
  predicate AsksToolResults(expression: string) {
    var parts := Split(expression, '.');
    |parts| >= 3 && parts[0] == "deps" && parts[2] == "tool_results"
  }

  /** The stored tool results of a step. */
  function StoredToolResults(g: Graph, id: Id): seq<Json> {
    var output := OutputOf(g, id);
    if output.None? then []
    else
      var results := Field(output.value, "tool_results");
      if results.Some? && results.value.Array? then results.value.items else []
  }

  lemma FieldsOfOutput(r: StepResult, key: string)
    ensures !OutputValue(r).Array?
    ensures Field(OutputValue(r), key).Some? && Field(OutputValue(r), key).value.Array? ==> key == "tool_results"
    ensures Field(OutputValue(r), "tool_results") ==
            if r.toolResults == [] then None else Some(Array(ToolResultValues(r.toolResults)))
  {
  }

  /**
   In every reachable state the items of a foreach are the stored tool results of the step it names, if
   it asks for `tool_results`, and there are none if it asks for anything else.
   */
  lemma ItemsAreToolResults(durable: bool, g0: Graph, inputs: seq<CycleInput>, n: StepNode)
    requires InitialGraph(g0) && n.foreach.Some?
    ensures Items(After(durable, g0, inputs), n) ==
            if AsksToolResults(n.foreach.value)
            then StoredToolResults(After(durable, g0, inputs), Split(n.foreach.value, '.')[1]) else []
  {
    var g, c := After(durable, g0, inputs), ParseCollection(n.foreach.value);
    RunShaped(durable, g0, inputs);
    if !c.NoCollection? && OutputOf(g, c.dep).Some? {
      assert Shaped(g[c.dep].output);
      var r :| g[c.dep].output.value == OutputValue(r);
      if c.Keyed? { FieldsOfOutput(r, c.key); } else { FieldsOfOutput(r, ""); }
    }
  }

  /**
   So a foreach has items exactly when its expression has at least three parts, the first `deps` and the
   third `tool_results`, and the step it names has stored tool results; each item is a tool result.
   */
  lemma HasItemsIff(durable: bool, g0: Graph, inputs: seq<CycleInput>, t: Id)
    requires InitialGraph(g0) && t in After(durable, g0, inputs) && After(durable, g0, inputs)[t].foreach.Some?
    ensures var g := After(durable, g0, inputs);
            var expression := g[t].foreach.value;
            && (Items(g, g[t]) != [] <==>
                  AsksToolResults(expression) && StoredToolResults(g, Split(expression, '.')[1]) != [])
            && (forall i :: 0 <= i < |Items(g, g[t])| ==> IsToolResult(Items(g, g[t])[i]))
  {
    var g := After(durable, g0, inputs);
    ItemsAreToolResults(durable, g0, inputs, g[t]);
    if AsksToolResults(g[t].foreach.value) { StoredAreToolResults(durable, g0, inputs, Split(g[t].foreach.value, '.')[1]); }
  }

  ghost predicate IsToolResult(v: Json) { exists r :: v == ToolResultValue(r) }

  lemma StoredAreToolResults(durable: bool, g0: Graph, inputs: seq<CycleInput>, id: Id)
    requires InitialGraph(g0)
    ensures forall v :: v in StoredToolResults(After(durable, g0, inputs), id) ==> IsToolResult(v)
  {
    var g := After(durable, g0, inputs);
    RunShaped(durable, g0, inputs);
    if OutputOf(g, id).Some? {
      assert Shaped(g[id].output);
      var r :| g[id].output.value == OutputValue(r);
      FieldsOfOutput(r, "");
      forall v | v in ToolResultValues(r.toolResults) ensures IsToolResult(v) {
        var i :| 0 <= i < |r.toolResults| && ToolResultValues(r.toolResults)[i] == v;
        assert v == ToolResultValue(r.toolResults[i]);
      }
    }
  }

  // ── When rendering ends ──────────────────────────────────────────────

  /** A tool result has three keys. */
  lemma ToolResultKeys(v: Json, key: string)
    requires IsToolResult(v)
    ensures Field(v, key).Some? <==> key in {"success", "output", "error"}
  {
  }

  /**
   With inert texts, a cycle hangs exactly when some template it expands has an item that some text of
   its arguments asks for a key it does not have; as items are tool results, that is any key but
   `success`, `output` and `error`.
   */
  lemma HangsIff(durable: bool, g0: Graph, inputs: seq<CycleInput>, input: CycleInput)
    requires InitialGraph(g0)
    requires forall t, i :: ExpandsItem(After(durable, g0, inputs), t, i) ==> ArgsInert(After(durable, g0, inputs), t, i)
    ensures RunCycle(durable, After(durable, g0, inputs), input).outcome.Hung?
       <==> exists t, i :: ExpandsItem(After(durable, g0, inputs), t, i) && !ArgsKnown(After(durable, g0, inputs), t, i)
  {
    var g := After(durable, g0, inputs);
    CycleCases(durable, g, input);
    forall t, i | ExpandsItem(g, t, i) ensures Ends(g[t].toolArgs.value, Items(g, g[t])[i]) <==> ArgsKnown(g, t, i) {
      assert ArgsInert(g, t, i);
      EndsIff(g[t].toolArgs.value, Items(g, g[t])[i]);
    }
    if Hangs(g) {
      var t :| t in Expandable(g) && !RendersAll(g, g[t]);
      var i :| 0 <= i < |Items(g, g[t])| && !Ends(g[t].toolArgs.value, Items(g, g[t])[i]);
      assert ExpandsItem(g, t, i);
    }
    if t, i :| ExpandsItem(g, t, i) && !ArgsKnown(g, t, i) {
      assert !RendersAll(g, g[t]);
    }
  }

  /** Item `i` of a template that the next cycle expands, and that has arguments to render. */
  predicate ExpandsItem(g: Graph, t: Id, i: int) {
    t in Expandable(g) && g[t].toolArgs.Some? && 0 <= i < |Items(g, g[t])|
  }

  predicate ArgsInert(g: Graph, t: Id, i: int)
    requires ExpandsItem(g, t, i)
  {
    TreeInert(g[t].toolArgs.value, Items(g, g[t])[i])
  }

  predicate ArgsKnown(g: Graph, t: Id, i: int)
    requires ExpandsItem(g, t, i)
  {
    TreeKnown(g[t].toolArgs.value, Items(g, g[t])[i])
  }

  /** An argument that is `{item.key}`, for a key tool results do not have, hangs the first cycle that expands an item. */
  lemma UnknownKeyHangs(durable: bool, g0: Graph, inputs: seq<CycleInput>, input: CycleInput, t: Id, field: string, key: string)
    requires InitialGraph(g0) && t in Expandable(After(durable, g0, inputs))
    requires var n := After(durable, g0, inputs)[t];
             && n.foreach.Some? && Items(After(durable, g0, inputs), n) != []
             && n.toolArgs.Some? && Field(n.toolArgs.value, field) == Some(Str("{item." + key + "}"))
    requires '{' !in key && '}' !in key && key !in {"success", "output", "error"}
    ensures RunCycle(durable, After(durable, g0, inputs), input).outcome.Hung?
  {
    var g := After(durable, g0, inputs);
    var item := Items(g, g[t])[0];
    HasItemsIff(durable, g0, inputs, t);
    assert IsToolResult(item);
    ToolResultKeys(item, key);
    MissingKeyHangs(key, item);
    assert !Ends(g[t].toolArgs.value.fields[field], item);
    assert !RendersAll(g, g[t]);
    CycleCases(durable, g, input);
  }
}
