/**
 What the steps of an expansion carry: an item is its template with the item written into the texts of
 its arguments, and a join is its template without a tool. None of it changes as the run goes on.
 */
module ItemArguments {
  import opened Wrappers
  import opened Text
  import opened JsonValues
  import opened JsonText
  import opened Conditions
  import opened Dag
  import opened Engine
  import opened GraphShape
  import opened RunInvariants
  import opened Placeholders
  import opened ItemTemplates

  // ── What never changes ───────────────────────────────────────────────

  /** Everything about a step but its dependencies and its progress. */
  predicate SameWork(n: StepNode, n': StepNode) {
    && n'.id == n.id && n'.index == n.index && n'.tool == n.tool && n'.toolArgs == n.toolArgs
    && n'.condition == n.condition && n'.foreach == n.foreach && n'.kind == n.kind && n'.retryPolicy == n.retryPolicy
  }

  lemma FinishKeepsWork(g: Graph, n: StepNode, input: CycleInput)
    ensures SameWork(n, FinishStep(g, n, input)) && FinishStep(g, n, input).dependsOn == n.dependsOn
  {
  }

  lemma BatchKeepsWork(g: Graph, batch: set<Id>, input: CycleInput, id: Id)
    requires id in g
    ensures id in RunBatch(g, batch, input) && SameWork(g[id], RunBatch(g, batch, input)[id])
    ensures RunBatch(g, batch, input)[id].dependsOn == g[id].dependsOn
  {
    FinishKeepsWork(g, g[id], input);
  }

  lemma StoringKeepsWork(durable: bool, g: Graph, id: Id)
    requires !InsertFails(g) && id in InMemory(g)
    ensures id in Stored(durable, g) && SameWork(InMemory(g)[id], Stored(durable, g)[id])
    ensures Stored(durable, g)[id].dependsOn == InMemory(g)[id].dependsOn
  {
  }

  lemma CycleKeepsWork(durable: bool, g: Graph, input: CycleInput, id: Id)
    requires id in g
    ensures id in RunCycle(durable, g, input).rows && SameWork(g[id], RunCycle(durable, g, input).rows[id])
  {
    CycleCases(durable, g, input);
    if !Stops(g) {
      assert SameWork(g[id], Stored(durable, g)[id]);
      BatchKeepsWork(Stored(durable, g), ReadySet(InMemory(g), input.now), input, id);
    }
  }

  /** However a run goes on, a step keeps its tool, arguments, condition, foreach, kind and policy. */
  lemma {:induction false} WorkNeverChanges(durable: bool, g0: Graph, inputs: seq<CycleInput>, more: seq<CycleInput>, id: Id)
    requires id in After(durable, g0, inputs)
    ensures id in After(durable, g0, inputs + more)
    ensures SameWork(After(durable, g0, inputs)[id], After(durable, g0, inputs + more)[id])
    decreases |more|
  {
    if more == [] {
      assert inputs + more == inputs;
    } else {
      var rest := more[..|more| - 1];
      WorkNeverChanges(durable, g0, inputs, rest, id);
      AfterOneMore(durable, g0, inputs, more);
      CycleKeepsWork(durable, After(durable, g0, inputs + rest), more[|more| - 1], id);
    }
  }

  // ── Rendered arguments ───────────────────────────────────────────────

  /** A value and what becomes of it in the arguments of an item: texts are filled in, everything else stays. */
  predicate FilledIn(v: Option<Json>, w: Option<Json>, item: Json) {
    if v.None? then w.None?
    else
      w.Some? && match v.value
        case Str(s) => w.value == Str(Substitute(Parse(ITEM, WithItem(s, item)), FieldTexts(item)))
        case Array(items) => w.value.Array? && |w.value.items| == |items|
        case Object(fields) => w.value.Object? && w.value.fields.Keys == fields.Keys
        case _ => w.value == v.value
  }

  /** At every path of keys and indices, the rendered arguments are the template's, filled in. */
  lemma {:induction false} RenderedAt(template: Json, item: Json, path: seq<Selector>)
    requires TreeInert(template, item) && TreeKnown(template, item)
    ensures FilledIn(Reach(template, path), Reach(Render(template, item), path), item)
    decreases |path|
  {
    if path == [] {
      if template.Str? { RenderingEndsIff(template.s, item); }
    } else {
      match template
      case Object(fields) =>
        if path[0].Key? && path[0].name in fields { RenderedAt(fields[path[0].name], item, path[1..]); }
      case Array(items) =>
        if path[0].Index? && path[0].index < |items| { RenderedAt(items[path[0].index], item, path[1..]); }
      case _ =>
    }
  }

  // ── The rows of an expansion ─────────────────────────────────────────

  /** A row of the expanded graph, after the cycle that expanded it. */
  lemma NewRowWork(durable: bool, g: Graph, input: CycleInput, id: Id)
    requires !Stops(g) && id in InMemory(g)
    ensures id in RunCycle(durable, g, input).rows && SameWork(InMemory(g)[id], RunCycle(durable, g, input).rows[id])
    ensures RunCycle(durable, g, input).rows[id].dependsOn == InMemory(g)[id].dependsOn
  {
    CycleCases(durable, g, input);
    StoringKeepsWork(durable, g, id);
    BatchKeepsWork(Stored(durable, g), ReadySet(InMemory(g), input.now), input, id);
  }

  /** The row of item `i` after the cycle that expanded its template: the template's work, for this item. */
  lemma ItemRow(durable: bool, g: Graph, input: CycleInput, t: Id, i: nat)
    requires t in Expandable(g) && !Stops(g) && i < |Items(g, g[t])| && g[t].id == t
    ensures ItemId(t, i) in RunCycle(durable, g, input).rows
    ensures var n, template := RunCycle(durable, g, input).rows[ItemId(t, i)], g[t];
            && n.id == t + "[" + Decimal(i) + "]" && n.index == template.index && n.tool == template.tool
            && n.condition == template.condition && n.foreach == template.foreach && n.retryPolicy == template.retryPolicy
            && n.kind == ForEachItem(t, i) && n.dependsOn == template.dependsOn
            && n.toolArgs == RenderArgs(template.toolArgs, Items(g, template)[i])
  {
    ExpandNew(g, Expandable(g), t);
    NewRowWork(durable, g, input, ItemId(t, i));
  }

  /** The row of the join: the template's work without a tool, waiting for every item. */
  lemma JoinRow(durable: bool, g: Graph, input: CycleInput, t: Id)
    requires t in Expandable(g) && !Stops(g) && g[t].id == t
    ensures JoinId(t) in RunCycle(durable, g, input).rows
    ensures var n, template := RunCycle(durable, g, input).rows[JoinId(t)], g[t];
            && n.id == t + "_join" && n.index == template.index && n.tool == None
            && n.condition == template.condition && n.retryPolicy == template.retryPolicy
            && n.kind == ForEachJoin(t) && n.toolArgs == template.toolArgs
            && |n.dependsOn| == |Items(g, template)|
            && forall i :: 0 <= i < |n.dependsOn| ==> n.dependsOn[i] == t + "[" + Decimal(i) + "]"
  {
    ExpandNew(g, Expandable(g), t);
    NewRowWork(durable, g, input, JoinId(t));
  }

  /** The template and one of its items have arguments whose texts are inert and ask for known keys. */
  predicate WellWritten(g: Graph, t: Id, i: nat) {
    && t in g && g[t].toolArgs.Some? && i < |Items(g, g[t])|
    && TreeInert(g[t].toolArgs.value, Items(g, g[t])[i]) && TreeKnown(g[t].toolArgs.value, Items(g, g[t])[i])
  }

  /**
   In every run, from the cycle that expands a template on: at every path into the arguments of item `i`
   there is what is at that path of the template's arguments, with the item's fields substituted from
   left to right if it is a text, and unchanged if it is not.
   */
  lemma ItemArgumentsAt(durable: bool, g0: Graph, inputs: seq<CycleInput>, input: CycleInput, more: seq<CycleInput>,
                        t: Id, i: nat, path: seq<Selector>)
    requires InitialGraph(g0) && t in Expandable(After(durable, g0, inputs)) && !Stops(After(durable, g0, inputs))
    requires WellWritten(After(durable, g0, inputs), t, i)
    ensures ItemId(t, i) in After(durable, g0, inputs + [input] + more)
    ensures var g, n := After(durable, g0, inputs), After(durable, g0, inputs + [input] + more)[ItemId(t, i)];
            && n.toolArgs.Some?
            && FilledIn(Reach(g[t].toolArgs.value, path), Reach(n.toolArgs.value, path), Items(g, g[t])[i])
  {
    var g := After(durable, g0, inputs);
    RunKeepsInv(durable, g0, inputs);
    assert g[t].id == t;
    ItemRow(durable, g, input, t, i);
    AfterLast(durable, g0, inputs + [input], inputs, input);
    WorkNeverChanges(durable, g0, inputs + [input], more, ItemId(t, i));
    RenderedAt(g[t].toolArgs.value, Items(g, g[t])[i], path);
  }

  /**
   In particular, a text that is put together from plain parts and `{item.key}` becomes these parts with
   the texts of the item's fields between them.
   */
  lemma ItemTextAt(durable: bool, g0: Graph, inputs: seq<CycleInput>, input: CycleInput, more: seq<CycleInput>,
                   t: Id, i: nat, path: seq<Selector>, parts: seq<Part>, tail: string)
    requires InitialGraph(g0) && t in Expandable(After(durable, g0, inputs)) && !Stops(After(durable, g0, inputs))
    requires WellWritten(After(durable, g0, inputs), t, i)
    requires var g := After(durable, g0, inputs);
             && Reach(g[t].toolArgs.value, path) == Some(Str(Written(ITEM, parts, tail)))
             && PlainItemParts(parts, tail, Items(g, g[t])[i])
    ensures ItemId(t, i) in After(durable, g0, inputs + [input] + more)
    ensures var g, n := After(durable, g0, inputs), After(durable, g0, inputs + [input] + more)[ItemId(t, i)];
            && n.toolArgs.Some?
            && Reach(n.toolArgs.value, path) == Some(Str(Filled(parts, tail, key => TextOfField(Items(g, g[t])[i], key))))
  {
    var item := Items(After(durable, g0, inputs), After(durable, g0, inputs)[t])[i];
    ItemArgumentsAt(durable, g0, inputs, input, more, t, i, path);
    RendersFields(parts, tail, item);
    RenderingEndsIff(Written(ITEM, parts, tail), item);
  }
}
