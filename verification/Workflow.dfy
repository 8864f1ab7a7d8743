/** The workflow object: a list of step nodes that its methods change in place. */
module Workflows {
  import opened Wrappers
  import opened JsonValues
  import opened ItemTemplates
  import opened Dag
  import opened Engine
  import opened GraphShape

  datatype WorkflowError =
    | StepNotFound(stepId: Id)
    | InvalidTransition(stepId: Id, from: StepStatus)

  /** What an expansion hands to the store: the new nodes, and the rewritten dependency lists, in order. */
  datatype Expansion = Expansion(newSteps: seq<StepNode>, updatedDeps: seq<DepsUpdate>)

  datatype DepsUpdate = DepsUpdate(stepId: Id, dependsOn: seq<Id>)

  // ── Expansion of a list ──────────────────────────────────────────────

  function ToSet(ids: seq<Id>): set<Id> { set id | id in ids }

  /** What `expand_foreach_nodes` looks for. */
  predicate CanStartExpansion(g: Graph, n: StepNode) {
    n.kind.ForEachTemplate? && n.status.Pending? && DepsSatisfied(g, n)
  }

  /** The expandable templates among the first `k` nodes, in order. */
  function TemplatesUpTo(g: Graph, nodes: seq<StepNode>, k: nat): (ids: seq<Id>)
    requires k <= |nodes|
    ensures forall t :: t in ids ==> exists i :: 0 <= i < k && nodes[i].id == t && CanStartExpansion(g, nodes[i])
  {
    if k == 0 then []
    else
      TemplatesUpTo(g, nodes, k - 1) + if CanStartExpansion(g, nodes[k - 1]) then [nodes[k - 1].id] else []
  }

  /** All of them. */
  function Templates(nodes: seq<StepNode>): (ids: seq<Id>)
    requires UniqueIds(nodes)
    ensures forall t :: t in ids ==> t in GraphOf(nodes)
  {
    TemplatesUpTo(GraphOf(nodes), nodes, |nodes|)
  }

  function RewireAll(nodes: seq<StepNode>, templates: set<Id>): (r: seq<StepNode>)
    ensures |r| == |nodes| && forall i :: 0 <= i < |nodes| ==> r[i].id == nodes[i].id
  {
    seq(|nodes|, i requires 0 <= i < |nodes| => Rewired(nodes[i], templates))
  }

  ghost function ItemNodes(template: StepNode, items: seq<Json>): (r: seq<StepNode>)
    ensures |r| == |items|
  {
    seq(|items|, i requires 0 <= i < |items| => ItemNode(template, i, items[i]))
  }

  /** The items and then the join of each template. */
  ghost function NewNodes(g: Graph, templates: seq<Id>): seq<StepNode>
    requires forall t :: t in templates ==> t in g
  {
    if templates == [] then []
    else
      var k := |templates| - 1;
      var n := g[templates[k]];
      NewNodes(g, templates[..k]) + ItemNodes(n, Items(g, n)) + [JoinNode(n, |Items(g, n)|)]
  }

  /** The updates one template causes among the first `k` nodes. */
  function PassUpdates(nodes: seq<StepNode>, t: Id, k: nat): seq<DepsUpdate>
    requires k <= |nodes|
  {
    if k == 0 then []
    else
      var n := nodes[k - 1];
      PassUpdates(nodes, t, k - 1) +
      if t in n.dependsOn then [DepsUpdate(n.id, RewriteDeps(n.dependsOn, {t}))] else []
  }

  /** The updates of all templates, one pass over the nodes after the other. */
  function AllUpdates(nodes: seq<StepNode>, templates: seq<Id>): seq<DepsUpdate> {
    if templates == [] then []
    else
      var k := |templates| - 1;
      AllUpdates(nodes, templates[..k]) +
      PassUpdates(RewireAll(nodes, ToSet(templates[..k])), templates[k], |nodes|)
  }

  lemma {:induction false} TemplatesListed(g: Graph, nodes: seq<StepNode>, k: nat, i: nat)
    requires i < k <= |nodes| && CanStartExpansion(g, nodes[i])
    ensures nodes[i].id in TemplatesUpTo(g, nodes, k)
  {
    if i == k - 1 {
    } else {
      TemplatesListed(g, nodes, k - 1, i);
    }
  }

  /** No template is listed twice. */
  lemma {:induction false} TemplatesDistinct(g: Graph, nodes: seq<StepNode>, k: nat)
    requires UniqueIds(nodes) && k <= |nodes|
    ensures forall i, j :: 0 <= i < j < |TemplatesUpTo(g, nodes, k)| ==>
              TemplatesUpTo(g, nodes, k)[i] != TemplatesUpTo(g, nodes, k)[j]
  {
    if k == 0 {
    } else {
      TemplatesDistinct(g, nodes, k - 1);
      var before := TemplatesUpTo(g, nodes, k - 1);
      forall i | 0 <= i < |before| ensures before[i] != nodes[k - 1].id { assert before[i] in before; }
    }
  }

  /** The list names exactly the expandable templates, each once. */
  lemma TemplatesAreAll(nodes: seq<StepNode>)
    requires UniqueIds(nodes)
    ensures ToSet(Templates(nodes)) == Expandable(GraphOf(nodes))
    ensures forall i, j :: 0 <= i < j < |Templates(nodes)| ==> Templates(nodes)[i] != Templates(nodes)[j]
  {
    var g := GraphOf(nodes);
    forall t | t in Expandable(g) ensures t in Templates(nodes) {
      var i :| 0 <= i < |nodes| && nodes[i] == g[t];
      TemplatesListed(g, nodes, |nodes|, i);
    }
    forall t | t in Templates(nodes) ensures t in Expandable(g) {
      var i :| 0 <= i < |nodes| && nodes[i].id == t && CanStartExpansion(g, nodes[i]);
      GraphOfRow(nodes, i);
    }
    TemplatesDistinct(g, nodes, |nodes|);
  }

  /** Rewriting one more template is rewriting them together, as no template is itself a join. */
  lemma RewireOneMore(n: StepNode, S: set<Id>, t: Id)
    requires BaseName(t)
    ensures Rewired(Rewired(n, S), {t}) == Rewired(n, S + {t})
  {
    forall s | s in {t} ensures BaseName(s) {}
    RewriteTwice(n.dependsOn, S, {t});
  }

  lemma UniqueAfterRewire(nodes: seq<StepNode>, S: set<Id>)
    requires UniqueIds(nodes)
    ensures UniqueIds(RewireAll(nodes, S))
    ensures GraphOf(RewireAll(nodes, S)).Keys == GraphOf(nodes).Keys
    ensures forall id :: id in GraphOf(nodes) ==> GraphOf(RewireAll(nodes, S))[id] == Rewired(GraphOf(nodes)[id], S)
  {
    var r := RewireAll(nodes, S);
    forall id | id in GraphOf(nodes)
      ensures id in GraphOf(r) && GraphOf(r)[id] == Rewired(GraphOf(nodes)[id], S)
    {
      var i :| 0 <= i < |nodes| && nodes[i] == GraphOf(nodes)[id];
      GraphOfRow(r, i);
    }
    forall id | id in GraphOf(r) ensures id in GraphOf(nodes) {
      var i :| 0 <= i < |r| && r[i] == GraphOf(r)[id];
      GraphOfRow(nodes, i);
    }
  }

  /** Half-way through, the next template still looks as it did at the start, and draws the same items. */
  lemma TemplateUntouched(nodes: seq<StepNode>, S: set<Id>, t: Id)
    requires UniqueIds(nodes) && S <= Expandable(GraphOf(nodes)) && t in Expandable(GraphOf(nodes)) && t !in S
    ensures UniqueIds(RewireAll(nodes, S)) && t in GraphOf(RewireAll(nodes, S))
    ensures GraphOf(RewireAll(nodes, S))[t] == GraphOf(nodes)[t]
    ensures Items(GraphOf(RewireAll(nodes, S)), GraphOf(nodes)[t]) == Items(GraphOf(nodes), GraphOf(nodes)[t])
  {
    UniqueAfterRewire(nodes, S);
    UntouchedRow(GraphOf(nodes), GraphOf(RewireAll(nodes, S)), S, t);
  }

  lemma UntouchedRow(g: Graph, g': Graph, S: set<Id>, t: Id)
    requires S <= Expandable(g) && t in Expandable(g) && t !in S && g[t].id == t
    requires g'.Keys == g.Keys && forall id :: id in g ==> g'[id] == Rewired(g[id], S)
    ensures g'[t] == g[t] && Items(g', g[t]) == Items(g, g[t])
  {
    forall d | d in g[t].dependsOn ensures d !in S { assert Satisfied(g, d); }
    assert RewriteDeps(g[t].dependsOn, S) == g[t].dependsOn;
  }

  /** The earliest retry among the first `k` nodes. */
  predicate EarliestAmongFirst(nodes: seq<StepNode>, k: nat, r: Option<Time>)
    requires k <= |nodes|
  {
    if r.None? then forall i :: 0 <= i < k ==> !nodes[i].status.Retrying?
    else
      && (exists i :: 0 <= i < k && nodes[i].status.Retrying? && nodes[i].status.nextRetryAt == r.value)
      && (forall i :: 0 <= i < k && nodes[i].status.Retrying? ==> r.value <= nodes[i].status.nextRetryAt)
  }

  lemma EarliestOfList(nodes: seq<StepNode>, r: Option<Time>)
    requires UniqueIds(nodes) && EarliestAmongFirst(nodes, |nodes|, r)
    ensures r.None? <==> !HasRetrying(GraphOf(nodes))
    ensures r.Some? ==> IsEarliestRetry(GraphOf(nodes), r.value)
  {
    var g := GraphOf(nodes);
    forall id | id in g && g[id].status.Retrying? ensures r.Some? && r.value <= g[id].status.nextRetryAt {
      var k :| 0 <= k < |nodes| && nodes[k] == g[id];
    }
    if r.Some? {
      var k :| 0 <= k < |nodes| && nodes[k].status.Retrying? && nodes[k].status.nextRetryAt == r.value;
      GraphOfRow(nodes, k);
      assert RetryingAt(g, nodes[k].id, r.value);
    }
  }

  // ── The object ───────────────────────────────────────────────────────

  class Workflow {
    var nodes: seq<StepNode>

    constructor (nodes: seq<StepNode>)
      ensures this.nodes == nodes
    {
      this.nodes := nodes;
    }

    // Transitions. Each finds its step, checks the state it comes from, and changes that step only.

    method MarkRunning(stepId: Id) returns (r: Result<(), WorkflowError>)
      modifies this
      ensures match IndexOf(old(nodes), stepId)
        case None => r == Err(StepNotFound(stepId)) && nodes == old(nodes)
        case Some(i) =>
          var from := old(nodes)[i].status;
          if from.Pending? || from.Ready? || from.Retrying?
          then r.Ok? && nodes == old(nodes)[i := old(nodes)[i].(status := Running)]
          else r == Err(InvalidTransition(stepId, from)) && nodes == old(nodes)
    {
      var i := IndexOf(nodes, stepId);
      if i.None? { return Err(StepNotFound(stepId)); }
      var step := nodes[i.value];
      match step.status {
        case Pending | Ready | Retrying(_, _) =>
          nodes := nodes[i.value := step.(status := Running)];
          return Ok(());
        case other => return Err(InvalidTransition(stepId, step.status));
      }
    }

    method MarkSucceeded(stepId: Id, output: Json) returns (r: Result<(), WorkflowError>)
      modifies this
      ensures match IndexOf(old(nodes), stepId)
        case None => r == Err(StepNotFound(stepId)) && nodes == old(nodes)
        case Some(i) =>
          var from := old(nodes)[i].status;
          if from.Running?
          then r.Ok? && nodes == old(nodes)[i := old(nodes)[i].(status := Succeeded, output := Some(output))]
          else r == Err(InvalidTransition(stepId, from)) && nodes == old(nodes)
    {
      var i := IndexOf(nodes, stepId);
      if i.None? { return Err(StepNotFound(stepId)); }
      var step := nodes[i.value];
      if !step.status.Running? { return Err(InvalidTransition(stepId, step.status)); }
      nodes := nodes[i.value := step.(status := Succeeded, output := Some(output))];
      return Ok(());
    }

    method HandleFailure(stepId: Id, patternHit: bool, now: Time) returns (r: Result<StepStatus, WorkflowError>)
      modifies this
      ensures match IndexOf(old(nodes), stepId)
        case None => r == Err(StepNotFound(stepId)) && nodes == old(nodes)
        case Some(i) =>
          var from := old(nodes)[i].status;
          if from.Running?
          then nodes == old(nodes)[i := FailStep(old(nodes)[i], patternHit, now)] && r == Ok(nodes[i].status)
          else r == Err(InvalidTransition(stepId, from)) && nodes == old(nodes)
    {
      var i := IndexOf(nodes, stepId);
      if i.None? { return Err(StepNotFound(stepId)); }
      var step := nodes[i.value];
      if !step.status.Running? { return Err(InvalidTransition(stepId, step.status)); }
      step := step.(attempt := step.attempt + 1);
      if step.attempt < step.retryPolicy.maxAttempts && step.retryPolicy.Matches(patternHit) {
        var delay := BackoffDelay(step.retryPolicy, step.attempt);
        step := step.(status := Retrying(step.attempt, now + delay));
      } else {
        step := step.(status := Failed);
      }
      nodes := nodes[i.value := step];
      return Ok(step.status);
    }

    method MarkSkipped(stepId: Id) returns (r: Result<(), WorkflowError>)
      modifies this
      ensures match IndexOf(old(nodes), stepId)
        case None => r == Err(StepNotFound(stepId)) && nodes == old(nodes)
        case Some(i) =>
          var from := old(nodes)[i].status;
          if from.Pending? || from.Ready?
          then r.Ok? && nodes == old(nodes)[i := old(nodes)[i].(status := Skipped)]
          else r == Err(InvalidTransition(stepId, from)) && nodes == old(nodes)
    {
      var i := IndexOf(nodes, stepId);
      if i.None? { return Err(StepNotFound(stepId)); }
      var step := nodes[i.value];
      if !step.status.Pending? && !step.status.Ready? { return Err(InvalidTransition(stepId, step.status)); }
      nodes := nodes[i.value := step.(status := Skipped)];
      return Ok(());
    }

    /** The silent form of `mark_running` that the engine uses: it changes nothing where that one returns an error. */
    method MarkRunningInMemory(stepId: Id)
      modifies this
      ensures match IndexOf(old(nodes), stepId)
        case None => nodes == old(nodes)
        case Some(i) =>
          var from := old(nodes)[i].status;
          nodes == if from.Pending? || from.Ready? || from.Retrying?
                   then old(nodes)[i := old(nodes)[i].(status := Running)] else old(nodes)
    {
      var i := IndexOf(nodes, stepId);
      if i.None? { return; }
      var step := nodes[i.value];
      if step.status.Pending? || step.status.Ready? || step.status.Retrying? {
        nodes := nodes[i.value := step.(status := Running)];
      }
    }

    /** The engine's own assignment for a step that waits for a person or for children. */
    method SetStatus(stepId: Id, status: StepStatus)
      modifies this
      ensures match IndexOf(old(nodes), stepId)
        case None => nodes == old(nodes)
        case Some(i) => nodes == old(nodes)[i := old(nodes)[i].(status := status)]
    {
      var i := IndexOf(nodes, stepId);
      if i.Some? { nodes := nodes[i.value := nodes[i.value].(status := status)]; }
    }

    // Queries.

    method ReadySteps(now: Time) returns (ready: seq<StepNode>)
      requires UniqueIds(nodes)
      ensures UniqueIds(ready)
      ensures forall n :: n in ready <==> n in nodes && IsReady(GraphOf(nodes), n, now)
      ensures (set n | n in ready :: n.id) == ReadySet(GraphOf(nodes), now)
    {
      ready := [];
      for i := 0 to |nodes|
        invariant UniqueIds(ready)
        invariant forall n :: n in ready <==> n in nodes[..i] && IsReady(GraphOf(nodes), n, now)
      {
        assert nodes[..i + 1] == nodes[..i] + [nodes[i]];
        assert forall n :: n in ready ==> n.id != nodes[i].id;
        if IsReady(GraphOf(nodes), nodes[i], now) { ready := ready + [nodes[i]]; }
      }
      assert nodes[..|nodes|] == nodes;
      forall id | id in ReadySet(GraphOf(nodes), now) ensures id in set n | n in ready :: n.id {
        assert GraphOf(nodes)[id] in ready;
      }
    }

    method NextRetryTime() returns (r: Option<Time>)
      requires UniqueIds(nodes)
      ensures r.None? <==> !HasRetrying(GraphOf(nodes))
      ensures r.Some? ==> IsEarliestRetry(GraphOf(nodes), r.value)
    {
      r := None;
      for i := 0 to |nodes|
        invariant EarliestAmongFirst(nodes, i, r)
      {
        if nodes[i].status.Retrying? {
          var at := nodes[i].status.nextRetryAt;
          if r.None? || at < r.value { r := Some(at); }
        }
      }
      EarliestOfList(nodes, r);
    }

    // ForEach expansion.

    /** Templates are named by plans, so none of them is the join of another. */
    ghost predicate TemplatesNamed()
      reads this
    {
      forall i :: 0 <= i < |nodes| && nodes[i].kind.ForEachTemplate? ==> BaseName(nodes[i].id)
    }

    method ExpandForeachNodes() returns (r: Option<Expansion>)
      requires UniqueIds(nodes) && TemplatesNamed() && !Hangs(GraphOf(nodes))
      modifies this
      ensures var T := Expandable(GraphOf(old(nodes)));
        && (r.None? <==> T == {})
        && (r.None? ==> nodes == old(nodes))
        && (r.Some? ==>
              && r.value.newSteps == NewNodes(GraphOf(old(nodes)), Templates(old(nodes)))
              && nodes == RewireAll(old(nodes), T) + r.value.newSteps
              && r.value.updatedDeps == AllUpdates(old(nodes), Templates(old(nodes))))
    {
      var start := nodes;
      var toExpand := CollectTemplates(GraphOf(nodes), nodes);
      TemplatesAreAll(start);
      if toExpand == [] {
        assert ToSet(toExpand) == {};
        return None;
      }
      assert toExpand[0] in ToSet(toExpand);
      forall t | t in toExpand ensures t in Expandable(GraphOf(start)) && BaseName(t) && RendersAll(GraphOf(start), GraphOf(start)[t]) {
        assert t in ToSet(toExpand) && GraphOf(start)[t] in start;
      }
      var added, updated;
      nodes, added, updated := ExpandAll(start, toExpand);
      nodes := nodes + added;
      return Some(Expansion(added, updated));
    }
  }

  method CollectTemplates(g: Graph, nodes: seq<StepNode>) returns (toExpand: seq<Id>)
    ensures toExpand == TemplatesUpTo(g, nodes, |nodes|)
  {
    toExpand := [];
    for i := 0 to |nodes|
      invariant toExpand == TemplatesUpTo(g, nodes, i)
    {
      if CanStartExpansion(g, nodes[i]) { toExpand := toExpand + [nodes[i].id]; }
    }
  }

  /** The loop over the templates to expand, one after the other. */
  method ExpandAll(start: seq<StepNode>, toExpand: seq<Id>)
    returns (nodes: seq<StepNode>, added: seq<StepNode>, updated: seq<DepsUpdate>)
    requires UniqueIds(start)
    requires forall t :: t in toExpand ==> t in GraphOf(start) && t in Expandable(GraphOf(start)) && BaseName(t)
    requires forall t :: t in toExpand ==> RendersAll(GraphOf(start), GraphOf(start)[t])
    requires forall i, j :: 0 <= i < j < |toExpand| ==> toExpand[i] != toExpand[j]
    ensures nodes == RewireAll(start, ToSet(toExpand))
    ensures added == NewNodes(GraphOf(start), toExpand)
    ensures updated == AllUpdates(start, toExpand)
  {
    nodes, added, updated := start, [], [];
    ghost var done: seq<Id> := [];
    NothingYet(start);
    for k := 0 to |toExpand|
      invariant done == toExpand[..k]
      invariant nodes == RewireAll(start, ToSet(done))
      invariant forall t :: t in done ==> t in GraphOf(start)
      invariant added == NewNodes(GraphOf(start), done)
      invariant updated == AllUpdates(start, done)
    {
      var t := toExpand[k];
      OneMore(toExpand, k);
      var newNodes, moreUpdates;
      nodes, newNodes, moreUpdates := ExpandOne(start, nodes, done, t);
      added, updated := added + newNodes, updated + moreUpdates;
      done := done + [t];
    }
    assert done == toExpand;
  }

  lemma OneMore(ids: seq<Id>, k: nat)
    requires k < |ids|
    requires forall i, j :: 0 <= i < j < |ids| ==> ids[i] != ids[j]
    ensures ids[..k + 1] == ids[..k] + [ids[k]] && ids[k] !in ids[..k]
    ensures forall t :: t in ids[..k] + [ids[k]] ==> t in ids
  {
  }

  /** One template: its items and join, and one pass over the nodes. */
  method ExpandOne(ghost start: seq<StepNode>, nodes: seq<StepNode>, ghost done: seq<Id>, t: Id)
    returns (r: seq<StepNode>, added: seq<StepNode>, updated: seq<DepsUpdate>)
    requires UniqueIds(start) && nodes == RewireAll(start, ToSet(done))
    requires forall s :: s in done + [t] ==> s in GraphOf(start) && s in Expandable(GraphOf(start)) && BaseName(s)
    requires t !in done && RendersAll(GraphOf(start), GraphOf(start)[t])
    ensures r == RewireAll(start, ToSet(done + [t]))
    ensures NewNodes(GraphOf(start), done + [t]) == NewNodes(GraphOf(start), done) + added
    ensures AllUpdates(start, done + [t]) == AllUpdates(start, done) + updated
  {
    NextTemplate(start, done, t);
    var template := GraphOf(nodes)[t];
    var items := Items(GraphOf(nodes), template);
    var children := BuildItems(template, items);
    added := children + [JoinNode(template, |items|)];
    NewNodesOneMore(GraphOf(start), done, t);
    r, updated := RewireOne(nodes, t);
  }

  /** What the next template and the node list look like half-way through. */
  lemma NextTemplate(start: seq<StepNode>, done: seq<Id>, t: Id)
    requires UniqueIds(start) && t !in done
    requires forall s :: s in done + [t] ==> s in GraphOf(start) && s in Expandable(GraphOf(start)) && BaseName(s)
    ensures var nodes := RewireAll(start, ToSet(done));
            && UniqueIds(nodes) && t in GraphOf(nodes) && GraphOf(nodes)[t] == GraphOf(start)[t]
            && Items(GraphOf(nodes), GraphOf(start)[t]) == Items(GraphOf(start), GraphOf(start)[t])
            && RewireAll(nodes, {t}) == RewireAll(start, ToSet(done + [t]))
            && AllUpdates(start, done + [t]) == AllUpdates(start, done) + PassUpdates(nodes, t, |nodes|)
  {
    var S := ToSet(done);
    assert (done + [t])[..|done|] == done && t in done + [t];
    assert S + {t} == ToSet(done + [t]);
    forall s | s in S ensures s in Expandable(GraphOf(start)) { assert s in done + [t]; }
    TemplateUntouched(start, S, t);
    RewireStep(start, S, t);
  }

  lemma NewNodesOneMore(g: Graph, done: seq<Id>, t: Id)
    requires forall s :: s in done + [t] ==> s in g
    ensures t in g && forall s :: s in done ==> s in g
    ensures NewNodes(g, done + [t]) == NewNodes(g, done) + (ItemNodes(g[t], Items(g, g[t])) + [JoinNode(g[t], |Items(g, g[t])|)])
  {
    assert t in done + [t];
    assert (done + [t])[..|done|] == done;
  }

  lemma NothingYet(nodes: seq<StepNode>)
    ensures RewireAll(nodes, ToSet([])) == nodes
  {
    assert ToSet([]) == {};
    forall i | 0 <= i < |nodes| ensures Rewired(nodes[i], {}) == nodes[i] {
      assert RewriteDeps(nodes[i].dependsOn, {}) == nodes[i].dependsOn;
    }
  }

  /** The item loop: one child per element of the collection. */
  method BuildItems(template: StepNode, items: seq<Json>) returns (children: seq<StepNode>)
    requires RendersFor(template, items)
    ensures children == ItemNodes(template, items)
  {
    children := [];
    for i := 0 to |items|
      invariant children == ItemNodes(template, items)[..i]
    {
      var child := BuildItem(template, i, items[i]);
      children := children + [child];
    }
  }

  /** A copy of the template under its own name, with its arguments rendered. */
  method BuildItem(template: StepNode, index: nat, item: Json) returns (child: StepNode)
    requires template.toolArgs.Some? ==> Ends(template.toolArgs.value, item)
    ensures child == ItemNode(template, index, item)
  {
    child := template.(id := ItemId(template.id, index), kind := ForEachItem(template.id, index), status := Pending);
    if child.toolArgs.Some? {
      var args := RenderItemTemplate(child.toolArgs.value, item);
      child := child.(toolArgs := Some(args));
    }
  }

  /** One pass over the nodes: the template is done, and whoever waited for it waits for its join. */
  method RewireOne(nodes: seq<StepNode>, t: Id) returns (r: seq<StepNode>, updated: seq<DepsUpdate>)
    ensures r == RewireAll(nodes, {t})
    ensures updated == PassUpdates(nodes, t, |nodes|)
  {
    r, updated := [], [];
    for i := 0 to |nodes|
      invariant r == RewireAll(nodes, {t})[..i]
      invariant updated == PassUpdates(nodes, t, i)
    {
      var n := Rewired(nodes[i], {t});
      r := r + [n];
      if t in nodes[i].dependsOn { updated := updated + [DepsUpdate(n.id, n.dependsOn)]; }
    }
  }

  lemma RewireStep(nodes: seq<StepNode>, S: set<Id>, t: Id)
    requires BaseName(t)
    ensures RewireAll(RewireAll(nodes, S), {t}) == RewireAll(nodes, S + {t})
  {
    forall i | 0 <= i < |nodes| ensures Rewired(Rewired(nodes[i], S), {t}) == Rewired(nodes[i], S + {t}) {
      RewireOneMore(nodes[i], S, t);
    }
  }

  // ── The list and the table ───────────────────────────────────────────

  /** The update statements of `save_expanded_nodes`, in order. */
  function ApplyUpdates(rows: Graph, updates: seq<DepsUpdate>): Graph {
    if updates == [] then rows
    else
      var before := ApplyUpdates(rows, updates[..|updates| - 1]);
      var u := updates[|updates| - 1];
      if u.stepId in before then before[u.stepId := before[u.stepId].(dependsOn := u.dependsOn)] else before
  }

  lemma {:induction false} ApplyAppend(rows: Graph, a: seq<DepsUpdate>, b: seq<DepsUpdate>)
    ensures ApplyUpdates(rows, a + b) == ApplyUpdates(ApplyUpdates(rows, a), b)
    decreases |b|
  {
    if b == [] {
      assert a + b == a;
    } else {
      assert (a + b)[..|a + b| - 1] == a + b[..|b| - 1];
      ApplyAppend(rows, a, b[..|b| - 1]);
    }
  }

  /** One pass of updates rewrites the dependency lists of the table as it does those of the list. */
  lemma {:induction false} PassApplies(rows: Graph, nodes: seq<StepNode>, t: Id, k: nat)
    requires UniqueIds(nodes) && k <= |nodes|
    requires forall i :: 0 <= i < |nodes| ==> nodes[i].id in rows && rows[nodes[i].id].dependsOn == nodes[i].dependsOn
    ensures Passed(rows, ApplyUpdates(rows, PassUpdates(nodes, t, k)), nodes, t, k)
  {
    if k > 0 {
      PassApplies(rows, nodes, t, k - 1);
      var n, before := nodes[k - 1], PassUpdates(nodes, t, k - 1);
      var deps := RewriteDeps(n.dependsOn, {t});
      PassOneMore(rows, ApplyUpdates(rows, before), nodes, t, k);
      if t in n.dependsOn {
        ApplyAppend(rows, before, [DepsUpdate(n.id, deps)]);
        assert [DepsUpdate(n.id, deps)][..0] == [];
      } else {
        assert PassUpdates(nodes, t, k) == before;
      }
    }
  }

  /** The rows of the first `k` nodes are rewritten for `t`, and the others are as they were. */
  ghost predicate Passed(rows: Graph, r: Graph, nodes: seq<StepNode>, t: Id, k: nat)
    requires k <= |nodes|
  {
    && r.Keys == rows.Keys
    && (forall i :: 0 <= i < k ==>
          nodes[i].id in r && r[nodes[i].id] == rows[nodes[i].id].(dependsOn := RewriteDeps(nodes[i].dependsOn, {t})))
    && (forall id :: id in rows && (forall i :: 0 <= i < k ==> nodes[i].id != id) ==> r[id] == rows[id])
  }

  lemma PassOneMore(rows: Graph, r: Graph, nodes: seq<StepNode>, t: Id, k: nat)
    requires UniqueIds(nodes) && 0 < k <= |nodes| && Passed(rows, r, nodes, t, k - 1)
    requires nodes[k - 1].id in rows && rows[nodes[k - 1].id].dependsOn == nodes[k - 1].dependsOn
    ensures var n := nodes[k - 1];
            && n.id in r
            && Passed(rows, r[n.id := r[n.id].(dependsOn := RewriteDeps(n.dependsOn, {t}))], nodes, t, k)
            && (t !in n.dependsOn ==> Passed(rows, r, nodes, t, k))
  {
    var n := nodes[k - 1];
    assert r[n.id] == rows[n.id];
    if t !in n.dependsOn { assert RewriteDeps(n.dependsOn, {t}) == n.dependsOn; }
  }

  /** The table holds the nodes, with their dependency lists rewritten for `S`. */
  predicate Holds(rows: Graph, nodes: seq<StepNode>, S: set<Id>) {
    forall i :: 0 <= i < |nodes| ==>
      nodes[i].id in rows && rows[nodes[i].id] == nodes[i].(dependsOn := RewriteDeps(nodes[i].dependsOn, S))
  }

  lemma TableHolds(nodes: seq<StepNode>)
    requires UniqueIds(nodes)
    ensures Holds(GraphOf(nodes), nodes, {})
  {
    forall i | 0 <= i < |nodes|
      ensures nodes[i].id in GraphOf(nodes)
      ensures GraphOf(nodes)[nodes[i].id] == nodes[i].(dependsOn := RewriteDeps(nodes[i].dependsOn, {}))
    {
      GraphOfRow(nodes, i);
      assert RewriteDeps(nodes[i].dependsOn, {}) == nodes[i].dependsOn;
    }
  }

  lemma {:induction false} UpdatesApply(rows: Graph, nodes: seq<StepNode>, templates: seq<Id>)
    requires UniqueIds(nodes) && Holds(rows, nodes, {}) && forall t :: t in templates ==> BaseName(t)
    ensures ApplyUpdates(rows, AllUpdates(nodes, templates)).Keys == rows.Keys
    ensures Holds(ApplyUpdates(rows, AllUpdates(nodes, templates)), nodes, ToSet(templates))
  {
    if templates == [] {
      assert ToSet(templates) == {};
    } else {
      var k := |templates| - 1;
      var S, t := ToSet(templates[..k]), templates[k];
      UpdatesApply(rows, nodes, templates[..k]);
      ApplyAppend(rows, AllUpdates(nodes, templates[..k]), PassUpdates(RewireAll(nodes, S), t, |nodes|));
      assert S + {t} == ToSet(templates);
      PassAfterRewire(ApplyUpdates(rows, AllUpdates(nodes, templates[..k])), nodes, S, t);
    }
  }

  lemma PassAfterRewire(half: Graph, nodes: seq<StepNode>, S: set<Id>, t: Id)
    requires UniqueIds(nodes) && BaseName(t) && Holds(half, nodes, S)
    ensures ApplyUpdates(half, PassUpdates(RewireAll(nodes, S), t, |nodes|)).Keys == half.Keys
    ensures Holds(ApplyUpdates(half, PassUpdates(RewireAll(nodes, S), t, |nodes|)), nodes, S + {t})
  {
    var rewired := RewireAll(nodes, S);
    PassApplies(half, rewired, t, |nodes|);
    var r := ApplyUpdates(half, PassUpdates(rewired, t, |nodes|));
    forall i | 0 <= i < |nodes|
      ensures nodes[i].id in r && r[nodes[i].id] == nodes[i].(dependsOn := RewriteDeps(nodes[i].dependsOn, S + {t}))
    {
      assert rewired[i].id == nodes[i].id;
      RewireOneMore(nodes[i], S, t);
    }
  }
}
