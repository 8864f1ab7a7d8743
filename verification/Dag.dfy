/**
 The execution DAG: step nodes, their state machine, and the pure queries of a workflow.
 A graph is a table of nodes keyed by step id, as the workflow store keeps it.
 */
module Dag {
  import opened Wrappers
  import opened Arithmetic
  import opened Text
  import opened JsonValues
  import opened Conditions
  import opened ItemTemplates

  type Id = string
  type Time = int

  datatype StepStatus =
    | Pending
    | Ready
    | Running
    | Succeeded
    | Failed
    | Skipped
    | Retrying(attempt: nat, nextRetryAt: Time)
    | AwaitingInput
    | AwaitingChildren
  {
    predicate Terminal() { Succeeded? || Failed? || Skipped? }

    /** The states in which somebody else still owns the step. */
    predicate Active() { Running? || Retrying? || AwaitingInput? || AwaitingChildren? }
  }

  datatype StepKind =
    | Normal
    | ForEachTemplate
    | ForEachItem(parent: Id, index: nat)
    | ForEachJoin(parent: Id)

  datatype RetryPolicy = RetryPolicy(maxAttempts: nat, backoffSecs: nat, retryOn: seq<string>)
  {
    /** `matches_retry_condition`; `patternHit` says whether some pattern matches the error. */
    predicate Matches(patternHit: bool) { retryOn == [] || patternHit }
  }

  const DEFAULT_POLICY := RetryPolicy(1, 2, [])

  datatype StepNode = StepNode(
    id: Id,
    index: nat,
    tool: Option<string>,
    toolArgs: Option<Json>,
    condition: Option<StepCondition>,
    foreach: Option<string>,
    kind: StepKind,
    dependsOn: seq<Id>,
    status: StepStatus,
    attempt: nat,
    retryPolicy: RetryPolicy,
    output: Option<Json>)

  type Graph = map<Id, StepNode>

  /** A node list in which every id occurs once. */
  predicate UniqueIds(nodes: seq<StepNode>) {
    forall i, j :: 0 <= i < j < |nodes| ==> nodes[i].id != nodes[j].id
  }

  /** Position of the first node with an id. */
  function IndexOf(nodes: seq<StepNode>, id: Id): (r: Option<nat>)
    ensures r.Some? ==> r.value < |nodes| && nodes[r.value].id == id
    ensures r.Some? ==> forall i :: 0 <= i < r.value ==> nodes[i].id != id
    ensures r.None? ==> forall i :: 0 <= i < |nodes| ==> nodes[i].id != id
  {
    if nodes == [] then None
    else if nodes[0].id == id then Some(0)
    else
      var rest := IndexOf(nodes[1..], id);
      if rest.Some? then Some(rest.value + 1) else None
  }

  /** The table of a node list. */
  function GraphOf(nodes: seq<StepNode>): (g: Graph)
    requires UniqueIds(nodes)
    ensures forall id :: id in g ==> g[id].id == id && g[id] in nodes
    ensures forall n :: n in nodes ==> n.id in g && g[n.id] == n
  {
    if nodes == [] then map[]
    else
      var k := |nodes| - 1;
      assert forall n :: n in nodes ==> n in nodes[..k] || n == nodes[k];
      GraphOf(nodes[..k])[nodes[k].id := nodes[k]]
  }

  lemma GraphOfRow(nodes: seq<StepNode>, i: nat)
    requires UniqueIds(nodes) && i < |nodes|
    ensures nodes[i].id in GraphOf(nodes) && GraphOf(nodes)[nodes[i].id] == nodes[i]
  {
    assert nodes[i] in nodes;
  }

  // ── Queries ──────────────────────────────────────────────────────────

  predicate Satisfied(g: Graph, dep: Id) {
    dep in g && (g[dep].status.Succeeded? || g[dep].status.Skipped?)
  }

  predicate DepsSatisfied(g: Graph, n: StepNode) {
    forall d :: d in n.dependsOn ==> Satisfied(g, d)
  }

  /** `ready_steps` at clock `now`. */
  predicate IsReady(g: Graph, n: StepNode, now: Time) {
    match n.status
    case Pending => DepsSatisfied(g, n)
    case Retrying(_, at) => now >= at
    case _ => false
  }

  function ReadySet(g: Graph, now: Time): set<Id> {
    set id | id in g && IsReady(g, g[id], now)
  }

  predicate IsComplete(g: Graph) { forall id :: id in g ==> g[id].status.Terminal() }

  predicate HasActive(g: Graph) { exists id :: id in g && g[id].status.Active() }

  predicate IsDeadlocked(g: Graph, now: Time) {
    !IsComplete(g) && !HasActive(g) && ReadySet(g, now) == {}
  }

  function FailedSteps(g: Graph): set<Id> { set id | id in g && g[id].status.Failed? }

  // ── Retry backoff ────────────────────────────────────────────────────

  const TWO_63: nat := 0x8000_0000_0000_0000
  const TWO_64: nat := 0x1_0000_0000_0000_0000

  /** Reinterpretation of a u64 as an i64. */
  function AsI64(n: nat): int
    requires n < TWO_64
  {
    if n < TWO_63 then n else n - TWO_64
  }

  /** The delay before retry number `attempt`, in the machine arithmetic of the engine. */
  function BackoffDelay(p: RetryPolicy, attempt: nat): int
    requires attempt > 0
  {
    AsI64(p.backoffSecs * (Pow2(attempt - 1) % TWO_64) % TWO_64)
  }

  // ── Transitions of one node ──────────────────────────────────────────

  /** A failed execution: another retry while the policy allows one, else terminal failure. */
  function FailStep(n: StepNode, patternHit: bool, at: Time): StepNode {
    var attempt := n.attempt + 1;
    if attempt < n.retryPolicy.maxAttempts && n.retryPolicy.Matches(patternHit)
    then n.(attempt := attempt, status := Retrying(attempt, at + BackoffDelay(n.retryPolicy, attempt)))
    else n.(attempt := attempt, status := Failed)
  }

  // ── ForEach expansion ────────────────────────────────────────────────

  function JoinId(template: Id): Id { template + "_join" }

  function ItemId(template: Id, index: nat): Id { template + "[" + Decimal(index) + "]" }

  function ItemIds(template: Id, count: nat): (ids: seq<Id>) {
    seq(count, i requires 0 <= i < count => ItemId(template, i))
  }

  /** The output a foreach expression draws from: `deps.<step>` or `deps.<step>.<key>`. */
  datatype Collection = NoCollection | Whole(dep: Id) | Keyed(dep: Id, key: string)

  function ParseCollection(expression: string): Collection {
    var parts := Split(expression, '.');
    if |parts| >= 3 && parts[0] == "deps" then Keyed(parts[1], parts[2])
    else if |parts| == 2 && parts[0] == "deps" then Whole(parts[1])
    else NoCollection
  }

  function ItemsOf(c: Collection, output: Option<Json>): seq<Json> {
    if output.None? then []
    else match c
      case NoCollection => []
      case Whole(_) => if output.value.Array? then output.value.items else []
      case Keyed(_, key) =>
        var v := Field(output.value, key);
        if v.Some? && v.value.Array? then v.value.items else []
  }

  function ForeachCollection(n: StepNode): Collection {
    if n.foreach.Some? then ParseCollection(n.foreach.value) else NoCollection
  }

  function OutputOf(g: Graph, id: Id): Option<Json> { if id in g then g[id].output else None }

  /** The items a template expands into. */
  function Items(g: Graph, n: StepNode): seq<Json> {
    var c := ForeachCollection(n);
    if c.NoCollection? then [] else ItemsOf(c, OutputOf(g, c.dep))
  }

  /** The rendering of a template's arguments ends for every item. */
  ghost predicate RendersAll(g: Graph, n: StepNode) { RendersFor(n, Items(g, n)) }

  ghost predicate RendersFor(n: StepNode, items: seq<Json>) {
    n.toolArgs.Some? ==> forall i :: 0 <= i < |items| ==> Ends(n.toolArgs.value, items[i])
  }

  ghost function RenderArgs(args: Option<Json>, item: Json): Option<Json> {
    if args.Some? then Some(Render(args.value, item)) else None
  }

  ghost function ItemNode(template: StepNode, index: nat, item: Json): StepNode {
    template.(id := ItemId(template.id, index),
              kind := ForEachItem(template.id, index),
              status := Pending,
              toolArgs := RenderArgs(template.toolArgs, item))
  }

  function JoinNode(template: StepNode, count: nat): StepNode {
    template.(id := JoinId(template.id),
              kind := ForEachJoin(template.id),
              dependsOn := ItemIds(template.id, count),
              status := Pending,
              tool := None)
  }

  /** The templates that `expand_foreach_nodes` expands. */
  function Expandable(g: Graph): set<Id> {
    set t | t in g && g[t].kind.ForEachTemplate? && g[t].status.Pending? && DepsSatisfied(g, g[t])
  }

  function RewriteDeps(deps: seq<Id>, templates: set<Id>): (r: seq<Id>)
    ensures |r| == |deps|
  {
    seq(|deps|, i requires 0 <= i < |deps| => if deps[i] in templates then JoinId(deps[i]) else deps[i])
  }

  /** An old node after the expansion of `templates`. */
  function Rewired(n: StepNode, templates: set<Id>): StepNode {
    n.(dependsOn := RewriteDeps(n.dependsOn, templates),
       status := if n.id in templates then Succeeded else n.status)
  }

  ghost predicate IsJoinOf(id: Id, templates: set<Id>) { exists t :: t in templates && id == JoinId(t) }

  ghost function NewIds(g: Graph, templates: set<Id>): set<Id>
    requires templates <= g.Keys
  {
    (set t | t in templates :: JoinId(t)) +
    (set t, i | t in templates && 0 <= i < |Items(g, g[t])| :: ItemId(t, i))
  }

  /** The new node with a given id. */
  ghost function NewNode(g: Graph, templates: set<Id>, id: Id): StepNode
    requires templates <= g.Keys
    requires id in NewIds(g, templates)
  {
    if IsJoinOf(id, templates) then
      var t :| t in templates && id == JoinId(t);
      JoinNode(g[t], |Items(g, g[t])|)
    else
      var t, i :| t in templates && 0 <= i < |Items(g, g[t])| && id == ItemId(t, i);
      ItemNode(g[t], i, Items(g, g[t])[i])
  }

  /** The graph after the expansion of `templates`, as the engine holds it in memory. */
  ghost function Expand(g: Graph, templates: set<Id>): Graph
    requires templates <= g.Keys
  {
    map id | id in g.Keys + NewIds(g, templates) ::
      if id in g then Rewired(g[id], templates) else NewNode(g, templates, id)
  }

  // ── Names of expanded steps ──────────────────────────────────────────

  lemma JoinIdInjective(s: Id, t: Id)
    requires JoinId(s) == JoinId(t)
    ensures s == t
  {
    assert s == JoinId(s)[..|JoinId(s)| - 5];
    assert t == JoinId(t)[..|JoinId(t)| - 5];
  }

  lemma JoinIsNotItem(s: Id, t: Id, i: nat)
    ensures JoinId(s) != ItemId(t, i)
  {
    assert JoinId(s)[|JoinId(s)| - 1] == 'n';
    assert ItemId(t, i)[|ItemId(t, i)| - 1] == ']';
  }

  /** The bracket that opens the index is the last one, so an item's name tells its parent and index. */
  lemma ItemIdInjective(s: Id, i: nat, t: Id, j: nat)
    requires ItemId(s, i) == ItemId(t, j)
    ensures s == t && i == j
  {
    var name := ItemId(s, i);
    assert name[|s|] == '[' && name[|t|] == '[';
    assert name[|s| + 1..|name| - 1] == Decimal(i);
    assert name[|t| + 1..|name| - 1] == Decimal(j);
    assert forall k :: |s| < k < |name| - 1 ==> name[k] == Decimal(i)[k - |s| - 1];
    assert forall k :: |t| < k < |name| - 1 ==> name[k] == Decimal(j)[k - |t| - 1];
    assert name[..|s|] == s && name[..|t|] == t;
    DecimalInjective(i, j);
  }

  /** What an expansion adds, by name. */
  lemma ExpandNew(g: Graph, templates: set<Id>, t: Id)
    requires templates <= g.Keys && t in templates
    requires NewIds(g, templates) !! g.Keys
    ensures JoinId(t) in Expand(g, templates)
    ensures Expand(g, templates)[JoinId(t)] == JoinNode(g[t], |Items(g, g[t])|)
    ensures forall i :: 0 <= i < |Items(g, g[t])| ==>
              && ItemId(t, i) in Expand(g, templates)
              && Expand(g, templates)[ItemId(t, i)] == ItemNode(g[t], i, Items(g, g[t])[i])
  {
    var g1 := Expand(g, templates);
    assert JoinId(t) in NewIds(g, templates);
    forall s | s in templates && JoinId(t) == JoinId(s) ensures s == t { JoinIdInjective(s, t); }
    forall i | 0 <= i < |Items(g, g[t])|
      ensures ItemId(t, i) in g1 && g1[ItemId(t, i)] == ItemNode(g[t], i, Items(g, g[t])[i])
    {
      assert ItemId(t, i) in NewIds(g, templates);
      forall s | s in templates ensures ItemId(t, i) != JoinId(s) { JoinIsNotItem(s, t, i); }
      forall s, j: nat | s in templates && ItemId(t, i) == ItemId(s, j) ensures s == t && j == i {
        ItemIdInjective(s, j, t, i);
      }
    }
  }

  /** A new id is the join or an item of one of the templates. */
  lemma NewIdOrigin(g: Graph, templates: set<Id>, id: Id) returns (t: Id, i: nat)
    requires templates <= g.Keys && id in NewIds(g, templates)
    ensures t in templates
    ensures id == JoinId(t) || (i < |Items(g, g[t])| && id == ItemId(t, i))
  {
    if IsJoinOf(id, templates) {
      t :| t in templates && id == JoinId(t);
      i := 0;
    } else {
      t, i :| t in templates && 0 <= i < |Items(g, g[t])| && id == ItemId(t, i);
    }
  }
}
