/**
 How the graph itself evolves: every stored graph is the initial one with some templates expanded.
 From that follow unique names, closed dependencies and acyclicity, however often it is rewritten.
 */
module GraphShape {
  import opened Wrappers
  import opened Text
  import opened Dag
  import opened Engine

  // ── Initial graphs ───────────────────────────────────────────────────

  /** The id under which the engine reports a task that panicked. */
  const UNKNOWN := "unknown"

  /** The names plans give to steps: no join or item is called like this, and no lost task is reported under it. */
  predicate BaseName(id: Id) { '_' !in id && '[' !in id && id != UNKNOWN }

  predicate InitialNode(g0: Graph, n: StepNode) {
    && BaseName(n.id)
    && (n.kind.Normal? || n.kind.ForEachTemplate?)
    && n.status.Pending? && n.attempt == 0 && n.output.None?
    && forall d :: d in n.dependsOn ==> d in g0
  }

  predicate InitialGraph(g0: Graph) {
    forall id :: id in g0 ==> g0[id].id == id && InitialNode(g0, g0[id])
  }

  /** A numbering of the steps that decreases along dependencies. */
  predicate Ranked(g0: Graph, rho: map<Id, nat>) {
    && rho.Keys == g0.Keys
    && forall id, d :: id in g0 && d in g0[id].dependsOn ==> d in rho && rho[d] < rho[id]
  }

  // ── Shape ────────────────────────────────────────────────────────────

  /** A node without its progress. */
  function Static(n: StepNode): StepNode { n.(status := Pending, attempt := 0, output := None) }

  predicate IsTemplate(g0: Graph, t: Id) { t in g0 && g0[t].kind.ForEachTemplate? }

  /** The templates that have been expanded. */
  function Expanded(g0: Graph, g: Graph): set<Id> {
    set t | t in g0 && IsTemplate(g0, t) && JoinId(t) in g
  }

  predicate ItemShape(g0: Graph, g: Graph, n: StepNode) {
    && n.kind.ForEachItem?
    && n.id == ItemId(n.kind.parent, n.kind.index)
    && n.kind.parent in Expanded(g0, g)
    && n.kind.parent in g && n.dependsOn == g[n.kind.parent].dependsOn
    && n.kind.index < |g[JoinId(n.kind.parent)].dependsOn|
  }

  predicate JoinShape(g0: Graph, g: Graph, n: StepNode) {
    && n.kind.ForEachJoin?
    && n.id == JoinId(n.kind.parent)
    && n.kind.parent in Expanded(g0, g)
    && n.dependsOn == ItemIds(n.kind.parent, |n.dependsOn|)
    && forall i :: 0 <= i < |n.dependsOn| ==>
         ItemId(n.kind.parent, i) in g && g[ItemId(n.kind.parent, i)].kind == ForEachItem(n.kind.parent, i)
  }

  predicate OriginalShape(g0: Graph, g: Graph, n: StepNode)
    requires n.id in g0
  {
    Static(n) == Static(g0[n.id]).(dependsOn := RewriteDeps(g0[n.id].dependsOn, Expanded(g0, g)))
  }

  predicate NodeShape(g0: Graph, g: Graph, n: StepNode) {
    if n.id in g0 then OriginalShape(g0, g, n)
    else ItemShape(g0, g, n) || JoinShape(g0, g, n)
  }

  predicate Shape(g0: Graph, g: Graph) {
    && g0.Keys <= g.Keys
    && forall id :: id in g ==> g[id].id == id && NodeShape(g0, g, g[id])
  }

  // ── Names ────────────────────────────────────────────────────────────

  lemma NewNamesAreNotBase(t: Id, i: nat)
    ensures !BaseName(JoinId(t)) && !BaseName(ItemId(t, i))
  {
    assert JoinId(t)[|t|] == '_';
    assert ItemId(t, i)[|t|] == '[';
  }

  /** No step is called as a lost task is reported. */
  lemma NoStepIsUnknown(g0: Graph, g: Graph)
    requires InitialGraph(g0) && Shape(g0, g)
    ensures UNKNOWN !in g
  {
    forall id | id in g ensures id != UNKNOWN {
      assert NodeShape(g0, g, g[id]);
      if id in g0 {
        assert InitialNode(g0, g0[id]);
      } else if g[id].kind.ForEachItem? {
        assert id[|g[id].kind.parent|] == '[';
      } else {
        assert id[|g[id].kind.parent|] == '_';
      }
    }
  }

  lemma TemplatesAreOriginal(g0: Graph, g: Graph, t: Id)
    requires InitialGraph(g0) && Shape(g0, g) && t in g && g[t].kind.ForEachTemplate?
    ensures IsTemplate(g0, t) && BaseName(t)
  {
    assert NodeShape(g0, g, g[t]);
  }

  lemma JoinKind(g0: Graph, g: Graph, t: Id)
    requires InitialGraph(g0) && Shape(g0, g) && JoinId(t) in g
    ensures t in Expanded(g0, g) && g[JoinId(t)].kind == ForEachJoin(t)
  {
    var n := g[JoinId(t)];
    assert NodeShape(g0, g, n);
    NewNamesAreNotBase(t, 0);
    if n.kind.ForEachItem? {
      JoinIsNotItem(t, n.kind.parent, n.kind.index);
    } else {
      JoinIdInjective(t, n.kind.parent);
    }
  }

  lemma ItemKind(g0: Graph, g: Graph, t: Id, i: nat)
    requires InitialGraph(g0) && Shape(g0, g) && ItemId(t, i) in g
    ensures t in Expanded(g0, g) && g[ItemId(t, i)].kind == ForEachItem(t, i)
  {
    var n := g[ItemId(t, i)];
    assert NodeShape(g0, g, n);
    NewNamesAreNotBase(t, i);
    if n.kind.ForEachItem? {
      ItemIdInjective(t, i, n.kind.parent, n.kind.index);
    } else {
      JoinIsNotItem(n.kind.parent, t, i);
    }
  }

  /** The insert of new nodes succeeds exactly when no expandable template was expanded before. */
  lemma InsertFailsIff(g0: Graph, g: Graph)
    requires InitialGraph(g0) && Shape(g0, g)
    ensures InsertFails(g) <==> Expandable(g) * Expanded(g0, g) != {}
  {
    var T, E := Expandable(g), Expanded(g0, g);
    if T * E != {} {
      var t :| t in T * E;
      assert JoinId(t) in NewIds(g, T) && JoinId(t) in g.Keys;
    }
    if InsertFails(g) {
      var id :| id in NewIds(g, T) && id in g.Keys;
      var t, i := NewIdOrigin(g, T, id);
      if id == JoinId(t) { JoinKind(g0, g, t); } else { ItemKind(g0, g, t, i); }
      assert t in T * E;
    }
  }

  // ── Expansion keeps the shape ────────────────────────────────────────

  /** A node whose dependencies are satisfied waits for no expandable template. */
  lemma SatisfiedDepsKept(g: Graph, n: StepNode)
    requires DepsSatisfied(g, n)
    ensures RewriteDeps(n.dependsOn, Expandable(g)) == n.dependsOn
  {
    forall d | d in n.dependsOn ensures d !in Expandable(g) { assert Satisfied(g, d); }
  }

  lemma ExpandedAfter(g0: Graph, g: Graph)
    requires InitialGraph(g0) && Shape(g0, g) && !InsertFails(g)
    ensures Expanded(g0, InMemory(g)) == Expanded(g0, g) + Expandable(g)
  {
    var T, E, memory := Expandable(g), Expanded(g0, g), InMemory(g);
    forall t | t in T ensures t in Expanded(g0, memory) {
      TemplatesAreOriginal(g0, g, t);
      ExpandNew(g, T, t);
    }
    forall t | t in Expanded(g0, memory) ensures t in E + T {
      if JoinId(t) !in g {
        var s, i := NewIdOrigin(g, T, JoinId(t));
        if JoinId(t) == JoinId(s) { JoinIdInjective(t, s); } else { JoinIsNotItem(t, s, i); }
      }
    }
  }

  lemma RewriteTwice(deps: seq<Id>, E: set<Id>, T: set<Id>)
    requires forall t :: t in T ==> BaseName(t)
    ensures RewriteDeps(RewriteDeps(deps, E), T) == RewriteDeps(deps, E + T)
  {
    forall i | 0 <= i < |deps|
      ensures RewriteDeps(RewriteDeps(deps, E), T)[i] == RewriteDeps(deps, E + T)[i]
    {
      NewNamesAreNotBase(deps[i], 0);
    }
  }

  lemma ItemIdsKept(t: Id, count: nat, T: set<Id>)
    requires forall s :: s in T ==> BaseName(s)
    ensures RewriteDeps(ItemIds(t, count), T) == ItemIds(t, count)
  {
    forall i | 0 <= i < count ensures ItemId(t, i) !in T { NewNamesAreNotBase(t, i); }
  }

  lemma ExpandKeepsOldShape(g0: Graph, g: Graph, id: Id)
    requires InitialGraph(g0) && Shape(g0, g) && !InsertFails(g) && id in g
    ensures NodeShape(g0, InMemory(g), InMemory(g)[id])
  {
    ExpandedAfter(g0, g);
    assert NodeShape(g0, g, g[id]) && g[id].id == id;
    forall t | t in Expandable(g) ensures BaseName(t) { TemplatesAreOriginal(g0, g, t); }
    if id in g0 {
      RewriteTwice(g0[id].dependsOn, Expanded(g0, g), Expandable(g));
    } else if g[id].kind.ForEachItem? {
      ItemKeepsShape(g0, g, InMemory(g), Expandable(g), g[id]);
    } else {
      JoinKeepsShape(g0, g, InMemory(g), Expandable(g), g[id]);
    }
  }

  lemma ItemKeepsShape(g0: Graph, g: Graph, g': Graph, T: set<Id>, n: StepNode)
    requires ItemShape(g0, g, n) && Expanded(g0, g) <= Expanded(g0, g')
    requires forall id :: id in g ==> id in g' && g'[id] == Rewired(g[id], T)
    ensures ItemShape(g0, g', Rewired(n, T))
  {
    assert JoinId(n.kind.parent) in g;
  }

  lemma JoinKeepsShape(g0: Graph, g: Graph, g': Graph, T: set<Id>, n: StepNode)
    requires JoinShape(g0, g, n) && Expanded(g0, g) <= Expanded(g0, g')
    requires forall id :: id in g ==> id in g' && g'[id] == Rewired(g[id], T)
    requires forall t :: t in T ==> BaseName(t)
    ensures JoinShape(g0, g', Rewired(n, T))
  {
    ItemIdsKept(n.kind.parent, |n.dependsOn|, T);
  }

  lemma ExpandShapesNew(g0: Graph, g: Graph, id: Id)
    requires InitialGraph(g0) && Shape(g0, g) && !InsertFails(g)
    requires id in NewIds(g, Expandable(g))
    ensures InMemory(g)[id].id == id && NodeShape(g0, InMemory(g), InMemory(g)[id])
  {
    var T, memory := Expandable(g), InMemory(g);
    var t, i := NewIdOrigin(g, T, id);
    ExpandNew(g, T, t);
    ExpandedAfter(g0, g);
    NewNamesAreNotBase(t, i);
    SatisfiedDepsKept(g, g[t]);
    assert g[t].id == t;
    if id == JoinId(t) {
      assert JoinShape(g0, memory, memory[id]);
    } else {
      assert ItemShape(g0, memory, memory[id]);
    }
  }

  lemma ExpandKeepsShape(g0: Graph, g: Graph)
    requires InitialGraph(g0) && Shape(g0, g) && !InsertFails(g)
    ensures Shape(g0, InMemory(g))
    ensures Expanded(g0, InMemory(g)) == Expanded(g0, g) + Expandable(g)
  {
    ExpandedAfter(g0, g);
    forall id | id in InMemory(g)
      ensures InMemory(g)[id].id == id && NodeShape(g0, InMemory(g), InMemory(g)[id])
    {
      if id in g { ExpandKeepsOldShape(g0, g, id); } else { ExpandShapesNew(g0, g, id); }
    }
  }

  // ── Progress keeps the shape ─────────────────────────────────────────

  predicate SameStatic(g: Graph, g': Graph) {
    g.Keys == g'.Keys && forall id :: id in g ==> Static(g[id]) == Static(g'[id])
  }

  lemma ProgressKeepsShape(g0: Graph, g: Graph, g': Graph)
    requires Shape(g0, g) && SameStatic(g, g')
    ensures Shape(g0, g') && Expanded(g0, g') == Expanded(g0, g)
  {
    forall id | id in g' ensures g'[id].id == id && NodeShape(g0, g', g'[id]) {
      assert Static(g[id]) == Static(g'[id]);
      assert NodeShape(g0, g, g[id]);
      var n := g[id];
      if id !in g0 && n.kind.ForEachItem? {
        assert Static(g[n.kind.parent]) == Static(g'[n.kind.parent]);
        assert Static(g[JoinId(n.kind.parent)]) == Static(g'[JoinId(n.kind.parent)]);
      } else if id !in g0 {
        forall i | 0 <= i < |n.dependsOn|
          ensures ItemId(n.kind.parent, i) in g' && g'[ItemId(n.kind.parent, i)].kind == ForEachItem(n.kind.parent, i)
        {
          assert Static(g[ItemId(n.kind.parent, i)]) == Static(g'[ItemId(n.kind.parent, i)]);
        }
      }
    }
  }

  lemma InitialShape(g0: Graph)
    requires InitialGraph(g0)
    ensures Shape(g0, g0) && Expanded(g0, g0) == {}
  {
    forall t | t in g0 ensures JoinId(t) !in g0 { NewNamesAreNotBase(t, 0); }
    assert Expanded(g0, g0) == {};
    forall id | id in g0 ensures NodeShape(g0, g0, g0[id]) {
      assert RewriteDeps(g0[id].dependsOn, {}) == g0[id].dependsOn;
    }
  }

  // ── Consequences: closed, acyclic, and no edge to an expanded template ─

  /** Position of a node in the rewritten graph: items and join sit between their template and its dependents. */
  function Rank(rho: map<Id, nat>, n: StepNode): nat {
    match n.kind
    case ForEachItem(p, _) => if p in rho then 3 * rho[p] + 1 else 0
    case ForEachJoin(p) => if p in rho then 3 * rho[p] + 2 else 0
    case _ => if n.id in rho then 3 * rho[n.id] else 0
  }

  /** What a dependency of an original node is: an original node, or the join of an expanded template. */
  lemma OriginalDependency(g0: Graph, g: Graph, id: Id, d: Id) returns (d0: Id)
    requires InitialGraph(g0) && Shape(g0, g)
    requires id in g0 && d in g[id].dependsOn
    ensures d in g && d !in Expanded(g0, g)
    ensures d0 in g0[id].dependsOn
    ensures if d0 in Expanded(g0, g) then d == JoinId(d0) && g[d].kind == ForEachJoin(d0)
            else d == d0 && g[d].kind == g0[d].kind
  {
    assert NodeShape(g0, g, g[id]);
    var deps := g0[id].dependsOn;
    var i :| 0 <= i < |deps| && d == RewriteDeps(deps, Expanded(g0, g))[i];
    d0 := deps[i];
    assert d0 in g0;
    if d0 in Expanded(g0, g) {
      JoinKind(g0, g, d0);
      NewNamesAreNotBase(d0, 0);
    } else {
      assert NodeShape(g0, g, g[d]);
    }
  }

  /** Dependencies are closed, and nothing waits for an expanded template. */
  lemma DependencyInside(g0: Graph, g: Graph, id: Id, d: Id)
    requires InitialGraph(g0) && Shape(g0, g)
    requires id in g && d in g[id].dependsOn
    ensures d in g && d !in Expanded(g0, g)
  {
    var n := g[id];
    assert NodeShape(g0, g, n);
    if id in g0 {
      var _ := OriginalDependency(g0, g, id, d);
    } else if n.kind.ForEachItem? {
      var _ := OriginalDependency(g0, g, n.kind.parent, d);
    } else {
      var i :| 0 <= i < |n.dependsOn| && d == n.dependsOn[i];
      NewNamesAreNotBase(n.kind.parent, i);
    }
  }

  /** Dependencies rank lower, so the rewritten graph has no cycle. */
  lemma DependencyRanks(g0: Graph, rho: map<Id, nat>, g: Graph, id: Id, d: Id)
    requires InitialGraph(g0) && Ranked(g0, rho) && Shape(g0, g)
    requires id in g && d in g[id].dependsOn
    ensures d in g && Rank(rho, g[d]) < Rank(rho, g[id])
  {
    var n := g[id];
    DependencyInside(g0, g, id, d);
    assert NodeShape(g0, g, n);
    assert NodeShape(g0, g, g[d]);
    if id in g0 {
      var _ := OriginalDependency(g0, g, id, d);
    } else if n.kind.ForEachItem? {
      var _ := OriginalDependency(g0, g, n.kind.parent, d);
    } else {
      var i :| 0 <= i < |n.dependsOn| && d == n.dependsOn[i];
      assert d == ItemId(n.kind.parent, i);
    }
  }
}
