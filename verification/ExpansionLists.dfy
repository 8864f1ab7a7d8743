/** The node list and the table agree on an expansion, in memory and in the store. */
module ExpansionLists {
  import opened Wrappers
  import opened JsonValues
  import opened Dag
  import opened Engine
  import opened GraphShape
  import opened Workflows

  ghost predicate KeyedById(g: Graph) { forall id :: id in g ==> g[id].id == id }

  /** A new node is the join or an item of one of the templates. */
  lemma {:induction false} NewNodeOrigin(g: Graph, ts: seq<Id>, k: nat) returns (t: Id, i: nat)
    requires forall t :: t in ts ==> t in g
    requires k < |NewNodes(g, ts)|
    ensures t in ts && t in g
    ensures || NewNodes(g, ts)[k] == JoinNode(g[t], |Items(g, g[t])|)
            || (i < |Items(g, g[t])| && NewNodes(g, ts)[k] == ItemNode(g[t], i, Items(g, g[t])[i]))
  {
    var last := |ts| - 1;
    var n := g[ts[last]];
    var before, items := NewNodes(g, ts[..last]), ItemNodes(n, Items(g, n));
    if k < |before| {
      t, i := NewNodeOrigin(g, ts[..last], k);
    } else {
      t, i := ts[last], if k < |before| + |items| then k - |before| else 0;
    }
  }

  lemma {:induction false} NewNodesMember(g: Graph, ts: seq<Id>, t: Id)
    requires forall t :: t in ts ==> t in g
    requires t in ts
    ensures JoinNode(g[t], |Items(g, g[t])|) in NewNodes(g, ts)
    ensures forall i :: 0 <= i < |Items(g, g[t])| ==> ItemNode(g[t], i, Items(g, g[t])[i]) in NewNodes(g, ts)
  {
    var last := |ts| - 1;
    var n := g[ts[last]];
    if ts[last] == t {
      forall i | 0 <= i < |Items(g, n)| ensures ItemNode(n, i, Items(g, n)[i]) in NewNodes(g, ts) {
        assert ItemNodes(n, Items(g, n))[i] in ItemNodes(n, Items(g, n));
      }
    } else {
      NewNodesMember(g, ts[..last], t);
    }
  }

  lemma DistinctOrigins(g: Graph, n: StepNode, m: StepNode, s: Id, i: nat, t: Id, j: nat)
    requires s in g && t in g && g[s].id == s && g[t].id == t
    requires n == JoinNode(g[s], |Items(g, g[s])|) || (i < |Items(g, g[s])| && n == ItemNode(g[s], i, Items(g, g[s])[i]))
    requires m == JoinNode(g[t], |Items(g, g[t])|) || (j < |Items(g, g[t])| && m == ItemNode(g[t], j, Items(g, g[t])[j]))
    requires n.id == m.id
    ensures n == m && s == t
  {
    if n.kind.ForEachJoin? && m.kind.ForEachJoin? {
      JoinIdInjective(s, t);
    } else if n.kind.ForEachJoin? {
      JoinIsNotItem(s, t, j);
    } else if m.kind.ForEachJoin? {
      JoinIsNotItem(t, s, i);
    } else {
      ItemIdInjective(s, i, t, j);
    }
  }

  /** What one more template makes is called differently from all that came before. */
  lemma NewNodesDiffer(g: Graph, ts: seq<Id>, i: nat, n: StepNode, t: Id, j: nat)
    requires KeyedById(g) && t in g && t !in ts && forall s :: s in ts ==> s in g
    requires i < |NewNodes(g, ts)|
    requires n == JoinNode(g[t], |Items(g, g[t])|) || (j < |Items(g, g[t])| && n == ItemNode(g[t], j, Items(g, g[t])[j]))
    ensures NewNodes(g, ts)[i].id != n.id
  {
    var s, a := NewNodeOrigin(g, ts, i);
    if NewNodes(g, ts)[i].id == n.id { DistinctOrigins(g, NewNodes(g, ts)[i], n, s, a, t, j); }
  }

  lemma {:induction false} NewNodesUnique(g: Graph, ts: seq<Id>)
    requires KeyedById(g) && forall t :: t in ts ==> t in g
    requires forall i, j :: 0 <= i < j < |ts| ==> ts[i] != ts[j]
    ensures UniqueIds(NewNodes(g, ts))
  {
    if ts == [] {
    } else {
      var last := |ts| - 1;
      var n, items := g[ts[last]], Items(g, g[ts[last]]);
      NewNodesUnique(g, ts[..last]);
      OneTemplateUnique(n, items);
      var before, made := NewNodes(g, ts[..last]), ItemNodes(n, items) + [JoinNode(n, |items|)];
      assert NewNodes(g, ts) == before + made;
      forall i, j | 0 <= i < |before| && 0 <= j < |made| ensures before[i].id != made[j].id {
        NewNodesDiffer(g, ts[..last], i, made[j], ts[last], j);
      }
      UniqueConcat(before, made);
    }
  }

  lemma OneTemplateUnique(n: StepNode, items: seq<Json>)
    ensures UniqueIds(ItemNodes(n, items) + [JoinNode(n, |items|)])
  {
    var made := ItemNodes(n, items) + [JoinNode(n, |items|)];
    forall i, j | 0 <= i < j < |made| ensures made[i].id != made[j].id {
      if j == |items| {
        JoinIsNotItem(n.id, n.id, i);
      } else if ItemId(n.id, i) == ItemId(n.id, j) {
        ItemIdInjective(n.id, i, n.id, j);
      }
    }
  }

  lemma UniqueConcat(a: seq<StepNode>, b: seq<StepNode>)
    requires UniqueIds(a) && UniqueIds(b)
    requires forall i, j :: 0 <= i < |a| && 0 <= j < |b| ==> a[i].id != b[j].id
    ensures UniqueIds(a + b)
  {
    forall i, j | 0 <= i < j < |a + b| ensures (a + b)[i].id != (a + b)[j].id {
      if i < |a| <= j { assert a[i].id != b[j - |a|].id; }
    }
  }

  lemma GraphOfMember(nodes: seq<StepNode>, n: StepNode)
    requires UniqueIds(nodes) && n in nodes
    ensures n.id in GraphOf(nodes) && GraphOf(nodes)[n.id] == n
  {
  }

  /** What a list of templates must satisfy for its expansion to be well defined. */
  ghost predicate CanExpand(g: Graph, ts: seq<Id>) {
    && KeyedById(g)
    && ToSet(ts) <= g.Keys && (forall t :: t in ts ==> t in g)
    && (forall i, j :: 0 <= i < j < |ts| ==> ts[i] != ts[j])
    && NewIds(g, ToSet(ts)) !! g.Keys
  }

  lemma NewRow(g: Graph, ts: seq<Id>, id: Id)
    requires CanExpand(g, ts) && UniqueIds(NewNodes(g, ts)) && id in NewIds(g, ToSet(ts))
    ensures id in GraphOf(NewNodes(g, ts)) && GraphOf(NewNodes(g, ts))[id] == Expand(g, ToSet(ts))[id]
  {
    var t, i := NewIdOrigin(g, ToSet(ts), id);
    NewNodesMember(g, ts, t);
    ExpandNew(g, ToSet(ts), t);
    var n := if id == JoinId(t) then JoinNode(g[t], |Items(g, g[t])|) else ItemNode(g[t], i, Items(g, g[t])[i]);
    assert g[t].id == t;
    GraphOfMember(NewNodes(g, ts), n);
  }

  lemma NewRowListed(g: Graph, ts: seq<Id>, id: Id)
    requires CanExpand(g, ts) && UniqueIds(NewNodes(g, ts)) && id in GraphOf(NewNodes(g, ts))
    ensures id in NewIds(g, ToSet(ts))
  {
    var made := NewNodes(g, ts);
    var k :| 0 <= k < |made| && made[k] == GraphOf(made)[id];
    var t, i := NewNodeOrigin(g, ts, k);
    assert g[t].id == t && t in ToSet(ts);
  }

  /** The new nodes of the list are the new rows of the table. */
  lemma NewRows(g: Graph, ts: seq<Id>)
    requires CanExpand(g, ts)
    ensures UniqueIds(NewNodes(g, ts))
    ensures GraphOf(NewNodes(g, ts)).Keys == NewIds(g, ToSet(ts))
    ensures forall id :: id in NewIds(g, ToSet(ts)) ==> GraphOf(NewNodes(g, ts))[id] == Expand(g, ToSet(ts))[id]
  {
    NewNodesUnique(g, ts);
    forall id | id in NewIds(g, ToSet(ts))
      ensures id in GraphOf(NewNodes(g, ts)) && GraphOf(NewNodes(g, ts))[id] == Expand(g, ToSet(ts))[id]
    {
      NewRow(g, ts, id);
    }
    forall id | id in GraphOf(NewNodes(g, ts)) ensures id in NewIds(g, ToSet(ts)) { NewRowListed(g, ts, id); }
  }

  /** The insert clashes in the list exactly when it does in the table. */
  lemma {:induction false} NewIdsListed(g: Graph, ts: seq<Id>, id: Id)
    requires KeyedById(g) && ToSet(ts) <= g.Keys && (forall t :: t in ts ==> t in g)
    ensures id in NewIds(g, ToSet(ts)) <==> exists k :: 0 <= k < |NewNodes(g, ts)| && NewNodes(g, ts)[k].id == id
  {
    var T, made := ToSet(ts), NewNodes(g, ts);
    if id in NewIds(g, T) {
      var t, i := NewIdOrigin(g, T, id);
      NewNodesMember(g, ts, t);
      var n := if id == JoinId(t) then JoinNode(g[t], |Items(g, g[t])|) else ItemNode(g[t], i, Items(g, g[t])[i]);
      assert n in made && n.id == id;
    }
    if k :| 0 <= k < |made| && made[k].id == id {
      var t, i := NewNodeOrigin(g, ts, k);
      assert t in T;
    }
  }

  /** In memory: the table of the expanded list is the expanded table. */
  lemma ListExpansion(nodes: seq<StepNode>, ts: seq<Id>)
    requires UniqueIds(nodes) && CanExpand(GraphOf(nodes), ts)
    ensures UniqueIds(RewireAll(nodes, ToSet(ts)) + NewNodes(GraphOf(nodes), ts))
    ensures GraphOf(RewireAll(nodes, ToSet(ts)) + NewNodes(GraphOf(nodes), ts)) == Expand(GraphOf(nodes), ToSet(ts))
  {
    var g, T := GraphOf(nodes), ToSet(ts);
    NewRows(g, ts);
    UniqueAfterRewire(nodes, T);
    AppendTables(RewireAll(nodes, T), NewNodes(g, ts));
    SplitTable(g, T, GraphOf(RewireAll(nodes, T)), GraphOf(NewNodes(g, ts)));
  }

  /** An expanded table is its old rows rewired, and its new rows. */
  lemma SplitTable(g: Graph, T: set<Id>, old': Graph, new': Graph)
    requires T <= g.Keys && NewIds(g, T) !! g.Keys
    requires old'.Keys == g.Keys && forall id :: id in g ==> old'[id] == Rewired(g[id], T)
    requires new'.Keys == NewIds(g, T) && forall id :: id in NewIds(g, T) ==> new'[id] == Expand(g, T)[id]
    ensures old' + new' == Expand(g, T)
  {
  }

  lemma AppendUnique(a: seq<StepNode>, b: seq<StepNode>)
    requires UniqueIds(a) && UniqueIds(b) && GraphOf(a).Keys !! GraphOf(b).Keys
    ensures UniqueIds(a + b)
  {
    forall i, j | 0 <= i < |a| && 0 <= j < |b| ensures a[i].id != b[j].id {
      GraphOfRow(a, i);
      GraphOfRow(b, j);
    }
    UniqueConcat(a, b);
  }

  lemma AppendTables(a: seq<StepNode>, b: seq<StepNode>)
    requires UniqueIds(a) && UniqueIds(b) && GraphOf(a).Keys !! GraphOf(b).Keys
    ensures UniqueIds(a + b) && GraphOf(a + b) == GraphOf(a) + GraphOf(b)
  {
    AppendUnique(a, b);
    SameTable(a, b, GraphOf(a), GraphOf(b), GraphOf(a + b));
  }

  /** A table that holds exactly the nodes of a list. */
  ghost predicate TableOf(nodes: seq<StepNode>, g: Graph) {
    && (forall id :: id in g ==> g[id].id == id && g[id] in nodes)
    && (forall n :: n in nodes ==> n.id in g && g[n.id] == n)
  }

  lemma SameTable(a: seq<StepNode>, b: seq<StepNode>, ga: Graph, gb: Graph, both: Graph)
    requires TableOf(a, ga) && TableOf(b, gb) && TableOf(a + b, both) && ga.Keys !! gb.Keys
    ensures both == ga + gb
  {
    forall id | id in ga ensures id in both && both[id] == ga[id] { assert ga[id] in a + b; }
    forall id | id in gb ensures id in both && both[id] == gb[id] { assert gb[id] in a + b; }
    forall id | id in both ensures id in ga + gb { assert both[id] in a || both[id] in b; }
  }

  /** `save_expanded_nodes` without its failure: the updates in order, then the new rows. */
  function SavedRows(rows: Graph, newSteps: seq<StepNode>, updates: seq<DepsUpdate>): Graph
    requires UniqueIds(newSteps)
  {
    ApplyUpdates(rows, updates) + GraphOf(newSteps)
  }

  /** In the store: what is saved is the expanded table with the templates as they were. */
  lemma SavedExpansion(nodes: seq<StepNode>, ts: seq<Id>)
    requires UniqueIds(nodes) && CanExpand(GraphOf(nodes), ts)
    requires forall t :: t in ts ==> BaseName(t) && GraphOf(nodes)[t].status.Pending?
    ensures UniqueIds(NewNodes(GraphOf(nodes), ts))
    ensures SavedRows(GraphOf(nodes), NewNodes(GraphOf(nodes), ts), AllUpdates(nodes, ts))
         == Persisted(false, Expand(GraphOf(nodes), ToSet(ts)), ToSet(ts))
  {
    var g, T := GraphOf(nodes), ToSet(ts);
    NewRows(g, ts);
    TableHolds(nodes);
    UpdatesApply(g, nodes, ts);
    var updated := ApplyUpdates(g, AllUpdates(nodes, ts));
    forall id | id in g ensures updated[id] == g[id].(dependsOn := RewriteDeps(g[id].dependsOn, T)) {
      var i :| 0 <= i < |nodes| && nodes[i] == g[id];
    }
    SplitSaved(g, T, updated, GraphOf(NewNodes(g, ts)));
  }

  lemma SplitSaved(g: Graph, T: set<Id>, old': Graph, new': Graph)
    requires KeyedById(g) && T <= g.Keys && NewIds(g, T) !! g.Keys
    requires forall t :: t in T ==> g[t].status.Pending?
    requires old'.Keys == g.Keys
    requires forall id :: id in g ==> old'[id] == g[id].(dependsOn := RewriteDeps(g[id].dependsOn, T))
    requires new'.Keys == NewIds(g, T) && forall id :: id in NewIds(g, T) ==> new'[id] == Expand(g, T)[id]
    ensures old' + new' == Persisted(false, Expand(g, T), T)
  {
    var whole := Expand(g, T);
    var want := Persisted(false, whole, T);
    forall id | id in g ensures want[id] == old'[id] {
      assert whole[id] == Rewired(g[id], T);
      RewiredThenPending(g[id], T);
    }
    forall id | id in new' ensures want[id] == new'[id] { assert id !in T; }
    SplitUnion(old', new', want);
  }

  lemma RewiredThenPending(n: StepNode, T: set<Id>)
    requires n.id in T ==> n.status.Pending?
    ensures (if n.id in T then Rewired(n, T).(status := Pending) else Rewired(n, T))
         == n.(dependsOn := RewriteDeps(n.dependsOn, T))
  {
  }

  lemma SplitUnion(a: Graph, b: Graph, whole: Graph)
    requires a.Keys !! b.Keys && whole.Keys == a.Keys + b.Keys
    requires forall id :: id in a ==> whole[id] == a[id]
    requires forall id :: id in b ==> whole[id] == b[id]
    ensures a + b == whole
  {
  }
}
