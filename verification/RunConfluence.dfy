/**
 Parallel runs have one meaning. If what a step does is a function of the step, its inputs and its
 attempt number, then any two runs at rest end in the same table, whatever the clock did and
 however the steps were grouped into batches.
 */
module RunConfluence {
  import opened Wrappers
  import opened JsonValues
  import opened Conditions
  import opened Dag
  import opened Engine
  import opened GraphShape
  import opened RunInvariants
  import opened RunSafety
  import opened RunVerdict
  import opened StoreFidelity

  /** The behaviour of steps: the step as planned, its inputs, and how often it failed before. */
  type Behaviour = (StepNode, StepInput, nat) -> Verdict

  /** Each foreach expression draws from a declared dependency of its template. */
  predicate ForeachDeclared(g0: Graph) {
    forall t :: t in g0 && g0[t].kind.ForEachTemplate? ==>
      ForeachCollection(g0[t]).NoCollection? || ForeachCollection(g0[t]).dep in g0[t].dependsOn
  }

  ghost predicate BatchFollows(b: Behaviour, g: Graph, batch: set<Id>, input: CycleInput) {
    forall id :: id in batch && id in g && GatePasses(g[id], Inputs(g, g[id])) ==>
      input.VerdictOf(id) == b(Static(g[id]), Inputs(g, g[id]), g[id].attempt)
  }

  ghost predicate CycleFollows(b: Behaviour, durable: bool, g: Graph, input: CycleInput) {
    RunCycle(durable, g, input).outcome.Continue? ==>
      BatchFollows(b, Stored(durable, g), ReadySet(InMemory(g), input.now), input)
  }

  ghost predicate RunFollows(b: Behaviour, durable: bool, g0: Graph, inputs: seq<CycleInput>) {
    forall k :: 0 <= k < |inputs| ==> CycleFollows(b, durable, After(durable, g0, inputs[..k]), inputs[k])
  }

  // ── What a step comes to ─────────────────────────────────────────────

  /** The row a step ends in when it is executed from attempt `k` on, retries included. */
  function Settle(b: Behaviour, n: StepNode, input: StepInput, k: nat): StepNode
    decreases n.retryPolicy.maxAttempts - k
  {
    match b(n, input, k)
    case Success(result) => n.(status := Succeeded, attempt := k, output := Some(OutputValue(result)))
    case Failure(_, hit) =>
      if k + 1 < n.retryPolicy.maxAttempts && n.retryPolicy.Matches(hit) then Settle(b, n, input, k + 1)
      else n.(status := Failed, attempt := k + 1)
    case NeedsInput => n.(status := AwaitingInput, attempt := k)
    case Delegated => n.(status := AwaitingChildren, attempt := k)
    case Lost => n.(status := Running, attempt := k)
  }

  predicate OnTrack(b: Behaviour, g: Graph, n: StepNode) {
    var final := Settle(b, Static(n), Inputs(g, n), 0);
    match n.status
    case Pending => n == Static(n)
    case Skipped => n == Static(n).(status := Skipped)
    case Retrying(_, _) => n.output.None? && final == Settle(b, Static(n), Inputs(g, n), n.attempt)
    case _ => final == n
  }

  predicate AllOnTrack(b: Behaviour, g: Graph) {
    forall id :: id in g && !g[id].kind.ForEachTemplate? ==> OnTrack(b, g, g[id])
  }

  lemma StepStaysOnTrack(b: Behaviour, g: Graph, n: StepNode, input: CycleInput)
    requires BooksOk(n) && GateOk(g, n) && OnTrack(b, g, n) && !n.kind.ForEachTemplate?
    requires n.status.Pending? || n.status.Retrying?
    requires GatePasses(n, Inputs(g, n)) ==> input.VerdictOf(n.id) == b(Static(n), Inputs(g, n), n.attempt)
    ensures OnTrack(b, g, FinishStep(g, n, input))
  {
    var n' := FinishStep(g, n, input);
    FinishedBooks(g, n, input);
    assert Inputs(g, n') == Inputs(g, n);
  }

  lemma OnTrackStays(b: Behaviour, g: Graph, g': Graph, n: StepNode)
    requires OnTrack(b, g, n) && (n.status.Pending? || Inputs(g', n) == Inputs(g, n))
    ensures OnTrack(b, g', n)
  {
  }

  lemma BatchStaysOnTrack(b: Behaviour, g0: Graph, g: Graph, batch: set<Id>, input: CycleInput)
    requires InitialGraph(g0) && Inv(g0, g) && RunnableBatch(g, batch) && AllOnTrack(b, g)
    requires BatchFollows(b, g, batch, input)
    ensures AllOnTrack(b, RunBatch(g, batch, input))
  {
    var g' := RunBatch(g, batch, input);
    BatchKeepsSatisfied(g, batch, input);
    forall id | id in g' && !g'[id].kind.ForEachTemplate? ensures OnTrack(b, g', g'[id]) {
      assert NodeOk(g0, g, g[id]);
      if id in batch {
        assert Runnable(g, id) && g[id].id == id;
        FinishedBooks(g, g[id], input);
        StepStaysOnTrack(b, g, g[id], input);
        SatisfiedStays(g, g', g[id]);
        assert Inputs(g', g'[id]) == Inputs(g', g[id]) && Inputs(g, g'[id]) == Inputs(g, g[id]);
        OnTrackStays(b, g, g', g'[id]);
      } else {
        if !g[id].status.Pending? { SatisfiedStays(g, g', g[id]); }
        OnTrackStays(b, g, g', g[id]);
      }
    }
  }

  lemma StoredStaysOnTrack(b: Behaviour, g0: Graph, durable: bool, g: Graph)
    requires InitialGraph(g0) && Inv(g0, g) && !InsertFails(g) && AllOnTrack(b, g)
    ensures AllOnTrack(b, Stored(durable, g))
  {
    var stored := Stored(durable, g);
    StoredInv(g0, durable, g);
    forall id | id in stored && !stored[id].kind.ForEachTemplate? ensures OnTrack(b, stored, stored[id]) {
      assert NodeOk(g0, stored, stored[id]);
      if id in g && !g[id].status.Pending? {
        StoredKeepsStarted(g0, durable, g, id);
        assert NodeOk(g0, g, g[id]);
        StoredKeepsSatisfied(g0, durable, g);
        SatisfiedStays(g, stored, g[id]);
        OnTrackStays(b, g, stored, g[id]);
      } else {
        StoredPending(g0, durable, g, id);
      }
    }
  }

  lemma StoredPending(g0: Graph, durable: bool, g: Graph, id: Id)
    requires InitialGraph(g0) && Inv(g0, g) && !InsertFails(g) && id in Stored(durable, g)
    requires id in g ==> g[id].status.Pending?
    requires !Stored(durable, g)[id].kind.ForEachTemplate?
    ensures Stored(durable, g)[id] == Static(Stored(durable, g)[id])
  {
    StoredInv(g0, durable, g);
    var n := Stored(durable, g)[id];
    assert NodeOk(g0, Stored(durable, g), n);
    if id !in g {
      var t, i := NewIdOrigin(g, Expandable(g), id);
      ExpandNew(g, Expandable(g), t);
    } else {
      assert g[id].id == id;
    }
    assert n.status.Pending?;
  }

  lemma StoredKeepsSatisfied(g0: Graph, durable: bool, g: Graph)
    requires InitialGraph(g0) && Inv(g0, g) && !InsertFails(g)
    ensures KeepsSatisfied(g, Stored(durable, g))
  {
    forall d | Satisfied(g, d) ensures Satisfied(Stored(durable, g), d) && Stored(durable, g)[d].output == g[d].output {
      StoredKeepsStarted(g0, durable, g, d);
    }
  }

  // ── Where items come from ────────────────────────────────────────────

  /** The join and the items of an expanded template are what its collection says. */
  ghost predicate FromTemplate(g: Graph, t: Id)
    requires t in g
  {
    var items := Items(g, g[t]);
    && JoinId(t) in g && Static(g[JoinId(t)]) == Static(JoinNode(g[t], |items|))
    && forall i :: 0 <= i < |items| ==>
         ItemId(t, i) in g && Static(g[ItemId(t, i)]) == Static(ItemNode(g[t], i, items[i]))
  }

  ghost predicate Provenance(g0: Graph, g: Graph)
    requires g0.Keys <= g.Keys
  {
    forall t :: t in Expanded(g0, g) ==> FromTemplate(g, t)
  }

  /** The items of a template whose dependencies are satisfied do not change any more. */
  lemma ItemsStay(g0: Graph, g: Graph, g': Graph, t: Id)
    requires InitialGraph(g0) && ForeachDeclared(g0) && IsTemplate(g0, t)
    requires Inv(g0, g) && Inv(g0, g') && KeepsSatisfied(g, g')
    requires DepsSatisfied(g, g[t])
    ensures Items(g', g'[t]) == Items(g, g[t])
  {
    assert NodeShape(g0, g, g[t]) && NodeShape(g0, g', g'[t]);
    var c := ForeachCollection(g0[t]);
    assert ForeachCollection(g[t]) == c && ForeachCollection(g'[t]) == c;
    if !c.NoCollection? {
      var i :| 0 <= i < |g0[t].dependsOn| && g0[t].dependsOn[i] == c.dep;
      assert c.dep in g0;
      if c.dep in Expanded(g0, g) {
        assert NodeShape(g0, g, g[c.dep]) && NodeShape(g0, g', g'[c.dep]);
        assert NodeOk(g0, g, g[c.dep]) && NodeOk(g0, g', g'[c.dep]);
      } else {
        assert g[t].dependsOn[i] == c.dep;
        assert Satisfied(g, c.dep);
      }
    }
  }

  lemma StoredProvenanceOld(g0: Graph, durable: bool, g: Graph, t: Id)
    requires InitialGraph(g0) && ForeachDeclared(g0) && Inv(g0, g) && !InsertFails(g)
    requires t in Expanded(g0, g) && FromTemplate(g, t)
    requires Inv(g0, Stored(durable, g))
    ensures FromTemplate(Stored(durable, g), t)
  {
    var stored, T := Stored(durable, g), Expandable(g);
    StoredKeepsSatisfied(g0, durable, g);
    assert NodeOk(g0, g, g[t]) && NodeShape(g0, g, g[t]);
    ItemsStay(g0, g, stored, t);
    SatisfiedDepsKept(g, g[t]);
    forall s | s in T ensures BaseName(s) { TemplatesAreOriginal(g0, g, s); }
    var items := Items(g, g[t]);
    ItemIdsKept(t, |items|, T);
    assert g[JoinId(t)].dependsOn == Static(g[JoinId(t)]).dependsOn == ItemIds(g[t].id, |items|);
    assert Static(stored[JoinId(t)]) == Static(g[JoinId(t)]);
    assert Static(stored[t]) == Static(g[t]);
    forall i | 0 <= i < |items|
      ensures ItemId(t, i) in stored && Static(stored[ItemId(t, i)]) == Static(ItemNode(stored[t], i, items[i]))
    {
      assert g[ItemId(t, i)].dependsOn == Static(g[ItemId(t, i)]).dependsOn == g[t].dependsOn;
    }
  }

  lemma StoredProvenanceNew(g0: Graph, durable: bool, g: Graph, t: Id)
    requires InitialGraph(g0) && ForeachDeclared(g0) && Inv(g0, g) && !InsertFails(g)
    requires t in Expandable(g)
    requires Inv(g0, Stored(durable, g))
    ensures FromTemplate(Stored(durable, g), t)
  {
    var stored, T := Stored(durable, g), Expandable(g);
    StoredKeepsSatisfied(g0, durable, g);
    TemplatesAreOriginal(g0, g, t);
    ItemsStay(g0, g, stored, t);
    SatisfiedDepsKept(g, g[t]);
    ExpandNew(g, T, t);
    NewNamesAreNotBase(t, 0);
    forall s | s in T ensures BaseName(s) { TemplatesAreOriginal(g0, g, s); }
    assert Static(stored[t]) == Static(g[t]);
    var items := Items(g, g[t]);
    forall i | 0 <= i < |items|
      ensures ItemId(t, i) in stored && Static(stored[ItemId(t, i)]) == Static(ItemNode(stored[t], i, items[i]))
    {
      NewNamesAreNotBase(t, i);
    }
  }

  lemma ProgressKeepsProvenance(g0: Graph, g: Graph, g': Graph)
    requires InitialGraph(g0) && ForeachDeclared(g0) && Inv(g0, g) && Inv(g0, g')
    requires SameStatic(g, g') && KeepsSatisfied(g, g') && Provenance(g0, g)
    ensures Provenance(g0, g')
  {
    ProgressKeepsShape(g0, g, g');
    forall t | t in Expanded(g0, g') ensures FromTemplate(g', t) {
      assert FromTemplate(g, t) && NodeOk(g0, g, g[t]) && NodeShape(g0, g, g[t]);
      ItemsStay(g0, g, g', t);
      assert Static(g'[t]) == Static(g[t]) && Static(g'[JoinId(t)]) == Static(g[JoinId(t)]);
      var items := Items(g, g[t]);
      forall i | 0 <= i < |items|
        ensures ItemId(t, i) in g' && Static(g'[ItemId(t, i)]) == Static(ItemNode(g'[t], i, items[i]))
      {
        assert Static(g'[ItemId(t, i)]) == Static(g[ItemId(t, i)]);
      }
    }
  }

  // ── The invariant of functional runs ─────────────────────────────────

  ghost predicate Determined(b: Behaviour, g0: Graph, g: Graph) {
    Inv(g0, g) && AllOnTrack(b, g) && Provenance(g0, g)
  }

  lemma CycleKeepsDetermined(b: Behaviour, g0: Graph, durable: bool, g: Graph, input: CycleInput)
    requires InitialGraph(g0) && ForeachDeclared(g0) && Determined(b, g0, g) && CycleFollows(b, durable, g, input)
    ensures Determined(b, g0, RunCycle(durable, g, input).rows)
  {
    CycleCases(durable, g, input);
    if !Stops(g) {
      var stored, ready := Stored(durable, g), ReadySet(InMemory(g), input.now);
      StoredInv(g0, durable, g);
      StoredStaysOnTrack(b, g0, durable, g);
      forall t | t in Expanded(g0, stored) ensures FromTemplate(stored, t) {
        if t in Expanded(g0, g) { StoredProvenanceOld(g0, durable, g, t); } else { StoredProvenanceNew(g0, durable, g, t); }
      }
      if RunCycle(durable, g, input).outcome.Continue? {
        ReadyIsRunnable(g0, durable, g, input.now);
        BatchKeepsInv(g0, stored, ready, input);
        BatchStaysOnTrack(b, g0, stored, ready, input);
        BatchKeepsSatisfied(stored, ready, input);
        ProgressKeepsProvenance(g0, stored, RunBatch(stored, ready, input));
      }
    }
  }

  lemma {:induction false} RunKeepsDetermined(b: Behaviour, durable: bool, g0: Graph, inputs: seq<CycleInput>)
    requires InitialGraph(g0) && ForeachDeclared(g0) && RunFollows(b, durable, g0, inputs)
    ensures Determined(b, g0, After(durable, g0, inputs))
  {
    if inputs == [] {
      InitialInv(g0);
      InitialShape(g0);
      assert forall id :: id in g0 ==> InitialNode(g0, g0[id]);
    } else {
      var k := |inputs| - 1;
      var before := inputs[..k];
      forall j | 0 <= j < |before| ensures CycleFollows(b, durable, After(durable, g0, before[..j]), before[j]) {
        assert before[..j] == inputs[..j];
      }
      RunKeepsDetermined(b, durable, g0, before);
      CycleKeepsDetermined(b, g0, durable, After(durable, g0, before), inputs[k]);
    }
  }

  // ── Two finished runs ────────────────────────────────────────────────

  /**
   A run has come to rest: the last cycle completes, deadlocks, or waits although no step is retrying,
   that is, for steps that wait for a person or for children, or were lost.
   */
  ghost predicate Finished(durable: bool, g0: Graph, inputs: seq<CycleInput>, last: CycleInput) {
    AtRest(durable, After(durable, g0, inputs), last)
  }

  ghost predicate AtRest(durable: bool, g: Graph, last: CycleInput) {
    var outcome := RunCycle(durable, g, last).outcome;
    outcome.Complete? || outcome.Deadlocked? || (outcome.WaitUntil? && !HasRetrying(g))
  }

  /** No step can start: none is retrying, and every Pending one is blocked. */
  predicate Settled(g: Graph) {
    forall id :: id in g ==> !g[id].status.Retrying? && (g[id].status.Pending? ==> !DepsSatisfied(g, g[id]))
  }

  ghost predicate Final(b: Behaviour, g0: Graph, g: Graph) {
    Determined(b, g0, g) && Settled(g) && TemplatesTracked(true, g0, g)
  }

  lemma FinishedIsFinal(b: Behaviour, durable: bool, g0: Graph, inputs: seq<CycleInput>, last: CycleInput)
    requires InitialGraph(g0) && ForeachDeclared(g0) && RunFollows(b, durable, g0, inputs)
    requires Finished(durable, g0, inputs, last)
    ensures Final(b, g0, After(durable, g0, inputs))
  {
    var g := After(durable, g0, inputs);
    RunKeepsDetermined(b, durable, g0, inputs);
    RunTracks(durable, g0, inputs);
    StoreErrorIff(durable, g0, inputs, last);
    QuietCycle(g0, durable, g, last);
    RestIsSettled(g0, durable, g, last);
  }

  lemma RestIsSettled(g0: Graph, durable: bool, g: Graph, last: CycleInput)
    requires InitialGraph(g0) && Inv(g0, g) && AtRest(durable, g, last)
    ensures Settled(g)
  {
    QuietCycle(g0, durable, g, last);
    assert IsComplete(g) || ReadySet(g, last.now) == {};
    forall id | id in g ensures !g[id].status.Retrying? && (g[id].status.Pending? ==> !DepsSatisfied(g, g[id])) {
      assert IsComplete(g) ==> g[id].status.Terminal();
      assert ReadySet(g, last.now) == {} ==> id !in ReadySet(g, last.now);
    }
  }

  /** In a final graph, a template is expanded exactly when its dependencies are satisfied. */
  lemma FinalTemplate(b: Behaviour, g0: Graph, g: Graph, t: Id)
    requires InitialGraph(g0) && Final(b, g0, g) && IsTemplate(g0, t)
    ensures t in Expanded(g0, g) <==> DepsSatisfied(g, g[t])
    ensures g[t] == Static(g[t]).(status := if t in Expanded(g0, g) then Succeeded else Pending)
  {
    assert NodeOk(g0, g, g[t]) && NodeShape(g0, g, g[t]);
  }

  /** In a final graph, the row of any other step follows from its plan and its inputs. */
  lemma FinalStep(b: Behaviour, g0: Graph, g: Graph, id: Id)
    requires InitialGraph(g0) && Final(b, g0, g) && id in g && !g[id].kind.ForEachTemplate?
    ensures g[id] ==
      if !DepsSatisfied(g, g[id]) then Static(g[id])
      else if GatePasses(Static(g[id]), Inputs(g, g[id])) then Settle(b, Static(g[id]), Inputs(g, g[id]), 0)
      else Static(g[id]).(status := Skipped)
  {
    assert NodeOk(g0, g, g[id]) && OnTrack(b, g, g[id]);
    assert GatePasses(Static(g[id]), Inputs(g, g[id])) == GatePasses(g[id], Inputs(g, g[id]));
  }

  /** The dependencies of an original step are the same in both graphs once the joins below it are. */
  lemma SameRow(b: Behaviour, g0: Graph, g1: Graph, g2: Graph, id: Id)
    requires InitialGraph(g0) && Final(b, g0, g1) && Final(b, g0, g2) && id in g1 && id in g2
    requires Static(g1[id]) == Static(g2[id])
    requires forall d :: d in g1[id].dependsOn ==> d in g1 && d in g2 && g1[d] == g2[d]
    ensures g1[id] == g2[id]
  {
    assert g1[id].dependsOn == Static(g1[id]).dependsOn == g2[id].dependsOn;
    assert Inputs(g1, g1[id]) == Inputs(g2, g2[id]);
    assert DepsSatisfied(g1, g1[id]) == DepsSatisfied(g2, g2[id]);
    if g1[id].kind.ForEachTemplate? {
      assert Static(g2[id]).kind.ForEachTemplate?;
      TemplatesAreOriginal(g0, g1, id);
      FinalTemplate(b, g0, g1, id);
      FinalTemplate(b, g0, g2, id);
    } else {
      assert !Static(g2[id]).kind.ForEachTemplate?;
      FinalStep(b, g0, g1, id);
      FinalStep(b, g0, g2, id);
    }
  }

  // ── Agreement by rank ────────────────────────────────────────────────

  ghost predicate AgreeBelow(rho: map<Id, nat>, g1: Graph, g2: Graph, k: nat) {
    forall id :: id in g1 && Rank(rho, g1[id]) < k ==> id in g2 && g1[id] == g2[id]
  }

  lemma SameTemplatesBelow(g0: Graph, rho: map<Id, nat>, g1: Graph, g2: Graph, k: nat, t: Id)
    requires InitialGraph(g0) && Ranked(g0, rho) && Shape(g0, g1) && AgreeBelow(rho, g1, g2, k)
    requires t in g0 && 3 * rho[t] + 2 < k
    ensures t in Expanded(g0, g1) ==> t in Expanded(g0, g2)
  {
    if t in Expanded(g0, g1) { JoinKind(g0, g1, t); }
  }

  lemma SameOriginal(g0: Graph, rho: map<Id, nat>, g1: Graph, g2: Graph, k: nat, id: Id)
    requires InitialGraph(g0) && Ranked(g0, rho) && Shape(g0, g1) && Shape(g0, g2)
    requires AgreeBelow(rho, g1, g2, k) && AgreeBelow(rho, g2, g1, k)
    requires id in g0 && 3 * rho[id] <= k
    ensures Static(g1[id]) == Static(g2[id])
  {
    assert NodeShape(g0, g1, g1[id]) && NodeShape(g0, g2, g2[id]);
    var deps, E1, E2 := g0[id].dependsOn, Expanded(g0, g1), Expanded(g0, g2);
    forall t | t in deps ensures t in E1 <==> t in E2 {
      assert t in rho && rho[t] < rho[id];
      SameTemplatesBelow(g0, rho, g1, g2, k, t);
      SameTemplatesBelow(g0, rho, g2, g1, k, t);
    }
    assert RewriteDeps(deps, E1) == RewriteDeps(deps, E2);
  }

  lemma SameItems(g0: Graph, rho: map<Id, nat>, g1: Graph, g2: Graph, k: nat, p: Id)
    requires InitialGraph(g0) && Ranked(g0, rho) && ForeachDeclared(g0) && Shape(g0, g1) && Shape(g0, g2)
    requires AgreeBelow(rho, g1, g2, k) && IsTemplate(g0, p) && 3 * rho[p] < k
    ensures Items(g1, g1[p]) == Items(g2, g2[p])
  {
    assert NodeShape(g0, g1, g1[p]) && NodeShape(g0, g2, g2[p]);
    var c := ForeachCollection(g0[p]);
    assert ForeachCollection(g1[p]) == c && ForeachCollection(g2[p]) == c;
    if !c.NoCollection? {
      assert c.dep in g0 && rho[c.dep] < rho[p];
      assert NodeShape(g0, g1, g1[c.dep]);
      assert g1[c.dep] == g2[c.dep];
    }
  }

  /** An item or join of one graph is in the other, planned the same. */
  lemma SameExpansion(b: Behaviour, g0: Graph, rho: map<Id, nat>, g1: Graph, g2: Graph, k: nat, id: Id)
    requires InitialGraph(g0) && Ranked(g0, rho) && ForeachDeclared(g0)
    requires Final(b, g0, g1) && Final(b, g0, g2) && AgreeBelow(rho, g1, g2, k)
    requires id in g1 && id !in g0 && Rank(rho, g1[id]) <= k
    ensures id in g2 && Static(g1[id]) == Static(g2[id])
  {
    var p := g1[id].kind.parent;
    assert NodeShape(g0, g1, g1[id]) && NodeShape(g0, g1, g1[p]);
    assert g1[p] == g2[p];
    FinalTemplate(b, g0, g1, p);
    FinalTemplate(b, g0, g2, p);
    SameItems(g0, rho, g1, g2, k, p);
    assert FromTemplate(g1, p) && FromTemplate(g2, p);
    SameFamily(g0, g1, g2, p, id);
  }

  /** Two templates that are the same and have the same items have the same items and join. */
  lemma SameFamily(g0: Graph, g1: Graph, g2: Graph, p: Id, id: Id)
    requires p in g1 && p in g2 && g1[p] == g2[p] && Items(g1, g1[p]) == Items(g2, g2[p])
    requires FromTemplate(g1, p) && FromTemplate(g2, p)
    requires id in g1 && g1[id].id == id && (ItemShape(g0, g1, g1[id]) || JoinShape(g0, g1, g1[id])) && g1[id].kind.parent == p
    ensures id in g2 && Static(g1[id]) == Static(g2[id])
  {
    ItemCount(g0, g1, p);
  }

  lemma ItemCount(g0: Graph, g: Graph, t: Id)
    requires t in g && FromTemplate(g, t)
    ensures |g[JoinId(t)].dependsOn| == |Items(g, g[t])|
  {
    assert g[JoinId(t)].dependsOn == Static(g[JoinId(t)]).dependsOn;
  }

  lemma AgreeAt(b: Behaviour, g0: Graph, rho: map<Id, nat>, g1: Graph, g2: Graph, k: nat, id: Id)
    requires InitialGraph(g0) && Ranked(g0, rho) && ForeachDeclared(g0)
    requires Final(b, g0, g1) && Final(b, g0, g2)
    requires AgreeBelow(rho, g1, g2, k) && AgreeBelow(rho, g2, g1, k)
    requires id in g1 && Rank(rho, g1[id]) <= k
    ensures id in g2 && g1[id] == g2[id]
  {
    if id in g0 {
      assert NodeShape(g0, g1, g1[id]);
      SameOriginal(g0, rho, g1, g2, k, id);
    } else {
      SameExpansion(b, g0, rho, g1, g2, k, id);
    }
    forall d | d in g1[id].dependsOn ensures d in g1 && d in g2 && g1[d] == g2[d] {
      DependencyRanks(g0, rho, g1, id, d);
    }
    SameRow(b, g0, g1, g2, id);
  }

  lemma {:induction false} FinalGraphsAgree(b: Behaviour, g0: Graph, rho: map<Id, nat>, g1: Graph, g2: Graph, k: nat)
    requires InitialGraph(g0) && Ranked(g0, rho) && ForeachDeclared(g0)
    requires Final(b, g0, g1) && Final(b, g0, g2)
    ensures AgreeBelow(rho, g1, g2, k) && AgreeBelow(rho, g2, g1, k)
  {
    if k == 0 {
    } else {
      FinalGraphsAgree(b, g0, rho, g1, g2, k - 1);
      forall id | id in g1 && Rank(rho, g1[id]) < k ensures id in g2 && g1[id] == g2[id] {
        AgreeAt(b, g0, rho, g1, g2, k - 1, id);
      }
      forall id | id in g2 && Rank(rho, g2[id]) < k ensures id in g1 && g2[id] == g1[id] {
        AgreeAt(b, g0, rho, g2, g1, k - 1, id);
      }
    }
  }

  lemma FinalGraphsEqual(b: Behaviour, g0: Graph, rho: map<Id, nat>, g1: Graph, g2: Graph)
    requires InitialGraph(g0) && Ranked(g0, rho) && ForeachDeclared(g0)
    requires Final(b, g0, g1) && Final(b, g0, g2)
    ensures g1 == g2
  {
    forall id | id in g1 ensures id in g2 && g1[id] == g2[id] {
      FinalGraphsAgree(b, g0, rho, g1, g2, Rank(rho, g1[id]) + 1);
    }
    forall id | id in g2 ensures id in g1 {
      FinalGraphsAgree(b, g0, rho, g1, g2, Rank(rho, g2[id]) + 1);
    }
  }

  /** The verdict on a run at rest does not depend on the clock, but for the time to look again. */
  ghost predicate SameOutcome(r1: CycleResult, r2: CycleResult) {
    r1.rows == r2.rows && (r1.outcome == r2.outcome || (r1.outcome.WaitUntil? && r2.outcome.WaitUntil?))
  }

  /** At rest, the verdict is read off the table: only the time to look again depends on the clock. */
  lemma VerdictAtRest(g0: Graph, durable: bool, g: Graph, last: CycleInput)
    requires InitialGraph(g0) && Inv(g0, g) && AtRest(durable, g, last)
    ensures RunCycle(durable, g, last) == CycleResult(g,
      if IsComplete(g) then Complete else if !HasActive(g) then Deadlocked(FailedSteps(g)) else WaitUntil(WakeTime(g, last.now)))
  {
    QuietCycle(g0, durable, g, last);
    RestIsSettled(g0, durable, g, last);
    NoneReady(g, last.now);
    ExpandNothing(g);
  }

  lemma SameVerdict(g0: Graph, durable: bool, g: Graph, last1: CycleInput, last2: CycleInput)
    requires InitialGraph(g0) && Inv(g0, g) && AtRest(durable, g, last1) && AtRest(durable, g, last2)
    ensures SameOutcome(RunCycle(durable, g, last1), RunCycle(durable, g, last2))
  {
    VerdictAtRest(g0, durable, g, last1);
    VerdictAtRest(g0, durable, g, last2);
  }

  lemma NoneReady(g: Graph, now: Time)
    requires Settled(g)
    ensures ReadySet(g, now) == {}
  {
  }

  /**
   Any two runs at rest of the same plan with the same behaviour end in the same table and with the
   same verdict, whatever the clocks and the grouping of steps into cycles.
   */
  lemma ParallelRunsHaveOneMeaning(b: Behaviour, durable: bool, g0: Graph, rho: map<Id, nat>,
                                   inputs1: seq<CycleInput>, last1: CycleInput,
                                   inputs2: seq<CycleInput>, last2: CycleInput)
    requires InitialGraph(g0) && Ranked(g0, rho) && ForeachDeclared(g0)
    requires RunFollows(b, durable, g0, inputs1) && Finished(durable, g0, inputs1, last1)
    requires RunFollows(b, durable, g0, inputs2) && Finished(durable, g0, inputs2, last2)
    ensures After(durable, g0, inputs1) == After(durable, g0, inputs2)
    ensures SameOutcome(RunCycle(durable, After(durable, g0, inputs1), last1), RunCycle(durable, After(durable, g0, inputs2), last2))
  {
    var g1, g2 := After(durable, g0, inputs1), After(durable, g0, inputs2);
    FinishedIsFinal(b, durable, g0, inputs1, last1);
    FinishedIsFinal(b, durable, g0, inputs2, last2);
    FinalGraphsEqual(b, g0, rho, g1, g2);
    SameVerdict(g0, durable, g1, last1, last2);
  }
}
