/** Why a run cannot go on forever without waiting: a measure that every productive cycle decreases. */
module RunTermination {
  import opened Wrappers
  import opened Dag
  import opened Engine
  import opened GraphShape
  import opened RunInvariants
  import opened RunSafety
  import opened RunVerdict

  /** Executions a step may still have before it. */
  function Remaining(n: StepNode): nat
    requires BooksOk(n)
  {
    if (n.status.Pending? || n.status.Retrying?) && !n.kind.ForEachTemplate?
    then Budget(n.retryPolicy) - n.attempt else 0
  }

  predicate AllBooksOk(g: Graph) { forall id :: id in g ==> BooksOk(g[id]) }

  ghost function RemainingSum(g: Graph, ids: set<Id>): nat
    requires AllBooksOk(g) && ids <= g.Keys
  {
    if ids == {} then 0
    else
      var id :| id in ids;
      Remaining(g[id]) + RemainingSum(g, ids - {id})
  }

  lemma {:induction false} SumDecreases(g: Graph, g': Graph, ids: set<Id>)
    requires AllBooksOk(g) && AllBooksOk(g') && ids <= g.Keys && ids <= g'.Keys
    requires forall id :: id in ids ==> Remaining(g'[id]) <= Remaining(g[id])
    ensures RemainingSum(g', ids) <= RemainingSum(g, ids)
    ensures (exists id :: id in ids && Remaining(g'[id]) < Remaining(g[id])) ==>
              RemainingSum(g', ids) < RemainingSum(g, ids)
  {
    if ids == {} {
    } else {
      var id :| id in ids && RemainingSum(g, ids) == Remaining(g[id]) + RemainingSum(g, ids - {id})
                          && RemainingSum(g', ids) == Remaining(g'[id]) + RemainingSum(g', ids - {id});
      SumDecreases(g, g', ids - {id});
    }
  }

  function Unexpanded(g0: Graph, g: Graph): set<Id> {
    set t | t in g0 && IsTemplate(g0, t) && t !in Expanded(g0, g)
  }

  lemma InvBooks(g0: Graph, g: Graph)
    requires Inv(g0, g)
    ensures AllBooksOk(g)
  {
    forall id | id in g ensures BooksOk(g[id]) { assert NodeOk(g0, g, g[id]); }
  }

  /** The pair (templates not yet expanded, executions left) decreases lexicographically. */
  ghost predicate Decreases(g0: Graph, g: Graph, g': Graph)
    requires AllBooksOk(g) && AllBooksOk(g')
  {
    || |Unexpanded(g0, g')| < |Unexpanded(g0, g)|
    || (|Unexpanded(g0, g')| == |Unexpanded(g0, g)| && RemainingSum(g', g'.Keys) < RemainingSum(g, g.Keys))
  }

  lemma FinishedRemains(g: Graph, n: StepNode, input: CycleInput)
    requires BooksOk(n) && !n.kind.ForEachTemplate? && (n.status.Pending? || n.status.Retrying?)
    ensures BooksOk(FinishStep(g, n, input))
    ensures Remaining(FinishStep(g, n, input)) < Remaining(n)
  {
    FinishedBooks(g, n, input);
  }

  lemma BatchDecreases(g0: Graph, g: Graph, batch: set<Id>, input: CycleInput)
    requires InitialGraph(g0) && Inv(g0, g) && RunnableBatch(g, batch) && batch != {}
    ensures AllBooksOk(g) && AllBooksOk(RunBatch(g, batch, input))
    ensures RemainingSum(RunBatch(g, batch, input), g.Keys) < RemainingSum(g, g.Keys)
  {
    var g' := RunBatch(g, batch, input);
    InvBooks(g0, g);
    BatchKeepsInv(g0, g, batch, input);
    InvBooks(g0, g');
    forall id | id in batch ensures Remaining(g'[id]) < Remaining(g[id]) {
      assert Runnable(g, id);
      FinishedRemains(g, g[id], input);
    }
    SumDecreases(g, g', g.Keys);
    var one :| one in batch;
    assert one in g.Keys && Remaining(g'[one]) < Remaining(g[one]);
  }

  lemma SmallerSet(a: set<Id>, b: set<Id>, x: Id)
    requires a <= b && x in b && x !in a
    ensures |a| < |b|
  {
    assert b == a + (b - a) && x in b - a;
    assert |b| == |a| + |b - a|;
  }

  /** A cycle that expands leaves fewer templates. */
  lemma ExpansionDecreases(g0: Graph, g: Graph, g': Graph)
    requires InitialGraph(g0) && Shape(g0, g) && !InsertFails(g) && Expandable(g) != {}
    requires Expanded(g0, g') == Expanded(g0, g) + Expandable(g)
    ensures |Unexpanded(g0, g')| < |Unexpanded(g0, g)|
  {
    var t :| t in Expandable(g);
    TemplatesAreOriginal(g0, g, t);
    InsertFailsIff(g0, g);
    assert t !in Expanded(g0, g);
    SmallerSet(Unexpanded(g0, g'), Unexpanded(g0, g), t);
  }

  /** Every cycle that continues decreases the measure. */
  lemma ContinueDecreases(g0: Graph, durable: bool, g: Graph, input: CycleInput)
    requires InitialGraph(g0) && Inv(g0, g) && RunCycle(durable, g, input).outcome.Continue?
    ensures AllBooksOk(g) && AllBooksOk(RunCycle(durable, g, input).rows)
    ensures Decreases(g0, g, RunCycle(durable, g, input).rows)
  {
    var g' := RunCycle(durable, g, input).rows;
    CycleCases(durable, g, input);
    CycleKeepsInv(g0, durable, g, input);
    InvBooks(g0, g);
    InvBooks(g0, g');
    CycleExpands(g0, durable, g, input);
    if Expandable(g) == {} {
      BatchOnlyDecreases(g0, durable, g, input);
    } else {
      ExpansionDecreases(g0, g, g');
    }
  }

  lemma BatchOnlyDecreases(g0: Graph, durable: bool, g: Graph, input: CycleInput)
    requires InitialGraph(g0) && Inv(g0, g) && RunCycle(durable, g, input).outcome.Continue?
    requires Expandable(g) == {} && AllBooksOk(g) && AllBooksOk(RunCycle(durable, g, input).rows)
    ensures Decreases(g0, g, RunCycle(durable, g, input).rows)
  {
    var ready := ReadySet(g, input.now);
    ExpandNothing(g);
    CycleCases(durable, g, input);
    ReadyIsRunnable(g0, durable, g, input.now);
    BatchDecreases(g0, g, ready, input);
    BatchKeepsInv(g0, g, ready, input);
    assert RunBatch(g, ready, input).Keys == g.Keys;
  }

  // ── No infinite run of productive cycles ─────────────────────────────

  function Prefix(inputs: nat -> CycleInput, k: nat): seq<CycleInput> { seq(k, i requires 0 <= i < k => inputs(i)) }

  ghost predicate ContinuesAt(durable: bool, g0: Graph, inputs: nat -> CycleInput, k: nat) {
    RunCycle(durable, After(durable, g0, Prefix(inputs, k)), inputs(k)).outcome.Continue?
  }

  lemma PrefixStep(durable: bool, g0: Graph, inputs: nat -> CycleInput, k: nat)
    ensures After(durable, g0, Prefix(inputs, k + 1)) ==
            RunCycle(durable, After(durable, g0, Prefix(inputs, k)), inputs(k)).rows
  {
    assert Prefix(inputs, k + 1)[..k] == Prefix(inputs, k);
  }

  /** A cycle that does not continue leaves the store as it found it, whether it waits, ends, fails or hangs. */
  lemma OnlyContinueChanges(g0: Graph, durable: bool, g: Graph, input: CycleInput)
    requires InitialGraph(g0) && Inv(g0, g) && !RunCycle(durable, g, input).outcome.Continue?
    ensures RunCycle(durable, g, input).rows == g
  {
    CycleCases(durable, g, input);
    if !Stops(g) { QuietCycle(g0, durable, g, input); }
  }

  /** A sequence that changes only where it goes on stays the same up to the first point from which it goes on. */
  lemma {:induction false} QuietStretch(rows: nat -> Graph, goesOn: nat -> bool, k: nat, j: nat)
    requires k <= j && forall i: nat :: goesOn(i) || rows(i + 1) == rows(i)
    ensures rows(j) == rows(k) || exists i: nat :: k <= i < j && goesOn(i) && rows(i) == rows(k)
    decreases j
  {
    if k == j {
    } else {
      QuietStretch(rows, goesOn, k, j - 1);
      assert goesOn(j - 1) || rows(j - 1 + 1) == rows(j - 1);
    }
  }

  lemma QuietStep(durable: bool, g0: Graph, inputs: nat -> CycleInput, k: nat)
    requires InitialGraph(g0) && !ContinuesAt(durable, g0, inputs, k)
    ensures After(durable, g0, Prefix(inputs, k + 1)) == After(durable, g0, Prefix(inputs, k))
  {
    RunKeepsInv(durable, g0, Prefix(inputs, k));
    PrefixStep(durable, g0, inputs, k);
    OnlyContinueChanges(g0, durable, After(durable, g0, Prefix(inputs, k)), inputs(k));
  }

  ghost predicate ContinuesFrom(durable: bool, g0: Graph, inputs: nat -> CycleInput, i: nat, g: Graph) {
    ContinuesAt(durable, g0, inputs, i) && After(durable, g0, Prefix(inputs, i)) == g
  }

  /** No cycle from the `k`-th on continues, and the table stays as it then is. */
  ghost predicate AtRest(durable: bool, g0: Graph, inputs: nat -> CycleInput, k: nat) {
    forall j: nat :: j >= k ==>
      !ContinuesAt(durable, g0, inputs, j) && After(durable, g0, Prefix(inputs, j)) == After(durable, g0, Prefix(inputs, k))
  }

  lemma NowAtRest(durable: bool, g0: Graph, inputs: nat -> CycleInput, k: nat)
    requires InitialGraph(g0)
    requires forall i :: i >= k ==> !ContinuesFrom(durable, g0, inputs, i, After(durable, g0, Prefix(inputs, k)))
    ensures AtRest(durable, g0, inputs, k)
  {
    ghost var rows := (i: nat) => After(durable, g0, Prefix(inputs, i));
    ghost var goesOn := (i: nat) => ContinuesAt(durable, g0, inputs, i);
    forall i: nat ensures goesOn(i) || rows(i + 1) == rows(i) { if !goesOn(i) { QuietStep(durable, g0, inputs, i); } }
    forall j: nat | j >= k ensures !ContinuesAt(durable, g0, inputs, j) && rows(j) == rows(k) {
      QuietStretch(rows, goesOn, k, j);
      assert forall i: nat :: k <= i && goesOn(i) ==> rows(i) != rows(k) by {
        forall i: nat | k <= i && goesOn(i) ensures rows(i) != rows(k) {
          assert !ContinuesFrom(durable, g0, inputs, i, rows(k));
        }
      }
    }
  }

  /** A cycle that goes on from a table leaves one with a smaller measure. */
  lemma NextIsSmaller(durable: bool, g0: Graph, inputs: nat -> CycleInput, i: nat, g: Graph) returns (g': Graph)
    requires InitialGraph(g0) && Inv(g0, g) && AllBooksOk(g) && ContinuesFrom(durable, g0, inputs, i, g)
    ensures g' == After(durable, g0, Prefix(inputs, i + 1))
    ensures Inv(g0, g') && AllBooksOk(g') && Decreases(g0, g, g')
  {
    g' := RunCycle(durable, g, inputs(i)).rows;
    PrefixStep(durable, g0, inputs, i);
    ContinueDecreases(g0, durable, g, inputs(i));
    CycleKeepsInv(g0, durable, g, inputs(i));
  }

  lemma {:induction false} RestsFrom(durable: bool, g0: Graph, inputs: nat -> CycleInput, k: nat, g: Graph)
    requires InitialGraph(g0) && Inv(g0, g) && AllBooksOk(g)
    requires g == After(durable, g0, Prefix(inputs, k))
    ensures exists j :: AtRest(durable, g0, inputs, j)
    decreases |Unexpanded(g0, g)|, RemainingSum(g, g.Keys)
  {
    if i :| i >= k && ContinuesFrom(durable, g0, inputs, i, g) {
      var g' := NextIsSmaller(durable, g0, inputs, i, g);
      RestsFrom(durable, g0, inputs, i + 1, g');
    } else {
      NowAtRest(durable, g0, inputs, k);
    }
  }

  /**
   In every infinite stream of inputs, however adversarial, only finitely many cycles continue: from
   some cycle on none does, and the table no longer changes.
   */
  lemma NoInfiniteRun(durable: bool, g0: Graph, inputs: nat -> CycleInput)
    requires InitialGraph(g0)
    ensures exists k :: AtRest(durable, g0, inputs, k)
  {
    var g := After(durable, g0, Prefix(inputs, 0));
    RunKeepsInv(durable, g0, Prefix(inputs, 0));
    InvBooks(g0, g);
    RestsFrom(durable, g0, inputs, 0, g);
  }
}
