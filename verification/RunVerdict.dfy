/** What a cycle's verdict means: completion, deadlock and wake-up, exactly. */
module RunVerdict {
  import opened Wrappers
  import opened Dag
  import opened Engine
  import opened GraphShape
  import opened RunInvariants
  import opened RunSafety

  // ── Expansion makes progress ─────────────────────────────────────────

  lemma ExpandNothing(g: Graph)
    requires Expandable(g) == {}
    ensures !Stops(g) && InMemory(g) == g
    ensures forall durable :: Stored(durable, g) == g
  {
    assert NewIds(g, {}) == {};
    forall id | id in g ensures Rewired(g[id], {}) == g[id] {
      assert RewriteDeps(g[id].dependsOn, {}) == g[id].dependsOn;
    }
    assert InMemory(g) == g;
  }

  /** An expanded graph has a ready step: the first item, or else the join. */
  lemma ExpandedHasReady(g0: Graph, g: Graph, now: Time)
    requires InitialGraph(g0) && Inv(g0, g) && !InsertFails(g) && Expandable(g) != {}
    ensures ReadySet(InMemory(g), now) != {}
  {
    var memory, T := InMemory(g), Expandable(g);
    var t :| t in T;
    ExpandNew(g, T, t);
    ExpandKeepsSatisfied(g);
    SatisfiedStays(g, memory, g[t]);
    var next := if Items(g, g[t]) == [] then JoinId(t) else ItemId(t, 0);
    assert next in ReadySet(memory, now);
  }

  /** A cycle that starts an expansion hangs on a rendering, fails on its insert, or finds a ready step and goes on. */
  lemma ExpansionFindsReady(g0: Graph, durable: bool, g: Graph, input: CycleInput)
    requires InitialGraph(g0) && Inv(g0, g) && Expandable(g) != {}
    ensures RunCycle(durable, g, input).outcome ==
            if Hangs(g) then Hung else if InsertFails(g) then StoreError else Continue
  {
    if !Stops(g) {
      ExpandedHasReady(g0, g, input.now);
      var id :| id in ReadySet(InMemory(g), input.now);
      assert !InMemory(g)[id].status.Terminal();
    }
  }

  /** Unless it runs steps, hangs or fails, a cycle leaves the store as it found it. */
  lemma QuietCycle(g0: Graph, durable: bool, g: Graph, input: CycleInput)
    requires InitialGraph(g0) && Inv(g0, g)
    requires var outcome := RunCycle(durable, g, input).outcome;
             !outcome.Continue? && !outcome.StoreError? && !outcome.Hung?
    ensures Expandable(g) == {} && InMemory(g) == g && RunCycle(durable, g, input).rows == g
  {
    CycleCases(durable, g, input);
    if Expandable(g) != {} {
      ExpansionFindsReady(g0, durable, g, input);
    }
    ExpandNothing(g);
  }

  // ── Completion ───────────────────────────────────────────────────────

  /** The run reports completion exactly when every step is terminal, failed or not. */
  lemma CompleteIff(durable: bool, g0: Graph, inputs: seq<CycleInput>, input: CycleInput)
    requires InitialGraph(g0)
    ensures RunCycle(durable, After(durable, g0, inputs), input).outcome.Complete?
       <==> forall id :: id in After(durable, g0, inputs) ==> After(durable, g0, inputs)[id].status.Terminal()
  {
    RunKeepsInv(durable, g0, inputs);
    CycleCompletesIff(g0, durable, After(durable, g0, inputs), input);
  }

  lemma CycleCompletesIff(g0: Graph, durable: bool, g: Graph, input: CycleInput)
    requires InitialGraph(g0) && Inv(g0, g)
    ensures RunCycle(durable, g, input).outcome.Complete? <==> IsComplete(g)
  {
    if RunCycle(durable, g, input).outcome.Complete? { QuietCycle(g0, durable, g, input); }
    if IsComplete(g) {
      assert Expandable(g) == {};
      ExpandNothing(g);
    }
  }

  /** In a completed run a failed step is a leaf: nothing depends on it. */
  lemma CompletedFailuresAreLeaves(durable: bool, g0: Graph, inputs: seq<CycleInput>, input: CycleInput, failed: Id, id: Id)
    requires InitialGraph(g0)
    requires RunCycle(durable, After(durable, g0, inputs), input).outcome.Complete?
    requires failed in After(durable, g0, inputs) && After(durable, g0, inputs)[failed].status.Failed?
    requires id in After(durable, g0, inputs)
    ensures failed !in After(durable, g0, inputs)[id].dependsOn
  {
    CompleteIff(durable, g0, inputs, input);
    DependencySafety(durable, g0, inputs, id);
  }

  // ── Deadlock ─────────────────────────────────────────────────────────

  ghost predicate FailedAncestor(g: Graph, id: Id) {
    exists p :: IsPath(g, p) && p[0] == id && g[p[|p| - 1]].status.Failed?
  }

  lemma {:induction false} SatisfiedAllTheWay(g0: Graph, g: Graph, p: seq<Id>)
    requires Inv(g0, g) && IsPath(g, p) && Satisfied(g, p[0])
    ensures Satisfied(g, p[|p| - 1])
    decreases |p|
  {
    if |p| == 1 {
    } else {
      assert NodeOk(g0, g, g[p[0]]) && p[0 + 1] in g[p[0]].dependsOn;
      PathTail(g, p);
      SatisfiedAllTheWay(g0, g, p[1..]);
    }
  }

  lemma PathTail(g: Graph, p: seq<Id>)
    requires IsPath(g, p) && |p| > 1
    ensures IsPath(g, p[1..]) && p[1..][0] in g[p[0]].dependsOn
  {
    forall i | 0 <= i < |p[1..]| - 1 ensures p[1..][i + 1] in g[p[1..][i]].dependsOn {
      assert p[(i + 1) + 1] in g[p[i + 1]].dependsOn;
    }
    assert p[0 + 1] in g[p[0]].dependsOn;
  }

  /** A ready Pending step has no failed ancestor. */
  lemma ReadyHasNoFailedAncestor(g0: Graph, g: Graph, id: Id)
    requires Inv(g0, g) && id in g && g[id].status.Pending? && DepsSatisfied(g, g[id])
    ensures !FailedAncestor(g, id)
  {
    forall p | IsPath(g, p) && p[0] == id ensures !g[p[|p| - 1]].status.Failed? {
      if |p| > 1 {
        PathTail(g, p);
        SatisfiedAllTheWay(g0, g, p[1..]);
      }
    }
  }

  lemma AncestorOfDependency(g: Graph, id: Id, d: Id)
    requires id in g && d in g[id].dependsOn && FailedAncestor(g, d)
    ensures FailedAncestor(g, id)
  {
    var p :| IsPath(g, p) && p[0] == d && g[p[|p| - 1]].status.Failed?;
    var q := [id] + p;
    forall i | 0 <= i < |q| - 1 ensures q[i + 1] in g[q[i]].dependsOn {
      if i > 0 { assert p[(i - 1) + 1] in g[p[i - 1]].dependsOn; }
    }
    assert IsPath(g, q) && q[|q| - 1] == p[|p| - 1];
  }

  /** When nothing is active and nothing is ready, following unsatisfied dependencies ends in a failure. */
  lemma {:induction false} BlockedByFailure(g0: Graph, rho: map<Id, nat>, g: Graph, now: Time, id: Id)
    requires InitialGraph(g0) && Ranked(g0, rho) && Inv(g0, g)
    requires !HasActive(g) && ReadySet(g, now) == {}
    requires id in g && g[id].status.Pending?
    ensures FailedAncestor(g, id)
    decreases Rank(rho, g[id])
  {
    assert id !in ReadySet(g, now);
    var d :| d in g[id].dependsOn && !Satisfied(g, d);
    DependencyRanks(g0, rho, g, id, d);
    assert NodeOk(g0, g, g[d]);
    if g[d].status.Failed? {
      assert IsPath(g, [d]);
    } else {
      BlockedByFailure(g0, rho, g, now, d);
    }
    AncestorOfDependency(g, id, d);
  }

  /**
   The run reports a deadlock exactly when no step is active, some step is Pending, and every
   Pending step has a failed ancestor; the steps it blames are then the failed ones, and there are some.
   */
  lemma DeadlockIff(durable: bool, g0: Graph, rho: map<Id, nat>, inputs: seq<CycleInput>, input: CycleInput)
    requires InitialGraph(g0) && Ranked(g0, rho)
    ensures var g := After(durable, g0, inputs);
            var r := RunCycle(durable, g, input);
            && (r.outcome.Deadlocked? <==> Blocked(g))
            && (r.outcome.Deadlocked? ==> r.outcome.blocked == (set id | id in g && g[id].status.Failed?) && r.outcome.blocked != {})
  {
    RunKeepsInv(durable, g0, inputs);
    CycleDeadlocksIff(g0, rho, durable, After(durable, g0, inputs), input);
  }

  /** No step is active, some step is Pending, and every Pending step has a failed ancestor. */
  ghost predicate Blocked(g: Graph) {
    && !HasActive(g)
    && (exists id :: id in g && g[id].status.Pending?)
    && (forall id :: id in g && g[id].status.Pending? ==> FailedAncestor(g, id))
  }

  lemma CycleDeadlocksIff(g0: Graph, rho: map<Id, nat>, durable: bool, g: Graph, input: CycleInput)
    requires InitialGraph(g0) && Ranked(g0, rho) && Inv(g0, g)
    ensures var r := RunCycle(durable, g, input);
            && (r.outcome.Deadlocked? <==> Blocked(g))
            && (r.outcome.Deadlocked? ==> r.outcome.blocked == FailedSteps(g) && FailedSteps(g) != {})
  {
    if RunCycle(durable, g, input).outcome.Deadlocked? {
      QuietCycle(g0, durable, g, input);
      DeadlockMeansBlocked(g0, rho, g, input.now);
    }
    if Blocked(g) {
      BlockedMeansDeadlock(g0, g, input.now);
      ExpandNothing(g);
    }
  }

  /**
   A run that has come to its verdict reports completion exactly when nothing depends on a failed
   step; a failure nobody depends on does not make it fail.
   */
  lemma FailureSpoilsRunIff(durable: bool, g0: Graph, rho: map<Id, nat>, inputs: seq<CycleInput>, input: CycleInput)
    requires InitialGraph(g0) && Ranked(g0, rho)
    requires var outcome := RunCycle(durable, After(durable, g0, inputs), input).outcome;
             outcome.Complete? || outcome.Deadlocked?
    ensures RunCycle(durable, After(durable, g0, inputs), input).outcome.Complete?
       <==> FailuresAreLeaves(After(durable, g0, inputs))
  {
    var g := After(durable, g0, inputs);
    if RunCycle(durable, g, input).outcome.Complete? {
      forall failed, id | failed in FailedSteps(g) && id in g ensures failed !in g[id].dependsOn {
        CompletedFailuresAreLeaves(durable, g0, inputs, input, failed, id);
      }
    } else {
      DeadlockIff(durable, g0, rho, inputs, input);
      var id :| id in g && g[id].status.Pending?;
      FailureHasDependent(g, id);
    }
  }

  predicate FailuresAreLeaves(g: Graph) {
    forall failed, id :: failed in FailedSteps(g) && id in g ==> failed !in g[id].dependsOn
  }

  lemma FailureHasDependent(g: Graph, id: Id)
    requires id in g && g[id].status.Pending? && FailedAncestor(g, id)
    ensures !FailuresAreLeaves(g)
  {
    var p :| IsPath(g, p) && p[0] == id && g[p[|p| - 1]].status.Failed?;
    var k := |p| - 2;
    assert p[k + 1] in g[p[k]].dependsOn && p[k + 1] in FailedSteps(g);
  }

  lemma DeadlockMeansBlocked(g0: Graph, rho: map<Id, nat>, g: Graph, now: Time)
    requires InitialGraph(g0) && Ranked(g0, rho) && Inv(g0, g) && IsDeadlocked(g, now)
    ensures Blocked(g) && FailedSteps(g) != {}
  {
    var id :| id in g && !g[id].status.Terminal();
    assert NodeOk(g0, g, g[id]);
    assert g[id].status.Pending?;
    forall id | id in g && g[id].status.Pending? ensures FailedAncestor(g, id) {
      BlockedByFailure(g0, rho, g, now, id);
    }
    var p :| IsPath(g, p) && p[0] == id && g[p[|p| - 1]].status.Failed?;
    assert p[|p| - 1] in FailedSteps(g);
  }

  lemma BlockedMeansDeadlock(g0: Graph, g: Graph, now: Time)
    requires InitialGraph(g0) && Inv(g0, g) && Blocked(g)
    ensures IsDeadlocked(g, now) && Expandable(g) == {}
  {
    forall id | id in g && g[id].status.Pending? ensures !DepsSatisfied(g, g[id]) {
      if DepsSatisfied(g, g[id]) { ReadyHasNoFailedAncestor(g0, g, id); }
    }
    assert ReadySet(g, now) == {};
  }

  // ── Wake-up ──────────────────────────────────────────────────────────

  /**
   When a cycle waits and some step is retrying, no step is ready at any time before the announced
   one, and some step is ready then.
   */
  lemma ExactWakeUp(durable: bool, g0: Graph, inputs: seq<CycleInput>, input: CycleInput)
    requires InitialGraph(g0) && HasRetrying(After(durable, g0, inputs))
    requires RunCycle(durable, After(durable, g0, inputs), input).outcome.WaitUntil?
    ensures var g := After(durable, g0, inputs);
            var r := RunCycle(durable, g, input);
            && r.rows == g
            && input.now < r.outcome.at
            && (forall s :: s < r.outcome.at ==> ReadySet(g, s) == {})
            && ReadySet(g, r.outcome.at) != {}
  {
    var g := After(durable, g0, inputs);
    RunKeepsInv(durable, g0, inputs);
    QuietCycle(g0, durable, g, input);
    CycleCases(durable, g, input);
    NothingBefore(g, input.now, RunCycle(durable, g, input).outcome.at);
  }

  lemma NothingBefore(g: Graph, now: Time, at: Time)
    requires ReadySet(g, now) == {} && IsEarliestRetry(g, at)
    ensures now < at && ReadySet(g, at) != {}
    ensures forall s :: s < at ==> ReadySet(g, s) == {}
  {
    var one :| RetryingAt(g, one, at);
    assert one in ReadySet(g, at);
    assert one !in ReadySet(g, now);
    forall s | s < at ensures ReadySet(g, s) == {} {
      forall id | id in g ensures !IsReady(g, g[id], s) { assert id !in ReadySet(g, now); }
    }
  }

  /** When a cycle waits and no step is retrying, it looks again two seconds later. */
  lemma PollsAgain(durable: bool, g0: Graph, inputs: seq<CycleInput>, input: CycleInput)
    requires InitialGraph(g0) && !HasRetrying(After(durable, g0, inputs))
    requires RunCycle(durable, After(durable, g0, inputs), input).outcome.WaitUntil?
    ensures RunCycle(durable, After(durable, g0, inputs), input).outcome.at == input.now + 2
    ensures HasActive(After(durable, g0, inputs)) && ReadySet(After(durable, g0, inputs), input.now) == {}
  {
    RunKeepsInv(durable, g0, inputs);
    QuietCycle(g0, durable, After(durable, g0, inputs), input);
  }
}
