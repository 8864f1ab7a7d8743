/** How often a step is executed and how long its retries wait, over whole runs. */
module RetryBudget {
  import opened Wrappers
  import opened Arithmetic
  import opened Dag
  import opened Engine
  import opened GraphShape
  import opened RunInvariants
  import opened RunSafety
  import opened RunVerdict

  // ── Counting executions ──────────────────────────────────────────────

  /** A step that its gate let through in this cycle. */
  ghost predicate ExecutedIn(durable: bool, g: Graph, input: CycleInput, id: Id) {
    && RunCycle(durable, g, input).outcome.Continue?
    && id in ReadySet(InMemory(g), input.now) && id in Stored(durable, g)
    && GatePasses(Stored(durable, g)[id], Inputs(Stored(durable, g), Stored(durable, g)[id]))
  }

  ghost function Executions(durable: bool, g0: Graph, inputs: seq<CycleInput>, id: Id): nat {
    if inputs == [] then 0
    else
      var before, last := inputs[..|inputs| - 1], inputs[|inputs| - 1];
      Executions(durable, g0, before, id) + if ExecutedIn(durable, After(durable, g0, before), last, id) then 1 else 0
  }

  /** How often a row says its step was started: once per failure, and once if it is under way or done. */
  function Started(n: StepNode): nat {
    n.attempt +
    if n.status.Running? || n.status.AwaitingInput? || n.status.AwaitingChildren? ||
       (n.status.Succeeded? && !n.kind.ForEachTemplate?)
    then 1 else 0
  }

  function StartedAt(g: Graph, id: Id): nat { if id in g then Started(g[id]) else 0 }

  /** An expansion adds steps that have not started, and changes no count. */
  lemma NewIsUntouched(g0: Graph, durable: bool, g: Graph, id: Id)
    requires InitialGraph(g0) && Inv(g0, g) && !InsertFails(g) && id in Stored(durable, g) && id !in g
    ensures Stored(durable, g)[id].attempt == 0 && Stored(durable, g)[id].status.Pending?
  {
    var t, i := NewIdOrigin(g, Expandable(g), id);
    ExpandNew(g, Expandable(g), t);
    assert NodeOk(g0, g, g[t]);
  }

  lemma OldIsSame(g0: Graph, durable: bool, g: Graph, id: Id)
    requires InitialGraph(g0) && Inv(g0, g) && !InsertFails(g) && id in g
    ensures id in Stored(durable, g) && Started(Stored(durable, g)[id]) == Started(g[id])
    ensures Retries(Stored(durable, g)[id]) == Retries(g[id])
  {
    if g[id].status.Pending? { PendingIsSame(g0, durable, g, id); } else { StoredKeepsStarted(g0, durable, g, id); }
  }

  lemma PendingIsSame(g0: Graph, durable: bool, g: Graph, id: Id)
    requires InitialGraph(g0) && Inv(g0, g) && !InsertFails(g) && id in g && g[id].status.Pending?
    ensures id in Stored(durable, g) && Stored(durable, g)[id].attempt == g[id].attempt
    ensures Stored(durable, g)[id].kind == g[id].kind
    ensures Stored(durable, g)[id].status.Pending? || (Stored(durable, g)[id].status.Succeeded? && g[id].kind.ForEachTemplate?)
  {
    assert g[id].id == id;
  }

  lemma StoredStarted(g0: Graph, durable: bool, g: Graph, id: Id)
    requires InitialGraph(g0) && Inv(g0, g) && !InsertFails(g) && id in Stored(durable, g)
    ensures Started(Stored(durable, g)[id]) == StartedAt(g, id)
  {
    if id in g { OldIsSame(g0, durable, g, id); } else { NewIsUntouched(g0, durable, g, id); }
  }

  lemma CycleCountsExecutions(g0: Graph, durable: bool, g: Graph, input: CycleInput, id: Id)
    requires InitialGraph(g0) && Inv(g0, g)
    ensures StartedAt(RunCycle(durable, g, input).rows, id)
         == StartedAt(g, id) + if ExecutedIn(durable, g, input, id) then 1 else 0
  {
    CycleCases(durable, g, input);
    if !Stops(g) {
      var stored, ready := Stored(durable, g), ReadySet(InMemory(g), input.now);
      if id in stored {
        StoredStarted(g0, durable, g, id);
        if RunCycle(durable, g, input).outcome.Continue? && id in ready {
          ReadyIsRunnable(g0, durable, g, input.now);
          assert Runnable(stored, id);
          FinishCounts(stored, stored[id], input);
        }
      }
    }
  }

  lemma FinishCounts(g: Graph, n: StepNode, input: CycleInput)
    requires !n.kind.ForEachTemplate? && (n.status.Pending? || n.status.Retrying?)
    ensures Started(FinishStep(g, n, input)) == Started(n) + if GatePasses(n, Inputs(g, n)) then 1 else 0
  {
  }

  lemma {:induction false} ExecutionsCounted(durable: bool, g0: Graph, inputs: seq<CycleInput>, id: Id)
    requires InitialGraph(g0)
    ensures Executions(durable, g0, inputs, id) == StartedAt(After(durable, g0, inputs), id)
  {
    if inputs == [] {
      assert id in g0 ==> InitialNode(g0, g0[id]);
    } else {
      var before := inputs[..|inputs| - 1];
      ExecutionsCounted(durable, g0, before, id);
      RunKeepsInv(durable, g0, before);
      CycleCountsExecutions(g0, durable, After(durable, g0, before), inputs[|inputs| - 1], id);
    }
  }

  /** No run executes a step more often than its policy allows, and the first execution is always allowed. */
  lemma ExecutionBudget(durable: bool, g0: Graph, inputs: seq<CycleInput>, id: Id)
    requires InitialGraph(g0) && id in After(durable, g0, inputs)
    ensures Executions(durable, g0, inputs, id) == Started(After(durable, g0, inputs)[id])
    ensures Executions(durable, g0, inputs, id) <= Budget(After(durable, g0, inputs)[id].retryPolicy)
  {
    ExecutionsCounted(durable, g0, inputs, id);
    RunKeepsInv(durable, g0, inputs);
    assert NodeOk(g0, After(durable, g0, inputs), After(durable, g0, inputs)[id]);
  }

  // ── Backoff arithmetic ───────────────────────────────────────────────

  lemma ModOfProduct(b: nat, p: nat)
    ensures b * (p % TWO_64) % TWO_64 == b * p % TWO_64
  {
    var q, r := p / TWO_64, p % TWO_64;
    assert p == q * TWO_64 + r;
    assert b * p == (b * q) * TWO_64 + b * r by { Spread(b, q, r, TWO_64); }
    ModDrops(b * q, b * r);
  }

  lemma Spread(b: nat, q: nat, r: nat, m: nat)
    ensures b * (q * m + r) == (b * q) * m + b * r
  {
  }

  lemma ModDrops(k: nat, r: nat)
    ensures (k * TWO_64 + r) % TWO_64 == r % TWO_64
  {
  }

  /** The machine computes the intended delay exactly when that delay fits an i64. */
  lemma BackoffExactIff(p: RetryPolicy, attempt: nat)
    requires attempt > 0
    ensures BackoffDelay(p, attempt) == p.backoffSecs * Pow2(attempt - 1)
       <==> p.backoffSecs * Pow2(attempt - 1) < TWO_63
  {
    ModOfProduct(p.backoffSecs, Pow2(attempt - 1));
  }

  /** The longest delay the policy can ask for fits. */
  predicate PolicyFits(p: RetryPolicy) {
    p.maxAttempts >= 2 ==> p.backoffSecs * Pow2(p.maxAttempts - 2) < TWO_63
  }

  lemma {:induction false} Pow2Monotone(m: nat, n: nat)
    requires m <= n
    ensures Pow2(m) <= Pow2(n)
    decreases n
  {
    if m == n {
    } else {
      Pow2Monotone(m, n - 1);
    }
  }

  lemma TimesMonotone(b: nat, x: nat, y: nat)
    requires x <= y
    ensures b * x <= b * y
  {
  }

  lemma PolicyDelays(p: RetryPolicy, attempt: nat)
    requires PolicyFits(p) && 0 < attempt < p.maxAttempts
    ensures BackoffDelay(p, attempt) == p.backoffSecs * Pow2(attempt - 1)
  {
    Pow2Monotone(attempt - 1, p.maxAttempts - 2);
    TimesMonotone(p.backoffSecs, Pow2(attempt - 1), Pow2(p.maxAttempts - 2));
    BackoffExactIff(p, attempt);
  }

  // ── Delays over a run ────────────────────────────────────────────────

  /** The delay this cycle puts before the next retry of a step, if it schedules one. */
  ghost function DelayIn(durable: bool, g: Graph, input: CycleInput, id: Id): int {
    var g' := RunCycle(durable, g, input).rows;
    if id in g' then DelayOf(RetriesAt(g, id), g'[id], input.DoneAt(id)) else 0
  }

  function DelayOf(retriesBefore: nat, n: StepNode, at: Time): int {
    if retriesBefore < Retries(n) && n.status.Retrying? then n.status.nextRetryAt - at else 0
  }

  ghost function DelaySum(durable: bool, g0: Graph, inputs: seq<CycleInput>, id: Id): int {
    if inputs == [] then 0
    else
      var before, last := inputs[..|inputs| - 1], inputs[|inputs| - 1];
      DelaySum(durable, g0, before, id) + DelayIn(durable, After(durable, g0, before), last, id)
  }

  /** The retries scheduled so far: every failure but a final one. */
  function Retries(n: StepNode): nat {
    if n.status.Failed? && n.attempt > 0 then n.attempt - 1 else n.attempt
  }

  function RetriesAt(g: Graph, id: Id): nat { if id in g then Retries(g[id]) else 0 }

  lemma StoredRetries(g0: Graph, durable: bool, g: Graph, id: Id)
    requires InitialGraph(g0) && Inv(g0, g) && !InsertFails(g) && id in Stored(durable, g)
    ensures Retries(Stored(durable, g)[id]) == RetriesAt(g, id)
  {
    if id in g { OldIsSame(g0, durable, g, id); } else { NewIsUntouched(g0, durable, g, id); }
  }

  /** The delays of a step that had `k` retries and now has `k'` grew by the delay of one retry, or not at all. */
  predicate Grows(backoff: nat, k: nat, k': nat, delay: int) {
    (k' == k && delay == 0) || (k' == k + 1 && delay == backoff * Pow2(k))
  }

  /** A row of the store is kept by a cycle, or is that of a step which was run. */
  predicate RowStep(g: Graph, n: StepNode, n': StepNode, input: CycleInput) {
    || n' == n
    || (BooksOk(n) && !n.kind.ForEachTemplate? && (n.status.Pending? || n.status.Retrying?) && n' == FinishStep(g, n, input))
  }

  lemma CycleRow(g0: Graph, durable: bool, g: Graph, input: CycleInput, id: Id)
    requires InitialGraph(g0) && Inv(g0, g) && !Stops(g) && id in RunCycle(durable, g, input).rows
    ensures id in Stored(durable, g) && Stored(durable, g)[id].id == id
    ensures RowStep(Stored(durable, g), Stored(durable, g)[id], RunCycle(durable, g, input).rows[id], input)
  {
    var stored := Stored(durable, g);
    CycleCases(durable, g, input);
    StoredInv(g0, durable, g);
    ReadyIsRunnable(g0, durable, g, input.now);
    assert NodeOk(g0, stored, stored[id]);
    assert id in ReadySet(InMemory(g), input.now) ==> Runnable(stored, id);
  }

  lemma CycleAddsDelay(g0: Graph, durable: bool, g: Graph, input: CycleInput, id: Id)
    requires InitialGraph(g0) && Inv(g0, g)
    requires id in RunCycle(durable, g, input).rows && PolicyFits(RunCycle(durable, g, input).rows[id].retryPolicy)
    ensures var n := RunCycle(durable, g, input).rows[id];
            Grows(n.retryPolicy.backoffSecs, RetriesAt(g, id), Retries(n), DelayIn(durable, g, input, id))
  {
    if Stops(g) {
      CycleCases(durable, g, input);
    } else {
      CycleRow(g0, durable, g, input, id);
      StoredRetries(g0, durable, g, id);
      RowDelay(Stored(durable, g), Stored(durable, g)[id], RunCycle(durable, g, input).rows[id], input);
    }
  }

  lemma RowDelay(g: Graph, n: StepNode, n': StepNode, input: CycleInput)
    requires RowStep(g, n, n', input) && PolicyFits(n'.retryPolicy)
    ensures Grows(n'.retryPolicy.backoffSecs, Retries(n), Retries(n'), DelayOf(Retries(n), n', input.DoneAt(n.id)))
  {
    if n' != n {
      assert n'.retryPolicy == n.retryPolicy;
      FailDelay(n, true, input.DoneAt(n.id));
      FailDelay(n, false, input.DoneAt(n.id));
    }
  }

  /** One more retry with its delay, or no change. */
  predicate DelayedBy(n: StepNode, n': StepNode, at: Time) {
    if n'.status.Retrying?
    then Retries(n') == Retries(n) + 1
      && n'.status.nextRetryAt - at == n.retryPolicy.backoffSecs * Pow2(Retries(n))
    else Retries(n') == Retries(n)
  }

  lemma FailDelay(n: StepNode, hit: bool, at: Time)
    requires (n.status.Pending? || n.status.Retrying?) && PolicyFits(n.retryPolicy)
    ensures DelayedBy(n, FailStep(n, hit, at), at)
  {
    if FailStep(n, hit, at).status.Retrying? { PolicyDelays(n.retryPolicy, n.attempt + 1); }
  }

  /** The delays before the first `k` retries. */
  function DelayTotal(backoff: nat, k: nat): int { backoff * (Pow2(k) - 1) }

  lemma TotalGrows(backoff: nat, k: nat, k': nat, delay: int)
    requires Grows(backoff, k, k', delay)
    ensures DelayTotal(backoff, k) + delay == DelayTotal(backoff, k')
  {
  }

  lemma CycleKeepsPolicy(g0: Graph, durable: bool, g: Graph, input: CycleInput, id: Id)
    requires InitialGraph(g0) && Inv(g0, g) && id in g
    ensures id in RunCycle(durable, g, input).rows
    ensures RunCycle(durable, g, input).rows[id].retryPolicy == g[id].retryPolicy
  {
    CycleCases(durable, g, input);
    if !Stops(g) {
      StoredInv(g0, durable, g);
      ReadyIsRunnable(g0, durable, g, input.now);
      BatchKeepsInv(g0, Stored(durable, g), ReadySet(InMemory(g), input.now), input);
      assert Stored(durable, g)[id].retryPolicy == g[id].retryPolicy;
      assert Static(RunBatch(Stored(durable, g), ReadySet(InMemory(g), input.now), input)[id]) == Static(Stored(durable, g)[id]);
    }
  }

  /** Nothing is scheduled for a step that is not there yet. */
  lemma {:induction false} NoDelayBefore(durable: bool, g0: Graph, inputs: seq<CycleInput>, id: Id)
    requires InitialGraph(g0) && id !in After(durable, g0, inputs)
    ensures DelaySum(durable, g0, inputs, id) == 0
  {
    if inputs == [] {
    } else {
      var before := inputs[..|inputs| - 1];
      RunKeepsInv(durable, g0, before);
      if id in After(durable, g0, before) {
        CycleKeepsPolicy(g0, durable, After(durable, g0, before), inputs[|inputs| - 1], id);
      }
      NoDelayBefore(durable, g0, before, id);
    }
  }

  /** After `k` scheduled retries the delays of a step sum to `backoff * (2^k - 1)`. */
  lemma {:induction false} RetryDelays(durable: bool, g0: Graph, inputs: seq<CycleInput>, id: Id)
    requires InitialGraph(g0) && id in After(durable, g0, inputs)
    requires PolicyFits(After(durable, g0, inputs)[id].retryPolicy)
    ensures var n := After(durable, g0, inputs)[id];
            DelaySum(durable, g0, inputs, id) == DelayTotal(n.retryPolicy.backoffSecs, Retries(n))
  {
    if inputs == [] {
      assert InitialNode(g0, g0[id]);
    } else {
      var before, last := inputs[..|inputs| - 1], inputs[|inputs| - 1];
      var g := After(durable, g0, before);
      RunKeepsInv(durable, g0, before);
      if id in g {
        CycleKeepsPolicy(g0, durable, g, last, id);
        RetryDelays(durable, g0, before, id);
      } else {
        NoDelayBefore(durable, g0, before, id);
      }
      DelayStep(g0, durable, g, last, id);
    }
  }

  lemma DelayStep(g0: Graph, durable: bool, g: Graph, input: CycleInput, id: Id)
    requires InitialGraph(g0) && Inv(g0, g)
    requires id in RunCycle(durable, g, input).rows && PolicyFits(RunCycle(durable, g, input).rows[id].retryPolicy)
    ensures var n := RunCycle(durable, g, input).rows[id];
            DelayTotal(n.retryPolicy.backoffSecs, RetriesAt(g, id)) + DelayIn(durable, g, input, id) ==
            DelayTotal(n.retryPolicy.backoffSecs, Retries(n))
  {
    var n := RunCycle(durable, g, input).rows[id];
    CycleAddsDelay(g0, durable, g, input, id);
    TotalGrows(n.retryPolicy.backoffSecs, RetriesAt(g, id), Retries(n), DelayIn(durable, g, input, id));
  }

  /** A retrying step's status carries its own attempt count, which is below the policy's limit. */
  lemma RetryingBooks(durable: bool, g0: Graph, inputs: seq<CycleInput>, id: Id)
    requires InitialGraph(g0) && id in After(durable, g0, inputs)
    requires After(durable, g0, inputs)[id].status.Retrying?
    ensures var n := After(durable, g0, inputs)[id];
            n.status.attempt == n.attempt && 0 < n.attempt < n.retryPolicy.maxAttempts
  {
    RunKeepsInv(durable, g0, inputs);
    assert NodeOk(g0, After(durable, g0, inputs), After(durable, g0, inputs)[id]);
  }

  // ── Aborts ───────────────────────────────────────────────────────────

  /** However the run goes on, the step stays failed. */
  ghost predicate FailedForGood(durable: bool, g0: Graph, inputs: seq<CycleInput>, id: Id) {
    forall more :: FailedAt(After(durable, g0, inputs + more), id)
  }

  predicate FailedAt(g: Graph, id: Id) { id in g && g[id].status.Failed? }

  lemma FailedStays(durable: bool, g0: Graph, inputs: seq<CycleInput>, id: Id)
    requires InitialGraph(g0)
    ensures FailedForGood(durable, g0, inputs, id) <==> FailedAt(After(durable, g0, inputs), id)
  {
    if FailedAt(After(durable, g0, inputs), id) {
      forall more ensures FailedAt(After(durable, g0, inputs + more), id) { GateStability(durable, g0, inputs, more, id); }
    }
    if FailedForGood(durable, g0, inputs, id) {
      assert inputs + [] == inputs;
      assert FailedAt(After(durable, g0, inputs + []), id);
    }
  }

  /** The row a cycle leaves of a step that it executed and that failed. */
  lemma FailureRow(g0: Graph, durable: bool, g: Graph, input: CycleInput, id: Id)
    requires InitialGraph(g0) && Inv(g0, g) && ExecutedIn(durable, g, input, id) && input.VerdictOf(id).Failure?
    ensures id in RunCycle(durable, g, input).rows
    ensures var n := RunCycle(durable, g, input).rows[id];
            n.status.Failed? <==> LastChance(n.retryPolicy, StartedAt(g, id), input.VerdictOf(id).patternHit)
  {
    var stored := Stored(durable, g);
    CycleCases(durable, g, input);
    StoredStarted(g0, durable, g, id);
    ReadyIsRunnable(g0, durable, g, input.now);
    StoredInv(g0, durable, g);
    assert Runnable(stored, id) && stored[id].id == id;
    FailureOfStep(stored, stored[id], input);
  }

  lemma FailureOfStep(g: Graph, n: StepNode, input: CycleInput)
    requires n.status.Pending? || n.status.Retrying?
    requires GatePasses(n, Inputs(g, n)) && input.VerdictOf(n.id).Failure?
    ensures FinishStep(g, n, input).retryPolicy == n.retryPolicy && Started(n) == n.attempt
    ensures FinishStep(g, n, input).status.Failed?
       <==> LastChance(n.retryPolicy, n.attempt, input.VerdictOf(n.id).patternHit)
  {
  }

  /** After `executions` runs, the policy allows one more run and no retry of it. */
  predicate LastChance(p: RetryPolicy, executions: nat, hit: bool) {
    executions + 1 >= p.maxAttempts || (p.retryOn != [] && !hit)
  }

  /**
   A step that a failure rule aborts is done for good exactly when the policy allows no retry: it was
   its last allowed execution, or the policy's patterns do not match.
   */
  lemma AbortIsFinalIff(durable: bool, g0: Graph, inputs: seq<CycleInput>, input: CycleInput, id: Id, hit: bool)
    requires InitialGraph(g0) && ExecutedIn(durable, After(durable, g0, inputs), input, id)
    requires input.VerdictOf(id) == Failure(RuleAbort, hit)
    ensures id in After(durable, g0, inputs + [input])
    ensures FailedForGood(durable, g0, inputs + [input], id)
       <==> LastChance(After(durable, g0, inputs + [input])[id].retryPolicy, Executions(durable, g0, inputs, id), hit)
  {
    RunKeepsInv(durable, g0, inputs);
    AfterLast(durable, g0, inputs + [input], inputs, input);
    ExecutionsCounted(durable, g0, inputs, id);
    FailureRow(g0, durable, After(durable, g0, inputs), input, id);
    FailedStays(durable, g0, inputs + [input], id);
  }

  // ── One policy for all ───────────────────────────────────────────────

  predicate AllHave(g: Graph, policy: RetryPolicy) { forall id :: id in g ==> g[id].retryPolicy == policy }

  lemma StoredHave(durable: bool, g: Graph, policy: RetryPolicy)
    requires AllHave(g, policy) && !InsertFails(g)
    ensures AllHave(Stored(durable, g), policy)
  {
    forall id | id in Stored(durable, g) ensures Stored(durable, g)[id].retryPolicy == policy {
      if id !in g {
        var t, i := NewIdOrigin(g, Expandable(g), id);
        ExpandNew(g, Expandable(g), t);
      }
    }
  }

  /** Items and joins have the policy of their template, so a policy that all planned steps share is that of all steps. */
  lemma {:induction false} RunKeepsPolicies(durable: bool, g0: Graph, inputs: seq<CycleInput>, policy: RetryPolicy)
    requires InitialGraph(g0) && AllHave(g0, policy)
    ensures AllHave(After(durable, g0, inputs), policy)
  {
    if inputs == [] {
    } else {
      var before, last := inputs[..|inputs| - 1], inputs[|inputs| - 1];
      RunKeepsPolicies(durable, g0, before, policy);
      CycleKeepsPolicies(durable, After(durable, g0, before), last, policy);
    }
  }

  lemma CycleKeepsPolicies(durable: bool, g: Graph, input: CycleInput, policy: RetryPolicy)
    requires AllHave(g, policy)
    ensures AllHave(RunCycle(durable, g, input).rows, policy)
  {
    CycleCases(durable, g, input);
    if !Stops(g) {
      StoredHave(durable, g, policy);
      BatchHave(Stored(durable, g), ReadySet(InMemory(g), input.now), input, policy);
    }
  }

  lemma BatchHave(g: Graph, batch: set<Id>, input: CycleInput, policy: RetryPolicy)
    requires AllHave(g, policy)
    ensures AllHave(RunBatch(g, batch, input), policy)
  {
    forall n: StepNode ensures FinishStep(g, n, input).retryPolicy == n.retryPolicy {}
  }

  /** If no planned step may be retried, no step ever is, and each is executed at most once. */
  lemma NoRetries(durable: bool, g0: Graph, inputs: seq<CycleInput>, policy: RetryPolicy, id: Id)
    requires InitialGraph(g0) && AllHave(g0, policy) && policy.maxAttempts <= 1 && id in After(durable, g0, inputs)
    ensures !After(durable, g0, inputs)[id].status.Retrying?
    ensures Executions(durable, g0, inputs, id) <= 1
  {
    RunKeepsPolicies(durable, g0, inputs, policy);
    ExecutionBudget(durable, g0, inputs, id);
    if After(durable, g0, inputs)[id].status.Retrying? { RetryingBooks(durable, g0, inputs, id); }
  }
}
