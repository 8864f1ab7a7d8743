/** Runs of a single step that fails: completion in spite of it, and a second execution after an abort. */
module FailedRuns {
  import opened Wrappers
  import opened Arithmetic
  import opened Dag
  import opened Engine
  import opened GraphShape
  import opened RunInvariants
  import opened RunVerdict
  import opened Translation
  import opened RetryBudget

  /** A single unconditional step. */
  const LONE_STEP := PlannedStep(0, None, None, None, None, [])

  lemma OneRow()
    ensures PlanOk([LONE_STEP])
    ensures PlanGraph([LONE_STEP]) == map[StepName(0) := FromStep(LONE_STEP)]
    ensures InitialGraph(PlanGraph([LONE_STEP]))
  {
    assert PlanOk([LONE_STEP]);
    PlanRow([LONE_STEP], 0);
    PlanGraphSound([LONE_STEP]);
  }

  /** A table of one step without dependencies and condition, which is ready. */
  predicate LoneReady(g: Graph, id: Id, now: Time) {
    && g.Keys == {id} && g[id].id == id && g[id].kind.Normal?
    && g[id].dependsOn == [] && g[id].condition.None? && IsReady(g, g[id], now)
  }

  /** The cycle that runs a lone step. */
  lemma LoneCycle(durable: bool, g: Graph, id: Id, input: CycleInput)
    requires LoneReady(g, id, input.now)
    ensures RunCycle(durable, g, input).rows == map[id := ApplyVerdict(g[id], input.VerdictOf(id), input.DoneAt(id))]
  {
    assert Expandable(g) == {};
    ExpandNothing(g);
    assert id in ReadySet(g, input.now);
    assert !g[id].status.Terminal();
    CycleCases(durable, g, input);
  }

  /** Whatever the cause of the failure, the next cycle reports completion. */
  lemma FailedRunCompletes(durable: bool, input: CycleInput, next: CycleInput)
    requires input.VerdictOf(StepName(0)).Failure?
    ensures PlanOk([LONE_STEP])
    ensures var g := After(durable, PlanGraph([LONE_STEP]), [input]);
            FailedSteps(g) == {StepName(0)} && RunCycle(durable, g, next).outcome == Complete
  {
    OneRow();
    var g0 := PlanGraph([LONE_STEP]);
    LoneCycle(durable, g0, StepName(0), input);
    AfterLast(durable, g0, [input], [], input);
    CompleteIff(durable, g0, [input], next);
  }

  // ── An abort that is not the end ─────────────────────────────────────

  /** A lone step that may be executed twice, two seconds apart. */
  const PATIENT_STEP := FromStep(LONE_STEP).(retryPolicy := RetryPolicy(2, 2, []))

  function AbortAt(now: Time): CycleInput { CycleInput(now, map[StepName(0) := Failure(RuleAbort, false)], map[]) }

  /** Aborted at time 0, the step is executed again at time 2. */
  lemma AbortedTwice(durable: bool)
    ensures InitialGraph(map[StepName(0) := PATIENT_STEP])
    ensures Executions(durable, map[StepName(0) := PATIENT_STEP], [AbortAt(0), AbortAt(2)], StepName(0)) == 2
  {
    var g0, id := map[StepName(0) := PATIENT_STEP], StepName(0);
    StepNameIsBase(0);
    assert InitialGraph(g0);
    LoneCycle(durable, g0, id, AbortAt(0));
    AfterLast(durable, g0, [AbortAt(0)], [], AbortAt(0));
    var g1 := After(durable, g0, [AbortAt(0)]);
    FirstDelay(PATIENT_STEP.retryPolicy);
    assert g1[id].status == Retrying(1, 2);
    LoneCycle(durable, g1, id, AbortAt(2));
    AfterLast(durable, g0, [AbortAt(0), AbortAt(2)], [AbortAt(0)], AbortAt(2));
    ExecutionsCounted(durable, g0, [AbortAt(0), AbortAt(2)], id);
  }

  lemma FirstDelay(p: RetryPolicy)
    requires p.backoffSecs == 2
    ensures BackoffDelay(p, 1) == 2
  {
    assert Pow2(0) == 1;
  }

  /** `from_plan` gives every step the policy of a single attempt: no step of a plan is ever retried, and none runs twice. */
  lemma PlannedStepsRunOnce(durable: bool, plan: seq<PlannedStep>, inputs: seq<CycleInput>, id: Id)
    requires PlanOk(plan) && id in After(durable, PlanGraph(plan), inputs)
    ensures !After(durable, PlanGraph(plan), inputs)[id].status.Retrying?
    ensures Executions(durable, PlanGraph(plan), inputs, id) <= 1
  {
    var g0 := PlanGraph(plan);
    PlanGraphSound(plan);
    forall id | id in g0 ensures g0[id].retryPolicy == DEFAULT_POLICY {
      var i := PlanId(plan, id);
      PlanRow(plan, i);
    }
    NoRetries(durable, g0, inputs, DEFAULT_POLICY, id);
  }
}
