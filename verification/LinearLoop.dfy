/**
 The linear loop's retry protocol: how the evaluator's verdict moves the agent through its plan,
 whatever the model answers.
 */
module LinearLoop {
  import opened Wrappers
  import opened Arithmetic

  // ── The evaluator ────────────────────────────────────────────────────

  datatype Verdict = Continue | Retry | Abort | GoalComplete

  /** What the evaluator looks at in a step result. */
  datatype StepResult = StepResult(
    success: bool,
    toolsSucceeded: bool,
    saysStepFailed: bool,
    policyBlocked: bool,
    errors: string)

  const MAX_RETRIES := 3

  /** The fast paths in their order; only when none applies does the model's answer count. */
  function Evaluate(lastStep: bool, result: StepResult, retryCount: nat, lastError: Option<string>, model: Verdict): Verdict {
    if lastStep && result.success then GoalComplete
    else if result.success && result.toolsSucceeded && !result.saysStepFailed then Continue
    else if retryCount >= MAX_RETRIES then Abort
    else if !result.success && result.policyBlocked then Abort
    else if retryCount >= 1 && !result.success && result.errors != "" && lastError == Some(result.errors) then Abort
    else model
  }

  // ── One turn of the loop ─────────────────────────────────────────────

  /** What happens in one turn, with everything the outside decides. */
  datatype Event =
    | ConditionSkip
    | Executed(result: StepResult, model: Verdict, summary: string, criteriaMet: bool)
    | Delegated
    | RuleAbort

  datatype State = State(current: nat, retries: nat, lastError: Option<string>, finished: bool)

  const START := State(0, 0, None, false)

  /** The backoff before a retry: 10, 20, 40 seconds. */
  function RetryDelay(retries: nat): nat { 10 * Pow2(Min(retries, 4)) }

  function VerdictOf(n: nat, s: State, e: Event): Verdict
    requires e.Executed?
  {
    Evaluate(s.current + 1 >= n, e.result, s.retries, s.lastError, e.model)
  }

  /** The state after one turn on a plan of `n` steps. */
  function Turn(n: nat, s: State, e: Event): State {
    if s.finished then s
    else if s.current >= n then s.(finished := true)
    else match e
      case ConditionSkip => State(s.current + 1, 0, None, false)
      case Delegated => s.(current := s.current + 1)
      case RuleAbort => s.(finished := true)
      case Executed(result, _, summary, criteriaMet) =>
        match VerdictOf(n, s, e)
        case Continue =>
          if criteriaMet then State(s.current, 0, None, true) else State(s.current + 1, 0, None, false)
        case GoalComplete => s.(finished := true)
        case Retry =>
          s.(retries := s.retries + 1, lastError := Some(if result.errors == "" then summary else result.errors))
        case Abort => s.(finished := true)
  }

  /** Whether a turn runs the step, and the delay it puts before the next turn. */
  predicate Runs(n: nat, s: State, e: Event) { !s.finished && s.current < n && !e.ConditionSkip? }

  predicate Retries(n: nat, s: State, e: Event) { Runs(n, s, e) && e.Executed? && VerdictOf(n, s, e).Retry? }

  function Delay(n: nat, s: State, e: Event): nat { if Retries(n, s, e) then RetryDelay(s.retries) else 0 }

  function After(n: nat, events: seq<Event>): State {
    if events == [] then START
    else Turn(n, After(n, events[..|events| - 1]), events[|events| - 1])
  }

  /** How often step `i` was run, and for how long the loop waited to run it again. */
  function RunCount(n: nat, events: seq<Event>, i: nat): nat {
    if events == [] then 0
    else
      var before, e := events[..|events| - 1], events[|events| - 1];
      var s := After(n, before);
      RunCount(n, before, i) + if Runs(n, s, e) && s.current == i then 1 else 0
  }

  function Waited(n: nat, events: seq<Event>, i: nat): nat {
    if events == [] then 0
    else
      var before, e := events[..|events| - 1], events[|events| - 1];
      var s := After(n, before);
      Waited(n, before, i) + if s.current == i then Delay(n, s, e) else 0
  }

  // ── The object ───────────────────────────────────────────────────────

  class LinearAgent {
    const steps: nat
    var currentStep: nat
    var retryCount: nat
    var lastStepError: Option<string>
    var finished: bool

    function View(): State
      reads this
    {
      State(currentStep, retryCount, lastStepError, finished)
    }

    constructor (steps: nat)
      ensures this.steps == steps && View() == START
    {
      this.steps, currentStep, retryCount, lastStepError, finished := steps, 0, 0, None, false;
    }

    method RunStep(e: Event) returns (delay: nat)
      modifies this
      ensures View() == Turn(steps, old(View()), e)
      ensures delay == Delay(steps, old(View()), e)
    {
      delay := 0;
      if finished { return; }
      if currentStep >= steps { finished := true; return; }
      match e
      case ConditionSkip =>
        retryCount, lastStepError := 0, None;
        currentStep := currentStep + 1;
      case Delegated =>
        currentStep := currentStep + 1;
      case RuleAbort =>
        finished := true;
      case Executed(result, model, summary, criteriaMet) =>
        var verdict := Evaluate(currentStep + 1 >= steps, result, retryCount, lastStepError, model);
        match verdict {
          case Continue =>
            retryCount, lastStepError := 0, None;
            if criteriaMet { finished := true; } else { currentStep := currentStep + 1; }
          case GoalComplete => finished := true;
          case Retry =>
            delay := RetryDelay(retryCount);
            retryCount := retryCount + 1;
            lastStepError := Some(if result.errors == "" then summary else result.errors);
          case Abort => finished := true;
        }
    }
  }

  // ── The budget ───────────────────────────────────────────────────────

  /** A retry is only ever granted below the limit, whatever the model says. */
  lemma RetryNeedsBudget(n: nat, s: State, e: Event)
    requires Retries(n, s, e)
    ensures s.retries < MAX_RETRIES
  {
  }

  lemma DelayValues()
    ensures RetryDelay(0) == 10 && RetryDelay(1) == 20 && RetryDelay(2) == 40
  {
    assert Pow2(0) == 1 && Pow2(1) == 2 && Pow2(2) == 4;
  }

  /** The delays that lead up to `k` retries. */
  function DelaysUpTo(k: nat): nat { if k == 0 then 0 else if k == 1 then 10 else if k == 2 then 30 else 70 }

  /** What the loop has used so far, step by step. */
  predicate WithinBudget(n: nat, events: seq<Event>, i: nat) {
    var s := After(n, events);
    && s.retries <= MAX_RETRIES
    && (i > s.current ==> RunCount(n, events, i) == 0 && Waited(n, events, i) == 0)
    && (i == s.current && !s.finished ==> RunCount(n, events, i) <= s.retries && Waited(n, events, i) <= DelaysUpTo(s.retries))
    && RunCount(n, events, i) <= MAX_RETRIES + 1
    && Waited(n, events, i) <= 70
  }

  /**
   Whatever the model answers, the retry count stays within 0..3, every step is run at most four
   times, and its retries wait at most 70 seconds in all.
   */
  lemma {:induction false} Budget(n: nat, events: seq<Event>, i: nat)
    ensures WithinBudget(n, events, i)
  {
    if events == [] {
    } else {
      var before, e := events[..|events| - 1], events[|events| - 1];
      Budget(n, before, i);
      DelayValues();
      var s := After(n, before);
      if Retries(n, s, e) { RetryNeedsBudget(n, s, e); }
    }
  }

  /** Every turn that does not end the run decreases (steps left, retries left). */
  lemma TurnDecreases(n: nat, events: seq<Event>, e: Event)
    requires !Turn(n, After(n, events), e).finished
    ensures var s, s' := After(n, events), Turn(n, After(n, events), e);
            && s.current < n && s'.current <= n && s.retries <= MAX_RETRIES && s'.retries <= MAX_RETRIES
            && (s'.current > s.current || (s'.current == s.current && s'.retries == s.retries + 1))
  {
    Budget(n, events, 0);
    Budget(n, events + [e], 0);
    assert (events + [e])[..|events|] == events;
  }

  /** So a run of `n` steps has ended after `4 n + 4` turns. */
  lemma {:induction false} RunLength(n: nat, events: seq<Event>)
    ensures !After(n, events).finished ==>
              After(n, events).current <= n && |events| <= 4 * After(n, events).current + After(n, events).retries
    ensures |events| > 4 * n + MAX_RETRIES ==> After(n, events).finished
  {
    Budget(n, events, 0);
    if events == [] || After(n, events).finished {
    } else {
      var before := events[..|events| - 1];
      RunLength(n, before);
      TurnDecreases(n, before, events[|events| - 1]);
    }
  }

  // ── The budget can be used up ────────────────────────────────────────

  function FailingTurn(): Event { Executed(StepResult(false, false, false, false, ""), Retry, "failed", false) }

  function FailingTurns(k: nat): seq<Event> { seq(k, _ => FailingTurn()) }

  lemma {:induction false} FailingRun(n: nat, k: nat)
    requires n > 0 && k <= 3
    ensures var s := After(n, FailingTurns(k)); s.current == 0 && s.retries == k && !s.finished
    ensures RunCount(n, FailingTurns(k), 0) == k && Waited(n, FailingTurns(k), 0) == DelaysUpTo(k)
  {
    if k == 0 {
    } else {
      FailingRun(n, k - 1);
      DelayValues();
      assert FailingTurns(k)[..k - 1] == FailingTurns(k - 1);
    }
  }

  /** A step that keeps failing is run four times, waits 70 seconds, and then ends the run. */
  lemma BudgetIsTight(n: nat)
    requires n > 0
    ensures RunCount(n, FailingTurns(4), 0) == 4 && Waited(n, FailingTurns(4), 0) == 70
    ensures After(n, FailingTurns(4)).finished
  {
    FailingRun(n, 3);
    assert FailingTurns(4)[..3] == FailingTurns(3);
  }

  // ── What a turn comes to ─────────────────────────────────────────────

  /** Step and tools succeeded, and the output does not say otherwise. */
  predicate Clean(r: StepResult) { r.success && r.toolsSucceeded && !r.saysStepFailed }

  /** The error of the last attempt once more, on a retry. */
  predicate Repeats(s: State, r: StepResult) { s.retries >= 1 && r.errors != "" && s.lastError == Some(r.errors) }

  /**
   The turns the model has no say in: a success ends the run on the last step; a clean success moves on,
   or ends the run if the criteria are met; and a failure ends it if the retries are used up, a policy
   blocked the step, or the error repeats itself.
   */
  lemma DecidedTurns(n: nat, s: State, e: Event)
    requires !s.finished && s.current < n && e.Executed?
    ensures e.result.success && s.current + 1 == n ==> Turn(n, s, e) == s.(finished := true)
    ensures Clean(e.result) && s.current + 1 < n ==>
              Turn(n, s, e) == if e.criteriaMet then State(s.current, 0, None, true) else State(s.current + 1, 0, None, false)
    ensures !e.result.success && (s.retries >= 3 || e.result.policyBlocked || Repeats(s, e.result)) ==>
              Turn(n, s, e) == s.(finished := true)
  {
  }

  /** In all other turns the model decides; a retry keeps the step, counts, and remembers the error or else the summary. */
  lemma ModelTurns(n: nat, s: State, e: Event)
    requires !s.finished && s.current < n && e.Executed? && !e.result.success && s.retries < 3
    requires !e.result.policyBlocked && !Repeats(s, e.result)
    ensures e.model == Retry ==>
              Turn(n, s, e) == State(s.current, s.retries + 1, Some(if e.result.errors == "" then e.summary else e.result.errors), false)
    ensures e.model == Continue && !e.criteriaMet ==> Turn(n, s, e) == State(s.current + 1, 0, None, false)
    ensures e.model == Continue && e.criteriaMet ==> Turn(n, s, e) == State(s.current, 0, None, true)
    ensures e.model == Abort || e.model == GoalComplete ==> Turn(n, s, e) == s.(finished := true)
  {
  }

  /** Skipping and delegating move on, a rule abort ends the run; only skipping forgets the retries. */
  lemma OtherTurns(n: nat, s: State, e: Event)
    requires !s.finished && s.current < n
    ensures e == ConditionSkip ==> Turn(n, s, e) == State(s.current + 1, 0, None, false)
    ensures e == Delegated ==> Turn(n, s, e) == State(s.current + 1, s.retries, s.lastError, false)
    ensures e == RuleAbort ==> Turn(n, s, e) == State(s.current, s.retries, s.lastError, true)
  {
  }

  predicate AllClean(events: seq<Event>) {
    forall i :: 0 <= i < |events| ==> events[i].Executed? && Clean(events[i].result) && !events[i].criteriaMet
  }

  lemma {:induction false} CleanPrefix(n: nat, events: seq<Event>, i: nat)
    requires AllClean(events) && |events| < n
    ensures After(n, events) == State(|events|, 0, None, false)
    ensures RunCount(n, events, i) == if i < |events| then 1 else 0
    ensures Waited(n, events, i) == 0
  {
    if events == [] {
    } else {
      CleanPrefix(n, events[..|events| - 1], i);
    }
  }

  /** A plan of `n` clean successes ends after `n` turns, with every step run once and no waiting. */
  lemma CleanRun(n: nat, events: seq<Event>, i: nat)
    requires n > 0 && |events| == n && AllClean(events) && i < n
    ensures After(n, events) == State(n - 1, 0, None, true)
    ensures RunCount(n, events, i) == 1 && Waited(n, events, i) == 0
  {
    CleanPrefix(n, events[..n - 1], i);
  }
}
