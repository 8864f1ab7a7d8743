/** The step gate: paths into predecessor outputs and the two kinds of step condition. */
module Conditions {
  import opened Wrappers
  import opened Text
  import opened JsonValues
  import TypedExpressions

  /** What a step sees of its predecessors: the stored outputs by step id. */
  type StepInput = map<string, Json>

  datatype ConditionOp =
    | Exists | NotExists | Equals | NotEquals
    | GreaterThan | LessThan | GreaterThanEquals | LessThanEquals
    | NotEmpty | Empty | IsTruthy | IsFalsy | Contains

  datatype StepCondition =
    | Deterministic(left: string, operator: ConditionOp, right: Option<Json>)
    | Expression(expr: TypedExpressions.Expr)

  // ── Paths ────────────────────────────────────────────────────────────

  /** One path segment: empty segments are passed over, keys are tried before indices. */
  function WalkSegment(v: Json, segment: string): Option<Json> {
    if segment == "" then Some(v)
    else if Field(v, segment).Some? then Field(v, segment)
    else
      var index := ParseUsize(segment);
      if index.Some? then Element(v, index.value) else None
  }

  function WalkSegments(v: Json, segments: seq<string>): Option<Json> {
    if segments == [] then Some(v)
    else
      var next := WalkSegment(v, segments[0]);
      if next.Some? then WalkSegments(next.value, segments[1..]) else None
  }

  /** What is left of a trimmed path without its `$.deps.` or `deps.` prefix. */
  function WithoutPrefix(trimmed: string): string {
    var long := StripPrefix(trimmed, "$.deps.");
    var short := StripPrefix(trimmed, "deps.");
    if long.Some? then long.value else if short.Some? then short.value else trimmed
  }

  /** The path without its prefix, cut at the dots. */
  function PathSegments(path: string): (segments: seq<string>)
    ensures |segments| > 0
  {
    Split(WithoutPrefix(Trim(path)), '.')
  }

  /** The step a first segment names: `result_of_step_N` stands for `step-N`, anything else for itself. */
  function StepKey(segment: string): Option<string> {
    var rest := StripPrefix(segment, "result_of_step_");
    if rest.None? then Some(segment)
    else
      var k := DigitRun(rest.value);
      if k == 0 then None else Some("step-" + rest.value[..k])
  }

  function ResolvePath(path: string, input: StepInput): Option<Json> {
    var segments := PathSegments(path);
    var key := StepKey(segments[0]);
    if key.None? || key.value !in input then None
    else WalkSegments(input[key.value], segments[1..])
  }

  /** The walk as the engine runs it: a cursor that is replaced segment by segment. */
  method ResolvePathByCursor(path: string, input: StepInput) returns (r: Option<Json>)
    ensures r == ResolvePath(path, input)
  {
    var segments := PathSegments(path);
    var key := StepKey(segments[0]);
    if key.None? || key.value !in input { return None; }
    r := WalkByCursor(input[key.value], segments[1..]);
  }

  method WalkByCursor(start: Json, segments: seq<string>) returns (r: Option<Json>)
    ensures r == WalkSegments(start, segments)
  {
    var current := start;
    for i := 0 to |segments|
      invariant WalkSegments(start, segments) == WalkSegments(current, segments[i..])
    {
      assert segments[i..][1..] == segments[i + 1..];
      if segments[i] != "" {
        if Field(current, segments[i]).Some? {
          current := Field(current, segments[i]).value;
        } else {
          var index := ParseUsize(segments[i]);
          if index.None? || Element(current, index.value).None? { return None; }
          current := Element(current, index.value).value;
        }
      }
    }
    return Some(current);
  }

  // ── Structured conditions ────────────────────────────────────────────

  predicate Absent(v: Option<Json>) { v.None? || v.value.Null? }

  /** Ordered comparisons fail open: an operand that is not a number runs the step. */
  predicate NumericHolds(operator: ConditionOp, left: Option<Json>, right: Option<Json>) {
    if left.Some? && left.value.Number? && right.Some? && right.value.Number? then
      var l, r := left.value.n, right.value.n;
      match operator
      case GreaterThan => l > r
      case LessThan => l < r
      case GreaterThanEquals => l >= r
      case _ => l <= r
    else true
  }

  predicate NonEmpty(v: Option<Json>) {
    if Absent(v) then false
    else match v.value
      case Str(s) => s != ""
      case Array(items) => items != []
      case Object(fields) => fields != map[]
      case _ => true
  }

  predicate IsEmpty(v: Option<Json>) {
    if Absent(v) then true
    else match v.value
      case Str(s) => s == ""
      case Array(items) => items == []
      case Object(fields) => fields == map[]
      case _ => false
  }

  predicate Truthy(v: Option<Json>) {
    if Absent(v) then false
    else match v.value
      case Bool(b) => b
      case Number(n, _) => n != 0.0
      case Str(s) => s != ""
      case Array(items) => items != []
      case Object(_) => true
      case Null => false
  }

  predicate Falsy(v: Option<Json>) {
    if Absent(v) then true
    else match v.value
      case Bool(b) => !b
      case Number(n, _) => n == 0.0
      case Str(s) => s == ""
      case Array(items) => items == []
      case Object(_) => false
      case Null => true
  }

  predicate Holds(operator: ConditionOp, resolved: Option<Json>, right: Option<Json>) {
    match operator
    case Exists => resolved.Some? && !resolved.value.Null?
    case NotExists => Absent(resolved)
    case Equals =>
      if resolved.Some? && right.Some? then resolved.value == right.value
      else Absent(resolved) && right.None?
    case NotEquals =>
      if resolved.Some? && right.Some? then resolved.value != right.value
      else !(Absent(resolved) && right.None?)
    case GreaterThan => NumericHolds(operator, resolved, right)
    case LessThan => NumericHolds(operator, resolved, right)
    case GreaterThanEquals => NumericHolds(operator, resolved, right)
    case LessThanEquals => NumericHolds(operator, resolved, right)
    case NotEmpty => NonEmpty(resolved)
    case Empty => IsEmpty(resolved)
    case IsTruthy => Truthy(resolved)
    case IsFalsy => Falsy(resolved)
    case Contains =>
      if resolved.Some? && resolved.value.Str? && right.Some? && right.value.Str?
      then Find(resolved.value.s, right.value.s).Some?
      else resolved.Some? && resolved.value.Array? && right.Some? && right.value in resolved.value.items
  }

  /** True when the step should run. */
  predicate EvaluateCondition(condition: StepCondition, input: StepInput) {
    match condition
    case Deterministic(left, operator, right) => Holds(operator, ResolvePath(left, input), right)
    case Expression(expr) =>
      TypedExpressions.DagEval(expr, path => ResolvePath(path, input)) == Some(Bool(true))
  }

  // ── Dual operators ───────────────────────────────────────────────────

  /** Operators whose pairs are exact negations of each other. */
  predicate Dual(a: ConditionOp, b: ConditionOp) {
    || (a == Exists && b == NotExists)
    || (a == Equals && b == NotEquals)
    || (a == Empty && b == NotEmpty)
    || (a == IsTruthy && b == IsFalsy)
  }

  predicate OrderedDual(a: ConditionOp, b: ConditionOp) {
    || (a == GreaterThan && b == LessThanEquals)
    || (a == LessThan && b == GreaterThanEquals)
  }

  predicate BothNumeric(left: Option<Json>, right: Option<Json>) {
    left.Some? && left.value.Number? && right.Some? && right.value.Number?
  }

  /** Dual operators never agree; ordered duals disagree exactly when both operands are numbers. */
  lemma DualsExclude(a: ConditionOp, b: ConditionOp, left: Option<Json>, right: Option<Json>)
    ensures Dual(a, b) ==> Holds(a, left, right) != Holds(b, left, right)
    ensures OrderedDual(a, b) ==>
              (Holds(a, left, right) != Holds(b, left, right) <==> BothNumeric(left, right))
    ensures OrderedDual(a, b) && !BothNumeric(left, right) ==> Holds(a, left, right) && Holds(b, left, right)
  {
  }
}
