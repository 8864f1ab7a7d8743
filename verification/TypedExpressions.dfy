/**
 Typed expressions and their two evaluators: the one of the DAG engine, which answers with an
 optional value, and the one of the linear loop, which answers with a value or an error.
 Both are taken over the same oracle for paths.
 */
module TypedExpressions {
  import opened Wrappers
  import opened Text
  import opened JsonValues

  datatype Expr = Expr(
    op: Option<string>,
    func: Option<string>,
    args: seq<Expr>,
    left: Option<Expr>,
    right: Option<Expr>,
    value: Option<Json>,
    path: Option<string>)

  type PathOracle = string -> Option<Json>

  // ── Shared operators ─────────────────────────────────────────────────

  predicate NumericHolds(op: string, l: real, r: real) {
    match op
    case "gt" => l > r
    case "gte" => l >= r
    case "lt" => l < r
    case _ => l <= r
  }

  predicate IsNumericOp(op: string) { op in ["gt", "gte", "lt", "lte"] }

  function Count(v: Json): Option<Json> {
    match v
    case Array(items) => Some(Counted(|items|))
    case Object(fields) => Some(Counted(|fields|))
    case Str(text) => Some(Counted(|text|))
    case _ => None
  }

  /** The functions `len` and `count` of an argument list. */
  function Apply(func: string, args: seq<Json>): Option<Json> {
    if (func == "len" || func == "count") && |args| > 0 then Count(args[0]) else None
  }

  function NumericValue(op: string, left: Json, right: Option<Json>): Option<bool> {
    if left.Number? && right.Some? && right.value.Number?
    then Some(NumericHolds(op, left.n, right.value.n)) else None
  }

  // ── The DAG engine's evaluator ───────────────────────────────────────

  function DagBool(v: Json): bool {
    match v
    case Bool(b) => b
    case Number(n, _) => n != 0.0
    case Str(s) => s != ""
    case Array(items) => items != []
    case Object(fields) => fields != map[]
    case Null => false
  }

  function DagOperator(op: string, left: Json, right: Option<Json>): Option<bool> {
    if IsNumericOp(op) then NumericValue(op, left, right)
    else match op
      case "eq" => if right.Some? then Some(left == right.value) else None
      case "neq" => if right.Some? then Some(left != right.value) else None
      case "and" => if right.Some? then Some(DagBool(left) && DagBool(right.value)) else None
      case "or" => if right.Some? then Some(DagBool(left) || DagBool(right.value)) else None
      case "not" => Some(!DagBool(left))
      case _ => None
  }

  function DagEval(e: Expr, oracle: PathOracle): Option<Json>
    decreases e, 1
  {
    if e.value.Some? then e.value
    else if e.path.Some? then oracle(e.path.value)
    else if e.func.Some? then
      var args := DagEvalAll(e.args, oracle);
      if args.Some? then Apply(e.func.value, args.value) else None
    else if e.op.Some? then
      var left := if e.left.Some? then DagEval(e.left.value, oracle) else None;
      if left.None? then None
      else
        var right := if e.right.Some? then DagEval(e.right.value, oracle) else None;
        var result := DagOperator(e.op.value, left.value, right);
        if result.Some? then Some(Bool(result.value)) else None
    else None
  }

  function DagEvalAll(es: seq<Expr>, oracle: PathOracle): (r: Option<seq<Json>>)
    decreases es, 0
  {
    if es == [] then Some([])
    else
      var first := DagEval(es[0], oracle);
      if first.None? then None
      else
        var rest := DagEvalAll(es[1..], oracle);
        if rest.None? then None else Some([first.value] + rest.value)
  }

  // ── The linear loop's evaluator ──────────────────────────────────────

  datatype EvalError =
    | UnresolvedPath(path: string)
    | MissingArgument
    | NotCountable
    | UnsupportedFunction(func: string)
    | MissingLeft(op: string)
    | NonNumericOperand
    | MissingRight
    | NonBooleanOperands(op: string)
    | UnsupportedOperator(op: string)
    | EmptyExpression

  function LinearBool(v: Json): bool {
    match v
    case Bool(b) => b
    case Number(n, _) => n != 0.0
    case Str(s) => Trim(s) != ""
    case Array(items) => items != []
    case Object(fields) => fields != map[]
    case Null => false
  }

  function LinearApply(func: string, args: seq<Json>): Result<Json, EvalError> {
    if func != "len" && func != "count" then Err(UnsupportedFunction(func))
    else if args == [] then Err(MissingArgument)
    else
      var count := Count(args[0]);
      if count.Some? then Ok(count.value) else Err(NotCountable)
  }

  function LinearOperator(op: string, left: Json, right: Option<Json>): Result<bool, EvalError> {
    if IsNumericOp(op) then
      var result := NumericValue(op, left, right);
      if result.Some? then Ok(result.value) else Err(NonNumericOperand)
    else match op
      case "eq" => if right.Some? then Ok(left == right.value) else Err(MissingRight)
      case "neq" => if right.Some? then Ok(left != right.value) else Err(MissingRight)
      case "and" =>
        if right.Some? then Ok(LinearBool(left) && LinearBool(right.value)) else Err(NonBooleanOperands(op))
      case "or" =>
        if right.Some? then Ok(LinearBool(left) || LinearBool(right.value)) else Err(NonBooleanOperands(op))
      case "not" => Ok(!LinearBool(left))
      case _ => Err(UnsupportedOperator(op))
  }

  function LinearEval(e: Expr, oracle: PathOracle): Result<Json, EvalError>
    decreases e, 1
  {
    if e.value.Some? then Ok(e.value.value)
    else if e.path.Some? then
      var v := oracle(e.path.value);
      if v.Some? then Ok(v.value) else Err(UnresolvedPath(e.path.value))
    else if e.func.Some? then
      var args := LinearEvalAll(e.args, oracle);
      if args.Ok? then LinearApply(e.func.value, args.value) else Err(args.error)
    else if e.op.Some? then
      if e.left.None? then Err(MissingLeft(e.op.value))
      else
        var left := LinearEval(e.left.value, oracle);
        if left.Err? then left
        else if e.right.Some? && LinearEval(e.right.value, oracle).Err? then
          LinearEval(e.right.value, oracle)
        else
          var right := if e.right.Some? then Some(LinearEval(e.right.value, oracle).value) else None;
          var result := LinearOperator(e.op.value, left.value, right);
          if result.Ok? then Ok(Bool(result.value)) else Err(result.error)
    else Err(EmptyExpression)
  }

  function LinearEvalAll(es: seq<Expr>, oracle: PathOracle): (r: Result<seq<Json>, EvalError>)
    decreases es, 0
  {
    if es == [] then Ok([])
    else
      var first := LinearEval(es[0], oracle);
      if first.Err? then Err(first.error)
      else
        var rest := LinearEvalAll(es[1..], oracle);
        if rest.Err? then Err(rest.error) else Ok([first.value] + rest.value)
  }

  // ── Agreement ────────────────────────────────────────────────────────

  /** A non-empty text of white space only: the one value the two truth tests disagree on. */
  predicate Blank(v: Json) { v.Str? && v.s != "" && Trim(v.s) == "" }

  /** The value of an expression, if it has one, is not blank. */
  predicate NotBlank(e: Expr, oracle: PathOracle) {
    var v := DagEval(e, oracle);
    v.Some? ==> !Blank(v.value)
  }

  /** The operators that test their left operand for truth, and those that test the right one. */
  predicate TestsLeft(op: string) { op == "and" || op == "or" || op == "not" }

  predicate TestsRight(op: string) { op == "and" || op == "or" }

  /** No blank text is tested for truth: the operands of `and`, `or` and `not` are not blank, where it looks at them. */
  predicate NoBlanks(e: Expr, oracle: PathOracle)
    decreases e
  {
    if e.value.Some? || e.path.Some? then true
    else if e.func.Some? then forall i :: 0 <= i < |e.args| ==> NoBlanks(e.args[i], oracle)
    else if e.op.Some? then
      && (e.left.Some? ==> NoBlanks(e.left.value, oracle) && (TestsLeft(e.op.value) ==> NotBlank(e.left.value, oracle)))
      && (e.right.Some? ==> NoBlanks(e.right.value, oracle) && (TestsRight(e.op.value) ==> NotBlank(e.right.value, oracle)))
    else true
  }

  /**
   Every `not` that evaluation reaches has no right operand, or one that evaluates. The engine
   ignores the right operand of `not`; the linear loop evaluates it and fails with it.
   */
  predicate NotsClean(e: Expr, oracle: PathOracle)
    decreases e
  {
    if e.value.Some? || e.path.Some? then true
    else if e.func.Some? then forall i :: 0 <= i < |e.args| ==> NotsClean(e.args[i], oracle)
    else if e.op.Some? then
      && (e.left.Some? ==> NotsClean(e.left.value, oracle))
      && (e.right.Some? ==> NotsClean(e.right.value, oracle))
      && (e.op.value == "not" && e.right.Some? ==> DagEval(e.right.value, oracle).Some?)
    else true
  }

  lemma SameTruth(v: Json)
    requires !Blank(v)
    ensures DagBool(v) == LinearBool(v)
  {
  }

  /** On operands that are not blank where they are tested for truth, the operators agree. */
  lemma OperatorsAgree(op: string, left: Json, right: Option<Json>)
    requires (TestsLeft(op) ==> !Blank(left)) && (TestsRight(op) && right.Some? ==> !Blank(right.value))
    ensures LinearOperator(op, left, right).Ok? <==> DagOperator(op, left, right).Some?
    ensures LinearOperator(op, left, right).Ok? ==> DagOperator(op, left, right) == Some(LinearOperator(op, left, right).value)
  {
    if TestsLeft(op) { SameTruth(left); }
    if TestsRight(op) && right.Some? { SameTruth(right.value); }
  }

  /** Whatever the linear loop computes, the engine computes too. */
  lemma {:induction false} LinearImpliesDag(e: Expr, oracle: PathOracle)
    requires NoBlanks(e, oracle)
    requires LinearEval(e, oracle).Ok?
    ensures DagEval(e, oracle) == Some(LinearEval(e, oracle).value)
    decreases e, 1
  {
    if e.value.Some? || e.path.Some? {
    } else if e.func.Some? {
      LinearImpliesDagAll(e.args, oracle);
    } else {
      var left := LinearEval(e.left.value, oracle).value;
      LinearImpliesDag(e.left.value, oracle);
      if e.right.Some? {
        LinearImpliesDag(e.right.value, oracle);
        OperatorsAgree(e.op.value, left, Some(LinearEval(e.right.value, oracle).value));
      } else {
        OperatorsAgree(e.op.value, left, None);
      }
    }
  }

  lemma {:induction false} LinearImpliesDagAll(es: seq<Expr>, oracle: PathOracle)
    requires forall i :: 0 <= i < |es| ==> NoBlanks(es[i], oracle)
    requires LinearEvalAll(es, oracle).Ok?
    ensures DagEvalAll(es, oracle) == Some(LinearEvalAll(es, oracle).value)
    decreases es, 0
  {
    if es == [] {
    } else {
      LinearImpliesDag(es[0], oracle);
      LinearImpliesDagAll(es[1..], oracle);
    }
  }

  /** Conversely, the linear loop misses a value of the engine only through a `not` with a bad right operand. */
  lemma {:induction false} DagImpliesLinear(e: Expr, oracle: PathOracle)
    requires NoBlanks(e, oracle) && NotsClean(e, oracle)
    requires DagEval(e, oracle).Some?
    ensures LinearEval(e, oracle) == Ok(DagEval(e, oracle).value)
    decreases e, 1
  {
    if e.value.Some? || e.path.Some? {
    } else if e.func.Some? {
      DagImpliesLinearAll(e.args, oracle);
    } else {
      var left := DagEval(e.left.value, oracle).value;
      DagImpliesLinear(e.left.value, oracle);
      if e.right.Some? {
        RightEvaluates(e, oracle);
        DagImpliesLinear(e.right.value, oracle);
        OperatorsAgree(e.op.value, left, DagEval(e.right.value, oracle));
      } else {
        OperatorsAgree(e.op.value, left, None);
      }
    }
  }

  /** Only `not` has a value without its right operand. */
  lemma RightEvaluates(e: Expr, oracle: PathOracle)
    requires NotsClean(e, oracle) && DagEval(e, oracle).Some?
    requires e.value.None? && e.path.None? && e.func.None? && e.right.Some?
    ensures DagEval(e.right.value, oracle).Some?
  {
  }

  lemma {:induction false} DagImpliesLinearAll(es: seq<Expr>, oracle: PathOracle)
    requires forall i :: 0 <= i < |es| ==> NoBlanks(es[i], oracle) && NotsClean(es[i], oracle)
    requires DagEvalAll(es, oracle).Some?
    ensures LinearEvalAll(es, oracle) == Ok(DagEvalAll(es, oracle).value)
    decreases es, 0
  {
    if es == [] {
    } else {
      DagImpliesLinear(es[0], oracle);
      DagImpliesLinearAll(es[1..], oracle);
    }
  }

  lemma {:induction false} LinearOkIsClean(e: Expr, oracle: PathOracle)
    requires NoBlanks(e, oracle)
    requires LinearEval(e, oracle).Ok?
    ensures NotsClean(e, oracle)
    decreases e, 1
  {
    if e.value.Some? || e.path.Some? {
    } else if e.func.Some? {
      LinearAllOkIsClean(e.args, oracle);
    } else {
      LinearOkIsClean(e.left.value, oracle);
      if e.right.Some? {
        LinearOkIsClean(e.right.value, oracle);
        LinearImpliesDag(e.right.value, oracle);
      }
    }
  }

  lemma {:induction false} LinearAllOkIsClean(es: seq<Expr>, oracle: PathOracle)
    requires forall i :: 0 <= i < |es| ==> NoBlanks(es[i], oracle)
    requires LinearEvalAll(es, oracle).Ok?
    ensures forall i :: 0 <= i < |es| ==> NotsClean(es[i], oracle)
    decreases es, 0
  {
    if es == [] {
    } else {
      LinearOkIsClean(es[0], oracle);
      LinearAllOkIsClean(es[1..], oracle);
      assert forall i :: 1 <= i < |es| ==> es[i] == es[1..][i - 1];
    }
  }

  /**
   The two evaluators agree on every expression tree: the linear loop answers exactly when the
   engine does and every reached `not` is clean, and then with the same value.
   */
  lemma EvaluatorsAgree(e: Expr, oracle: PathOracle)
    requires NoBlanks(e, oracle)
    ensures LinearEval(e, oracle).Ok? <==> DagEval(e, oracle).Some? && NotsClean(e, oracle)
    ensures LinearEval(e, oracle).Ok? ==> DagEval(e, oracle) == Some(LinearEval(e, oracle).value)
  {
    if LinearEval(e, oracle).Ok? {
      LinearImpliesDag(e, oracle);
      LinearOkIsClean(e, oracle);
    }
    if DagEval(e, oracle).Some? && NotsClean(e, oracle) {
      DagImpliesLinear(e, oracle);
    }
  }

  function Literal(v: Json): Expr { Expr(None, None, [], None, None, Some(v), None) }

  function PathTo(path: string): Expr { Expr(None, None, [], None, None, None, Some(path)) }

  function Binary(op: string, left: Expr, right: Expr): Expr { Expr(Some(op), None, [], Some(left), Some(right), None, None) }

  function Negation(e: Expr): Expr { Expr(Some("not"), None, [], Some(e), None, None, None) }

  function Call(func: string, args: seq<Expr>): Expr { Expr(None, Some(func), args, None, None, None, None) }

  /** Every blank text, negated, separates the two evaluators: the hypothesis on blanks is needed. */
  lemma BlankSeparates(v: Json, oracle: PathOracle)
    requires v.Str?
    ensures Blank(v) <==>
            && DagEval(Negation(Literal(v)), oracle) == Some(Bool(false))
            && LinearEval(Negation(Literal(v)), oracle) == Ok(Bool(true))
  {
    assert DagEval(Literal(v), oracle) == Some(v);
    assert LinearEval(Literal(v), oracle) == Ok(v);
    assert Trim("") == "";
  }
}
