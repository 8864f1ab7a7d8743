/**
 What typed expressions mean: the laws of their operators, for operands that are any expressions. They
 hold of both evaluators, and do not speak of how either computes.
 */
module ExpressionLaws {
  import opened Wrappers
  import opened Text
  import opened JsonValues
  import opened TypedExpressions

  /** The value of an expression for the engine, and for the linear loop. */
  function Dag(e: Expr, oracle: PathOracle): Option<Json> { DagEval(e, oracle) }

  function Linear(e: Expr, oracle: PathOracle): Option<Json> {
    var r := LinearEval(e, oracle);
    if r.Ok? then Some(r.value) else None
  }

  /** Both evaluators give this value. */
  predicate Gives(e: Expr, oracle: PathOracle, v: Json) { Dag(e, oracle) == Some(v) && Linear(e, oracle) == Some(v) }

  predicate GivesNothing(e: Expr, oracle: PathOracle) { Dag(e, oracle) == None && Linear(e, oracle) == None }

  // ── Leaves ───────────────────────────────────────────────────────────

  /** A literal wins over a path, a path over a function, a function over an operator; nothing at all has no value. */
  lemma Precedence(e: Expr, oracle: PathOracle)
    ensures e.value.Some? ==> Gives(e, oracle, e.value.value)
    ensures e.value.None? && e.path.Some? ==> Dag(e, oracle) == oracle(e.path.value) && Linear(e, oracle) == oracle(e.path.value)
    ensures e.value.None? && e.path.None? && e.func.Some? ==>
              && Dag(e, oracle) == Dag(Call(e.func.value, e.args), oracle)
              && Linear(e, oracle) == Linear(Call(e.func.value, e.args), oracle)
    ensures e.value.None? && e.path.None? && e.func.None? && e.op.None? ==> GivesNothing(e, oracle)
  {
  }

  // ── Comparisons ──────────────────────────────────────────────────────

  /** The four comparisons of two numbers are those of their values. */
  lemma ComparisonMeans(left: Expr, right: Expr, oracle: PathOracle, a: Json, b: Json)
    requires Gives(left, oracle, a) && Gives(right, oracle, b) && a.Number? && b.Number?
    ensures Gives(Binary("gt", left, right), oracle, Bool(a.n > b.n))
    ensures Gives(Binary("gte", left, right), oracle, Bool(a.n >= b.n))
    ensures Gives(Binary("lt", left, right), oracle, Bool(a.n < b.n))
    ensures Gives(Binary("lte", left, right), oracle, Bool(a.n <= b.n))
  {
    OperationOf("gt", left, right, oracle, a, b);
    OperationOf("gte", left, right, oracle, a, b);
    OperationOf("lt", left, right, oracle, a, b);
    OperationOf("lte", left, right, oracle, a, b);
  }

  function Truth(r: Option<bool>): Option<Json> { if r.Some? then Some(Bool(r.value)) else None }

  /** An operator needs its left operand; the linear loop needs both. */
  lemma OperandsOf(op: string, left: Expr, right: Expr, oracle: PathOracle)
    ensures Dag(Binary(op, left, right), oracle) ==
            if Dag(left, oracle).None? then None else Truth(DagOperator(op, Dag(left, oracle).value, Dag(right, oracle)))
    ensures Linear(Binary(op, left, right), oracle) ==
            if Linear(left, oracle).None? || Linear(right, oracle).None? then None
            else
              var r := LinearOperator(op, Linear(left, oracle).value, Linear(right, oracle));
              if r.Ok? then Some(Bool(r.value)) else None
  {
  }

  /** An operator is applied to what its operands evaluate to. */
  lemma OperationOf(op: string, left: Expr, right: Expr, oracle: PathOracle, a: Json, b: Json)
    requires Gives(left, oracle, a) && Gives(right, oracle, b)
    ensures var r := DagOperator(op, a, Some(b));
            Dag(Binary(op, left, right), oracle) == if r.Some? then Some(Bool(r.value)) else None
    ensures var r := LinearOperator(op, a, Some(b));
            Linear(Binary(op, left, right), oracle) == if r.Ok? then Some(Bool(r.value)) else None
  {
    OperandsOf(op, left, right, oracle);
  }

  /** Only numbers are ordered. */
  lemma OnlyNumbersCompare(op: string, left: Expr, right: Expr, oracle: PathOracle, a: Json, b: Json)
    requires op == "gt" || op == "gte" || op == "lt" || op == "lte"
    requires Gives(left, oracle, a) && Gives(right, oracle, b) && !(a.Number? && b.Number?)
    ensures GivesNothing(Binary(op, left, right), oracle)
  {
    OperationOf(op, left, right, oracle, a, b);
  }

  /** Exchanging the operands of any two expressions, with a value or without, turns one comparison into the other. */
  lemma ExchangeComparison(left: Expr, right: Expr, oracle: PathOracle)
    ensures Dag(Binary("gt", left, right), oracle) == Dag(Binary("lt", right, left), oracle)
    ensures Dag(Binary("gte", left, right), oracle) == Dag(Binary("lte", right, left), oracle)
    ensures Linear(Binary("gt", left, right), oracle) == Linear(Binary("lt", right, left), oracle)
    ensures Linear(Binary("gte", left, right), oracle) == Linear(Binary("lte", right, left), oracle)
  {
  }

  /** Denying a comparison of numbers is the opposite comparison. */
  lemma NegateComparison(left: Expr, right: Expr, oracle: PathOracle, a: Json, b: Json)
    requires Gives(left, oracle, a) && Gives(right, oracle, b) && a.Number? && b.Number?
    ensures Gives(Negation(Binary("gt", left, right)), oracle, Bool(a.n <= b.n))
    ensures Gives(Negation(Binary("lt", left, right)), oracle, Bool(a.n >= b.n))
    ensures Dag(Negation(Binary("gt", left, right)), oracle) == Dag(Binary("lte", left, right), oracle)
    ensures Dag(Negation(Binary("lt", left, right)), oracle) == Dag(Binary("gte", left, right), oracle)
  {
    ComparisonMeans(left, right, oracle, a, b);
    NegationOf(Binary("gt", left, right), oracle, a.n > b.n);
    NegationOf(Binary("lt", left, right), oracle, a.n < b.n);
  }

  lemma NegationOf(e: Expr, oracle: PathOracle, b: bool)
    requires Gives(e, oracle, Bool(b))
    ensures Gives(Negation(e), oracle, Bool(!b))
  {
  }

  /** Equality is that of values, and `neq` its complement. */
  lemma EqualityMeans(left: Expr, right: Expr, oracle: PathOracle, a: Json, b: Json)
    requires Gives(left, oracle, a) && Gives(right, oracle, b)
    ensures Gives(Binary("eq", left, right), oracle, Bool(a == b))
    ensures Gives(Binary("neq", left, right), oracle, Bool(a != b))
  {
    OperationOf("eq", left, right, oracle, a, b);
    OperationOf("neq", left, right, oracle, a, b);
  }

  // ── Truth ────────────────────────────────────────────────────────────

  /** The values that count as false for the engine: one of each kind, besides `false` and null. */
  predicate IsNothing(v: Json) {
    v in {Null, Bool(false), Str(""), Array([]), Object(map[])} || (v.Number? && v.n == 0.0)
  }

  /** The linear loop also takes texts of white space for false. */
  predicate IsNothingLinear(v: Json) { IsNothing(v) || (v.Str? && AllWhite(v.s)) }

  /** `not` asks whether its operand counts as false. */
  lemma NegationMeans(e: Expr, oracle: PathOracle, v: Json)
    requires Gives(e, oracle, v)
    ensures Dag(Negation(e), oracle) == Some(Bool(IsNothing(v)))
    ensures Linear(Negation(e), oracle) == Some(Bool(IsNothingLinear(v)))
  {
    if v.Str? { TrimOfWhite(v.s); }
  }

  /** `and` and `or` are those of two truth values, which denying twice gives. */
  lemma LogicMeans(left: Expr, right: Expr, oracle: PathOracle, a: Json, b: Json)
    requires Gives(left, oracle, a) && Gives(right, oracle, b)
    ensures Dag(Binary("and", left, right), oracle) == Some(Bool(!IsNothing(a) && !IsNothing(b)))
    ensures Dag(Binary("or", left, right), oracle) == Some(Bool(!IsNothing(a) || !IsNothing(b)))
    ensures Linear(Binary("and", left, right), oracle) == Some(Bool(!IsNothingLinear(a) && !IsNothingLinear(b)))
    ensures Linear(Binary("or", left, right), oracle) == Some(Bool(!IsNothingLinear(a) || !IsNothingLinear(b)))
  {
    NegationMeans(left, oracle, a);
    NegationMeans(right, oracle, b);
    OperationOf("and", left, right, oracle, a, b);
    OperationOf("or", left, right, oracle, a, b);
  }

  /** De Morgan, for all operands: where one side has no value, neither has the other. */
  lemma DeMorgan(left: Expr, right: Expr, oracle: PathOracle)
    ensures Dag(Negation(Binary("and", left, right)), oracle) == Dag(Binary("or", Negation(left), Negation(right)), oracle)
    ensures Dag(Negation(Binary("or", left, right)), oracle) == Dag(Binary("and", Negation(left), Negation(right)), oracle)
    ensures Linear(Negation(Binary("and", left, right)), oracle) == Linear(Binary("or", Negation(left), Negation(right)), oracle)
    ensures Linear(Negation(Binary("or", left, right)), oracle) == Linear(Binary("and", Negation(left), Negation(right)), oracle)
  {
    DeMorganOf("and", "or", left, right, oracle);
    DeMorganOf("or", "and", left, right, oracle);
  }

  lemma DeMorganOf(op: string, dual: string, left: Expr, right: Expr, oracle: PathOracle)
    requires (op == "and" && dual == "or") || (op == "or" && dual == "and")
    ensures Dag(Negation(Binary(op, left, right)), oracle) == Dag(Binary(dual, Negation(left), Negation(right)), oracle)
    ensures Linear(Negation(Binary(op, left, right)), oracle) == Linear(Binary(dual, Negation(left), Negation(right)), oracle)
  {
    Denied(left, oracle);
    Denied(right, oracle);
    Denied(Binary(op, left, right), oracle);
    OperandsOf(op, left, right, oracle);
    OperandsOf(dual, Negation(left), Negation(right), oracle);
  }

  /** A denied expression has a truth value exactly when the expression has a value. */
  lemma Denied(e: Expr, oracle: PathOracle)
    ensures Dag(Negation(e), oracle) == if Dag(e, oracle).Some? then Some(Bool(!DagBool(Dag(e, oracle).value))) else None
    ensures Linear(Negation(e), oracle) == if Linear(e, oracle).Some? then Some(Bool(!LinearBool(Linear(e, oracle).value))) else None
  {
  }

  // ── Functions ────────────────────────────────────────────────────────

  /** `len` and `count` of a list, an object or a text are its size, and other values have none. */
  lemma SizeMeans(func: string, e: Expr, oracle: PathOracle, v: Json)
    requires (func == "len" || func == "count") && Gives(e, oracle, v)
    ensures v.Array? ==> Gives(Call(func, [e]), oracle, Counted(|v.items|))
    ensures v.Object? ==> Gives(Call(func, [e]), oracle, Counted(|v.fields|))
    ensures v.Str? ==> Gives(Call(func, [e]), oracle, Counted(|v.s|))
    ensures !v.Array? && !v.Object? && !v.Str? ==> GivesNothing(Call(func, [e]), oracle)
  {
    OneArgument(e, oracle, v);
  }

  lemma OneArgument(e: Expr, oracle: PathOracle, v: Json)
    requires Gives(e, oracle, v)
    ensures DagEvalAll([e], oracle) == Some([v]) && LinearEvalAll([e], oracle) == Ok([v])
  {
    var es := [e];
    assert es[0] == e && es[1..] == [];
    assert DagEvalAll(es[1..], oracle) == Some([]);
    assert LinearEvalAll(es[1..], oracle) == Ok([]);
    assert [v] + [] == [v];
  }

  /** There are no other functions, and no other operators. */
  lemma NothingElse(name: string, args: seq<Expr>, left: Expr, right: Expr, oracle: PathOracle)
    ensures name != "len" && name != "count" ==> GivesNothing(Call(name, args), oracle)
    ensures name !in {"gt", "gte", "lt", "lte", "eq", "neq", "and", "or", "not"} ==> GivesNothing(Binary(name, left, right), oracle)
  {
  }
}
