/**
 What the gate's conditions mean: each operator by what it says of the value a path leads to, and the
 gate of a step by the path as it is spelled.
 */
module ConditionLaws {
  import opened Wrappers
  import opened Text
  import opened JsonValues
  import opened Conditions
  import opened Paths
  import opened TypedExpressions
  import opened ExpressionLaws

  // ── Operators ────────────────────────────────────────────────────────

  /** `Exists` asks for a value other than null, `Equals` for this value, or for none if none is given. */
  lemma ExistenceMeans(v: Option<Json>, right: Option<Json>)
    ensures Holds(Exists, v, right) <==> v != None && v != Some(Null)
    ensures Holds(NotExists, v, right) <==> v == None || v == Some(Null)
    ensures right.Some? ==> (Holds(Equals, v, right) <==> v == right)
    ensures right.None? ==> (Holds(Equals, v, right) <==> v == None || v == Some(Null))
    ensures Holds(NotEquals, v, right) <==> !Holds(Equals, v, right)
  {
  }

  /** On numbers the ordered comparisons are those of their values; on anything else the step runs. */
  lemma OrderMeans(v: Option<Json>, right: Option<Json>)
    ensures BothNumeric(v, right) ==>
              && (Holds(GreaterThan, v, right) <==> v.value.n > right.value.n)
              && (Holds(LessThan, v, right) <==> v.value.n < right.value.n)
              && (Holds(GreaterThanEquals, v, right) <==> v.value.n >= right.value.n)
              && (Holds(LessThanEquals, v, right) <==> v.value.n <= right.value.n)
    ensures !BothNumeric(v, right) ==>
              && Holds(GreaterThan, v, right) && Holds(LessThan, v, right)
              && Holds(GreaterThanEquals, v, right) && Holds(LessThanEquals, v, right)
  {
  }

  /** A larger number passes wherever a smaller one is large enough, and the other way round. */
  lemma OrderIsMonotone(v: Json, w: Json, right: Option<Json>)
    requires v.Number? && w.Number? && v.n <= w.n
    ensures Holds(GreaterThan, Some(v), right) ==> Holds(GreaterThan, Some(w), right)
    ensures Holds(GreaterThanEquals, Some(v), right) ==> Holds(GreaterThanEquals, Some(w), right)
    ensures Holds(LessThan, Some(w), right) ==> Holds(LessThan, Some(v), right)
    ensures Holds(LessThanEquals, Some(w), right) ==> Holds(LessThanEquals, Some(v), right)
  {
  }

  /** Empty is what has no value, or no character, element or field. */
  lemma EmptinessMeans(v: Option<Json>, right: Option<Json>)
    ensures Holds(Empty, v, right) <==> v in {None, Some(Null), Some(Str("")), Some(Array([])), Some(Object(map[]))}
    ensures Holds(NotEmpty, v, right) <==> !Holds(Empty, v, right)
  {
  }

  /** Falsy is what is empty, but for an empty object, and besides that `false` and zero. */
  lemma TruthMeans(v: Option<Json>, right: Option<Json>)
    ensures Holds(IsFalsy, v, right) <==>
              || (Holds(Empty, v, right) && v != Some(Object(map[])))
              || v == Some(Bool(false))
              || (v.Some? && v.value.Number? && v.value.n == 0.0)
    ensures Holds(IsTruthy, v, right) <==> !Holds(IsFalsy, v, right)
  {
  }

  /** So the structured and the typed notion of truth differ on the empty object, and on nothing else. */
  lemma TwoNotionsOfTruth(v: Json, right: Option<Json>)
    ensures (Holds(IsFalsy, Some(v), right) <==> IsNothing(v)) <==> v != Object(map[])
  {
  }

  /** A text contains a text that stands somewhere in it, a list contains its elements, and nothing else contains anything. */
  lemma ContainsMeans(v: Json, w: Json)
    ensures v.Str? && w.Str? ==>
              (Holds(Contains, Some(v), Some(w)) <==> exists i :: 0 <= i <= |v.s| && StartsWith(v.s[i..], w.s))
    ensures v.Array? ==> (Holds(Contains, Some(v), Some(w)) <==> w in v.items)
    ensures !v.Array? && !(v.Str? && w.Str?) ==> !Holds(Contains, Some(v), Some(w))
    ensures !Holds(Contains, None, Some(w)) && !Holds(Contains, Some(v), None)
  {
    if v.Str? && w.Str? {
      if Holds(Contains, Some(v), Some(w)) { FindOccurs(v.s, w.s); }
      if i :| 0 <= i <= |v.s| && StartsWith(v.s[i..], w.s) { FindIsFirst(v.s, w.s, i); }
    }
  }

  /**
   A path that does not resolve runs the step for these operators only: the gate does not fail open for
   `Exists`, `Equals` and `Contains` with a value, `NotEmpty` and `IsTruthy`.
   */
  lemma UnresolvedRunsIff(op: ConditionOp, right: Option<Json>)
    ensures Holds(op, None, right) <==>
              || op in {NotExists, Empty, IsFalsy, GreaterThan, LessThan, GreaterThanEquals, LessThanEquals}
              || (op == Equals && right.None?)
              || (op == NotEquals && right.Some?)
  {
  }

  // ── Gates ────────────────────────────────────────────────────────────

  /** A structured gate tests what its path spells. */
  lemma StructuredGate(prefix: Prefix, step: string, sels: seq<Selector>, before: string, after: string,
                       op: ConditionOp, right: Option<Json>, input: StepInput)
    requires IsName(step) && AllSelectors(sels) && !StartsWith(step, "result_of_step_")
    requires (prefix.Bare? ==> step != "deps" && step != "$") && AllWhite(before) && AllWhite(after)
    ensures EvaluateCondition(Deterministic(before + (Spell(prefix, step, sels) + after), op, right), input)
       <==> Holds(op, Named(input, step, sels), right)
  {
    PathRoundTrip(prefix, step, sels, before, after, input);
  }

  /** A typed gate runs the step exactly when its expression is `true`: no other value and no failure will do. */
  lemma TypedGate(e: Expr, input: StepInput)
    ensures EvaluateCondition(Expression(e), input)
       <==> Dag(e, path => ResolvePath(path, input)) == Some(Bool(true))
  {
  }

  /** For example, a typed comparison of a path with a number. */
  lemma TypedComparisonGate(path: string, bound: Json, input: StepInput)
    requires bound.Number?
    ensures EvaluateCondition(Expression(Binary("gt", PathTo(path), Literal(bound))), input)
       <==> (ResolvePath(path, input).Some? && ResolvePath(path, input).value.Number? && ResolvePath(path, input).value.n > bound.n)
  {
    var oracle: PathOracle := p => ResolvePath(p, input);
    var left, right := PathTo(path), Literal(bound);
    Precedence(left, oracle);
    Precedence(right, oracle);
    OperandsOf("gt", left, right, oracle);
    var v := ResolvePath(path, input);
    if v.Some? && v.value.Number? {
      ComparisonMeans(left, right, oracle, v.value, bound);
    } else if v.Some? {
      OnlyNumbersCompare("gt", left, right, oracle, v.value, bound);
    }
  }
}
