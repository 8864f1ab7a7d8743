/**
 The executor's substituter: the placeholders of a text are extracted once and rendered from left
 to right, and one that cannot be resolved is an error. The resolution of a single expression is a
 parameter.
 */
module TemplateValues {
  import opened Wrappers
  import opened Text
  import opened JsonValues
  import opened JsonText
  import opened Placeholders
  import opened Templates
  import opened StepReferences

  type Resolver = string -> Result<Json, ReferenceError>

  /** How the executor writes a value into a text; the in-place substituter writes `TextOf`, where null is a word. */
  function ExecutorText(v: Json): string { if v.Null? then "" else TextOf(v) }

  // ── What a text stands for ───────────────────────────────────────────

  function Prepend(s: string, r: Result<string, ReferenceError>): Result<string, ReferenceError> {
    if r.Ok? then Ok(s + r.value) else r
  }

  /** Every placeholder replaced, or the error of the first that cannot be resolved. */
  function RenderAll(ps: Pieces, resolve: Resolver): Result<string, ReferenceError> {
    match ps
    case Tail(text, _) => Ok(text)
    case Piece(before, _, inner, rest) =>
      var v := resolve(Trim(inner));
      if v.Err? then Err(v.error)
      else Prepend(before + ExecutorText(v.value), RenderAll(rest, resolve))
  }

  predicate Blank(s: string) { Trim(s) == "" }

  /** A text that is nothing but one placeholder stands for a value of any type. */
  predicate Sole(ps: Pieces) { ps.Piece? && ps.rest.Tail? && Blank(ps.before) && Blank(ps.rest.text) }

  function TemplateValue(text: string, resolve: Resolver): Result<Json, ReferenceError> {
    var ps := Cuts(text);
    if ps.Tail? then Ok(Str(text))
    else if Sole(ps) then resolve(Trim(ps.inner))
    else
      var r := RenderAll(ps, resolve);
      if r.Ok? then Ok(Str(r.value)) else Err(r.error)
  }

  // ── The loops ────────────────────────────────────────────────────────

  /** What is left to render: the text behind the cursor, cut into `ps`, and the spans of its placeholders. */
  ghost predicate Left(text: string, cursor: nat, spans: seq<Span>, ps: Pieces) {
    cursor <= |text| && text[cursor..] == Flat(ps) && spans == Spans(ps, cursor)
  }

  lemma HeadSpan(text: string, cursor: nat, spans: seq<Span>, ps: Pieces)
    requires Left(text, cursor, spans, ps) && spans != []
    ensures ps.Piece? && spans[0].expr == Trim(ps.inner)
    ensures cursor <= spans[0].start <= spans[0].end <= |text| && text[cursor..spans[0].start] == ps.before
    ensures text[spans[0].end..] == Flat(ps.rest)
    ensures Left(text, spans[0].end, spans[1..], ps.rest)
  {
    var before, raw := ps.before, ps.raw;
    var start, end := cursor + |before|, cursor + |before| + |raw|;
    assert text[cursor..] == before + raw + Flat(ps.rest);
    assert text[cursor..start] == text[cursor..][..|before|];
    assert text[end..] == text[cursor..][|before| + |raw|..];
    assert spans == [Span(start, end, Trim(ps.inner))] + Spans(ps.rest, end);
  }

  lemma PrependNothing(r: Result<string, ReferenceError>)
    ensures Prepend("", r) == r
  {
    if r.Ok? { assert "" + r.value == r.value; }
  }

  lemma PrependPrepend(a: string, b: string, r: Result<string, ReferenceError>)
    ensures Prepend(a, Prepend(b, r)) == Prepend(a + b, r)
  {
    if r.Ok? { assert a + (b + r.value) == a + b + r.value; }
  }

  /** The rendering loop: copy up to the placeholder, write its value, move the cursor behind it. */
  method RenderSpans(text: string, spans: seq<Span>, resolve: Resolver, ghost ps: Pieces)
    returns (r: Result<string, ReferenceError>)
    requires Left(text, 0, spans, ps)
    ensures r == RenderAll(ps, resolve)
  {
    var rendered, cursor: nat := "", 0;
    ghost var left, all := ps, RenderAll(ps, resolve);
    PrependNothing(all);
    for i := 0 to |spans|
      invariant Left(text, cursor, spans[i..], left)
      invariant all == Prepend(rendered, RenderAll(left, resolve))
    {
      HeadSpan(text, cursor, spans[i..], left);
      assert spans[i..][1..] == spans[i + 1..] && spans[i..][0] == spans[i];
      RenderStep(rendered, left, resolve);
      var value := resolve(spans[i].expr);
      if value.Err? { return Err(value.error); }
      rendered := rendered + text[cursor..spans[i].start] + ExecutorText(value.value);
      cursor, left := spans[i].end, left.rest;
    }
    assert spans[|spans|..] == [];
    return Ok(rendered + text[cursor..]);
  }

  lemma RenderStep(rendered: string, ps: Pieces, resolve: Resolver)
    requires ps.Piece?
    ensures var v := resolve(Trim(ps.inner));
            Prepend(rendered, RenderAll(ps, resolve)) ==
            if v.Err? then Err(v.error) else Prepend(rendered + ps.before + ExecutorText(v.value), RenderAll(ps.rest, resolve))
  {
    var v := resolve(Trim(ps.inner));
    if v.Ok? {
      PrependPrepend(rendered, ps.before + ExecutorText(v.value), RenderAll(ps.rest, resolve));
      assert rendered + (ps.before + ExecutorText(v.value)) == rendered + ps.before + ExecutorText(v.value);
    }
  }

  /** `resolve_template_string`. */
  method ResolveTemplateString(text: string, resolve: Resolver) returns (r: Result<Json, ReferenceError>)
    ensures r == TemplateValue(text, resolve)
  {
    var placeholders := ExtractPlaceholders(text);
    ghost var ps := Cuts(text);
    if placeholders == [] { return Ok(Str(text)); }
    FlatParse(BRACES, text);
    assert text[0..] == text;
    HeadSpan(text, 0, placeholders, ps);
    if |placeholders| == 1 {
      var only := placeholders[0];
      assert text[0..only.start] == text[..only.start];
      assert placeholders[1..] == [] && ps.rest.Tail?;
      if Blank(text[..only.start]) && Blank(text[only.end..]) { return resolve(only.expr); }
    }
    var rendered := RenderSpans(text, placeholders, resolve, ps);
    return if rendered.Ok? then Ok(Str(rendered.value)) else Err(rendered.error);
  }

  // ── The two substituters ─────────────────────────────────────────────

  /** On the placeholders of a text, the variables and the resolver know the same names and the same values. */
  predicate SameAnswers(ps: Pieces, vars: Vars, resolve: Resolver) {
    match ps
    case Tail(_, _) => true
    case Piece(_, _, inner, rest) =>
      var name := Trim(inner);
      && (name in vars <==> resolve(name).Ok?)
      && (name in vars ==> vars[name] == TextOf(resolve(name).value))
      && SameAnswers(rest, vars, resolve)
  }

  predicate AllResolve(ps: Pieces, resolve: Resolver) {
    ps.Piece? ==> resolve(Trim(ps.inner)).Ok? && AllResolve(ps.rest, resolve)
  }

  /** The placeholders that resolve to null. */
  function Nulls(ps: Pieces, resolve: Resolver): nat {
    match ps
    case Tail(_, _) => 0
    case Piece(_, _, inner, rest) => (if resolve(Trim(inner)) == Ok(Null) then 1 else 0) + Nulls(rest, resolve)
  }

  /** The executor renders exactly the texts all of whose placeholders resolve; it never leaves one in place. */
  lemma {:induction false} RendersIff(ps: Pieces, resolve: Resolver)
    ensures RenderAll(ps, resolve).Ok? <==> AllResolve(ps, resolve)
  {
    if ps.Tail? {
    } else {
      RendersIff(ps.rest, resolve);
    }
  }

  lemma {:induction false} ResolvedGetsThrough(ps: Pieces, vars: Vars, resolve: Resolver)
    requires SameAnswers(ps, vars, resolve) && AllResolve(ps, resolve)
    ensures GetsThrough(true, ps, Values(vars))
  {
    if ps.Tail? {
    } else {
      ResolvedGetsThrough(ps.rest, vars, resolve);
    }
  }

  /** What the two make of a text differs by the word `null` once for each null, and by nothing else. */
  lemma {:induction false} NullsMakeTheDifference(ps: Pieces, vars: Vars, resolve: Resolver)
    requires SameAnswers(ps, vars, resolve) && AllResolve(ps, resolve)
    ensures RenderAll(ps, resolve).Ok?
    ensures |Substitute(ps, Values(vars))| == |RenderAll(ps, resolve).value| + 4 * Nulls(ps, resolve)
    ensures Nulls(ps, resolve) == 0 ==> Substitute(ps, Values(vars)) == RenderAll(ps, resolve).value
  {
    if ps.Tail? {
    } else {
      NullsMakeTheDifference(ps.rest, vars, resolve);
    }
  }

  /**
   On a text whose placeholders all resolve, and that is more than one placeholder, the in-place loop
   ends; it ends with the executor's text exactly when no placeholder is null. On a text with an
   unresolved placeholder the executor fails, whereas the in-place loop ends with the placeholder
   left in place, or never, as `GetsThrough` says.
   */
  lemma TwoSubstitutersAgree(text: string, vars: Vars, resolve: Resolver)
    requires ValuesInert(vars) && SameAnswers(Cuts(text), vars, resolve) && !Sole(Cuts(text))
    ensures TemplateValue(text, resolve).Ok? <==> AllResolve(Cuts(text), resolve)
    ensures AllResolve(Cuts(text), resolve) ==>
              && TemplateValue(text, resolve).value.Str?
              && Resolved(text, vars, Replacements(Cuts(text), Values(vars))).Some?
              && (Resolved(text, vars, Replacements(Cuts(text), Values(vars))) == Some(TemplateValue(text, resolve).value.s)
                  <==> Nulls(Cuts(text), resolve) == 0)
    ensures !AllResolve(Cuts(text), resolve) ==>
              ((exists n :: Resolved(text, vars, n).Some?) <==> GetsThrough(true, Cuts(text), Values(vars)))
  {
    var ps := Cuts(text);
    InPlaceLoop(text, vars);
    RendersIff(ps, resolve);
    FlatParse(BRACES, text);
    if AllResolve(ps, resolve) {
      ResolvedGetsThrough(ps, vars, resolve);
      NullsMakeTheDifference(ps, vars, resolve);
    }
  }

  // ── Texts put together from parts ────────────────────────────────────

  /** Plain text without braces that open, and names without braces that close. */
  predicate PlainBraceParts(parts: seq<Part>, tail: string) {
    && (forall i :: 0 <= i < |parts| ==> '{' !in parts[i].before && '}' !in parts[i].inner)
    && '{' !in tail
  }

  lemma BracePartsArePlain(parts: seq<Part>, tail: string)
    requires PlainBraceParts(parts, tail)
    ensures PlainParts(BRACES, parts, tail) && Cuts(Written(BRACES, parts, tail)) == PiecesOf(BRACES, parts, tail)
  {
    forall i | 0 <= i < |parts| ensures Inert(parts[i].before, "{{") && Inert(parts[i].inner, "}}") {
      InertWithout(parts[i].before, "{{");
      InertWithout(parts[i].inner, "}}");
    }
    InertWithout(tail, "{{");
    ParseWritten(BRACES, parts, tail);
  }

  lemma {:induction false} ReplacementsOf(parts: seq<Part>, tail: string, lookup: Lookup)
    requires forall i :: 0 <= i < |parts| ==> lookup(parts[i].inner).Some?
    ensures Replacements(PiecesOf(BRACES, parts, tail), lookup) == |parts|
    decreases |parts|
  {
    if parts == [] {
    } else {
      ReplacementsOf(parts[1..], tail, lookup);
    }
  }

  /** The in-place loop fills every placeholder with the value of the name in it, blanks around it or not, one per iteration. */
  lemma InPlaceFills(parts: seq<Part>, tail: string, vars: Vars, value: string -> string)
    requires PlainBraceParts(parts, tail) && ValuesInert(vars)
    requires forall i :: 0 <= i < |parts| ==> Trim(parts[i].inner) in vars && value(parts[i].inner) == vars[Trim(parts[i].inner)]
    ensures Resolved(Written(BRACES, parts, tail), vars, |parts|) == Some(Filled(parts, tail, value))
  {
    var s, lookup := Written(BRACES, parts, tail), Values(vars);
    BracePartsArePlain(parts, tail);
    forall i | 0 <= i < |parts| ensures lookup(parts[i].inner) == Some(value(parts[i].inner)) {}
    InertWritten(BRACES, parts, tail, lookup);
    SubstituteWritten(BRACES, parts, tail, lookup, value);
    ReplacementsOf(parts, tail, lookup);
    InPlaceLoop(s, vars);
  }

  /** How the executor writes a value: null is nothing, a text is itself, and everything else is printed. */
  lemma ExecutorTextIs(v: Json)
    ensures ExecutorText(v) == match v case Null => "" case Str(s) => s case _ => PrintJson(v)
  {
  }

  lemma {:induction false} RenderWritten(parts: seq<Part>, tail: string, resolve: Resolver, value: string -> string)
    requires forall i :: 0 <= i < |parts| ==>
               resolve(Trim(parts[i].inner)).Ok? && value(parts[i].inner) == ExecutorText(resolve(Trim(parts[i].inner)).value)
    ensures RenderAll(PiecesOf(BRACES, parts, tail), resolve) == Ok(Filled(parts, tail, value))
    decreases |parts|
  {
    if parts == [] {
    } else {
      RenderWritten(parts[1..], tail, resolve, value);
    }
  }

  /** The executor fills every placeholder of a text that is more than one placeholder. */
  lemma ExecutorFills(parts: seq<Part>, tail: string, resolve: Resolver, value: string -> string)
    requires PlainBraceParts(parts, tail) && !Sole(PiecesOf(BRACES, parts, tail))
    requires forall i :: 0 <= i < |parts| ==>
               resolve(Trim(parts[i].inner)).Ok? && value(parts[i].inner) == ExecutorText(resolve(Trim(parts[i].inner)).value)
    ensures TemplateValue(Written(BRACES, parts, tail), resolve) == Ok(Str(Filled(parts, tail, value)))
  {
    BracePartsArePlain(parts, tail);
    RenderWritten(parts, tail, resolve, value);
  }

  /** A text that is one placeholder and white space stands for the value itself, of whatever type, or its error. */
  lemma SoleValue(before: string, inner: string, after: string, resolve: Resolver)
    requires AllWhite(before) && AllWhite(after) && '}' !in inner
    ensures TemplateValue(before + "{{" + (inner + "}}" + after), resolve) == resolve(Trim(inner))
  {
    var parts := [Part(before, inner)];
    assert parts[1..] == [];
    assert Written(BRACES, parts, after) == before + "{{" + (inner + "}}" + after);
    WhiteHasNoBrace(before);
    WhiteHasNoBrace(after);
    BracePartsArePlain(parts, after);
    TrimOfWhite(before);
    TrimOfWhite(after);
  }

  lemma WhiteHasNoBrace(s: string)
    requires AllWhite(s)
    ensures '{' !in s
  {
  }

  /** The first placeholder that does not resolve is the error of the whole text. */
  lemma {:induction false} FirstErrorWins(ps: Pieces, resolve: Resolver)
    requires !AllResolve(ps, resolve)
    ensures RenderAll(ps, resolve) == Err(FirstError(ps, resolve))
  {
    if resolve(Trim(ps.inner)).Err? {
    } else {
      FirstErrorWins(ps.rest, resolve);
    }
  }

  function FirstError(ps: Pieces, resolve: Resolver): ReferenceError
    requires !AllResolve(ps, resolve)
  {
    var v := resolve(Trim(ps.inner));
    if v.Err? then v.error else FirstError(ps.rest, resolve)
  }
}
