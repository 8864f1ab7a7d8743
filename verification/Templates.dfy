/**
 `{{...}}` templates. One substituter rewrites the text in place and starts over after every
 replacement; the other extracts the placeholders once and goes on from there. A variable context
 is the map from the names it can resolve to their texts.
 */
module Templates {
  import opened Wrappers
  import opened Text
  import opened Placeholders

  type Vars = map<string, string>

  const BRACES := Marks("{{", "}}")

  /** A placeholder's name is what stands between the braces, without blanks around it. */
  function Value(vars: Vars, inner: string): Option<string> {
    var name := Trim(inner);
    if name in vars then Some(vars[name]) else None
  }

  function Values(vars: Vars): Lookup { inner => Value(vars, inner) }

  function Cuts(s: string): Pieces { Parse(BRACES, s) }

  // ── The in-place loop ────────────────────────────────────────────────

  /** The in-place substituter, given `n` iterations; it breaks at an unresolved placeholder that no `{{` follows. */
  function Resolved(s: string, vars: Vars, n: nat): Option<string> { InPlace(BRACES, true, Values(vars), s, n) }

  method ResolveStringTemplates(s: string, vars: Vars, limit: nat) returns (r: Option<string>)
    ensures r == Resolved(s, vars, limit)
  {
    r := ResolveBetween(BRACES, s, vars, limit, t => Iteration(BRACES, true, Values(vars), t));
  }

  /** An iteration given as a value, which the loop need not look into. */
  ghost predicate Iterates(iteration: string -> Option<string>, m: Marks, vars: Vars) {
    forall t {:trigger Iteration(m, true, Values(vars), t)} :: iteration(t) == Iteration(m, true, Values(vars), t)
  }

  /** The loop: one iteration after the other, until one breaks. */
  method ResolveBetween(m: Marks, s: string, vars: Vars, limit: nat, ghost iteration: string -> Option<string>)
    returns (r: Option<string>)
    requires Iterates(iteration, m, vars)
    ensures r == Loop(iteration, s, limit)
  {
    var result := s;
    for i := 0 to limit
      invariant Loop(iteration, s, limit) == Loop(iteration, result, limit - i)
    {
      var next := Iterate(m, result, vars, iteration);
      if next.None? { return Some(result); }
      result := next.value;
    }
    var next := Iterate(m, result, vars, iteration);
    return if next.None? then Some(result) else None;
  }

  /** One iteration: find the first placeholder, replace it if it resolves, break if nothing is left to do. */
  method Iterate(m: Marks, result: string, vars: Vars, ghost iteration: string -> Option<string>) returns (next: Option<string>)
    requires Iterates(iteration, m, vars)
    ensures next == iteration(result)
  {
    assert iteration(result) == Iteration(m, true, Values(vars), result);
    var c := FirstCut(m, result);
    if c.Whole? { return None; }
    var name := Trim(c.inner);
    if name in vars { return Some(c.before + vars[name] + c.rest); }
    if c.rest == "" && m.open != "" { return None; }
    if !HasOpen(m, c.rest) { return None; }
    return Some(result);
  }

  /** No `{{` starts in a resolved text, whatever follows it. */
  predicate ValuesInert(vars: Vars) { forall v :: v in vars ==> Inert(vars[v], "{{") }

  /** No `{{` starts in what precedes the first one: not even its last character can be the first brace of it. */
  lemma {:induction false} InertBefore(s: string)
    requires Find(s, "{{").Some?
    ensures Inert(s[..Find(s, "{{").value], "{{")
  {
    if StartsWith(s, "{{") {
    } else {
      var k := Find(s, "{{").value;
      InertBefore(s[1..]);
      var before := s[1..][..k - 1];
      assert s[..k] == [s[0]] + before;
      forall i | 0 <= i < k ensures Differ(s[..k][i..], "{{") {
        if i == 0 {
          FirstDiffers(s, k);
        } else {
          assert s[..k][i..] == before[i - 1..];
        }
      }
      assert forall i | 0 <= i < |s[..k]| :: Differ(s[..k][i..], "{{");
    }
  }

  lemma FirstDiffers(s: string, k: nat)
    requires 0 < k && k + 2 <= |s| && !StartsWith(s, "{{") && (k == 1 ==> StartsWith(s[1..], "{{"))
    ensures Differ(s[..k][0..], "{{")
  {
    var p, mark := s[..k][0..], "{{";
    assert s[..2] == [s[0], s[1]];
    if s[0] != '{' {
      assert p[0] != mark[0];
    } else {
      assert s[1] != '{';
      assert p[1] != mark[1];
    }
  }

  lemma {:induction false} PiecesInert(s: string, vars: Vars)
    requires ValuesInert(vars)
    ensures AllInert(BRACES, Cuts(s), Values(vars))
    decreases |s|
  {
    var c := FirstCut(BRACES, s);
    if c.Whole? {
    } else {
      InertBefore(s);
      PiecesInert(c.rest, vars);
    }
  }

  /**
   If no `{{` starts in a resolved text, the in-place loop ends exactly when no unresolved placeholder
   is followed by another `{{`, and then it ends with the left-to-right substitution; otherwise it
   never ends.
   */
  lemma InPlaceLoop(s: string, vars: Vars)
    requires ValuesInert(vars)
    ensures GetsThrough(true, Cuts(s), Values(vars)) <==> exists n :: Resolved(s, vars, n).Some?
    ensures forall n: nat :: Resolved(s, vars, n).Some? ==> Resolved(s, vars, n) == Some(Substitute(Cuts(s), Values(vars)))
    ensures GetsThrough(true, Cuts(s), Values(vars)) ==>
              Resolved(s, vars, Replacements(Cuts(s), Values(vars))) == Some(Substitute(Cuts(s), Values(vars)))
  {
    PiecesInert(s, vars);
    LoopLaw(BRACES, true, Values(vars), s);
    forall n: nat ensures Resolved(s, vars, n) == InPlace(BRACES, true, Values(vars), s, n) {}
  }

  /** An unresolved placeholder followed by another `{{` leaves the text as it is, forever. */
  lemma NoProgress(s: string, vars: Vars)
    requires var c := FirstCut(BRACES, s); c.Cut? && Value(vars, c.inner).None? && HasOpen(BRACES, c.rest)
    ensures Iteration(BRACES, true, Values(vars), s) == Some(s)
    ensures forall n: nat :: Resolved(s, vars, n).None?
  {
    forall n: nat ensures Resolved(s, vars, n).None? { Stuck(t => Iteration(BRACES, true, Values(vars), t), s, n); }
  }

  // ── Placeholders cut once ────────────────────────────────────────────

  /** A placeholder in the whole text: start, end and trimmed expression. */
  datatype Span = Span(start: nat, end: nat, expr: string)

  /** Where the placeholders of pieces lie, when the first piece starts at `from`. */
  function Spans(ps: Pieces, from: nat): seq<Span> {
    match ps
    case Tail(_, _) => []
    case Piece(before, raw, inner, rest) =>
      var start, end := from + |before|, from + |before| + |raw|;
      [Span(start, end, Trim(inner))] + Spans(rest, end)
  }

  /** The placeholder scan of the single pass. */
  method ExtractPlaceholders(text: string) returns (spans: seq<Span>)
    ensures spans == Spans(Cuts(text), 0)
  {
    spans := Scan(text, (s, from) => SpansAt(s, from));
  }

  /** Where the placeholders of a text lie that starts at `from`. */
  function SpansAt(s: string, from: int): seq<Span> { if from >= 0 then Spans(Cuts(s), from) else [] }

  /** That function given as a value, which the scan need not look into. */
  ghost predicate Locates(spansAt: (string, int) -> seq<Span>) {
    forall s, from {:trigger SpansAt(s, from)} :: spansAt(s, from) == SpansAt(s, from)
  }

  /** Find the next placeholder, then go on behind it. */
  method Scan(text: string, ghost spansAt: (string, int) -> seq<Span>) returns (spans: seq<Span>)
    requires Locates(spansAt)
    ensures spans == spansAt(text, 0)
  {
    spans := [];
    var from: nat, tail, more := 0, text, true;
    while more
      invariant spansAt(text, 0) == spans + if more then spansAt(tail, from) else []
      decreases more, |tail|
    {
      var span, rest := NextSpan(tail, from, spansAt);
      if span.None? {
        more := false;
      } else {
        MoveOver(spans, span.value, spansAt(rest, span.value.end));
        spans := spans + [span.value];
        from, tail := span.value.end, rest;
      }
    }
  }

  /** The span of the next placeholder, and the text behind it. */
  method NextSpan(tail: string, from: nat, ghost spansAt: (string, int) -> seq<Span>) returns (span: Option<Span>, rest: string)
    requires Locates(spansAt)
    ensures span.None? ==> spansAt(tail, from) == []
    ensures span.Some? ==> |rest| < |tail| && spansAt(tail, from) == [span.value] + spansAt(rest, span.value.end)
  {
    assert spansAt(tail, from) == SpansAt(tail, from);
    var c := CutNext(BRACES, tail);
    FirstSpan(tail, from, c);
    if c.Whole? { return None, tail; }
    span, rest := Some(SpanOf(from, c)), c.rest;
    assert spansAt(rest, span.value.end) == SpansAt(rest, span.value.end);
  }

  function SpanOf(from: nat, c: Cut): Span
    requires c.Cut?
  {
    Span(from + |c.before|, from + |c.before| + |c.raw|, Trim(c.inner))
  }

  lemma FirstSpan(s: string, from: nat, c: Cut)
    requires c == FirstCut(BRACES, s)
    ensures c.Whole? ==> SpansAt(s, from) == []
    ensures c.Cut? ==> |c.rest| < |s| && SpansAt(s, from) == [SpanOf(from, c)] + SpansAt(c.rest, SpanOf(from, c).end)
  {
    ParseIs(BRACES, s, c);
    if c.Cut? { SpansOfPiece(c, Parse(BRACES, c.rest), from); }
  }

  lemma SpansOfPiece(c: Cut, rest: Pieces, from: nat)
    requires c.Cut?
    ensures Spans(Piece(c.before, c.raw, c.inner, rest), from) == [SpanOf(from, c)] + Spans(rest, SpanOf(from, c).end)
  {
  }

  /** Two searches find the next placeholder. */
  method CutNext(m: Marks, tail: string) returns (c: Cut)
    ensures c == FirstCut(m, tail)
  {
    var open := Find(tail, m.open);
    if open.None? { return Whole; }
    var close := Find(tail[open.value + |m.open|..], m.close);
    if close.None? { return Whole; }
    c := CutAt(m, tail, open.value, close.value);
  }

  lemma MoveOver(done: seq<Span>, next: Span, left: seq<Span>)
    ensures done + ([next] + left) == done + [next] + left
  {
  }
}
