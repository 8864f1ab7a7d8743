/** References to earlier results, `result_of_step_N.field[i]...`: printing, parsing and walking them. */
module StepReferences {
  import opened Wrappers
  import opened Text
  import opened JsonValues

  datatype ReferenceError =
    | UnsupportedReference
    | InvalidStep
    | OutputUnavailable(step: nat)
    | InvalidField
    | FieldMissing(field: string)
    | UnterminatedIndex
    | InvalidIndex
    | IndexMissing(index: nat)
    | UnsupportedSelector

  predicate IsIdentChar(c: char) { IsDigit(c) || 'a' <= c <= 'z' || 'A' <= c <= 'Z' || c == '_' }

  predicate IsIdent(s: string) { s != "" && forall i :: 0 <= i < |s| ==> IsIdentChar(s[i]) }

  /** Length of the leading run of identifier characters. */
  function IdentRun(s: string): (k: nat)
    ensures k <= |s|
  {
    if s == "" || !IsIdentChar(s[0]) then 0 else 1 + IdentRun(s[1..])
  }

  // ── Resolving text ───────────────────────────────────────────────────

  /** One selector at the head of the text: the value it leads to and the text behind it. */
  function Advance(v: Json, remaining: string): (r: Result<(Json, string), ReferenceError>)
    requires remaining != ""
    ensures r.Ok? ==> |r.value.1| < |remaining|
  {
    var next := remaining[1..];
    if remaining[0] == '.' then
      var k := IdentRun(next);
      if k == 0 then Err(InvalidField)
      else
        var target := Field(v, next[..k]);
        if target.None? then Err(FieldMissing(next[..k])) else Ok((target.value, next[k..]))
    else if remaining[0] == '[' then
      var close := Find(next, "]");
      if close.None? then Err(UnterminatedIndex)
      else
        var index := ParseUsize(Trim(next[..close.value]));
        if index.None? then Err(InvalidIndex)
        else
          var target := Element(v, index.value);
          if target.None? then Err(IndexMissing(index.value)) else Ok((target.value, next[close.value + 1..]))
    else Err(UnsupportedSelector)
  }

  function WalkText(v: Json, remaining: string): Result<Json, ReferenceError>
    decreases |remaining|
  {
    if remaining == "" then Ok(v)
    else
      var step := Advance(v, remaining);
      if step.Err? then Err(step.error) else WalkText(step.value.0, step.value.1)
  }

  /** The step number behind the prefix, the output it names, and the selectors after it. */
  function StepOutput(rest: string, outputs: seq<Json>): Result<(Json, string), ReferenceError> {
    var k := DigitRun(rest);
    if k == 0 then Err(InvalidStep)
    else
      var step := ParseUsize(rest[..k]);
      if step.None? then Err(InvalidStep)
      else if step.value >= |outputs| then Err(OutputUnavailable(step.value))
      else Ok((outputs[step.value], rest[k..]))
  }

  /** The step output a reference starts from, and its selectors. */
  function Head(prefix: string, trimmed: string, outputs: seq<Json>): Result<(Json, string), ReferenceError> {
    var rest := StripPrefix(trimmed, prefix);
    if rest.None? then Err(UnsupportedReference) else StepOutput(rest.value, outputs)
  }

  const PREFIX := "result_of_step_"

  function Resolve(expr: string, outputs: seq<Json>): Result<Json, ReferenceError> {
    var head := Head(PREFIX, Trim(expr), outputs);
    if head.Err? then Err(head.error) else WalkText(head.value.0, head.value.1)
  }

  /** The resolver as it runs: a cursor over the value and a cursor over the text. */
  method ResolveByCursor(expr: string, outputs: seq<Json>) returns (r: Result<Json, ReferenceError>)
    ensures r == Resolve(expr, outputs)
  {
    var head := Head(PREFIX, Trim(expr), outputs);
    if head.Err? { return Err(head.error); }
    var current, remaining := head.value.0, head.value.1;
    while remaining != ""
      invariant WalkText(current, remaining) == Resolve(expr, outputs)
      decreases |remaining|
    {
      var step := Advance(current, remaining);
      if step.Err? { return Err(step.error); }
      current, remaining := step.value.0, step.value.1;
    }
    return Ok(current);
  }

  // ── Printing references ──────────────────────────────────────────────

  /** Fields are named by identifiers, and indices fit the machine. */
  predicate PrintableSelector(sel: Selector) { if sel.Key? then IsIdent(sel.name) else sel.index <= USIZE_MAX }

  predicate Printable(sels: seq<Selector>) {
    forall i :: 0 <= i < |sels| ==> PrintableSelector(sels[i])
  }

  function PrintSelector(sel: Selector): string {
    match sel
    case Key(name) => "." + name
    case Index(index) => "[" + Decimal(index) + "]"
  }

  function PrintSelectors(sels: seq<Selector>): string {
    if sels == [] then "" else PrintSelector(sels[0]) + PrintSelectors(sels[1..])
  }

  function Print(step: usize, sels: seq<Selector>): string {
    PREFIX + (Decimal(step) + PrintSelectors(sels))
  }

  // ── Walking values ───────────────────────────────────────────────────

  function Select(v: Json, sel: Selector): Result<Json, ReferenceError> {
    match sel
    case Key(name) => if Field(v, name).Some? then Ok(Field(v, name).value) else Err(FieldMissing(name))
    case Index(i) => if Element(v, i).Some? then Ok(Element(v, i).value) else Err(IndexMissing(i))
  }

  function Walk(v: Json, sels: seq<Selector>): Result<Json, ReferenceError> {
    if sels == [] then Ok(v)
    else
      var next := Select(v, sels[0]);
      if next.Err? then next else Walk(next.value, sels[1..])
  }

  function WalkOutputs(outputs: seq<Json>, step: usize, sels: seq<Selector>): Result<Json, ReferenceError> {
    if step >= |outputs| then Err(OutputUnavailable(step)) else Walk(outputs[step], sels)
  }

  // ── Round trip ───────────────────────────────────────────────────────

  /** What follows a selector or the step number: nothing, or the start of a selector. */
  predicate SelectorStart(s: string) { s == "" || s[0] == '.' || s[0] == '[' }

  lemma PrintStarts(sels: seq<Selector>)
    ensures SelectorStart(PrintSelectors(sels))
  {
    if sels != [] { assert PrintSelectors(sels)[0] == PrintSelector(sels[0])[0]; }
  }

  lemma {:induction false} IdentRunStops(name: string, rest: string)
    requires (forall i :: 0 <= i < |name| ==> IsIdentChar(name[i])) && SelectorStart(rest)
    ensures IdentRun(name + rest) == |name|
  {
    if name == "" {
      assert name + rest == rest;
    } else {
      assert (name + rest)[1..] == name[1..] + rest;
      IdentRunStops(name[1..], rest);
    }
  }

  lemma {:induction false} DigitRunStops(digits: string, rest: string)
    requires AllDigits(digits) && SelectorStart(rest)
    ensures DigitRun(digits + rest) == |digits|
  {
    if digits == "" {
      assert digits + rest == rest;
    } else {
      assert (digits + rest)[1..] == digits[1..] + rest;
      DigitRunStops(digits[1..], rest);
    }
  }

  lemma {:induction false} FindsBracket(digits: string, rest: string)
    requires AllDigits(digits)
    ensures Find(digits + "]" + rest, "]") == Some(|digits|)
  {
    var s := digits + "]" + rest;
    if digits == "" {
      assert s[..1] == "]";
    } else {
      assert s[..1] == [digits[0]] && IsDigit(digits[0]);
      assert s[1..] == digits[1..] + "]" + rest;
      FindsBracket(digits[1..], rest);
    }
  }

  lemma AdvanceField(v: Json, name: string, rest: string)
    requires IsIdent(name) && SelectorStart(rest)
    ensures Advance(v, "." + name + rest) ==
            if Field(v, name).Some? then Ok((Field(v, name).value, rest)) else Err(FieldMissing(name))
  {
    var s := "." + name + rest;
    assert s[0] == '.' && s[1..] == name + rest;
    IdentRunStops(name, rest);
    assert (name + rest)[..|name|] == name && (name + rest)[|name|..] == rest;
  }

  lemma DigitsTrim(i: nat)
    ensures Trim(Decimal(i)) == Decimal(i)
  {
    var d := Decimal(i);
    assert IsDigit(d[0]) && IsDigit(d[|d| - 1]);
    TrimKeeps(d);
  }

  lemma AdvanceIndex(v: Json, i: usize, rest: string)
    ensures Advance(v, "[" + Decimal(i) + "]" + rest) ==
            if Element(v, i).Some? then Ok((Element(v, i).value, rest)) else Err(IndexMissing(i))
  {
    var d := Decimal(i);
    var s := "[" + d + "]" + rest;
    assert s[0] == '[' && s[1..] == d + "]" + rest;
    FindsBracket(d, rest);
    assert s[1..][..|d|] == d && s[1..][|d| + 1..] == rest;
    DigitsTrim(i);
    ParseDecimal(i);
  }

  /** One printed selector is consumed as a whole and selects what it says. */
  lemma AdvancePrinted(v: Json, sel: Selector, rest: string)
    requires PrintableSelector(sel) && SelectorStart(rest)
    ensures PrintSelector(sel) + rest != ""
    ensures Advance(v, PrintSelector(sel) + rest) ==
            if Select(v, sel).Ok? then Ok((Select(v, sel).value, rest)) else Err(Select(v, sel).error)
  {
    match sel
    case Key(name) => AdvanceField(v, name, rest);
    case Index(i) => AdvanceIndex(v, i, rest);
  }

  lemma {:induction false} WalkPrinted(v: Json, sels: seq<Selector>)
    requires Printable(sels)
    ensures WalkText(v, PrintSelectors(sels)) == Walk(v, sels)
    decreases |sels|
  {
    if sels == [] {
    } else {
      PrintStarts(sels[1..]);
      AdvancePrinted(v, sels[0], PrintSelectors(sels[1..]));
      var next := Select(v, sels[0]);
      if next.Ok? { WalkPrinted(next.value, sels[1..]); }
    }
  }

  lemma {:induction false} PrintedEnds(sels: seq<Selector>)
    requires Printable(sels) && sels != []
    ensures var s := PrintSelectors(sels); s != "" && (s[|s| - 1] == ']' || IsIdentChar(s[|s| - 1]))
    decreases |sels|
  {
    var first := PrintSelector(sels[0]);
    if |sels| == 1 {
      assert PrintSelectors(sels) == first + "";
    } else {
      PrintedEnds(sels[1..]);
    }
  }

  lemma StepOutputPrinted(step: usize, sels: seq<Selector>, outputs: seq<Json>)
    ensures StepOutput(Decimal(step) + PrintSelectors(sels), outputs) ==
            if step >= |outputs| then Err(OutputUnavailable(step)) else Ok((outputs[step], PrintSelectors(sels)))
  {
    var d, tail := Decimal(step), PrintSelectors(sels);
    PrintStarts(sels);
    DigitRunStops(d, tail);
    assert (d + tail)[..|d|] == d && (d + tail)[|d|..] == tail;
    ParseDecimal(step);
  }

  lemma StripConcat(prefix: string, rest: string)
    ensures StripPrefix(prefix + rest, prefix) == Some(rest)
  {
    assert (prefix + rest)[..|prefix|] == prefix && (prefix + rest)[|prefix|..] == rest;
  }

  lemma HeadPrinted(prefix: string, rest: string, outputs: seq<Json>)
    ensures Head(prefix, prefix + rest, outputs) == StepOutput(rest, outputs)
  {
    StripConcat(prefix, rest);
  }

  lemma TrimPrinted(step: usize, sels: seq<Selector>)
    requires Printable(sels)
    ensures Trim(Print(step, sels)) == Print(step, sels)
  {
    var d, tail := Decimal(step), PrintSelectors(sels);
    var expr := Print(step, sels);
    assert expr[0] == 'r';
    if sels == [] {
      assert expr[|expr| - 1] == d[|d| - 1] && IsDigit(d[|d| - 1]);
    } else {
      PrintedEnds(sels);
      assert expr[|expr| - 1] == tail[|tail| - 1];
    }
    TrimKeeps(expr);
  }

  /**
   Round trip: resolving a printed reference is walking the value, for every step number and every
   list of selectors, with the same value or the same error.
   */
  lemma ReferenceRoundTrip(step: usize, sels: seq<Selector>, outputs: seq<Json>)
    requires Printable(sels)
    ensures Print(step, sels) == "result_of_step_" + (Decimal(step) + PrintSelectors(sels))
    ensures Resolve(Print(step, sels), outputs) == WalkOutputs(outputs, step, sels)
  {
    TrimPrinted(step, sels);
    HeadPrinted(PREFIX, Decimal(step) + PrintSelectors(sels), outputs);
    StepOutputPrinted(step, sels, outputs);
    if step < |outputs| { WalkPrinted(outputs[step], sels); }
  }

  // ── What is no reference ─────────────────────────────────────────────

  /** Letters, digits and underscores make a field name, and nothing else does. */
  lemma FieldNames()
    ensures IsIdent("tool_results") && IsIdent("final_answer_candidate") && IsIdent("Step2")
    ensures !IsIdentChar('-') && !IsIdentChar('.') && !IsIdentChar('[') && !IsIdentChar(' ') && !IsIdentChar('$')
  {
  }

  /** Selectors that go wrong where they stand, with the error they give. */
  lemma MalformedSelectors(v: Json, rest: string, text: string)
    ensures rest != "" && rest[0] != '.' && rest[0] != '[' ==> WalkText(v, rest) == Err(UnsupportedSelector)
    ensures rest == "" || !IsIdentChar(rest[0]) ==> WalkText(v, "." + rest) == Err(InvalidField)
    ensures ']' !in rest ==> WalkText(v, "[" + rest) == Err(UnterminatedIndex)
    ensures ']' !in text && ParseUsize(Trim(text)).None? ==> WalkText(v, "[" + (text + "]" + rest)) == Err(InvalidIndex)
  {
    assert ("." + rest)[1..] == rest && ("[" + rest)[1..] == rest;
    if ']' !in rest { NoBracket(rest); }
    if ']' !in text {
      var s := "[" + (text + "]" + rest);
      assert s[1..] == text + "]" + rest;
      FirstBracket(text, rest);
      assert (text + "]" + rest)[..|text|] == text;
    }
  }

  lemma {:induction false} NoBracket(s: string)
    requires ']' !in s
    ensures Find(s, "]").None?
  {
    if s == "" {
    } else {
      NoBracket(s[1..]);
      assert s[..1] == [s[0]];
    }
  }

  lemma {:induction false} FirstBracket(text: string, rest: string)
    requires ']' !in text
    ensures Find(text + "]" + rest, "]") == Some(|text|)
  {
    var s := text + "]" + rest;
    if text == "" {
      assert s[..1] == "]";
    } else {
      assert s[..1] == [text[0]] && s[1..] == text[1..] + "]" + rest;
      FirstBracket(text[1..], rest);
    }
  }

  /** Blanks around an index do not matter. */
  lemma PaddedIndex(v: Json, i: usize, before: string, after: string, rest: string)
    requires AllWhite(before) && AllWhite(after)
    ensures WalkText(v, "[" + ((before + (Decimal(i) + after)) + "]" + rest)) ==
            if Element(v, i).Some? then WalkText(Element(v, i).value, rest) else Err(IndexMissing(i))
  {
    var d, text := Decimal(i), before + (Decimal(i) + after);
    assert IsDigit(d[0]) && IsDigit(d[|d| - 1]);
    TrimPadded(before, d, after);
    ParseDecimal(i);
    var s := "[" + (text + "]" + rest);
    assert s[1..] == text + "]" + rest;
    forall c | c in text ensures c != ']' { assert c in before || c in d || c in after; }
    FirstBracket(text, rest);
    assert (text + "]" + rest)[..|text|] == text && (text + "]" + rest)[|text| + 1..] == rest;
  }

  /** A reference starts with its prefix and a number. */
  lemma MalformedHeads(expr: string, outputs: seq<Json>)
    ensures !StartsWith(Trim(expr), PREFIX) ==> Resolve(expr, outputs) == Err(UnsupportedReference)
    ensures StartsWith(Trim(expr), PREFIX) && (|Trim(expr)| == 15 || !IsDigit(Trim(expr)[15])) ==> Resolve(expr, outputs) == Err(InvalidStep)
  {
    var t := Trim(expr);
    if StartsWith(t, PREFIX) && (|t| == 15 || !IsDigit(t[15])) {
      assert t[15..] == "" || t[15..][0] == t[15];
      assert DigitRun(t[15..]) == 0;
    }
  }
}
