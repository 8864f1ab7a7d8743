/**
 What a path into the predecessor outputs resolves to: every spelling of a step and a list of keys and
 indices leads to the value that walking the step's output along that list leads to.
 */
module Paths {
  import opened Wrappers
  import opened Text
  import opened JsonValues
  import opened Conditions

  // ── Spelling ─────────────────────────────────────────────────────────

  datatype Prefix = Dollar | Deps | Bare
  {
    function Text(): string {
      match this
      case Dollar => "$.deps."
      case Deps => "deps."
      case Bare => ""
    }
  }

  /** A name that can stand between dots, and that trimming leaves alone. */
  predicate IsName(s: string) { Solid(s) && '.' !in s }

  /** Keys are names and not numbers; indices are numbers the machine can hold. */
  predicate IsSelector(sel: Selector) {
    match sel
    case Key(name) => IsName(name) && ParseUsize(name).None?
    case Index(i) => i <= USIZE_MAX
  }

  predicate AllSelectors(sels: seq<Selector>) { forall i :: 0 <= i < |sels| ==> IsSelector(sels[i]) }

  function SegmentOf(sel: Selector): string {
    match sel
    case Key(name) => name
    case Index(i) => Decimal(i)
  }

  function SpellSelectors(sels: seq<Selector>): string {
    if sels == [] then "" else ['.'] + (SegmentOf(sels[0]) + SpellSelectors(sels[1..]))
  }

  /** A path: its prefix, the step, and the selectors, each behind a dot. */
  function Spell(prefix: Prefix, step: string, sels: seq<Selector>): string {
    prefix.Text() + (step + SpellSelectors(sels))
  }

  // ── Walking ──────────────────────────────────────────────────────────

  /** A key leads into an object; an index leads into an array, or to the key of an object that is spelled like it. */
  function Select(v: Json, sel: Selector): Option<Json> {
    match sel
    case Key(name) => Field(v, name)
    case Index(i) => if v.Object? then Field(v, Decimal(i)) else Element(v, i)
  }

  function Walk(v: Json, sels: seq<Selector>): Option<Json> {
    if sels == [] then Some(v)
    else
      var next := Select(v, sels[0]);
      if next.Some? then Walk(next.value, sels[1..]) else None
  }

  /** What a path should resolve to. */
  function Named(input: StepInput, step: string, sels: seq<Selector>): Option<Json> {
    if step in input then Walk(input[step], sels) else None
  }

  // ── Segments ─────────────────────────────────────────────────────────

  function Segments(sels: seq<Selector>): seq<string> {
    if sels == [] then [] else [SegmentOf(sels[0])] + Segments(sels[1..])
  }

  lemma SegmentIsName(sel: Selector)
    requires IsSelector(sel)
    ensures IsName(SegmentOf(sel))
  {
    if sel.Index? {
      var d := Decimal(sel.index);
      assert IsDigit(d[0]) && IsDigit(d[|d| - 1]);
    }
  }

  lemma {:induction false} SplitSpelled(step: string, sels: seq<Selector>)
    requires '.' !in step && AllSelectors(sels)
    ensures Split(step + SpellSelectors(sels), '.') == [step] + Segments(sels)
    decreases |sels|
  {
    if sels == [] {
      SplitWhole(step, '.');
      assert step + "" == step;
    } else {
      var first := SegmentOf(sels[0]);
      SegmentIsName(sels[0]);
      SplitAt(step, '.', first + SpellSelectors(sels[1..]));
      SplitSpelled(first, sels[1..]);
    }
  }

  lemma SelectSegment(v: Json, sel: Selector)
    requires IsSelector(sel)
    ensures WalkSegment(v, SegmentOf(sel)) == Select(v, sel)
  {
    SegmentIsName(sel);
    if sel.Index? { ParseDecimal(sel.index); }
  }

  lemma {:induction false} WalkSpelled(v: Json, sels: seq<Selector>)
    requires AllSelectors(sels)
    ensures WalkSegments(v, Segments(sels)) == Walk(v, sels)
    decreases |sels|
  {
    if sels == [] {
    } else {
      SelectSegment(v, sels[0]);
      assert Segments(sels)[1..] == Segments(sels[1..]);
      var next := Select(v, sels[0]);
      if next.Some? { WalkSpelled(next.value, sels[1..]); }
    }
  }

  /** Doubled dots do not matter: an empty segment is passed over, wherever it stands. */
  lemma {:induction false} EmptySegmentsPass(v: Json, front: seq<string>, back: seq<string>)
    ensures WalkSegments(v, front + ([""] + back)) == WalkSegments(v, front + back)
    decreases |front|
  {
    if front == [] {
      assert front + ([""] + back) == [""] + back && front + back == back;
      assert ([""] + back)[1..] == back;
    } else {
      assert (front + ([""] + back))[1..] == front[1..] + ([""] + back) && (front + back)[1..] == front[1..] + back;
      var next := WalkSegment(v, front[0]);
      if next.Some? { EmptySegmentsPass(next.value, front[1..], back); }
    }
  }

  // ── Prefixes and white space ─────────────────────────────────────────

  lemma {:induction false} SpelledEnds(step: string, sels: seq<Selector>)
    requires Solid(step) && AllSelectors(sels)
    ensures Solid(step + SpellSelectors(sels))
    decreases |sels|
  {
    if sels == [] {
      assert step + "" == step;
    } else {
      SegmentIsName(sels[0]);
      SpelledEnds(SegmentOf(sels[0]), sels[1..]);
      var rest := SegmentOf(sels[0]) + SpellSelectors(sels[1..]);
      assert (step + (['.'] + rest))[|step| + |rest|] == rest[|rest| - 1];
    }
  }

  lemma SpellingIsSolid(prefix: Prefix, rest: string)
    requires Solid(rest)
    ensures Solid(prefix.Text() + rest)
  {
    assert (prefix.Text() + rest)[|prefix.Text() + rest| - 1] == rest[|rest| - 1];
  }

  lemma DollarIsTaken(rest: string)
    ensures WithoutPrefix("$.deps." + rest) == rest
  {
    var s := "$.deps." + rest;
    assert s[..7] == "$.deps." && s[7..] == rest;
  }

  lemma DepsIsTaken(rest: string)
    ensures WithoutPrefix("deps." + rest) == rest
  {
    var s := "deps." + rest;
    assert s[..5] == "deps." && s[5..] == rest;
    assert s[0] == 'd' && "$.deps."[0] == '$';
  }

  lemma BareIsKept(step: string, sels: seq<Selector>)
    requires IsName(step) && AllSelectors(sels) && step != "deps" && step != "$"
    ensures WithoutPrefix(step + SpellSelectors(sels)) == step + SpellSelectors(sels)
  {
    NotPrefixed(step, sels, "deps");
    NotPrefixed(step, sels, "$");
    assert "deps" + ['.'] == "deps.";
    assert ("$" + ['.']) + "deps." == "$.deps.";
    ShorterPrefix(step + SpellSelectors(sels), "$" + ['.'], "deps.");
  }

  lemma NotPrefixed(step: string, sels: seq<Selector>, word: string)
    requires IsName(step) && AllSelectors(sels) && step != word && '.' !in word
    ensures !StartsWith(step + SpellSelectors(sels), word + ['.'])
  {
    SplitSpelled(step, sels);
    SplitFirst(step + SpellSelectors(sels), '.', word);
  }

  lemma ShorterPrefix(s: string, a: string, b: string)
    ensures StartsWith(s, a + b) ==> StartsWith(s, a)
  {
    if StartsWith(s, a + b) { assert s[..|a|] == s[..|a + b|][..|a|]; }
  }

  lemma PrefixIsTaken(prefix: Prefix, step: string, sels: seq<Selector>)
    requires IsName(step) && AllSelectors(sels) && (prefix.Bare? ==> step != "deps" && step != "$")
    ensures WithoutPrefix(Spell(prefix, step, sels)) == step + SpellSelectors(sels)
  {
    var rest := step + SpellSelectors(sels);
    match prefix
    case Dollar => DollarIsTaken(rest);
    case Deps => DepsIsTaken(rest);
    case Bare =>
      BareIsKept(step, sels);
      assert "" + rest == rest;
  }

  lemma SegmentsOfPath(prefix: Prefix, step: string, sels: seq<Selector>, before: string, after: string)
    requires IsName(step) && AllSelectors(sels) && (prefix.Bare? ==> step != "deps" && step != "$")
    requires AllWhite(before) && AllWhite(after)
    ensures PathSegments(before + (Spell(prefix, step, sels) + after)) == [step] + Segments(sels)
  {
    SpelledEnds(step, sels);
    SpellingIsSolid(prefix, step + SpellSelectors(sels));
    TrimPadded(before, Spell(prefix, step, sels), after);
    PrefixIsTaken(prefix, step, sels);
    SplitSpelled(step, sels);
  }

  // ── Round trips ──────────────────────────────────────────────────────

  /**
   Every spelling of a path, with white space around it, resolves to what walking the named step's
   output leads to: nothing if the step is no input or the walk fails. Without a prefix the step must
   not be called like one.
   */
  lemma PathRoundTrip(prefix: Prefix, step: string, sels: seq<Selector>, before: string, after: string, input: StepInput)
    requires IsName(step) && AllSelectors(sels) && !StartsWith(step, "result_of_step_")
    requires (prefix.Bare? ==> step != "deps" && step != "$") && AllWhite(before) && AllWhite(after)
    ensures ResolvePath(before + (Spell(prefix, step, sels) + after), input) == Named(input, step, sels)
  {
    SegmentsOfPath(prefix, step, sels, before, after);
    if step in input { WalkSpelled(input[step], sels); }
  }

  lemma NumberedKey(n: nat)
    ensures IsName("result_of_step_" + Decimal(n)) && StepKey("result_of_step_" + Decimal(n)) == Some("step-" + Decimal(n))
    ensures "result_of_step_" + Decimal(n) != "deps" && "result_of_step_" + Decimal(n) != "$"
  {
    var d, prefix := Decimal(n), "result_of_step_";
    var s := prefix + d;
    assert s[..15] == prefix && s[15..] == d && s[0] == 'r';
    assert s[|s| - 1] == d[|d| - 1] && IsDigit(d[|d| - 1]);
    var k := DigitRun(d);
    assert k == |d| && d[..k] == d;
  }

  /** `result_of_step_N` is another name of `step-N`. */
  lemma NumberedPathRoundTrip(prefix: Prefix, n: nat, sels: seq<Selector>, before: string, after: string, input: StepInput)
    requires AllSelectors(sels) && AllWhite(before) && AllWhite(after)
    ensures ResolvePath(before + (Spell(prefix, "result_of_step_" + Decimal(n), sels) + after), input)
         == Named(input, "step-" + Decimal(n), sels)
  {
    var step := "result_of_step_" + Decimal(n);
    NumberedKey(n);
    SegmentsOfPath(prefix, step, sels, before, after);
    var key := "step-" + Decimal(n);
    if key in input { WalkSpelled(input[key], sels); }
  }
}
