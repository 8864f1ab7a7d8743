/**
 The arguments of a foreach item: `{item}` and `{item.key}` in the texts of a template's arguments are
 replaced by the item and its fields. `{item}` is replaced in one go; for `{item.key}` a loop replaces
 the first one and starts over. A key the item does not have is replaced by its own placeholder, so
 that the loop goes on with the text it had.
 */
module ItemTemplates {
  import opened Wrappers
  import opened Text
  import opened JsonValues
  import opened JsonText
  import opened Placeholders

  const ITEM := Marks("{item.", "}")

  function FieldText(item: Json, key: string): Option<string> {
    var v := Field(item, key);
    if v.Some? then Some(TextOf(v.value)) else None
  }

  function FieldTexts(item: Json): Lookup { key => FieldText(item, key) }

  // ── One text ─────────────────────────────────────────────────────────

  /** The text the loop starts from. */
  function WithItem(s: string, item: Json): string { ReplaceAll(s, "{item}", TextOf(item)) }

  /** The loop, given `n` iterations; it only breaks when no placeholder is left. */
  function Rewritten(s: string, item: Json, n: nat): Option<string> { InPlace(ITEM, false, FieldTexts(item), s, n) }

  ghost predicate TextEnds(s: string, item: Json) { exists n: nat :: Rewritten(WithItem(s, item), item, n).Some? }

  /** What the loop ends with. */
  ghost function TextResult(s: string, item: Json): string {
    if TextEnds(s, item)
    then var n: nat :| Rewritten(WithItem(s, item), item, n).Some?; Rewritten(WithItem(s, item), item, n).value
    else s
  }

  method RenderText(s: string, item: Json) returns (result: string)
    requires TextEnds(s, item)
    ensures result == TextResult(s, item)
  {
    result := WithItem(s, item);
    ghost var iteration := t => Iteration(ITEM, false, FieldTexts(item), t);
    ghost var left: nat :| Loop(iteration, result, left).Some?;
    ghost var end := Loop(iteration, result, left);
    EndsOnce(s, item, left);
    while true
      invariant Loop(iteration, result, left) == end
      decreases left
    {
      var c := FirstCut(ITEM, result);
      if c.Whole? { break; }
      RawOf(ITEM, result);
      var value := Field(item, c.inner);
      var replacement := if value.Some? then TextOf(value.value) else "{item." + c.inner + "}";
      result := c.before + replacement + c.rest;
      left := left - 1;
    }
  }

  lemma EndsOnce(s: string, item: Json, n: nat)
    requires Rewritten(WithItem(s, item), item, n).Some?
    ensures TextEnds(s, item) && Rewritten(WithItem(s, item), item, n) == Some(TextResult(s, item))
  {
    var start := WithItem(s, item);
    forall k: nat | Rewritten(start, item, k).Some? ensures Rewritten(start, item, k) == Rewritten(start, item, n) {
      LoopUnique(t => Iteration(ITEM, false, FieldTexts(item), t), start, k, n);
    }
  }

  // ── When it ends ─────────────────────────────────────────────────────

  /** Every closed `{item.key}` names a key of the item. */
  predicate KeysKnown(ps: Pieces, item: Json) {
    ps.Piece? ==> Field(item, ps.inner).Some? && KeysKnown(ps.rest, item)
  }

  lemma {:induction false} ThroughIff(ps: Pieces, item: Json)
    ensures GetsThrough(false, ps, FieldTexts(item)) <==> KeysKnown(ps, item)
  {
    match ps
    case Tail(_, _) =>
    case Piece(_, _, _, rest) => ThroughIff(rest, item);
  }

  /** No `{item.` starts in what precedes a placeholder or in what replaces it, whatever follows. */
  predicate ItemInert(s: string, item: Json) {
    AllInert(ITEM, Parse(ITEM, WithItem(s, item)), FieldTexts(item))
  }

  /**
   With inert text the rendering of a text ends exactly when every closed `{item.key}` names a key of
   the item, and then with the left-to-right substitution of the fields.
   */
  lemma RenderingEndsIff(s: string, item: Json)
    requires ItemInert(s, item)
    ensures TextEnds(s, item) <==> KeysKnown(Parse(ITEM, WithItem(s, item)), item)
    ensures TextEnds(s, item) ==> TextResult(s, item) == Substitute(Parse(ITEM, WithItem(s, item)), FieldTexts(item))
  {
    var start := WithItem(s, item);
    ThroughIff(Parse(ITEM, start), item);
    LoopLaw(ITEM, false, FieldTexts(item), start);
    forall n: nat ensures Rewritten(start, item, n) == InPlace(ITEM, false, FieldTexts(item), start, n) {}
  }

  // ── A missing key ────────────────────────────────────────────────────

  lemma FirstClose(key: string, rest: string)
    requires '}' !in key
    ensures Find(key + "}" + rest, "}") == Some(|key|)
  {
    InertWithout(key, "}");
    PrefixMovesFind(key, "}" + rest, "}");
    assert key + ("}" + rest) == key + "}" + rest;
    assert StartsWith("}" + rest, "}");
  }

  lemma Lone(key: string)
    requires '}' !in key
    ensures FirstCut(ITEM, "{item." + key + "}") == Cut("", "{item." + key + "}", key, "")
  {
    var s := "{item." + key + "}";
    assert StartsWith(s, "{item.");
    FirstClose(key, "");
    assert s == "" + "{item." + (key + "}" + "");
    CutIs(ITEM, s, "", key, "", key + "}" + "");
    assert "{item." + (key + "}") == s;
  }

  lemma NoWholeItem(key: string)
    requires '{' !in key
    ensures Inert("{item." + key + "}", "{item}")
  {
    var s, mark := "{item." + key + "}", "{item}";
    forall i | 0 <= i < |s| ensures Differ(s[i..], mark) {
      if i == 0 {
        assert s[0..][5] == '.' && mark[5] == '}';
      } else {
        assert s[i..][0] == s[i] && s[i] != '{';
      }
    }
  }

  lemma StuckOn(key: string, item: Json)
    requires '}' !in key && Field(item, key).None?
    ensures var s := "{item." + key + "}"; Iteration(ITEM, false, FieldTexts(item), s) == Some(s)
  {
    Lone(key);
  }

  /** A text that is `{item.key}` hangs on every item without that key, even with nothing behind it. */
  lemma MissingKeyHangs(key: string, item: Json)
    requires '{' !in key && '}' !in key && Field(item, key).None?
    ensures !TextEnds("{item." + key + "}", item)
  {
    var s := "{item." + key + "}";
    NoWholeItem(key);
    NothingToReplace(s, "{item}", TextOf(item));
    StuckOn(key, item);
    forall n: nat ensures Rewritten(s, item, n).None? {
      Stuck(t => Iteration(ITEM, false, FieldTexts(item), t), s, n);
    }
  }

  // ── Why the text must be inert ───────────────────────────────────────

  lemma KeysKnownIn(s: string, before: string, key: string, rest: string, item: Json)
    requires s == before + "{item." + (key + "}" + rest) && Find(s, "{item.") == Some(|before|) && '}' !in key
    requires Field(item, key).Some? && '{' !in rest
    ensures KeysKnown(Parse(ITEM, s), item)
  {
    FirstClose(key, rest);
    CutIs(ITEM, s, before, key, rest, key + "}" + rest);
    InertWithout(rest, "{item.");
    PrefixMovesFind(rest, "", "{item.");
    assert rest + "" == rest;
  }

  const STRADDLING := "{it{item.a}em.b}"

  lemma StraddlingOpen()
    ensures Find(STRADDLING, "{item.") == Some(3)
  {
    var s, mark := STRADDLING, "{item.";
    forall k | 0 <= k < 3 ensures !StartsWith(s[k..], mark) {
      assert s[k..][0] == s[k] && s[k..][3] == s[k + 3];
      assert s[k] != mark[0] || s[k + 3] != mark[3];
    }
    assert s[3..][..6] == mark;
    FindIs(s, mark, 3);
  }

  lemma StraddlingIsNotItem()
    ensures Inert(STRADDLING, "{item}")
  {
    var s, mark := STRADDLING, "{item}";
    forall i | 0 <= i < |s| ensures Differ(s[i..], mark) {
      if i == 0 {
        assert s[0..][3] != mark[3];
      } else if i == 3 {
        assert s[3..][5] != mark[5];
      } else {
        assert s[i..][0] != mark[0];
      }
    }
  }

  lemma Straddles(s: string, before: string, key: string, rest: string, item: Json, missing: string)
    requires s == before + "{item." + (key + "}" + rest) && Find(s, "{item.") == Some(|before|)
    requires '}' !in key && '}' !in missing && '{' !in rest && Inert(s, "{item}")
    requires Field(item, key) == Some(Str("")) && Field(item, missing).None?
    requires before + rest == "{item." + missing + "}"
    ensures KeysKnown(Parse(ITEM, WithItem(s, item)), item) && !TextEnds(s, item)
  {
    NothingToReplace(s, "{item}", TextOf(item));
    KeysKnownIn(s, before, key, rest, item);
    FirstClose(key, rest);
    StuckOn(missing, item);
    CutIs(ITEM, s, before, key, rest, key + "}" + rest);
    forall n: nat ensures Rewritten(s, item, n).None? { ComesTogether(ITEM, FieldTexts(item), s, n); }
  }

  lemma StraddlingParts() returns (before: string, key: string, rest: string, missing: string)
    ensures STRADDLING == before + "{item." + (key + "}" + rest) && '}' !in key && '}' !in missing && '{' !in rest
    ensures before + rest == "{item." + missing + "}" && |before| == 3 && key == "a" && missing == "b"
  {
    before, key, rest, missing := "{it", "a", "em.b}", "b";
  }

  /**
   Every closed `{item.key}` of this text names a key of the item, and still the loop hangs: the
   hypothesis that the text is inert is needed.
   */
  lemma StraddlingHangs(item: Json)
    requires Field(item, "a") == Some(Str("")) && Field(item, "b").None?
    ensures KeysKnown(Parse(ITEM, WithItem(STRADDLING, item)), item) && !TextEnds(STRADDLING, item)
  {
    var before, key, rest, missing := StraddlingParts();
    StraddlingIsNotItem();
    StraddlingOpen();
    Straddles(STRADDLING, before, key, rest, item, missing);
  }

  // ── What is rendered ─────────────────────────────────────────────────

  /** The text of a field, which is there. */
  function TextOfField(item: Json, key: string): string { if FieldText(item, key).Some? then FieldText(item, key).value else "" }

  /** Plain text without braces, and keys that the item has, whose texts hold no brace that opens. */
  predicate PlainItemParts(parts: seq<Part>, tail: string, item: Json) {
    && (forall i :: 0 <= i < |parts| ==>
          && '{' !in parts[i].before && '{' !in parts[i].inner && '}' !in parts[i].inner
          && Field(item, parts[i].inner).Some? && '{' !in TextOf(Field(item, parts[i].inner).value))
    && '{' !in tail
  }

  lemma {:induction false} NoWholeItemIn(parts: seq<Part>, tail: string, item: Json)
    requires PlainItemParts(parts, tail, item)
    ensures Inert(Written(ITEM, parts, tail), "{item}")
    decreases |parts|
  {
    if parts == [] {
      InertWithout(tail, "{item}");
    } else {
      var before, key, rest := parts[0].before, parts[0].inner, Written(ITEM, parts[1..], tail);
      NoWholeItemIn(parts[1..], tail, item);
      InertWithout(before, "{item}");
      NoWholeItem(key);
      InertConcat(before, "{item." + key + "}", "{item}");
      InertConcat(before + ("{item." + key + "}"), rest, "{item}");
      assert before + ("{item." + key + "}") + rest == before + "{item." + (key + "}" + rest);
    }
  }

  lemma PlainItemPartsArePlain(parts: seq<Part>, tail: string, item: Json)
    requires PlainItemParts(parts, tail, item)
    ensures PlainParts(ITEM, parts, tail)
    ensures forall i :: 0 <= i < |parts| ==>
              && FieldTexts(item)(parts[i].inner) == Some(TextOfField(item, parts[i].inner))
              && Inert(TextOfField(item, parts[i].inner), "{item.")
  {
    forall i | 0 <= i < |parts|
      ensures Inert(parts[i].before, "{item.") && Inert(parts[i].inner, "}")
      ensures FieldTexts(item)(parts[i].inner) == Some(TextOfField(item, parts[i].inner))
      ensures Inert(TextOfField(item, parts[i].inner), "{item.")
    {
      InertWithout(parts[i].before, "{item.");
      InertWithout(parts[i].inner, "}");
      InertWithout(TextOfField(item, parts[i].inner), "{item.");
    }
    InertWithout(tail, "{item.");
  }

  /** A text of plain parts and `{item.key}` is rendered to these parts with the texts of the item's fields between them. */
  lemma RendersFields(parts: seq<Part>, tail: string, item: Json)
    requires PlainItemParts(parts, tail, item)
    ensures var s := Written(ITEM, parts, tail);
            && ItemInert(s, item) && KeysKnown(Parse(ITEM, WithItem(s, item)), item)
            && TextEnds(s, item) && TextResult(s, item) == Filled(parts, tail, key => TextOfField(item, key))
  {
    var s, lookup := Written(ITEM, parts, tail), FieldTexts(item);
    NoWholeItemIn(parts, tail, item);
    NothingToReplace(s, "{item}", TextOf(item));
    PlainItemPartsArePlain(parts, tail, item);
    ParseWritten(ITEM, parts, tail);
    InertWritten(ITEM, parts, tail, lookup);
    SubstituteWritten(ITEM, parts, tail, lookup, key => TextOfField(item, key));
    ThroughIff(PiecesOf(ITEM, parts, tail), item);
    RenderingEndsIff(s, item);
  }

  /** `{item}` is replaced by the item itself. */
  lemma RendersItem(before: string, after: string, item: Json)
    requires '{' !in before && '{' !in after && '{' !in TextOf(item)
    ensures var s := before + "{item}" + after;
            ItemInert(s, item) && TextEnds(s, item) && TextResult(s, item) == before + TextOf(item) + after
  {
    var s, text := before + "{item}" + after, TextOf(item);
    InertWithout(before, "{item}");
    FindBehind(before, "{item}", after);
    ReplaceFirst(s, "{item}", text, |before|);
    assert s[..|before|] == before && s[|before| + 6..] == after;
    InertWithout(after, "{item}");
    NothingToReplace(after, "{item}", text);
    var start := before + text + after;
    assert WithItem(s, item) == start;
    InertWithout(start, "{item.");
    NotFound(start, "{item.");
    ParseIs(ITEM, start, FirstCut(ITEM, start));
    RenderingEndsIff(s, item);
  }

  // ── All arguments ────────────────────────────────────────────────────

  /** Rendering ends when it ends on every text of the arguments. */
  ghost predicate Ends(template: Json, item: Json)
    decreases template
  {
    match template
    case Str(s) => TextEnds(s, item)
    case Array(items) => forall i :: 0 <= i < |items| ==> Ends(items[i], item)
    case Object(fields) => forall key :: key in fields ==> Ends(fields[key], item)
    case _ => true
  }

  ghost function Render(template: Json, item: Json): Json
    decreases template
  {
    match template
    case Str(s) => Str(TextResult(s, item))
    case Array(items) => Array(seq(|items|, i requires 0 <= i < |items| => Render(items[i], item)))
    case Object(fields) => Object(map key | key in fields :: Render(fields[key], item))
    case _ => template
  }

  /** All texts of the arguments are inert with this item. */
  predicate TreeInert(template: Json, item: Json)
    decreases template
  {
    match template
    case Str(s) => ItemInert(s, item)
    case Array(items) => forall i :: 0 <= i < |items| ==> TreeInert(items[i], item)
    case Object(fields) => forall key :: key in fields ==> TreeInert(fields[key], item)
    case _ => true
  }

  /** Every closed `{item.key}` in the texts of the arguments names a key of the item. */
  predicate TreeKnown(template: Json, item: Json)
    decreases template
  {
    match template
    case Str(s) => KeysKnown(Parse(ITEM, WithItem(s, item)), item)
    case Array(items) => forall i :: 0 <= i < |items| ==> TreeKnown(items[i], item)
    case Object(fields) => forall key :: key in fields ==> TreeKnown(fields[key], item)
    case _ => true
  }

  /** With inert texts, rendering the arguments ends exactly when all their keys are known. */
  lemma {:induction false} EndsIff(template: Json, item: Json)
    requires TreeInert(template, item)
    ensures Ends(template, item) <==> TreeKnown(template, item)
    decreases template
  {
    match template
    case Str(s) => RenderingEndsIff(s, item);
    case Array(items) =>
      forall i | 0 <= i < |items| ensures Ends(items[i], item) <==> TreeKnown(items[i], item) { EndsIff(items[i], item); }
    case Object(fields) =>
      forall key | key in fields ensures Ends(fields[key], item) <==> TreeKnown(fields[key], item) { EndsIff(fields[key], item); }
    case _ =>
  }

  /** `render_item_template`. */
  method RenderItemTemplate(template: Json, item: Json) returns (r: Json)
    requires Ends(template, item)
    ensures r == Render(template, item)
    decreases template, 1
  {
    match template
    case Str(s) =>
      var text := RenderText(s, item);
      r := Str(text);
    case Array(items) =>
      var rendered := RenderElements(template, item);
      r := Array(rendered);
    case Object(fields) =>
      var rendered := RenderFields(template, item);
      r := Object(rendered);
    case _ => r := template;
  }

  method RenderElements(template: Json, item: Json) returns (rendered: seq<Json>)
    requires template.Array? && Ends(template, item)
    ensures |rendered| == |template.items|
    ensures forall k :: 0 <= k < |rendered| ==> rendered[k] == Render(template.items[k], item)
    decreases template, 0
  {
    rendered := [];
    for i := 0 to |template.items|
      invariant |rendered| == i && forall k :: 0 <= k < i ==> rendered[k] == Render(template.items[k], item)
    {
      var v := RenderItemTemplate(template.items[i], item);
      rendered := rendered + [v];
    }
  }

  method RenderFields(template: Json, item: Json) returns (rendered: map<string, Json>)
    requires template.Object? && Ends(template, item)
    ensures rendered.Keys == template.fields.Keys
    ensures forall key :: key in rendered ==> rendered[key] == Render(template.fields[key], item)
    decreases template, 0
  {
    rendered := map[];
    var left := template.fields.Keys;
    while left != {}
      invariant left <= template.fields.Keys && rendered.Keys == template.fields.Keys - left
      invariant forall key :: key in rendered ==> rendered[key] == Render(template.fields[key], item)
      decreases |left|
    {
      var key :| key in left;
      var v := RenderItemTemplate(template.fields[key], item);
      rendered, left := rendered[key := v], left - {key};
    }
  }
}
