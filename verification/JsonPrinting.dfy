/** A printed JSON value can be read in one way only: no two values print alike. */
module JsonPrinting {
  import opened Wrappers
  import opened Text
  import opened JsonValues
  import opened JsonText

  // ── Concatenations ───────────────────────────────────────────────────

  lemma SameFront(p: string, x: string, y: string)
    requires p + x == p + y
    ensures x == y
  {
    assert (p + x)[|p|..] == x && (p + y)[|p|..] == y;
  }

  lemma OtherLead(a: string, x: string, b: string, y: string)
    requires a != "" && b != "" && a[0] != b[0]
    ensures a + x != b + y
  {
    assert (a + x)[0] == a[0] && (b + y)[0] == b[0];
  }

  lemma Nothing(x: string)
    ensures "" + x == x && x + "" == x
  {
  }

  lemma Glue(q: string, c: string, p: string, r: string)
    ensures (q + c + p) + r == q + (c + (p + r))
  {
  }

  lemma Regrouped(a: string, b: string, c: string)
    ensures (a + b) + c == a + (b + c)
  {
  }

  // ── Texts ────────────────────────────────────────────────────────────

  /** The escape of one character is told from that of any other by its own characters. */
  lemma EscapeUnique(c: char, d: char, x: string, y: string)
    requires EscapeChar(c) + x == EscapeChar(d) + y
    ensures c == d && x == y
  {
    var e, f := EscapeChar(c), EscapeChar(d);
    var whole := e + x;
    assert whole[0] == e[0] && whole[0] == f[0];
    if |e| > 1 && |f| > 1 {
      assert whole[1] == e[1] && whole[1] == f[1];
      if |e| == 6 && |f| == 6 {
        assert whole[4] == e[4] && whole[4] == f[4] && whole[5] == e[5] && whole[5] == f[5];
        HexUnique(c as int / 16, d as int / 16);
        HexUnique(c as int % 16, d as int % 16);
      }
    }
    assert c == d;
    SameFront(e, x, y);
  }

  lemma HexUnique(a: nat, b: nat)
    requires a < 16 && b < 16 && HexDigit(a) == HexDigit(b)
    ensures a == b
  {
  }

  lemma EscapeLead(c: char)
    ensures EscapeChar(c) != "" && EscapeChar(c)[0] != '"'
  {
  }

  /** A quoted text ends at its own quote. */
  lemma {:induction false} EscapedUnique(a: string, b: string, x: string, y: string)
    requires Escape(a) + (['"'] + x) == Escape(b) + (['"'] + y)
    ensures a == b && x == y
    decreases |a|
  {
    Nothing(['"'] + x);
    Nothing(['"'] + y);
    if a == "" && b == "" {
      SameFront(['"'], x, y);
    } else if a == "" {
      EscapeLead(b[0]);
      Regrouped(EscapeChar(b[0]), Escape(b[1..]), ['"'] + y);
      OtherLead(['"'], x, EscapeChar(b[0]), Escape(b[1..]) + (['"'] + y));
    } else if b == "" {
      EscapeLead(a[0]);
      Regrouped(EscapeChar(a[0]), Escape(a[1..]), ['"'] + x);
      OtherLead(['"'], y, EscapeChar(a[0]), Escape(a[1..]) + (['"'] + x));
    } else {
      Regrouped(EscapeChar(a[0]), Escape(a[1..]), ['"'] + x);
      Regrouped(EscapeChar(b[0]), Escape(b[1..]), ['"'] + y);
      EscapeUnique(a[0], b[0], Escape(a[1..]) + (['"'] + x), Escape(b[1..]) + (['"'] + y));
      EscapedUnique(a[1..], b[1..], x, y);
      assert a == [a[0]] + a[1..] && b == [b[0]] + b[1..];
    }
  }

  lemma QuotedUnique(a: string, b: string, x: string, y: string)
    requires Quoted(a) + x == Quoted(b) + y
    ensures a == b && x == y
  {
    Glue(['"'], Escape(a), ['"'], x);
    Glue(['"'], Escape(b), ['"'], y);
    SameFront(['"'], Escape(a) + (['"'] + x), Escape(b) + (['"'] + y));
    EscapedUnique(a, b, x, y);
  }

  // ── Numbers ──────────────────────────────────────────────────────────

  predicate NumberChar(c: char) { IsDigit(c) || c in "+-.eE" }

  predicate NumberText(s: string) {
    s != "" && (IsDigit(s[0]) || s[0] == '-') && forall i :: 0 <= i < |s| ==> NumberChar(s[i])
  }

  /** Where a value ends: at the end of the text, or before a comma or a closing bracket. */
  predicate Stop(s: string) { s == "" || s[0] in ",]}" }

  lemma {:induction false} NumberUnique(a: string, b: string, x: string, y: string)
    requires (forall i :: 0 <= i < |a| ==> NumberChar(a[i])) && (forall i :: 0 <= i < |b| ==> NumberChar(b[i]))
    requires Stop(x) && Stop(y) && a + x == b + y
    ensures a == b && x == y
    decreases |a|
  {
    var whole := a + x;
    Nothing(x);
    Nothing(y);
    if a == "" && b == "" {
    } else if a == "" {
      if x != "" { OtherLead(x, "", b, y); }
    } else if b == "" {
      if y != "" { OtherLead(y, "", a, x); }
    } else {
      assert whole[0] == a[0] == b[0];
      assert whole[1..] == a[1..] + x && whole[1..] == b[1..] + y;
      NumberUnique(a[1..], b[1..], x, y);
      assert a == [a[0]] + a[1..] && b == [b[0]] + b[1..];
    }
  }

  // ── Values ───────────────────────────────────────────────────────────

  /** Numbers print as numbers do, and the text tells the value. */
  predicate Sound(v: Json, value: string -> real)
    decreases v
  {
    match v
    case Number(n, text) => NumberText(text) && n == value(text)
    case Array(items) => forall i :: 0 <= i < |items| ==> Sound(items[i], value)
    case Object(fields) => forall key :: key in fields ==> Sound(fields[key], value)
    case _ => true
  }

  /** The first character tells the kind of a value. */
  predicate LeadOf(v: Json, c: char) {
    match v
    case Null => c == 'n'
    case Bool(b) => c == if b then 't' else 'f'
    case Number(_, _) => IsDigit(c) || c == '-'
    case Str(_) => c == '"'
    case Array(_) => c == '['
    case Object(_) => c == '{'
  }

  lemma PrintLead(v: Json, value: string -> real)
    requires Sound(v, value)
    ensures PrintJson(v) != "" && LeadOf(v, PrintJson(v)[0])
  {
  }

  lemma SameKind(v: Json, w: Json, x: string, y: string, value: string -> real)
    requires Sound(v, value) && Sound(w, value) && PrintJson(v) + x == PrintJson(w) + y
    ensures LeadOf(v, PrintJson(v)[0]) && LeadOf(w, PrintJson(v)[0])
  {
    PrintLead(v, value);
    PrintLead(w, value);
    assert (PrintJson(v) + x)[0] == PrintJson(v)[0] && (PrintJson(w) + y)[0] == PrintJson(w)[0];
  }

  /** What follows a printed value does not belong to it: the text tells the value and where it ends. */
  lemma {:induction false} PrintUnique(v: Json, w: Json, x: string, y: string, value: string -> real)
    requires Sound(v, value) && Sound(w, value) && Stop(x) && Stop(y)
    requires PrintJson(v) + x == PrintJson(w) + y
    ensures v == w && x == y
    decreases v, 2
  {
    SameKind(v, w, x, y, value);
    match v
    case Null => SameFront("null", x, y);
    case Bool(b) => SameFront(if b then "true" else "false", x, y);
    case Number(_, text) => NumberUnique(text, w.text, x, y);
    case Str(s) => QuotedUnique(s, w.s, x, y);
    case Array(items) => ArrayUnique(items, w.items, x, y, value);
    case Object(_) => ObjectUnique(v, w, x, y, value);
  }

  lemma {:induction false} ArrayUnique(a: seq<Json>, b: seq<Json>, x: string, y: string, value: string -> real)
    requires (forall i :: 0 <= i < |a| ==> Sound(a[i], value)) && (forall i :: 0 <= i < |b| ==> Sound(b[i], value))
    requires PrintJson(Array(a)) + x == PrintJson(Array(b)) + y
    ensures a == b && x == y
    decreases a, 3
  {
    Glue("[", PrintItems(a), "]", x);
    Glue("[", PrintItems(b), "]", y);
    SameFront("[", PrintItems(a) + ("]" + x), PrintItems(b) + ("]" + y));
    ItemsUnique(a, b, x, y, value);
  }

  /** What follows the first element of a list. */
  function AfterFirst(items: seq<Json>, x: string): string
    requires items != []
  {
    if |items| == 1 then "]" + x else "," + (PrintItems(items[1..]) + ("]" + x))
  }

  lemma FirstItem(items: seq<Json>, x: string)
    requires items != []
    ensures PrintItems(items) + ("]" + x) == PrintJson(items[0]) + AfterFirst(items, x)
  {
    if |items| > 1 {
      assert PrintItems(items) == PrintJson(items[0]) + "," + PrintItems(items[1..]);
    }
  }

  lemma {:induction false} ItemsUnique(a: seq<Json>, b: seq<Json>, x: string, y: string, value: string -> real)
    requires (forall i :: 0 <= i < |a| ==> Sound(a[i], value)) && (forall i :: 0 <= i < |b| ==> Sound(b[i], value))
    requires PrintItems(a) + ("]" + x) == PrintItems(b) + ("]" + y)
    ensures a == b && x == y
    decreases a, 2
  {
    Nothing("]" + x);
    Nothing("]" + y);
    if a == [] && b == [] {
      SameFront("]", x, y);
    } else if a == [] {
      PrintLead(b[0], value);
      FirstItem(b, y);
      OtherLead("]", x, PrintJson(b[0]), AfterFirst(b, y));
    } else if b == [] {
      PrintLead(a[0], value);
      FirstItem(a, x);
      OtherLead("]", y, PrintJson(a[0]), AfterFirst(a, x));
    } else {
      FirstItem(a, x);
      FirstItem(b, y);
      PrintUnique(a[0], b[0], AfterFirst(a, x), AfterFirst(b, y), value);
      RestUnique(a, b, x, y, value);
    }
  }

  lemma {:induction false} RestUnique(a: seq<Json>, b: seq<Json>, x: string, y: string, value: string -> real)
    requires (forall i :: 0 <= i < |a| ==> Sound(a[i], value)) && (forall i :: 0 <= i < |b| ==> Sound(b[i], value))
    requires a != [] && b != [] && a[0] == b[0] && AfterFirst(a, x) == AfterFirst(b, y)
    ensures a == b && x == y
    decreases a, 1
  {
    assert AfterFirst(a, x)[0] == AfterFirst(b, y)[0];
    assert a == [a[0]] + a[1..] && b == [b[0]] + b[1..];
    if |a| == 1 {
      SameFront("]", x, y);
    } else {
      SameFront(",", PrintItems(a[1..]) + ("]" + x), PrintItems(b[1..]) + ("]" + y));
      ItemsUnique(a[1..], b[1..], x, y, value);
    }
  }

  // ── Objects ──────────────────────────────────────────────────────────

  lemma {:induction false} ObjectUnique(v: Json, w: Json, x: string, y: string, value: string -> real)
    requires v.Object? && w.Object? && Sound(v, value) && Sound(w, value)
    requires PrintJson(v) + x == PrintJson(w) + y
    ensures v == w && x == y
    decreases v, 1
  {
    var ks, ls := Sorted(v.fields.Keys), Sorted(w.fields.Keys);
    Glue("{", PrintFields(v, ks), "}", x);
    Glue("{", PrintFields(w, ls), "}", y);
    SameFront("{", PrintFields(v, ks) + ("}" + x), PrintFields(w, ls) + ("}" + y));
    FieldsUnique(v, w, ks, ls, x, y, value);
    SameFields(v.fields, w.fields, ks);
  }

  lemma SameFields(a: map<string, Json>, b: map<string, Json>, keys: seq<string>)
    requires (forall k :: k in keys <==> k in a) && (forall k :: k in keys <==> k in b)
    requires forall k :: k in keys ==> a[k] == b[k]
    ensures a == b
  {
  }

  /** What follows the first value of an object. */
  function AfterField(v: Json, keys: seq<string>, x: string): string
    requires v.Object? && keys != [] && forall k :: k in keys ==> k in v.fields
  {
    if |keys| == 1 then "}" + x else "," + (PrintFields(v, keys[1..]) + ("}" + x))
  }

  lemma Regroup2(a: string, b: string, c: string, d: string)
    ensures (a + b + c) + d == a + (b + (c + d))
  {
  }

  lemma FirstField(v: Json, keys: seq<string>, x: string)
    requires v.Object? && keys != [] && forall k :: k in keys ==> k in v.fields
    ensures PrintFields(v, keys) + ("}" + x) == Quoted(keys[0]) + (":" + (PrintJson(v.fields[keys[0]]) + AfterField(v, keys, x)))
  {
    var q, p := Quoted(keys[0]), PrintJson(v.fields[keys[0]]);
    Glue(q, ":", p, AfterField(v, keys, x));
    if |keys| > 1 { Regroup2(q + ":" + p, ",", PrintFields(v, keys[1..]), "}" + x); }
  }

  lemma {:induction false} FieldsUnique(v: Json, w: Json, ks: seq<string>, ls: seq<string>, x: string, y: string, value: string -> real)
    requires v.Object? && w.Object? && Sound(v, value) && Sound(w, value)
    requires (forall k :: k in ks ==> k in v.fields) && (forall k :: k in ls ==> k in w.fields)
    requires PrintFields(v, ks) + ("}" + x) == PrintFields(w, ls) + ("}" + y)
    ensures ks == ls && x == y && forall k :: k in ks ==> v.fields[k] == w.fields[k]
    decreases v, 0, |ks|, 1
  {
    Nothing("}" + x);
    Nothing("}" + y);
    if ks == [] && ls == [] {
      SameFront("}", x, y);
    } else if ks == [] {
      FirstField(w, ls, y);
      OtherLead("}", x, Quoted(ls[0]), ":" + (PrintJson(w.fields[ls[0]]) + AfterField(w, ls, y)));
    } else if ls == [] {
      FirstField(v, ks, x);
      OtherLead("}", y, Quoted(ks[0]), ":" + (PrintJson(v.fields[ks[0]]) + AfterField(v, ks, x)));
    } else {
      FirstField(v, ks, x);
      FirstField(w, ls, y);
      var p, q := PrintJson(v.fields[ks[0]]), PrintJson(w.fields[ls[0]]);
      QuotedUnique(ks[0], ls[0], ":" + (p + AfterField(v, ks, x)), ":" + (q + AfterField(w, ls, y)));
      SameFront(":", p + AfterField(v, ks, x), q + AfterField(w, ls, y));
      PrintUnique(v.fields[ks[0]], w.fields[ls[0]], AfterField(v, ks, x), AfterField(w, ls, y), value);
      FieldsRest(v, w, ks, ls, x, y, value);
    }
  }

  lemma {:induction false} FieldsRest(v: Json, w: Json, ks: seq<string>, ls: seq<string>, x: string, y: string, value: string -> real)
    requires v.Object? && w.Object? && Sound(v, value) && Sound(w, value) && ks != [] && ls != []
    requires (forall k :: k in ks ==> k in v.fields) && (forall k :: k in ls ==> k in w.fields)
    requires ks[0] == ls[0] && v.fields[ks[0]] == w.fields[ks[0]] && AfterField(v, ks, x) == AfterField(w, ls, y)
    ensures ks == ls && x == y && forall k :: k in ks ==> v.fields[k] == w.fields[k]
    decreases v, 0, |ks|, 0
  {
    assert AfterField(v, ks, x)[0] == AfterField(w, ls, y)[0];
    assert ks == [ks[0]] + ks[1..] && ls == [ls[0]] + ls[1..];
    if |ks| == 1 {
      SameFront("}", x, y);
    } else {
      SameFront(",", PrintFields(v, ks[1..]) + ("}" + x), PrintFields(w, ls[1..]) + ("}" + y));
      FieldsUnique(v, w, ks[1..], ls[1..], x, y, value);
    }
  }

  /** Values that print alike are equal. */
  lemma PrintInjective(v: Json, w: Json, value: string -> real)
    requires Sound(v, value) && Sound(w, value) && PrintJson(v) == PrintJson(w)
    ensures v == w
  {
    assert PrintJson(v) + "" == PrintJson(v) && PrintJson(w) + "" == PrintJson(w);
    PrintUnique(v, w, "", "", value);
  }

  /** What values print as. */
  lemma PrintSamples(a: Json, b: Json, s: string)
    ensures PrintJson(Null) == "null" && PrintJson(Bool(true)) == "true" && PrintJson(Bool(false)) == "false"
    ensures PrintJson(Array([])) == "[]" && PrintJson(Array([a, b])) == "[" + (PrintJson(a) + "," + PrintJson(b)) + "]"
    ensures TextOf(Str(s)) == s && (!a.Str? ==> TextOf(a) == PrintJson(a))
  {
    var items := [a, b];
    assert items[1..] == [b] && items[0] == a;
    assert PrintItems(items) == PrintJson(a) + "," + PrintItems(items[1..]);
    assert PrintItems([]) == "";
  }

  /** Quotes, backslashes and control characters are escaped, and no other character. */
  lemma EscapeSamples(c: char)
    ensures EscapeChar('"') == ['\\', '"'] && EscapeChar('\\') == ['\\', '\\']
    ensures EscapeChar('\n') == ['\\', 'n'] && EscapeChar('\r') == ['\\', 'r'] && EscapeChar('\t') == ['\\', 't']
    ensures EscapeChar(1 as char) == "\\u0001" && EscapeChar(31 as char) == "\\u001f"
    ensures c as int >= 32 && c != '"' && c != '\\' ==> EscapeChar(c) == [c]
  {
  }

  /** An object of one field prints as its quoted key and its value. */
  lemma PrintField(key: string, a: Json)
    ensures PrintJson(Object(map[key := a])) == "{" + (Quoted(key) + ":" + PrintJson(a)) + "}"
  {
    LoneKey(key);
    var v := Object(map[key := a]);
    assert v.fields.Keys == {key};
  }

  lemma LoneKey(key: string)
    ensures Sorted({key}) == [key]
  {
    FirstExists({key});
    assert forall k :: k in {key} ==> {key} - {k} == {};
    assert Sorted({}) == [];
  }
}
