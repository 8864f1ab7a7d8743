/** How a JSON value prints: compact, with the keys of an object in order. */
module JsonText {
  import opened Wrappers
  import opened JsonValues

  // ── The order of keys ────────────────────────────────────────────────

  predicate AtMost(a: string, b: string) {
    a == "" || (b != "" && (a[0] < b[0] || (a[0] == b[0] && AtMost(a[1..], b[1..]))))
  }

  lemma {:induction false} AtMostTotal(a: string, b: string)
    ensures AtMost(a, b) || AtMost(b, a)
  {
    if a == "" || b == "" {
    } else {
      AtMostTotal(a[1..], b[1..]);
    }
  }

  lemma {:induction false} AtMostAntisymmetric(a: string, b: string)
    requires AtMost(a, b) && AtMost(b, a)
    ensures a == b
  {
    if a == "" || b == "" {
    } else {
      AtMostAntisymmetric(a[1..], b[1..]);
      assert a == [a[0]] + a[1..] && b == [b[0]] + b[1..];
    }
  }

  lemma {:induction false} AtMostTransitive(a: string, b: string, c: string)
    requires AtMost(a, b) && AtMost(b, c)
    ensures AtMost(a, c)
  {
    if a == "" {
    } else if a[0] == b[0] == c[0] {
      AtMostTransitive(a[1..], b[1..], c[1..]);
    }
  }

  predicate IsFirst(keys: set<string>, key: string) { key in keys && forall k :: k in keys ==> AtMost(key, k) }

  lemma {:induction false} FirstExists(keys: set<string>)
    requires keys != {}
    ensures exists key :: IsFirst(keys, key)
  {
    var one :| one in keys;
    var others := keys - {one};
    if others == {} {
      AtMostTotal(one, one);
      assert keys == {one};
      assert IsFirst(keys, one);
    } else {
      FirstExists(others);
      var first :| IsFirst(others, first);
      AtMostTotal(one, first);
      AtMostTotal(one, one);
      var least := if AtMost(one, first) then one else first;
      forall k | k in keys ensures AtMost(least, k) {
        if k != one && least == one { AtMostTransitive(one, first, k); }
      }
      assert IsFirst(keys, least);
    }
  }

  lemma FirstUnique(keys: set<string>)
    ensures forall a, b :: IsFirst(keys, a) && IsFirst(keys, b) ==> a == b
  {
    forall a, b | IsFirst(keys, a) && IsFirst(keys, b) ensures a == b { AtMostAntisymmetric(a, b); }
  }

  /** The keys, each once, in order. */
  function Sorted(keys: set<string>): (r: seq<string>)
    ensures forall k :: k in r <==> k in keys
    ensures forall i, j :: 0 <= i < j < |r| ==> r[i] != r[j] && AtMost(r[i], r[j])
  {
    if keys == {} then []
    else
      FirstExists(keys);
      FirstUnique(keys);
      var first :| first in keys && IsFirst(keys, first);
      [first] + Sorted(keys - {first})
  }

  // ── Texts ────────────────────────────────────────────────────────────

  function HexDigit(d: nat): char
    requires d < 16
  {
    "0123456789abcdef"[d]
  }

  function EscapeChar(c: char): string {
    if c == '"' then "\\\""
    else if c == '\\' then "\\\\"
    else if c == '\n' then "\\n"
    else if c == '\r' then "\\r"
    else if c == '\t' then "\\t"
    else if c as int == 8 then "\\b"
    else if c as int == 12 then "\\f"
    else if c as int < 32 then "\\u00" + [HexDigit(c as int / 16), HexDigit(c as int % 16)]
    else [c]
  }

  function Escape(s: string): string { if s == "" then "" else EscapeChar(s[0]) + Escape(s[1..]) }

  function Quoted(s: string): string { "\"" + Escape(s) + "\"" }

  // ── Values ───────────────────────────────────────────────────────────

  function PrintJson(v: Json): string
    decreases v, 0
  {
    match v
    case Null => "null"
    case Bool(b) => if b then "true" else "false"
    case Number(_, text) => text
    case Str(s) => Quoted(s)
    case Array(items) => "[" + PrintItems(items) + "]"
    case Object(fields) => "{" + PrintFields(v, Sorted(fields.Keys)) + "}"
  }

  function PrintItems(items: seq<Json>): string
    decreases items, 1
  {
    if items == [] then ""
    else if |items| == 1 then PrintJson(items[0])
    else PrintJson(items[0]) + "," + PrintItems(items[1..])
  }

  function PrintFields(v: Json, keys: seq<string>): string
    requires v.Object? && forall k :: k in keys ==> k in v.fields
    decreases v, 0, |keys|
  {
    if keys == [] then ""
    else
      var first := Quoted(keys[0]) + ":" + PrintJson(v.fields[keys[0]]);
      if |keys| == 1 then first else first + "," + PrintFields(v, keys[1..])
  }

  /** How a value is written into a text: texts as they are, everything else printed. */
  function TextOf(v: Json): string { if v.Str? then v.s else PrintJson(v) }
}
