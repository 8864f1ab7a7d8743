/**
 JSON values. A number is its value and the text it prints as: order comparisons read the value, and
 equality tells `1` from `1.0`.
 */
module JsonValues {
  import opened Wrappers
  import opened Text

  datatype Json =
    | Null
    | Bool(b: bool)
    | Number(n: real, text: string)
    | Str(s: string)
    | Array(items: seq<Json>)
    | Object(fields: map<string, Json>)

  /** `value.get(key)` for a string key: only objects have fields. */
  function Field(v: Json, key: string): Option<Json> {
    if v.Object? && key in v.fields then Some(v.fields[key]) else None
  }

  /** `value.get(index)` for a number: only arrays have elements. */
  function Element(v: Json, index: nat): Option<Json> {
    if v.Array? && index < |v.items| then Some(v.items[index]) else None
  }

  /** A count as a number. */
  function Counted(k: nat): Json { Number(k as real, Decimal(k)) }

  /** One step into a value. */
  datatype Selector = Key(name: string) | Index(index: nat)

  /** The value at a path of keys and indices. */
  function Reach(v: Json, path: seq<Selector>): Option<Json> {
    if path == [] then Some(v)
    else
      var next := match path[0] case Key(name) => Field(v, name) case Index(i) => Element(v, i);
      if next.Some? then Reach(next.value, path[1..]) else None
  }
}
