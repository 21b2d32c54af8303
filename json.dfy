/**
  The untyped JSON value that the envelope's `d` field carries (serde_json's `Value`),
  and the one operation the dispatch performs on it: indexing by a key.
*/
module Json {

  /** A JSON value. Numbers are kept as integers; an object maps each key to one value. */
  datatype Value =
    | Null
    | Bool(b: bool)
    | Number(n: int)
    | Str(s: string)
    | Array(items: seq<Value>)
    | Object(fields: map<string, Value>)

  /**
    `v[key]`: the member stored under `key`, or Null whenever there is none. A value that
    is not an object, an object without the key and an object holding an explicit null
    under the key all give Null, so a caller that compares the result with Null cannot
    tell these three apart.
  */
  function Get(v: Value, key: string): (r: Value)
    ensures r == Null <==> !v.Object? || key !in v.fields || v.fields[key] == Null
    ensures r != Null ==> v.Object? && key in v.fields && r == v.fields[key]
  {
    match v
    case Object(fields) => if key in fields then fields[key] else Null
    case _ => Null
  }
}
