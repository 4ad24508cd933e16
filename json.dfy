/** The JavaScript values that arrive from parsed JSON. Numbers are
    integers here; `None` of an `Option<Json>` is a missing member
    (`undefined`). */
module JsValues {
  import opened Wrappers

  datatype Json =
    | Null
    | Bool(b: bool)
    | Num(n: int)
    | Str(s: string)
    | Arr(items: seq<Json>)
    | Obj(fields: map<string, Json>)

  /** JavaScript truthiness: `null`, `false`, `0` and `""` are falsy. */
  predicate Truthy(j: Json) {
    match j
    case Null => false
    case Bool(b) => b
    case Num(n) => n != 0
    case Str(s) => s != ""
    case Arr(_) => true
    case Obj(_) => true
  }

  /** Truthiness of a member that may be missing (`undefined` is falsy). */
  predicate Present(o: Option<Json>) {
    o.Some? && Truthy(o.value)
  }

  /** `j[key]` on a value that is not `null`: an object's own member, and
      `undefined` on every other kind of value. Reading a member of `null`
      throws, so callers decide that case first. */
  function Member(j: Json, key: string): (r: Option<Json>)
    requires !j.Null?
    ensures r.Some? <==> j.Obj? && key in j.fields
  {
    if j.Obj? && key in j.fields then Some(j.fields[key]) else None
  }
}
