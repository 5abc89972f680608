/** The JSON values that cross the HTTP boundary and populate `meta` maps. */
module Json {
  import opened Wrappers

  /** A parsed JSON value. Numbers are integral in this model. */
  datatype Json =
    | Null
    | Bool(b: bool)
    | Number(n: int)
    | Str(s: string)
    | Array(items: seq<Json>)
    | Object(fields: map<string, Json>)

  /** An open `Record<string, unknown>` such as a cipher item's `meta`. */
  type Meta = map<string, Json>

  /**
   * `v.key` on a value that is not `null`: the field of an object, `undefined` (None) for a missing
   * field and for every other kind of value.
   */
  function Prop(v: Json, key: string): (r: Option<Json>)
    ensures r.Some? <==> v.Object? && key in v.fields
    ensures r.Some? ==> r.value == v.fields[key]
  {
    if v.Object? && key in v.fields then Some(v.fields[key]) else None
  }

  /** JavaScript truthiness of a possibly `undefined` value. */
  predicate Truthy(v: Option<Json>)
  {
    match v
    case None => false
    case Some(Null) => false
    case Some(Bool(b)) => b
    case Some(Number(n)) => n != 0
    case Some(Str(s)) => s != ""
    case Some(_) => true
  }

  /** The text of a value when it is a non-empty string, the only messages the pages display. */
  function MessageText(v: Option<Json>): (r: Option<string>)
    ensures r.Some? <==> v.Some? && v.value.Str? && v.value.s != ""
    ensures r.Some? ==> Truthy(v) && v == Some(Str(r.value))
  {
    if v.Some? && v.value.Str? && v.value.s != "" then Some(v.value.s) else None
  }
}
