/** Untyped JSON values as `JSON.parse` produces them and as the code inspects them with
    optional chaining (`v?.key`), `typeof`, `Array.isArray` and truthiness.  Numbers are
    integers in this model. */
module JsonValues {
  import opened Wrappers

  datatype Json =
    | Null
    | Bool(b: bool)
    | Num(n: int)
    | Str(s: string)
    | Arr(elems: seq<Json>)
    | Obj(fields: map<string, Json>)

  /** `v?.key`: `None` is `undefined`, which is what every non-object value yields. */
  function Field(v: Json, key: string): (r: Option<Json>)
    ensures r.Some? <==> v.Obj? && key in v.fields
  {
    if v.Obj? && key in v.fields then Some(v.fields[key]) else None
  }

  /** JavaScript truthiness of a possibly `undefined` value. */
  predicate Truthy(v: Option<Json>) {
    match v
    case None => false
    case Some(Null) => false
    case Some(Bool(b)) => b
    case Some(Num(n)) => n != 0
    case Some(Str(s)) => s != ""
    case Some(Arr(_)) => true
    case Some(Obj(_)) => true
  }

  /** `typeof v === "string" ? v : ""`. */
  function StringOr(v: Option<Json>, default: string): string {
    if v.Some? && v.value.Str? then v.value.s else default
  }

  /** `Array.isArray(v) ? v : []`. */
  function ArrayOr(v: Option<Json>): seq<Json> {
    if v.Some? && v.value.Arr? then v.value.elems else []
  }
}
