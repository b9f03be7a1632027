/** JSON values as JavaScript sees them after `JSON.parse`, with the few
    pieces of JavaScript semantics the extension relies on: property reads,
    optional chaining (`?.`), truthiness and `||` defaults. */
module JsonValue {
  import opened Optional

  /** The outcome of a JavaScript call that may raise a TypeError
      (reading a property of `null`, `in` on a primitive, calling a
      non-function). */
  datatype Eval<+T> = Returns(value: T) | Throws

  /** Numbers are whole numbers here; fractional numbers and NaN are not modelled. */
  datatype Json =
    | JNull
    | JBool(b: bool)
    | JNum(n: int)
    | JStr(s: string)
    | JArr(items: seq<Json>)
    | JObj(fields: map<string, Json>)

  /** `v.key` on a value that is not null: own fields of an object, and the
      `length` of arrays and strings; every other read gives `undefined`. */
  function Prop(v: Json, key: string): (r: Option<Json>)
    ensures v.JObj? ==> (r.Some? <==> key in v.fields)
    ensures v.JObj? && key in v.fields ==> r == Some(v.fields[key])
    ensures v.JNull? || v.JBool? || v.JNum? ==> r.None?
  {
    match v
    case JObj(m) => if key in m then Some(m[key]) else None
    case JArr(xs) => if key == "length" then Some(JNum(|xs|)) else None
    case JStr(s) => if key == "length" then Some(JNum(|s|)) else None
    case _ => None
  }

  /** `v?.key`: undefined when `v` is null or undefined. */
  function OptProp(v: Option<Json>, key: string): (r: Option<Json>)
    ensures (v.None? || v == Some(JNull)) ==> r.None?
    ensures v.Some? && !v.value.JNull? ==> r == Prop(v.value, key)
  {
    match v
    case None => None
    case Some(JNull) => None
    case Some(x) => Prop(x, key)
  }

  /** JavaScript truthiness of a possibly undefined value. */
  predicate Truthy(v: Option<Json>) {
    match v
    case None => false
    case Some(JNull) => false
    case Some(JBool(b)) => b
    case Some(JNum(n)) => n != 0
    case Some(JStr(s)) => s != ""
    case Some(JArr(_)) => true
    case Some(JObj(_)) => true
  }

  /** `a || b` where `b` is a value that is always present. */
  function OrElse(a: Option<Json>, b: Json): (r: Json)
    ensures Truthy(a) ==> r == a.value
    ensures !Truthy(a) ==> r == b
  {
    if Truthy(a) then a.value else b
  }

  /** `typeof v === "string"` together with its value. */
  function AsString(v: Option<Json>): (r: Option<string>)
    ensures r.Some? <==> (v.Some? && v.value.JStr?)
    ensures r.Some? ==> v.value == JStr(r.value)
  {
    match v
    case Some(JStr(s)) => Some(s)
    case _ => None
  }

  /** `"key" in v` for a value that is a container; the operator throws on primitives. */
  predicate HasKey(v: Json, key: string) {
    v.JObj? && key in v.fields
  }
}
