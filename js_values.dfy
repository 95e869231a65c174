/**
 * The JavaScript values the pages receive from the server and read back:
 * `String()` coercion, truthiness and property access.
 */
module JsValues {
  /** A JavaScript value, as far as the pages read one: `String()` of the
      values this model does not single out is `shown`, and their
      truthiness `truthy`. */
  datatype JsValue =
    | Undefined
    | Null
    | Bool(b: bool)
    | Str(s: string)
    | Obj(fields: map<string, JsValue>)
    | Other(shown: string, truthy: bool)

  /** `String(v)`, which is also what `localStorage.setItem` stores. */
  function JsString(v: JsValue): (s: string)
    ensures v.Str? ==> s == v.s
    ensures v.Bool? ==> (s == "true" <==> v.b)
    ensures v.Bool? && !v.b ==> s == "false"
    ensures v.Undefined? ==> s == "undefined"
    ensures v.Null? ==> s == "null"
  {
    match v
    case Undefined => "undefined"
    case Null => "null"
    case Bool(b) => if b then "true" else "false"
    case Str(s) => s
    case Obj(_) => "[object Object]"
    case Other(shown, _) => shown
  }

  /** Truthiness, as `if (x)` and `||` test it. */
  predicate Truthy(v: JsValue): (r: bool)
    ensures v.Undefined? || v.Null? ==> !r
    ensures v.Obj? ==> r
    ensures v.Str? ==> (r <==> JsString(v) != "")
    ensures v.Bool? ==> (r <==> JsString(v) == "true")
  {
    match v
    case Undefined => false
    case Null => false
    case Bool(b) => b
    case Str(s) => s != ""
    case Obj(_) => true
    case Other(_, truthy) => truthy
  }

  /** `v.name` on a value that is neither `null` nor `undefined`, and
      `v?.name` on one that may be: an absent property is `undefined`. */
  function Property(v: JsValue, name: string): (r: JsValue)
    ensures !v.Obj? ==> r == Undefined
    ensures r != Undefined ==> v.Obj? && name in v.fields && r == v.fields[name]
  {
    if v.Obj? && name in v.fields then v.fields[name] else Undefined
  }

  /** Reading back a property just set gives the value set, and the other
      properties read as before. */
  lemma {:induction false} PropertyOfUpdate(fields: map<string, JsValue>, name: string, x: JsValue, other: string)
    requires other != name
    ensures Property(Obj(fields[name := x]), name) == x
    ensures Property(Obj(fields[name := x]), other) == Property(Obj(fields), other)
  {
  }
}
