/**
 * Request-body values as JavaScript sees them after `request.json()`, with
 * the truthiness, `??` and `Number(...)` conversions the routes apply.
 */
module JsValues {
  import opened Wrappers

  datatype JsValue =
    | Undefined
    | Null
    | Bool(b: bool)
    | Num(n: real)
    | Str(s: string)
    | Arr(items: seq<JsValue>)
    | Obj

  /** JavaScript truthiness; `!v` is its negation. */
  predicate Truthy(v: JsValue) {
    match v
    case Undefined => false
    case Null => false
    case Bool(b) => b
    case Num(n) => n != 0.0
    case Str(s) => s != ""
    case _ => true
  }

  predicate Nullish(v: JsValue) {
    v.Undefined? || v.Null?
  }

  /** `v ?? null`. */
  function OrNull(v: JsValue): (r: JsValue)
    ensures r.Null? <==> Nullish(v)
    ensures !Nullish(v) ==> r == v
  {
    if Nullish(v) then Null else v
  }

  /** `Number(v)`, with `None` standing for NaN; strings are read by `parse`. */
  function ToNumber(v: JsValue, parse: string -> Option<real>): (r: Option<real>)
    ensures v.Num? ==> r == Some(v.n)
    ensures v.Str? ==> r == parse(v.s)
    ensures v.Undefined? || v.Obj? ==> r.None?
  {
    match v
    case Undefined => None
    case Null => Some(0.0)
    case Bool(b) => Some(if b then 1.0 else 0.0)
    case Num(n) => Some(n)
    case Str(s) => parse(s)
    case Arr(items) => if items == [] then Some(0.0) else None
    case Obj => None
  }
}
