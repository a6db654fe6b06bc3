/**
 * The JavaScript values a JSON request body can hold, and JavaScript's
 * truthiness test, which the service uses for every `!field` and `x || d`.
 * Numbers are integers here (NaN and fractions are not modelled).
 */
module Js {
  datatype JsValue = Undefined | Null | Bool(b: bool) | Num(n: int) | Str(s: string) | Obj

  /** `!!v`: false for undefined, null, false, 0 and the empty string. */
  predicate Truthy(v: JsValue)
  {
    match v
    case Undefined => false
    case Null => false
    case Bool(b) => b
    case Num(n) => n != 0
    case Str(s) => s != ""
    case Obj => true
  }

  /** `v || d`: the first operand when it is truthy, the second otherwise. */
  function Or(v: JsValue, d: JsValue): (r: JsValue)
    ensures Truthy(d) ==> Truthy(r)
    ensures r == v || r == d
    ensures Truthy(v) <==> r == v && Truthy(r)
    ensures !Truthy(v) ==> r == d
  {
    if Truthy(v) then v else d
  }
}
