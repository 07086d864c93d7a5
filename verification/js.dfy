/** JavaScript values, as far as the plugin inspects them: option values, package
    manifest fields and the `||` fallbacks applied to them. */
module Js {

  /** A value that may be absent (`undefined` in the plugin's JavaScript). */
  datatype Option<+T> = None | Some(value: T)

  /** The kinds of JavaScript value an option can hold. Every object, array or
      function is a `Ref`; numbers are restricted to integers. */
  datatype JsValue =
    | Undefined
    | Null
    | Bool(b: bool)
    | Num(n: int)
    | Str(s: string)
    | Ref(tag: string)

  /** JavaScript truthiness (ToBoolean) on the values above. */
  predicate Truthy(v: JsValue) {
    match v
    case Undefined => false
    case Null => false
    case Bool(b) => b
    case Num(n) => n != 0
    case Str(s) => s != ""
    case Ref(_) => true
  }

  /** `a || b` on JavaScript values: the left operand itself when it is truthy. */
  function Or(a: JsValue, b: JsValue): (r: JsValue)
    ensures Truthy(a) ==> r == a
    ensures !Truthy(a) ==> r == b
  {
    if Truthy(a) then a else b
  }

  /** `s || fallback` for an optional string field: a missing or empty string
      falls through to the fallback. */
  function StringOr(s: Option<string>, fallback: string): (r: string)
    ensures fallback != "" ==> r != ""
    ensures s.Some? && s.value != "" ==> r == s.value
    ensures s.None? || s.value == "" ==> r == fallback
  {
    match s
    case Some(v) => if v != "" then v else fallback
    case None => fallback
  }
}
