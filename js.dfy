/** JavaScript values as they arrive in a parsed JSON request body, and the
    truthiness rule that the `a || b` operator applies to them. */
module Js {

  /** The JSON-shaped values a request body field can hold; `Undefined` stands
      for a field the body does not have. JSON numbers are modelled as reals. */
  datatype JsValue =
    | Undefined
    | Null
    | Bool(b: bool)
    | Num(n: real)
    | Str(s: string)
    | Arr(items: seq<JsValue>)

  /** JavaScript truthiness: `undefined`, `null`, `false`, `0` and `""` are
      falsy; every other value, every array included (even `[]`), is truthy. */
  predicate Truthy(v: JsValue) {
    match v
    case Undefined => false
    case Null => false
    case Bool(b) => b
    case Num(n) => n != 0.0
    case Str(s) => s != ""
    case Arr(_) => true
  }

  /** `a || b`: the left operand when it is truthy, the right one otherwise. */
  function Or(a: JsValue, b: JsValue): JsValue {
    if Truthy(a) then a else b
  }

  /** A parsed request body (`req.body`): field names to values. */
  type Body = map<string, JsValue>

  /** Reading `body.name`: absent fields read as `undefined`. */
  function Field(body: Body, name: string): JsValue {
    if name in body then body[name] else Undefined
  }

  lemma OrFalsyYieldsRight(a: JsValue, b: JsValue)
    requires a == Undefined || a == Null || a == Str("") || a == Num(0.0) || a == Bool(false)
    ensures Or(a, b) == b
  {
  }

  lemma OrArrayYieldsLeft(items: seq<JsValue>, b: JsValue)
    ensures Or(Arr(items), b) == Arr(items)
  {
  }
}
