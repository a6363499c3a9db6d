/** The JavaScript values that reach the calendar from the server: the
    scalars a record's field can hold, the elements of a response array,
    a response body and the outcome of one HTTP request. */
module JsValue {
  import opened Wrappers
  import opened Text

  /** A field value: `undefined` (also a missing key), `null`, an integral
      number or a string. */
  datatype Scalar = Undefined | Null | Num(n: int) | Str(s: string)

  /** An element of a response array: a plain object, or a bare scalar. */
  datatype Element = Record(fields: map<string, Scalar>) | Primitive(v: Scalar)

  /** `res.data`: either an array or some other JSON value. */
  datatype Body = ArrayBody(elems: seq<Element>) | OtherBody

  /** The outcome of one request: a 2xx reply with its body, or a rejected
      promise carrying the message the UI shows (`e.response?.data?.error`
      or else `e.message`). */
  datatype Response = Ok(body: Body) | Failed(message: string)

  /** Neither `undefined` nor `null`: what `??` and `getField` test. */
  predicate Present(v: Scalar) {
    !v.Undefined? && !v.Null?
  }

  /** JavaScript truthiness. */
  predicate Truthy(v: Scalar) {
    match v
    case Undefined => false
    case Null => false
    case Num(n) => n != 0
    case Str(s) => s != ""
  }

  /** `String(v)`. */
  function ToJsString(v: Scalar): string {
    match v
    case Undefined => "undefined"
    case Null => "null"
    case Num(n) => Decimal(n)
    case Str(s) => s
  }

  /** `a || b`: the left operand when it is truthy, else the right one. */
  function Or(a: Scalar, b: Scalar): Scalar {
    if Truthy(a) then a else b
  }

  /** `a ?? b`. */
  function Coalesce(a: Scalar, b: Scalar): Scalar {
    if Present(a) then a else b
  }

  /** Property access `e[k]`: a key an object lacks, and any key of a
      scalar, reads as `undefined`. */
  function Prop(e: Element, k: string): Scalar {
    match e
    case Record(fields) => if k in fields then fields[k] else Undefined
    case Primitive(_) => Undefined
  }

  /** Reading a property of `e` does not throw (it does for `null` and
      `undefined`). */
  predicate PropertyReadable(e: Element) {
    e.Record? || Present(e.v)
  }

  /** `Number(v)`; None stands for NaN. `undefined` is NaN, `null` is 0, a
      number is itself and reads back from its own decimal string, and a
      string is parsed. */
  function NumberOf(v: Scalar): (r: Option<int>)
    ensures v.Undefined? ==> r.None?
    ensures v.Null? ==> r == Some(0)
    ensures v.Num? ==> r == Some(v.n) && ParseNumber(ToJsString(v)) == r
    ensures v.Str? ==> r == ParseNumber(v.s)
  {
    match v
    case Undefined => None
    case Null => Some(0)
    case Num(n) => ParseNumberOfDecimal(n); Some(n)
    case Str(s) => ParseNumber(s)
  }

  /** `Number(v) || 0`: NaN, and every zero, become 0; any other number is
      kept. */
  function NumberOrZero(v: Scalar): (r: int)
    ensures r == (if NumberOf(v).Some? && Truthy(Num(NumberOf(v).value)) then NumberOf(v).value else 0)
  {
    match NumberOf(v)
    case None => 0
    case Some(n) => n
  }
}
