// Shared vocabulary of the route models: optional values, HTTP replies and
// the JavaScript values that arrive in request bodies.

module Wrappers {
  datatype Option<+T> = None | Some(value: T)
}

module Http {
  const OK := 200
  const CREATED := 201
  const BAD_REQUEST := 400
  const UNAUTHORIZED := 401
  const FORBIDDEN := 403
  const NOT_FOUND := 404
  const SERVER_ERROR := 500

  /** What a route handler ends with: a response with a status code, or an
      exception thrown inside a driver or file-system callback, where no
      try/catch of the handler can reach it. */
  datatype Reply = Status(code: int) | Uncaught
}

/** The values a JSON or multipart request body can carry, and the parts of
    JavaScript's semantics the handlers rely on: truthiness, `||`,
    destructuring defaults and `typeof`. */
module JsValues {
  import opened Wrappers

  datatype JsValue =
    | Undefined
    | Null
    | Bool(b: bool)
    | Num(n: real)
    | Str(s: string)
    | Arr(elems: seq<JsValue>)
    | Obj(fields: map<string, JsValue>)

  /** `!v` is true exactly for undefined, null, false, 0 and "". */
  predicate Falsy(v: JsValue) {
    v.Undefined? || v.Null? || v == Bool(false) || v == Num(0.0) || v == Str("")
  }

  predicate Truthy(v: JsValue) {
    !Falsy(v)
  }

  /** `a || b` */
  function Or(a: JsValue, b: JsValue): (r: JsValue)
    ensures Truthy(a) ==> r == a
    ensures Falsy(a) ==> r == b
  {
    if Truthy(a) then a else b
  }

  /** A destructuring default `{ x = d } = body` replaces only undefined. */
  function DefaultIfUndefined(v: JsValue, d: JsValue): (r: JsValue)
    ensures v.Undefined? ==> r == d
    ensures !v.Undefined? ==> r == v
  {
    if v.Undefined? then d else v
  }

  /** undefined or null: the values whose properties cannot be read. */
  predicate Nullish(v: JsValue) {
    v.Undefined? || v.Null?
  }

  /** `v.key`: reading a property of undefined or null throws a TypeError
      (None); a primitive or an object without the key yields undefined. */
  function Get(v: JsValue, key: string): (r: Option<JsValue>)
    ensures r.None? <==> Nullish(v)
    ensures v.Obj? && key in v.fields ==> r == Some(v.fields[key])
    ensures v.Obj? && key !in v.fields ==> r == Some(Undefined)
    ensures v.Bool? || v.Num? || v.Str? || v.Arr? ==> r == Some(Undefined)
  {
    match v
    case Undefined => None
    case Null => None
    case Obj(f) => Some(if key in f then f[key] else Undefined)
    case _ => Some(Undefined)
  }

  /** `typeof v === 'number'` (NaN and the infinities are not modelled). */
  predicate IsNumber(v: JsValue) {
    v.Num?
  }

  /** `s.endsWith(suffix)` */
  predicate EndsWith(s: string, suffix: string) {
    |suffix| <= |s| && s[|s| - |suffix|..] == suffix
  }

  function DigitValue(c: char): (d: nat)
    requires '0' <= c <= '9'
    ensures d < 10
  {
    (c as int) - ('0' as int)
  }

  predicate AllDigits(s: string) {
    forall i :: 0 <= i < |s| ==> '0' <= s[i] <= '9'
  }

  /** The value of a decimal digit string, most significant digit first. */
  function DecimalValue(s: string): (n: nat)
    requires AllDigits(s)
  {
    if s == [] then 0 else 10 * DecimalValue(s[..|s| - 1]) + DigitValue(s[|s| - 1])
  }

  /** The integer primary key a value from a request body names when it is
      compared with an integer id column: an integral number, or a string
      of decimal digits. Anything else names no row. */
  function KeyOf(v: JsValue): (k: Option<int>)
    ensures v.Num? ==> (k.Some? <==> v.n == v.n.Floor as real)
    ensures k.Some? && v.Num? ==> k.value as real == v.n
    ensures v.Undefined? || v.Null? || v.Bool? || v.Arr? || v.Obj? ==> k.None?
    ensures v == Str("") ==> k.None?
  {
    match v
    case Num(n) => if n == n.Floor as real then Some(n.Floor) else None
    case Str(s) => if s != [] && AllDigits(s) then Some(DecimalValue(s)) else None
    case _ => None
  }
}
