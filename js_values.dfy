/** JavaScript values as the handlers observe them: fields of a parsed JSON request body,
    columns of an SQLite row, arguments of a service call.

    A Number is carried by the text that Number::toString gives it (ECMA-262, section
    6.1.6.1.20). The handlers only test numbers for truthiness, compare them with `===`
    against literals, and interpolate them into strings, and all three are determined by
    that text: the Numbers that are falsy (+0, -0 and NaN) are exactly those whose text is
    "0" or "NaN". Floating-point arithmetic is not part of the model. */
module JsValues {

  import opened Wrappers

  datatype Val = Undefined | Null | Bool(b: bool) | Num(text: string) | Str(s: string)

  /** ToBoolean (ECMA-262, section 7.1.2). */
  predicate Truthy(v: Val) {
    match v
    case Undefined => false
    case Null => false
    case Bool(b) => b
    case Num(t) => t != "0" && t != "NaN"
    case Str(s) => s != ""
  }

  /** The expression `a || b`: the left operand when it is truthy, otherwise the right. */
  function Or(a: Val, b: Val): Val {
    if Truthy(a) then a else b
  }

  /** The expression `v || null`, used by the handlers for every optional column. */
  function OrNull(v: Val): (r: Val)
    ensures Truthy(r) <==> Truthy(v)
    ensures Truthy(v) ==> r == v
    ensures !Truthy(v) ==> r.Null?
  {
    Or(v, Null)
  }

  /** The expression `a === b` (ECMA-262, section 7.2.16). NaN is the one value
      that is not strictly equal to itself; +0 and -0 share the text "0". */
  predicate StrictEquals(a: Val, b: Val) {
    match (a, b)
    case (Num(x), Num(y)) => x == y && x != "NaN"
    case _ => a == b
  }

  /** String(v), which is also what a template literal `${v}` produces. */
  function ToJsString(v: Val): string {
    match v
    case Undefined => "undefined"
    case Null => "null"
    case Bool(b) => if b then "true" else "false"
    case Num(t) => t
    case Str(s) => s
  }

  /** An environment variable read as `process.env.X || fallback`: unset and empty
      both select the fallback. */
  function EnvOr(env: Option<string>, fallback: string): (r: string)
    ensures env.Some? && env.value != "" ==> r == env.value
    ensures env.None? || env.value == "" ==> r == fallback
  {
    if env.Some? && env.value != "" then env.value else fallback
  }

  /** An environment variable interpolated into a template literal. */
  function EnvText(env: Option<string>): string {
    if env.Some? then env.value else "undefined"
  }

  /** Whether `process.env.X` is truthy. */
  predicate EnvSet(env: Option<string>) {
    env.Some? && env.value != ""
  }
}
