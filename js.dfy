/**
 * The JavaScript values the device model handles: booleans, IEEE numbers
 * (with the real numbers standing for the finite ones), strings, `null` and
 * `undefined`, together with the coercions the source relies on (`isNaN`,
 * truthiness, `+ ''`, loose `==`) and the arithmetic of the unit conversions.
 *
 * Library behaviour that cannot be seen (`Number(s)`, `parseFloat`, how a
 * finite number is printed, and the `RegExp` engine) is a `Builtins` record
 * of functions supplied by the caller.
 */
module Js {
  import opened Wrappers

  datatype Number = Finite(x: real) | PosInf | NegInf | NaN

  datatype JsValue = Bool(b: bool) | Num(n: Number) | Str(s: string) | Null | Undefined

  /** A divider column: text, a number (on the recursive call) or missing. */
  datatype Divider = DivNum(n: Number) | DivStr(s: string) | DivNull | DivUndefined

  /** `new RegExp(p)` then `text.match(re)`: a syntax error, no match, or the match with its group 1. */
  datatype RegexOutcome = BadPattern(message: string) | NoMatch | Matched(group1: Option<string>)

  datatype Builtins = Builtins(
    toNumber: string -> Number,               // Number(s), as used by isNaN and ==
    parseFloat: string -> Number,             // parseFloat(s), a numeric prefix
    showFinite: real -> string,               // String(x) for a finite x
    regexMatch: (string, string) -> RegexOutcome  // (pattern, subject)
  )

  /** `Boolean(v)`. */
  predicate Truthy(v: JsValue) {
    match v
    case Bool(b) => b
    case Num(n) => !(n.NaN? || n == Finite(0.0))
    case Str(s) => s != ""
    case Null => false
    case Undefined => false
  }

  /** `Number(v)`. */
  function ToNumber(v: JsValue, env: Builtins): Number {
    match v
    case Bool(b) => Finite(if b then 1.0 else 0.0)
    case Num(n) => n
    case Str(s) => env.toNumber(s)
    case Null => Finite(0.0)
    case Undefined => NaN
  }

  /** The global `isNaN(v)`. */
  predicate IsNaN(v: JsValue, env: Builtins) {
    ToNumber(v, env).NaN?
  }

  function NumberText(n: Number, env: Builtins): string {
    match n
    case Finite(x) => env.showFinite(x)
    case PosInf => "Infinity"
    case NegInf => "-Infinity"
    case NaN => "NaN"
  }

  /** `v + ''`. */
  function ToText(v: JsValue, env: Builtins): string {
    match v
    case Bool(b) => if b then "true" else "false"
    case Num(n) => NumberText(n, env)
    case Str(s) => s
    case Null => "null"
    case Undefined => "undefined"
  }

  /** `parseFloat(v)`, which first turns `v` into text. */
  function ParseFloat(v: JsValue, env: Builtins): Number {
    match v
    case Num(n) => n
    case Str(s) => env.parseFloat(s)
    case _ => NaN
  }

  /** Numeric `==`: `NaN` equals nothing. */
  predicate NumEq(a: Number, b: Number) {
    !a.NaN? && a == b
  }

  /** Loose equality `a == b` between primitive values. */
  predicate LooseEq(a: JsValue, b: JsValue, env: Builtins) {
    if (a.Null? || a.Undefined?) || (b.Null? || b.Undefined?) then
      (a.Null? || a.Undefined?) && (b.Null? || b.Undefined?)
    else if a.Str? && b.Str? then a.s == b.s
    else if a.Bool? && b.Bool? then a.b == b.b
    else NumEq(ToNumber(a, env), ToNumber(b, env))
  }

  /** `a / b` in IEEE arithmetic (signed zeros are not distinguished). */
  function Div(a: Number, b: Number): Number {
    match (a, b)
    case (Finite(x), Finite(y)) =>
      if y != 0.0 then Finite(x / y)
      else if x > 0.0 then PosInf else if x < 0.0 then NegInf else NaN
    case (Finite(x), PosInf) => Finite(0.0)
    case (Finite(x), NegInf) => Finite(0.0)
    case (PosInf, Finite(y)) => if y >= 0.0 then PosInf else NegInf
    case (NegInf, Finite(y)) => if y >= 0.0 then NegInf else PosInf
    case _ => NaN
  }

  /** `(val - 32) * 5 / 9`: Fahrenheit to Celsius; infinities and NaN are kept. */
  function FahrenheitToCelsius(n: Number): Number {
    if n.Finite? then Finite((n.x - 32.0) * 5.0 / 9.0) else n
  }

  /** `val * 9 / 5 + 32`: Celsius to Fahrenheit; infinities and NaN are kept. */
  function CelsiusToFahrenheit(n: Number): Number {
    if n.Finite? then Finite(n.x * 9.0 / 5.0 + 32.0) else n
  }

  /** The two conversions undo each other over the reals. */
  lemma ConversionsInverse(n: Number)
    ensures CelsiusToFahrenheit(FahrenheitToCelsius(n)) == n
    ensures FahrenheitToCelsius(CelsiusToFahrenheit(n)) == n
  {
  }

  /** Whole cents of a non-negative amount, rounding half up. */
  function Cents(y: real): int {
    (y * 100.0 + 0.5).Floor
  }

  /** Rounding half away from zero to two decimals, as `toFixed(2)` does for a real. */
  function RoundCents(x: real): real {
    if x < 0.0 then -(Cents(-x) as real) / 100.0 else Cents(x) as real / 100.0
  }

  /** `+val.toFixed(2)`: `toFixed` prints numbers of magnitude 1e21 or more unrounded. */
  function ToFixed2(n: Number): Number {
    if n.Finite? && -1000000000000000000000.0 < n.x < 1000000000000000000000.0
    then Finite(RoundCents(n.x)) else n
  }

  lemma CentsBounds(y: real)
    ensures -0.005 <= Cents(y) as real / 100.0 - y <= 0.005
  {
    var k := Cents(y);
    assert k as real <= y * 100.0 + 0.5 < k as real + 1.0;
  }

  /** A rounded value has whole cents and lies within half a cent of the input. */
  lemma RoundCentsSpec(x: real)
    ensures var r := RoundCents(x);
      && (r * 100.0).Floor as real == r * 100.0
      && -0.005 <= r - x <= 0.005
  {
    var k := if x < 0.0 then -Cents(-x) else Cents(x);
    if x < 0.0 { CentsBounds(-x); } else { CentsBounds(x); }
    assert RoundCents(x) == k as real / 100.0;
    assert RoundCents(x) * 100.0 == k as real;
    assert (k as real).Floor == k;
  }
}
