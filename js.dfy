/**
 * JavaScript values as the upload parser and the pages see them: spreadsheet cells, fields of
 * records and the values stored for posts.
 */
module Js {
  import opened Text

  datatype Option<T> = None | Some(value: T) {
    function GetOr(default: T): T {
      if Some? then value else default
    }
  }

  /**
   * A JavaScript value. `null` and `undefined` are both `Nil`: the code
   * modelled here mostly tests them with `== null`, `??` and truthiness,
   * which do not tell them apart; the one `===` between possibly missing
   * values, on post ids, is read as `Nil == Nil` all the same. A
   * `Date` carries its time value and the text `String(date)` gives for it,
   * which depends on the host's time zone and is taken as given.
   */
  datatype Value =
    | Nil
    | Bool(b: bool)
    | Num(x: real)
    | Big(n: int)
    | Str(s: string)
    | DateObj(ms: int, text: string)

  /** JavaScript truthiness. */
  predicate Truthy(v: Value) {
    match v
    case Nil => false
    case Bool(b) => b
    case Num(x) => x != 0.0
    case Big(n) => n != 0
    case Str(s) => s != ""
    case DateObj(_, _) => true
  }

  /** `a || b`. */
  function Or(a: Value, b: Value): (r: Value)
    ensures Truthy(a) ==> r == a
    ensures !Truthy(a) ==> r == b
  {
    if Truthy(a) then a else b
  }

  /** `a ?? b`. */
  function Coalesce(a: Value, b: Value): (r: Value)
    ensures r == if a.Nil? then b else a
  {
    if a.Nil? then b else a
  }

  function IntToString(n: int): (s: string)
    ensures |s| > 0
  {
    if n < 0 then "-" + NatToString(-n) else NatToString(n)
  }

  /** Truncation toward zero (`Math.trunc`). */
  function Trunc(x: real): (t: int)
    ensures x >= 0.0 ==> t == x.Floor
    ensures x < 0.0 ==> t == -((-x).Floor)
    ensures (t as real) <= x < (t as real) + 1.0 || (t as real) - 1.0 < x <= t as real
  {
    if x >= 0.0 then x.Floor else -((-x).Floor)
  }

  /** Up to `n` decimal digits of a fraction in [0, 1), stopping once the rest is zero. */
  function FractionDigits(f: real, n: nat): (s: string)
    requires 0.0 <= f < 1.0
    ensures AllDigits(s)
    decreases n
  {
    if n == 0 || f == 0.0 then ""
    else
      var d := (f * 10.0).Floor;
      [DigitChar(d)] + FractionDigits(f * 10.0 - d as real, n - 1)
  }

  /**
   * `String(x)` for a number: exact for integers and for fractions with at
   * most 20 decimal digits. JavaScript's exponent forms (beyond 1e21 and
   * below 1e-6) are not produced.
   */
  function NumberToString(x: real): (s: string)
    ensures |s| > 0
  {
    if x == x.Floor as real then IntToString(x.Floor)
    else
      var a := if x < 0.0 then -x else x;
      (if x < 0.0 then "-" else "") + NatToString(a.Floor) + "." + FractionDigits(a - a.Floor as real, 20)
  }

  /** `String(v)`. */
  function ToJsString(v: Value): string {
    match v
    case Nil => "undefined"
    case Bool(b) => if b then "true" else "false"
    case Num(x) => NumberToString(x)
    case Big(n) => IntToString(n)
    case Str(s) => s
    case DateObj(_, text) => text
  }

  /**
   * `v || 0` for a stored numeric field. The stored posts hold numbers or
   * null in these fields; any other value reads as 0.
   */
  function NumOrZero(v: Value): (r: real)
    ensures v.Num? ==> r == v.x
    ensures !v.Num? ==> r == 0.0
  {
    if v.Num? then v.x else 0.0
  }

  /** `v ?? null` for a stored numeric field (numbers or null, as above). */
  function NumOrNull(v: Value): (r: Option<real>)
    ensures r.Some? <==> v.Num?
    ensures r.Some? ==> r.value == v.x
  {
    if v.Num? then Some(v.x) else None
  }

  /** `Math.abs`. */
  function Abs(x: real): real {
    if x < 0.0 then -x else x
  }

  /** `Math.min` of two numbers. */
  function Min(x: real, y: real): real {
    if x <= y then x else y
  }

  /** `Math.max` of two numbers. */
  function Max(x: real, y: real): real {
    if x >= y then x else y
  }
}
