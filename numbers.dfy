/** JavaScript numbers as the calculator uses them: exact real arithmetic for the
    finite values, plus explicit cases for the non-finite results that a division
    by zero produces. */
module JsNumber {

  /** A JS number value: finite (modelled exactly as a real) or one of the
      three IEEE-754 non-finite values. */
  datatype Num = Real(v: real) | PosInf | NegInf | NaN {

    predicate IsFinite() { Real? }
  }

  /** `a / b` in JavaScript. A zero denominator is +0 wherever the calculator
      divides (a difference `x - x` is +0 in IEEE arithmetic), so the sign of the
      numerator decides the infinity, and 0 / 0 is NaN. */
  function Div(a: real, b: real): (r: Num)
    ensures r.IsFinite() <==> b != 0.0
    ensures b != 0.0 ==> r.v == a / b
    ensures b == 0.0 ==> (r == PosInf <==> a > 0.0) && (r == NegInf <==> a < 0.0) && (r == NaN <==> a == 0.0)
  {
    if b != 0.0 then Real(a / b)
    else if a > 0.0 then PosInf
    else if a < 0.0 then NegInf
    else NaN
  }

  /** `n * k` for a positive constant `k`: finite values scale, the rest keep their kind. */
  function Scale(n: Num, k: real): (r: Num)
    requires k > 0.0
    ensures r.IsFinite() <==> n.IsFinite()
    ensures n.IsFinite() ==> r.v == n.v * k
    ensures !n.IsFinite() ==> r == n
  {
    match n
    case Real(x) => Real(x * k)
    case _ => n
  }

  /** `n / k` for a positive constant `k`. */
  function DivBy(n: Num, k: real): (r: Num)
    requires k > 0.0
    ensures r.IsFinite() <==> n.IsFinite()
    ensures n.IsFinite() ==> r.v * k == n.v
    ensures !n.IsFinite() ==> r == n
  {
    match n
    case Real(x) => Real(x / k)
    case _ => n
  }

  /** `Math.max(n, 0)`: NaN stays NaN, -Infinity becomes 0, +Infinity stays. */
  function MaxZero(n: Num): (r: Num)
    ensures r == NaN <==> n == NaN
    ensures r == PosInf <==> n == PosInf
    ensures r != NegInf
    ensures r.Real? ==> r.v >= 0.0
    ensures n.Real? && n.v >= 0.0 ==> r == n
    ensures (n.Real? && n.v < 0.0) || n == NegInf ==> r == Real(0.0)
  {
    match n
    case Real(x) => Real(if x > 0.0 then x else 0.0)
    case NegInf => Real(0.0)
    case _ => n
  }

  /** `n < k` for a finite `k`: false for NaN and +Infinity, true for -Infinity. */
  predicate LessThan(n: Num, k: real)
    ensures (n == NaN || n == PosInf) ==> !LessThan(n, k)
    ensures n == NegInf ==> LessThan(n, k)
  {
    match n
    case Real(x) => x < k
    case NegInf => true
    case _ => false
  }

  /** `Math.min(x, cap)` on finite values. */
  function Min(x: real, cap: real): (r: real)
    ensures r <= x && r <= cap
    ensures r == x || r == cap
  {
    if x < cap then x else cap
  }

  /** `Math.round(x)`: the nearest integer, halves rounded up. */
  function Round(x: real): (r: int)
    ensures r as real - 0.5 <= x < r as real + 0.5
  {
    (x + 0.5).Floor
  }

  /** The integer closest to `x` is unique: any integer within half a unit below
      and strictly less than half a unit above is `Round(x)`. */
  lemma RoundUnique(x: real, n: int)
    requires n as real - 0.5 <= x < n as real + 0.5
    ensures Round(x) == n
  {
  }
}
