/**
 * The JavaScript numbers that the assessment arithmetic produces.  Finite
 * values are modelled as mathematical reals (no rounding); the one IEEE
 * special value the engine can reach is NaN, from `0 / 0` over an empty
 * answer group and from `undefined * weight` when a WISCAR option index has
 * no entry in its scoring table.  Every operation propagates NaN, and every
 * comparison with NaN is false, as in JavaScript.
 */
module JsNumber {

  datatype Number = Finite(value: real) | NaN

  /** `x + y` */
  function Add(x: Number, y: Number): Number
  {
    if x.Finite? && y.Finite? then Finite(x.value + y.value) else NaN
  }

  /** `x * k` for a finite constant `k` */
  function Scale(x: Number, k: real): Number
  {
    if x.Finite? then Finite(x.value * k) else NaN
  }

  /** `x / d` for a non-zero constant `d` */
  function DivideBy(x: Number, d: real): Number
    requires d != 0.0
  {
    if x.Finite? then Finite(x.value / d) else NaN
  }

  /** `Math.min(bound, x)`: NaN if `x` is NaN */
  function Min(bound: real, x: Number): Number
  {
    if x.NaN? then NaN
    else if x.value <= bound then x
    else Finite(bound)
  }

  /** `x >= k`, false for NaN */
  predicate AtLeast(x: Number, k: real)
  {
    x.Finite? && x.value >= k
  }

  /** `x < k`, false for NaN */
  predicate Below(x: Number, k: real)
  {
    x.Finite? && x.value < k
  }

  /** Whether `Math.min(bound, _)` has been applied: NaN or at most `bound`. */
  predicate AtMost(x: Number, bound: real)
  {
    x.NaN? || x.value <= bound
  }

  lemma MinIsClamped(bound: real, x: Number)
    ensures AtMost(Min(bound, x), bound)
    ensures Min(bound, x).NaN? <==> x.NaN?
    ensures x.Finite? ==> Min(bound, x).value == if x.value <= bound then x.value else bound
  {
  }
}
