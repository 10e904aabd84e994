/** The few JavaScript number semantics needed to read a property that an
    object does not have: the read gives `undefined`, arithmetic on it gives
    `NaN`, and every ordering comparison with either is false. */
module JsNum {

  datatype Num = Finite(v: real) | Undefined | NaN

  /** `a + k` for a number `k`. */
  function Plus(a: Num, k: real): (r: Num)
    ensures a.Finite? <==> r.Finite?
  {
    if a.Finite? then Finite(a.v + k) else NaN
  }

  /** `a / k` for a non-zero number `k`. */
  function Div(a: Num, k: real): (r: Num)
    requires k != 0.0
    ensures a.Finite? <==> r.Finite?
  {
    if a.Finite? then Finite(a.v / k) else NaN
  }

  /** `Math.floor(a)`. */
  function Floor(a: Num): (r: Num)
    ensures a.Finite? <==> r.Finite?
    ensures r.Finite? ==> r.v == a.v.Floor as real
  {
    if a.Finite? then Finite(a.v.Floor as real) else NaN
  }

  /** `a % k` for a positive number `k`: the remainder after truncating
      the quotient toward zero, so it takes the sign of `a`. */
  function Rem(a: Num, k: real): (r: Num)
    requires k > 0.0
    ensures a.Finite? <==> r.Finite?
    ensures r.Finite? ==> -k < r.v < k && (a.v >= 0.0 ==> r.v >= 0.0)
  {
    if !a.Finite? then NaN
    else if a.v >= 0.0 then Finite(FlooredRem(a.v, k))
    else Finite(-FlooredRem(-a.v, k))
  }

  /** What is left of a non-negative `x` after taking away the floored
      quotient by `k`: a value in `[0, k)`. */
  function FlooredRem(x: real, k: real): (r: real)
    requires x >= 0.0 && k > 0.0
    ensures 0.0 <= r < k
  {
    FloorRemainder(x, k);
    x - k * ((x / k).Floor as real)
  }

  /** Taking away the floored quotient leaves a remainder in `[0, k)`. */
  lemma FloorRemainder(x: real, k: real)
    requires x >= 0.0 && k > 0.0
    ensures 0.0 <= x - k * ((x / k).Floor as real) < k
  {
    var y := x / k;
    var f := y.Floor as real;
    assert f <= y < f + 1.0;
    assert x == k * y;
    var d := y - f;
    assert 0.0 <= d < 1.0;
    assert x - k * f == k * d;
    assert k * d < k by {
      assert k - k * d == k * (1.0 - d);
    }
    assert x - k * f < k;
    assert x - k * ((x / k).Floor as real) < k;
  }

  /** The text a non-number renders as. */
  function NonNumberText(a: Num): (s: string)
    requires !a.Finite?
    ensures |s| >= 3
  {
    if a.NaN? then "NaN" else "undefined"
  }

  /** `a ?? b`: only `undefined` (and `null`) falls through; `NaN` does not. */
  function Coalesce(a: Num, b: Num): (r: Num)
    ensures a.Undefined? ==> r == b
    ensures !a.Undefined? ==> r == a
  {
    if a.Undefined? then b else a
  }

  /** `x >= a`, `x < a` with a plain number on the left. */
  predicate AtLeast(x: real, a: Num) { a.Finite? && x >= a.v }

  predicate Below(x: real, a: Num) { a.Finite? && x < a.v }

  /** A comparison with a non-number is false in both directions. */
  lemma ComparisonsWithNonNumbersFail(x: real, a: Num)
    requires !a.Finite?
    ensures !AtLeast(x, a) && !Below(x, a)
  {
  }
}
