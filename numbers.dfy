/**
 * Floating-point values as the scripts see them after a pandas/numpy
 * computation: a finite number, NaN, or an infinity.  Only the cases the
 * scripts can produce are modelled: inputs read from a data frame are finite
 * or NaN; an infinity only arises from a division by zero.
 */
module Numbers {
  import opened Wrappers

  datatype Num = Finite(v: real) | NaN | Inf(positive: bool)

  /** A cell read from a data frame: a missing value is NaN. */
  function FromCell(x: Option<real>): (r: Num)
    ensures r.Finite? <==> x.Some?
    ensures r.Finite? ==> r.v == x.value
    ensures !r.Inf?
  {
    match x
    case Some(v) => Finite(v)
    case None => NaN
  }

  /**
   * ((cur - base) / base) * 100 with the floating-point special cases:
   * dividing a non-zero number by zero gives an infinity with the
   * numerator's sign, 0/0 and any NaN operand give NaN.  A finite quotient
   * is the exact real one.  An infinite operand also gives NaN here, where
   * float64 could give an infinity; every caller passes a cell read by
   * `FromCell` or a finite value, so no caller reaches that case.
   */
  function PctChange(cur: Num, base: Num): (r: Num)
    ensures r.Finite? <==> cur.Finite? && base.Finite? && base.v != 0.0
    ensures r.Finite? ==> r.v * base.v == (cur.v - base.v) * 100.0
    ensures r.Inf? ==> cur.Finite? && base == Finite(0.0) && cur.v != 0.0 && r.positive == (cur.v > 0.0)
    ensures cur.Finite? && base == Finite(0.0) && cur.v != 0.0 ==> r == Inf(cur.v > 0.0)
  {
    if cur.Finite? && base.Finite? then
      if base.v != 0.0 then Finite((cur.v - base.v) / base.v * 100.0)
      else if cur.v == 0.0 then NaN
      else Inf(cur.v > 0.0)
    else NaN
  }

  /** `x < c` for a float `x`: false for NaN, true for minus infinity. */
  predicate Below(x: Num, c: real)
  {
    match x
    case Finite(v) => v < c
    case NaN => false
    case Inf(positive) => !positive
  }

  /** `x > c` for a float `x`: false for NaN, true for plus infinity. */
  predicate Above(x: Num, c: real)
  {
    match x
    case Finite(v) => v > c
    case NaN => false
    case Inf(positive) => positive
  }
}
