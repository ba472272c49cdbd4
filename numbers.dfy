/**
 * JavaScript numbers as the kernel generator uses them: finite values are
 * exact reals (rounding is not modelled), and the three non-finite values
 * arise from dividing by a zero total weight.
 */
module Numbers {

  datatype Num = Fin(v: real) | PosInf | NegInf | NaN

  /** `x + y` on JavaScript numbers. */
  function Add(x: Num, y: Num): (r: Num)
    ensures r.Fin? <==> x.Fin? && y.Fin?
    ensures x.Fin? && y.Fin? ==> r.v == x.v + y.v
    ensures x.NaN? || y.NaN? ==> r.NaN?
  {
    match (x, y)
    case (NaN, _) => NaN
    case (_, NaN) => NaN
    case (PosInf, NegInf) => NaN
    case (NegInf, PosInf) => NaN
    case (PosInf, _) => PosInf
    case (_, PosInf) => PosInf
    case (NegInf, _) => NegInf
    case (_, NegInf) => NegInf
    case (Fin(a), Fin(b)) => Fin(a + b)
  }

  /** `x / y` for finite operands; the sign of a zero divisor is ignored. */
  function Div(x: real, y: real): (r: Num)
    ensures y != 0.0 ==> r == Fin(x / y)
    ensures y == 0.0 ==> (r == PosInf <==> x > 0.0) && (r == NegInf <==> x < 0.0) && (r == NaN <==> x == 0.0)
  {
    if y != 0.0 then Fin(x / y)
    else if x > 0.0 then PosInf
    else if x < 0.0 then NegInf
    else NaN
  }

  /** `x < y` for a finite `x`: false against NaN, true against +Infinity. */
  predicate Less(x: real, y: Num) {
    match y
    case Fin(v) => x < v
    case PosInf => true
    case _ => false
  }
}
