/** Values that may be missing, and numbers that may not be numbers.

    A reading, a timestamp or the value of a rule is a Python float, so it may be NaN or
    infinite. Much of the control subsystem exists because every comparison with NaN is
    false, so the comparisons here follow IEEE 754 and not the order of the reals.
    Finite values are reals: rounding and overflow are not modelled. */
module Numbers {

  datatype Option<+T> = None | Some(value: T)

  datatype Num = Finite(r: real) | NaN | PosInf | NegInf

  predicate Lt(a: Num, b: Num) {
    match (a, b)
    case (Finite(x), Finite(y)) => x < y
    case (Finite(_), PosInf) => true
    case (NegInf, Finite(_)) => true
    case (NegInf, PosInf) => true
    case (_, _) => false
  }

  predicate Eq(a: Num, b: Num) {
    a == b && a != NaN
  }

  /** Python's `min(a, b)` and `max(a, b)`, which keep their first argument unless the
      second compares strictly better; with NaN the order of the arguments decides. */
  function PyMin(a: Num, b: Num): Num {
    if Lt(b, a) then b else a
  }

  function PyMax(a: Num, b: Num): Num {
    if Lt(a, b) then b else a
  }

  function Neg(a: Num): Num {
    match a
    case Finite(x) => Finite(-x)
    case NaN => NaN
    case PosInf => NegInf
    case NegInf => PosInf
  }

  function Add(a: Num, b: Num): Num {
    match (a, b)
    case (Finite(x), Finite(y)) => Finite(x + y)
    case (NaN, _) => NaN
    case (_, NaN) => NaN
    case (PosInf, NegInf) => NaN
    case (NegInf, PosInf) => NaN
    case (PosInf, _) => PosInf
    case (NegInf, _) => NegInf
    case (Finite(_), inf) => inf
  }

  function Sub(a: Num, b: Num): Num {
    Add(a, Neg(b))
  }

  /** A finite factor times a number: a gain, an interval, or the reciprocal of one. */
  function Scale(k: real, a: Num): Num {
    match a
    case Finite(x) => Finite(k * x)
    case NaN => NaN
    case PosInf => if k > 0.0 then PosInf else if k < 0.0 then NegInf else NaN
    case NegInf => if k > 0.0 then NegInf else if k < 0.0 then PosInf else NaN
  }

  /** What a rule of the rule language evaluates to this cycle. */
  datatype RuleOutcome = Raises | Gives(value: Num) | GivesBool(truth: bool)

  predicate FiniteOrNone(x: Option<Num>) {
    x.Some? ==> x.value.Finite?
  }
}
