/** Shared failure-free vocabulary. */
module Common {
  datatype Option<+T> = None | Some(value: T)

  /** An `f64` without rounding: a real number, an infinity of either sign, or not a number.  The sign of a zero is not
      kept. */
  datatype Num = Fin(v: real) | Infinite(positive: bool) | NaN

  function Negated(x: Num): Num {
    match x
    case Fin(v) => Fin(-v)
    case Infinite(positive) => Infinite(!positive)
    case NaN => NaN
  }

  function Add(x: Num, y: Num): Num {
    if x.Fin? && y.Fin? then Fin(x.v + y.v)
    else if x.NaN? || y.NaN? || (x.Infinite? && y.Infinite? && x != y) then NaN
    else if x.Infinite? then x else y
  }

  function Sign(x: Num): int {
    match x
    case Fin(v) => if v > 0.0 then 1 else if v < 0.0 then -1 else 0
    case Infinite(positive) => if positive then 1 else -1
    case NaN => 0
  }

  /** A product or quotient that is infinite, by the signs of its operands; without a sign it is not a number. */
  function Unbounded(x: Num, y: Num): Num {
    if Sign(x) == 0 || Sign(y) == 0 then NaN else Infinite(Sign(x) == Sign(y))
  }

  function Mul(x: Num, y: Num): Num {
    if x.Fin? && y.Fin? then Fin(x.v * y.v) else Unbounded(x, y)
  }

  /** Division by zero takes the zero as positive. */
  function Div(x: Num, y: Num): Num {
    if x.NaN? || y.NaN? || (x.Infinite? && y.Infinite?) then NaN
    else if y.Infinite? then Fin(0.0)
    else if x.Infinite? then Infinite(x.positive == (y.v >= 0.0))
    else if y.v == 0.0 then Unbounded(x, Fin(1.0))
    else Fin(x.v / y.v)
  }

  function Max(a: real, b: real): real { if a >= b then a else b }

  function Min(a: real, b: real): real { if a <= b then a else b }

  function Abs(x: real): real { if x < 0.0 then -x else x }

  function Init<T>(items: seq<T>): seq<T>
    requires items != []
  {
    items[..|items| - 1]
  }

  function Last<T>(items: seq<T>): T
    requires items != []
  {
    items[|items| - 1]
  }

  lemma {:induction false} SubsetSize<T>(a: set<T>, b: set<T>)
    requires a <= b
    ensures |a| <= |b|
    ensures |a| == |b| ==> a == b
  {
    if a != {} {
      var x :| x in a;
      SubsetSize(a - {x}, b - {x});
    }
  }
}
