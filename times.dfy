/** Double-precision time values as the routing kernel uses them.

    Every finite time the program computes is a sum of integer travel times and
    integer release times, so a finite time is represented by an `int`.  Two
    special doubles act as sentinels: the largest finite double
    (`std::numeric_limits<double>::max()`), which stands for "no time yet" and
    "rejected route", and `+infinity`, the cost of a courier that has no move. */
module Times {

  datatype Time = Finite(value: int) | DoubleMax | Infinity

  /** `t + k` for a finite increment `k`: the largest double absorbs any
      integer-sized addition, infinity absorbs everything. */
  function Plus(t: Time, k: int): (r: Time)
    ensures r.Finite? <==> t.Finite?
    ensures t.Finite? ==> r.value == t.value + k
    ensures !t.Finite? ==> r == t
  {
    match t
    case Finite(v) => Finite(v + k)
    case DoubleMax => DoubleMax
    case Infinity => Infinity
  }

  /** `a + b` on two time values; DBL_MAX + DBL_MAX overflows to infinity. */
  function Add(a: Time, b: Time): (r: Time)
    ensures r.Finite? <==> a.Finite? && b.Finite?
  {
    match (a, b)
    case (Finite(x), Finite(y)) => Finite(x + y)
    case (Infinity, _) => Infinity
    case (_, Infinity) => Infinity
    case (DoubleMax, DoubleMax) => Infinity
    case (_, _) => DoubleMax
  }

  /** `a <= b` on doubles: every finite time is below DBL_MAX, which is below infinity. */
  predicate AtMost(a: Time, b: Time) {
    match (a, b)
    case (Finite(x), Finite(y)) => x <= y
    case (Finite(_), _) => true
    case (DoubleMax, Finite(_)) => false
    case (DoubleMax, _) => true
    case (Infinity, Infinity) => true
    case (Infinity, _) => false
  }

  /** `a < b` on doubles. */
  predicate Below(a: Time, b: Time) {
    AtMost(a, b) && a != b
  }

  lemma {:induction false} AtMostTotalOrder(a: Time, b: Time, c: Time)
    ensures AtMost(a, a)
    ensures AtMost(a, b) || AtMost(b, a)
    ensures AtMost(a, b) && AtMost(b, a) ==> a == b
    ensures AtMost(a, b) && AtMost(b, c) ==> AtMost(a, c)
  {
  }
}
