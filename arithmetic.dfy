/** Steps of integer arithmetic the solver does not take by itself. */
module Arithmetic {

  /** Multiplying by a non-negative number keeps order. */
  lemma MulLe(a: int, b: int, v: int)
    requires v >= 0 && a <= b
    ensures a * v <= b * v
  {
    assert b * v - a * v == (b - a) * v;
  }
}
