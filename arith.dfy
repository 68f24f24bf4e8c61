/** Arithmetic facts the budget proofs share */
module Arith {

  /** Multiplying by a non-negative number keeps an inequality */
  lemma MulMonotone(a: int, b: int, n: int)
    requires a <= b && n >= 0
    ensures a * n <= b * n
  {
  }
}
