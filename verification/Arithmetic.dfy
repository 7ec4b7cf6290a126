/** Two laws of multiplication that proofs elsewhere need by name. */
module Arithmetic {

  lemma MulMonotone(b: int, x: int, y: int)
    requires b >= 0 && x <= y
    ensures b * x <= b * y
  {
  }

  lemma Distribute(a: int, b: int, d: int)
    ensures (a + b) * d == a * d + b * d
  {
  }
}
