/** Products of reals, named so that the solver meets no product it has to multiply out. */
module Reals {
  lemma PositiveProduct(a: real, b: real, product: real)
    requires a > 0.0 && b > 0.0 && product == a * b
    ensures product > 0.0
  {
  }

  lemma Distributes(a: real, b: real, sum: real, factor: real)
    requires sum == a + b
    ensures sum * factor == a * factor + b * factor
  {
  }
}
