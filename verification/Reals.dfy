/** Arithmetic over the reals: magnitudes, and products as named terms. */
module Reals {
  function Abs(v: real): (r: real)
    ensures r >= 0.0 && (r == v || r == -v)
  {
    if v < 0.0 then -v else v
  }

  /** The product, named so that proofs can treat it as an atom. */
  function Times(a: real, b: real): real {
    a * b
  }

  lemma Ring(a: real, b: real, c: real)
    ensures Times(a + b, c) == Times(a, c) + Times(b, c)
    ensures Times(a, b + c) == Times(a, b) + Times(a, c)
    ensures Times(-a, b) == -Times(a, b)
    ensures Times(a, b) == Times(b, a)
    ensures Times(a, Times(b, c)) == Times(Times(a, b), c)
    ensures Times(0.0, a) == 0.0 && Times(1.0, a) == a
  {}

  lemma ProductNotNegative(a: real, b: real)
    requires a >= 0.0 && b >= 0.0
    ensures Times(a, b) >= 0.0
  {}
}
