/** Facts about multiplication and division of naturals that the solver needs spelled out. */
module Arithmetic {

  lemma MulMonotone(c: nat, a: nat, b: nat)
    requires a <= b
    ensures a * c <= b * c
  {
  }

  /** A factor `c > 0` can be cancelled from both sides of `a * c <= b * c`. */
  lemma MulCancel(a: nat, b: nat, c: nat)
    requires c > 0 && a * c <= b * c
    ensures a <= b
  {
  }

  lemma Distrib(x: nat, y: nat, z: nat)
    ensures (x + y) * z == x * z + y * z
  {
  }

  /** If `x <= a * d` then `x / d <= a`. */
  lemma DivBelow(x: nat, a: nat, d: nat)
    requires d > 0 && x <= a * d
    ensures x / d <= a
  {
  }
}
