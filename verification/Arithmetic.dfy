/** Quotients recognised from their products. */
module Arithmetic {

  lemma AtLeast(z: int, d: int)
    requires z >= 1 && d > 0
    ensures z * d >= d
  {
  }

  lemma SmallMultiple(z: int, d: int)
    requires d > 0 && -d < z * d < d
    ensures z == 0
  {
    if z >= 1 { AtLeast(z, d); }
    if z <= -1 { AtLeast(-z, d); }
  }

  /** `q` times `d` and a remainder below `d` is what division undoes. */
  lemma Quotient(q: nat, d: nat, r: nat, x: nat)
    requires 0 < d && r < d && q * d + r == x
    ensures x / d == q && x % d == r
  {
    var k := x / d;
    assert k * d + x % d == x;
    assert (k - q) * d == r - x % d;
    SmallMultiple(k - q, d);
  }
}
