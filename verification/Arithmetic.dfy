/** Facts about products, quotients and remainders that the models need. */
module Arithmetic {

  lemma MulAtLeast(k: int, d: nat)
    requires k >= 1
    ensures k * d >= d
  {
  }

  lemma NatProduct(a: nat, b: nat)
    ensures a * b >= 0
  {
  }

  lemma MulMonotone(a: int, b: int, d: nat)
    requires a <= b
    ensures a * d <= b * d
  {
    assert b * d == a * d + (b - a) * d;
  }

  lemma MulDistributes(a: int, b: int, d: int)
    ensures (a - b) * d == a * d - b * d
  {
  }

  lemma PositiveFactor(k: int, d: nat)
    requires k * d > 0
    ensures k >= 1
  {
    if k <= 0 {
      MulMonotone(k, 0, d);
    }
  }

  /** A multiple that is smaller than the factor in both directions is zero. */
  lemma SmallMultiple(k: int, d: nat)
    requires k * d < d && 0 < k * d + d
    ensures k == 0
  {
    assert (-k) * d == -(k * d);
    if k >= 1 {
      MulAtLeast(k, d);
    } else if k <= -1 {
      MulAtLeast(-k, d);
    }
  }

  lemma DivModUnique(s: nat, d: nat, q: int, r: nat)
    requires s == q * d + r && r < d
    ensures s % d == r && s / d == q
  {
    var q', r' := s / d, s % d;
    DivModDef(s, d);
    MulDistributes(q, q', d);
    SmallMultiple(q - q', d);
  }

  lemma DivModDef(s: nat, d: nat)
    requires d >= 1
    ensures s == s / d * d + s % d && s % d < d
  {
  }

  lemma ExactDivision(s: nat, d: nat)
    requires d >= 1 && s % d == 0
    ensures s == d * (s / d)
  {
  }
}
