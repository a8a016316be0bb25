/** Small facts about real multiplication that the solver does not find by
    itself. */
module Arith {

  lemma MultiplyNonNegative(a: real, b: real)
    requires a >= 0.0 && b >= 0.0
    ensures a * b >= 0.0
  {
  }

  lemma MultiplyPositive(a: real, b: real)
    requires a > 0.0 && b > 0.0
    ensures a * b > 0.0
  {
  }

  /** If n steps of size s stay below a, then n is below a / s. */
  lemma BelowQuotient(n: real, s: real, a: real)
    requires s > 0.0 && n * s < a
    ensures n < a / s
  {
    var q := a / s;
    assert q * s == a;
    if n >= q {
      MultiplyNonNegative(n - q, s);
      assert (n - q) * s == n * s - q * s;
    }
  }

  /** Dividing a product by one factor gives the other. */
  lemma QuotientOfProduct(a: real, s: real, p: real)
    requires s > 0.0 && p * s == a
    ensures a / s == p
  {
    var q := a / s;
    assert q * s == a;
    if q < p {
      ScaleStrict(q, p, s);
    } else if p < q {
      ScaleStrict(p, q, s);
    }
  }

  /** Multiplying both sides of a < b by s > 0 keeps the order. */
  lemma ScaleStrict(a: real, b: real, s: real)
    requires a < b && s > 0.0
    ensures a * s < b * s
  {
    MultiplyPositive(b - a, s);
    assert (b - a) * s == b * s - a * s;
  }

  lemma ScaleWeak(a: real, b: real, s: real)
    requires a <= b && s >= 0.0
    ensures a * s <= b * s
  {
    MultiplyNonNegative(b - a, s);
    assert (b - a) * s == b * s - a * s;
  }

  /** Scaling a whole number by a positive factor keeps its sign. */
  lemma ScaledSign(u: int, s: real)
    ensures s > 0.0 ==> (u as real * s > 0.0 <==> u > 0)
  {
    if s > 0.0 {
      if u > 0 {
        MultiplyPositive(u as real, s);
      } else {
        MultiplyNonNegative(-u as real, s);
        assert -u as real * s == -(u as real * s);
      }
    }
  }

  /** One more step of size s: (k + 1) * s == k * s + s. */
  lemma StepOnce(k: nat, s: real)
    ensures (k + 1) as real * s == k as real * s + s
  {
  }

  /** k steps of u * y pixels are the pixels of k * y units of u pixels. */
  lemma Reassociate(k: real, u: real, y: real)
    ensures k * (u * y) == (k * y) * u
  {
  }

  lemma ReassociateNegated(k: real, u: real, y: real)
    ensures k * (u * y) == -((k * -y) * u)
  {
  }
}
