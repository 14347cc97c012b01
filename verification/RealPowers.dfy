/** Whole powers of real numbers, the lesser and the greater of two, and products one small fact at a time. */
module RealPowers {

  function Min(a: real, b: real): real {
    if a <= b then a else b
  }

  function Max(a: real, b: real): real {
    if a >= b then a else b
  }

  function Pow(x: real, n: nat): real {
    if n == 0 then 1.0 else x * Pow(x, n - 1)
  }

  lemma {:induction false} PowZero(x: real)
    ensures Pow(x, 0) == 1.0
  {
  }

  lemma {:induction false} PowStep(x: real, n: nat)
    ensures Pow(x, n + 1) == x * Pow(x, n)
  {
  }

  lemma {:induction false} MulMonotone(c: real, x: real, y: real)
    requires c >= 0.0 && x <= y
    ensures c * x <= c * y
  {
  }

  lemma {:induction false} MulStrict(c: real, x: real, y: real)
    requires c > 0.0 && x < y
    ensures c * x < c * y
  {
  }

  lemma {:induction false} MulNotNegative(x: real, y: real)
    requires x >= 0.0 && y >= 0.0
    ensures x * y >= 0.0
  {
  }

  lemma {:induction false} MulOfZero(zero: real, x: real)
    requires zero == 0.0
    ensures zero * x == 0.0 && x * zero == 0.0
  {
  }

  lemma {:induction false} SameProduct(p: real, a: real, b: real, c: real, d: real)
    requires p == a * c && a == b && c == d
    ensures p == b * d
  {
  }

  lemma {:induction false} MulPositive(x: real, y: real)
    requires x > 0.0 && y > 0.0
    ensures x * y > 0.0
  {
  }

  lemma {:induction false} CancelPositive(x: real, y: real, c: real)
    requires c > 0.0 && x * c <= y * c
    ensures x <= y
  {
    if x > y {
      MulStrict(c, y, x);
    }
  }

  lemma {:induction false} QuotientBound(x: real, c: real, y: real)
    requires c > 0.0 && x * c <= y
    ensures x <= y / c
  {
    assert (y / c) * c == y;
    CancelPositive(x, y / c, c);
  }

  lemma {:induction false} PowPositive(x: real, n: nat)
    requires x > 0.0
    ensures Pow(x, n) > 0.0
  {
    if n > 0 {
      PowPositive(x, n - 1);
      MulPositive(x, Pow(x, n - 1));
    }
  }

  lemma {:induction false} PowAdds(x: real, m: nat, n: nat)
    ensures Pow(x, m + n) == Pow(x, m) * Pow(x, n)
  {
    if m > 0 {
      PowAdds(x, m - 1, n);
    }
  }

  lemma {:induction false} FourFactors(a: real, b: real, p: real, q: real)
    ensures (a * b) * (p * q) == (a * p) * (b * q)
  {
    var r := p * q;
    assert (a * b) * r == a * (b * r);
    assert b * r == p * (b * q);
    var u := b * q;
    assert a * (p * u) == (a * p) * u;
  }

  lemma {:induction false} PowOfProduct(a: real, b: real, n: nat)
    ensures Pow(a * b, n) == Pow(a, n) * Pow(b, n)
  {
    if n > 0 {
      PowOfProduct(a, b, n - 1);
      FourFactors(a, b, Pow(a, n - 1), Pow(b, n - 1));
    }
  }

  lemma {:induction false} PowOfPower(x: real, m: nat, n: nat)
    ensures Pow(x, m * n) == Pow(Pow(x, m), n)
  {
    if n > 0 {
      PowOfPower(x, m, n - 1);
      assert m * n == m + m * (n - 1);
      PowAdds(x, m, m * (n - 1));
    } else {
      assert m * n == 0;
    }
  }

  lemma {:induction false} ProductsIncrease(x: real, y: real, a: real, b: real)
    requires 0.0 < x < y && 0.0 < a <= b
    ensures 0.0 < x * a < y * b
  {
    MulPositive(x, a);
    MulStrict(a, x, y);
    MulMonotone(y, a, b);
  }

  /** Powers of a larger positive number are larger, strictly when the exponent is not zero. */
  lemma {:induction false} PowIncreases(x: real, y: real, n: nat)
    requires 0.0 < x < y
    ensures 0.0 < Pow(x, n) <= Pow(y, n)
    ensures n > 0 ==> Pow(x, n) < Pow(y, n)
  {
    if n > 0 {
      PowIncreases(x, y, n - 1);
      ProductsIncrease(x, y, Pow(x, n - 1), Pow(y, n - 1));
    }
  }

  lemma {:induction false} PowAtMost(x: real, y: real, n: nat)
    requires 0.0 < x <= y
    ensures Pow(x, n) <= Pow(y, n)
  {
    if x < y {
      PowIncreases(x, y, n);
    }
  }

  lemma {:induction false} GrowthStep(x: real, y: real, top: real, px: real, py: real, pt: real, n: real, d: real)
    requires 0.0 < x <= y <= top && top >= 1.0 && 0.0 < px <= pt && n >= 0.0 && d == y - x
    requires py - px <= n * (pt * d)
    ensures y * py - x * px <= (n + 1.0) * ((top * pt) * d)
  {
    var u := pt * d;
    MulNotNegative(pt, d);
    MulNotNegative(n, u);
    GrowthMain(y, top, py - px, n * u);
    GrowthRest(d, px, pt, top);
    GrowthSum(x, y, px, py, d);
    GrowthTop(top, pt, d, n, u);
  }

  lemma {:induction false} GrowthMain(y: real, top: real, g: real, bound: real)
    requires 0.0 < y <= top && g <= bound && bound >= 0.0
    ensures y * g <= top * bound
  {
    MulMonotone(y, g, bound);
    MulMonotone(bound, y, top);
  }

  lemma {:induction false} GrowthRest(d: real, px: real, pt: real, top: real)
    requires d >= 0.0 && 0.0 < px <= pt && top >= 1.0
    ensures d * px <= top * (pt * d)
  {
    MulMonotone(d, px, pt);
    MulNotNegative(pt, d);
    MulMonotone(pt * d, 1.0, top);
  }

  lemma {:induction false} GrowthSum(x: real, y: real, px: real, py: real, d: real)
    requires d == y - x
    ensures y * py - x * px == y * (py - px) + d * px
  {
  }

  lemma {:induction false} GrowthTop(top: real, pt: real, d: real, n: real, u: real)
    requires u == pt * d
    ensures (n + 1.0) * ((top * pt) * d) == top * (n * u) + top * u
  {
    assert (top * pt) * d == top * u;
    assert n * (top * u) == top * (n * u);
  }

  /** Up to top, at least one, an n-th power rises by at most n top^n for each unit. */
  lemma {:induction false} PowGrowth(x: real, y: real, top: real, n: nat)
    requires 0.0 < x <= y <= top && top >= 1.0
    ensures Pow(y, n) - Pow(x, n) <= n as real * (Pow(top, n) * (y - x))
  {
    if n > 0 {
      PowGrowth(x, y, top, n - 1);
      PowPositive(x, n - 1);
      PowAtMost(x, top, n - 1);
      assert n as real == (n - 1) as real + 1.0;
      GrowthStep(x, y, top, Pow(x, n - 1), Pow(y, n - 1), Pow(top, n - 1), (n - 1) as real, y - x);
    }
  }

  lemma {:induction false} BernoulliStep(r: real, k: real, p: real)
    requires r >= 0.0 && k >= 0.0 && p >= 1.0 + k * r
    ensures (1.0 + r) * p >= 1.0 + (k + 1.0) * r
  {
    MulMonotone(1.0 + r, 1.0 + k * r, p);
    MulNotNegative(k, r * r);
    assert (1.0 + r) * (1.0 + k * r) == 1.0 + (k + 1.0) * r + k * (r * r);
  }

  /** Bernoulli's inequality. */
  lemma {:induction false} Bernoulli(r: real, n: nat)
    requires r >= 0.0
    ensures Pow(1.0 + r, n) >= 1.0 + n as real * r
  {
    if n > 0 {
      Bernoulli(r, n - 1);
      assert n as real == (n - 1) as real + 1.0;
      BernoulliStep(r, (n - 1) as real, Pow(1.0 + r, n - 1));
    }
  }

  /** Compounding at a positive rate for at least one period gains something. */
  lemma {:induction false} PowGains(r: real, n: nat)
    requires r > 0.0 && n >= 1
    ensures Pow(1.0 + r, n) >= 1.0 + n as real * r > 1.0
  {
    Bernoulli(r, n);
    MulPositive(n as real, r);
  }

  // ----- multiples

  /** n times x. */
  function Copies(n: nat, x: real): real {
    n as real * x
  }

  lemma {:induction false} CopiesGrow(n: nat, x: real)
    ensures Copies(n + 1, x) == Copies(n, x) + x && Copies(0, x) == 0.0
  {
  }

  lemma {:induction false} MeanTimes(total: real, n: nat, mean: real)
    requires n >= 1 && mean == total / n as real
    ensures Copies(n, mean) == total
  {
  }
}
