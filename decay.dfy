/** Powers of a decay factor, and the bound that makes geometric decay reach
    any positive threshold in finitely many frames. */
module Decay {
  import opened PanZoom

  function Pow(q: real, n: nat): real
  {
    if n == 0 then 1.0 else q * Pow(q, n - 1)
  }

  lemma MulNonneg(a: real, b: real)
    requires 0.0 <= a && 0.0 <= b
    ensures 0.0 <= a * b
  {
  }

  /** Multiplying both sides by a non-negative number keeps the order. */
  lemma MulLeRight(a: real, b: real, c: real)
    requires a <= b && 0.0 <= c
    ensures a * c <= b * c
  {
    MulNonneg(b - a, c);
    assert (b - a) * c == b * c - a * c;
  }

  /** Scaling by k >= 0 scales the absolute value by k. */
  lemma AbsScale(e: real, k: real)
    requires 0.0 <= k
    ensures Abs(e * k) == Abs(e) * k
  {
    if e < 0.0 {
      MulLeRight(e, 0.0, k);
    } else {
      MulNonneg(e, k);
    }
  }

  /** A factor in [0, 1] has every power in [0, 1]. */
  lemma {:induction false} PowUnit(q: real, n: nat)
    requires 0.0 <= q <= 1.0
    ensures 0.0 <= Pow(q, n)
    ensures Pow(q, n) <= 1.0
  {
    if n > 0 {
      PowUnit(q, n - 1);
      var p := Pow(q, n - 1);
      MulNonneg(q, p);
      MulLeRight(q, 1.0, p);
      assert q * p <= p;
      assert p <= 1.0;
      assert Pow(q, n) == q * p;
    }
  }

  /** The induction step of PowBernoulli, on plain numbers. */
  lemma BernoulliStep(q: real, p: real, m: real)
    requires 0.0 <= q <= 1.0 && 0.0 <= p <= 1.0
    requires p * (1.0 + (1.0 - q) * m) <= 1.0
    ensures q * p * (1.0 + (1.0 - q) * (m + 1.0)) <= 1.0
  {
    var d := 1.0 - q;
    var k := p * (1.0 + d * m);
    var a := q * k;
    var b := q * d * p;
    assert q * p * (1.0 + d * (m + 1.0)) == a + b;
    MulLeRight(k, 1.0, q);
    MulNonneg(q, d);
    MulLeRight(p, 1.0, q * d);
    MulNonneg(d, d);
    assert a <= q;
    assert b <= q * d;
    assert q + q * d == 1.0 - d * d;
  }

  /** Bernoulli's inequality in the form q^n * (1 + (1 - q) * n) <= 1. */
  lemma {:induction false} PowBernoulli(q: real, n: nat)
    requires 0.0 <= q <= 1.0
    ensures Pow(q, n) * (1.0 + (1.0 - q) * (n as real)) <= 1.0
  {
    if n > 0 {
      PowBernoulli(q, n - 1);
      PowUnit(q, n - 1);
      BernoulliStep(q, Pow(q, n - 1), (n - 1) as real);
    }
  }

  lemma MulLtRight(a: real, b: real, c: real)
    requires a < b && 0.0 < c
    ensures a * c < b * c
  {
    assert (b - a) * c > 0.0;
    assert (b - a) * c == b * c - a * c;
  }

  /** Some whole number of steps of size y > 0 passes e. */
  lemma Archimedean(e: real, y: real) returns (n: nat)
    requires e >= 0.0 && y > 0.0
    ensures n >= 1 && (n as real) * y > e
  {
    var x := e / y;
    assert x * y == e;
    assert x >= 0.0 by {
      if x < 0.0 {
        MulLtRight(x, 0.0, y);
      }
    }
    n := x.Floor + 1;
    MulLtRight(x, n as real, y);
  }

  /** Any amount e >= 0 decayed by a factor q < 1 drops below any eps > 0. */
  lemma EventuallyBelow(e: real, q: real, eps: real) returns (n: nat)
    requires e >= 0.0 && eps > 0.0 && 0.0 <= q < 1.0
    ensures n >= 1 && e * Pow(q, n) < eps
  {
    var d := 1.0 - q;
    MulLtRight(0.0, eps, d);
    n := Archimedean(e, eps * d);
    var m := n as real;
    var s := 1.0 + d * m;
    assert e < eps * s by {
      assert m * (eps * d) == eps * s - eps;
    }
    PowBernoulli(q, n);
    PowUnit(q, n);
    var p := Pow(q, n);
    assert p * s <= 1.0;
    if p > 0.0 {
      MulLtRight(e, eps * s, p);
      MulLeRight(p * s, 1.0, eps);
      assert eps * s * p == p * s * eps;
    }
  }
}
