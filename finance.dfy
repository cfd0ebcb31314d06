/** Exact arithmetic helpers shared by the projection engine: natural and
    integer powers, and the present value of a level payment stream. */
module Finance {

  /** `x` raised to a natural power. */
  function Pow(x: real, n: nat): real
  {
    if n == 0 then 1.0 else x * Pow(x, n - 1)
  }

  lemma {:induction false} PowPositive(x: real, n: nat)
    requires x > 0.0
    ensures Pow(x, n) > 0.0
  {
    if n > 0 {
      PowPositive(x, n - 1);
      assert x * Pow(x, n - 1) > 0.0;
    }
  }

  lemma {:induction false} PowNonZero(x: real, n: nat)
    requires x != 0.0
    ensures Pow(x, n) != 0.0
  {
    if n > 0 {
      PowNonZero(x, n - 1);
    }
  }

  lemma {:induction false} PowAdd(x: real, m: nat, n: nat)
    ensures Pow(x, m + n) == Pow(x, m) * Pow(x, n)
  {
    if m > 0 {
      PowAdd(x, m - 1, n);
      assert Pow(x, m + n) == x * Pow(x, (m - 1) + n);
      MulAssociative(x, Pow(x, m - 1), Pow(x, n));
    }
  }

  /** Python's `x ** n` for an integer exponent `n`: a negative exponent
      gives the reciprocal, and `0.0 ** n` with `n < 0` is an error. */
  function IntPow(x: real, n: int): (r: real)
    requires n >= 0 || x != 0.0
    ensures n < 0 ==> r * Pow(x, -n) == 1.0
  {
    if n >= 0 then Pow(x, n)
    else
      PowNonZero(x, -n);
      1.0 / Pow(x, -n)
  }

  /** What one unit paid at the end of period t is worth today,
      1 / (1 + rate)^t, built up one period at a time. */
  function Discount(rate: real, t: nat): real
    requires rate > -1.0
  {
    if t == 0 then 1.0 else Discount(rate, t - 1) / (1.0 + rate)
  }

  lemma {:induction false} DiscountPositive(rate: real, t: nat)
    requires rate > -1.0
    ensures Discount(rate, t) > 0.0
  {
    if t > 0 {
      DiscountPositive(rate, t - 1);
      QuotientPositive(Discount(rate, t - 1), 1.0 + rate);
    }
  }

  /** `(1 + rate) ** -t` is the discount factor of period t. */
  lemma {:induction false} NegativePowerIsDiscount(rate: real, t: nat)
    requires rate > -1.0
    ensures IntPow(1.0 + rate, -(t as int)) == Discount(rate, t)
  {
    if t > 0 {
      var g := 1.0 + rate;
      NegativePowerIsDiscount(rate, t - 1);
      PowPositive(g, t - 1);
      ReciprocalOfProduct(g, Pow(g, t - 1));
      if t > 1 {
        assert IntPow(g, -((t - 1) as int)) == 1.0 / Pow(g, t - 1);
      }
    }
  }

  /** Growing period t's discount factor by one period gives period t - 1's. */
  lemma DiscountStep(rate: real, t: nat)
    requires rate > -1.0 && t >= 1
    ensures Discount(rate, t) * (1.0 + rate) == Discount(rate, t - 1)
  {
  }

  /** Without growth every discount factor is 1. */
  lemma {:induction false} DiscountAtZeroRate(t: nat)
    ensures Discount(0.0, t) == 1.0
  {
    if t > 0 {
      DiscountAtZeroRate(t - 1);
    }
  }

  /** The value today of `n` equal payments made at the end of periods
      1..n when money grows by `rate` per period:
      the sum over t = 1..n of payment / (1 + rate)^t. */
  function PresentValue(payment: real, rate: real, n: nat): real
    requires rate > -1.0
  {
    if n == 0 then 0.0
    else PresentValue(payment, rate, n - 1) + payment * Discount(rate, n)
  }

  /** The present value is proportional to the payment. */
  lemma {:induction false} PresentValueLinear(payment: real, rate: real, n: nat)
    requires rate > -1.0
    ensures PresentValue(payment, rate, n) == payment * PresentValue(1.0, rate, n)
  {
    if n > 0 {
      PresentValueLinear(payment, rate, n - 1);
      Distribute(payment, PresentValue(1.0, rate, n - 1), Discount(rate, n));
    }
  }

  /** Every discount factor is positive, so n >= 1 payments of one unit are
      worth a positive amount. */
  lemma {:induction false} PresentValueOfUnitPositive(rate: real, n: nat)
    requires rate > -1.0
    requires n >= 1
    ensures PresentValue(1.0, rate, n) > 0.0
  {
    DiscountPositive(rate, n);
    if n > 1 {
      PresentValueOfUnitPositive(rate, n - 1);
    }
  }

  /** Without growth every payment is worth its face value. */
  lemma {:induction false} PresentValueAtZeroRate(n: nat)
    ensures PresentValue(1.0, 0.0, n) == n as real
  {
    if n > 0 {
      PresentValueAtZeroRate(n - 1);
      DiscountAtZeroRate(n);
    }
  }

  /** The geometric-series closed form of the discount sum:
      the sum over t = 1..n of 1/(1 + rate)^t is (1 - (1 + rate)^-n) / rate. */
  lemma {:induction false} PresentValueClosedForm(rate: real, n: nat)
    requires rate > -1.0 && rate != 0.0
    ensures PresentValue(1.0, rate, n) == (1.0 - IntPow(1.0 + rate, -(n as int))) / rate
  {
    NegativePowerIsDiscount(rate, n);
    if n > 0 {
      PresentValueClosedForm(rate, n - 1);
      NegativePowerIsDiscount(rate, n - 1);
      DiscountStep(rate, n);
      GeometricStep(rate, Discount(rate, n), Discount(rate, n - 1));
    }
  }

  /** Growing the value of n >= 1 payments by one period gives the first
      payment plus the value of the other n - 1: each discount factor moves
      up one period and the first becomes 1. */
  lemma {:induction false} PresentValueGrows(payment: real, rate: real, n: nat)
    requires rate > -1.0 && n >= 1
    ensures PresentValue(payment, rate, n) * (1.0 + rate) == payment + PresentValue(payment, rate, n - 1)
  {
    var g := 1.0 + rate;
    var v, vPrevious := PresentValue(payment, rate, n), PresentValue(payment, rate, n - 1);
    var d, dPrevious := Discount(rate, n), Discount(rate, n - 1);
    assert d * g == dPrevious by {
      DiscountStep(rate, n);
    }
    if n == 1 {
      GrowthBase(v, payment, d, g);
    } else {
      PresentValueGrows(payment, rate, n - 1);
      GrowthStep(v, vPrevious, PresentValue(payment, rate, n - 2), payment, d, dPrevious, g);
    }
  }

  lemma {:induction false} PresentValueNonNegative(payment: real, rate: real, n: nat)
    requires rate > -1.0 && payment >= 0.0
    ensures PresentValue(payment, rate, n) >= 0.0
  {
    if n > 0 {
      PresentValueNonNegative(payment, rate, n - 1);
      DiscountPositive(rate, n);
      MulNonNegative(payment, Discount(rate, n));
    }
  }

  // ---------------------------------------------------------------------------
  // Steps of real arithmetic, stated on plain variables so that each proof
  // obligation stays small.

  lemma ReciprocalOfProduct(g: real, a: real)
    requires g > 0.0 && a > 0.0
    ensures 1.0 / (g * a) * g == 1.0 / a
  {
    var q := 1.0 / (g * a);
    assert q * (g * a) == 1.0;
    assert (q * g) * a == 1.0;
  }

  lemma MulAssociative(a: real, b: real, c: real)
    ensures a * (b * c) == (a * b) * c
  {
  }

  lemma Distribute(p: real, x: real, d: real)
    ensures p * x + p * d == p * (x + 1.0 * d)
  {
  }

  /** The step of the geometric series: adding the next discount factor d to
      (1 - dPrevious) / rate gives (1 - d) / rate. */
  lemma GeometricStep(rate: real, d: real, dPrevious: real)
    requires rate != 0.0
    requires d * (1.0 + rate) == dPrevious
    ensures (1.0 - dPrevious) / rate + 1.0 * d == (1.0 - d) / rate
  {
    assert 1.0 - dPrevious == (1.0 - d) - d * rate;
    assert ((1.0 - d) - d * rate) / rate == (1.0 - d) / rate - d;
  }

  /** The step of `PresentValueGrows`: v = vPrevious + p*d where vPrevious =
      x + p*dPrevious has already been shown to grow into p + x. */
  lemma GrowthStep(v: real, vPrevious: real, x: real, p: real, d: real, dPrevious: real, g: real)
    requires v == vPrevious + p * d && d * g == dPrevious
    requires vPrevious == x + p * dPrevious && vPrevious * g == p + x
    ensures v * g == p + vPrevious
  {
    assert v * g == vPrevious * g + p * (d * g);
  }

  /** The first period of `PresentValueGrows`. */
  lemma GrowthBase(v: real, p: real, d: real, g: real)
    requires v == 0.0 + p * d && d * g == 1.0
    ensures v * g == p + 0.0
  {
    assert v * g == p * (d * g);
  }

  lemma QuotientPositive(a: real, g: real)
    requires a > 0.0 && g > 0.0
    ensures a / g > 0.0
  {
    assert a / g * g == a;
  }

  lemma MulNonNegative(x: real, y: real)
    requires x >= 0.0 && y >= 0.0
    ensures x * y >= 0.0
  {
  }

  /** A positive factor can be cancelled. */
  lemma CancelPositive(x: real, y: real, a: real, s: real)
    requires a > 0.0 && x * a == s && y * a == s
    ensures x == y
  {
  }

  lemma DivideThenMultiply(s: real, a: real)
    requires a != 0.0
    ensures s / a * a == s
  {
  }
}
