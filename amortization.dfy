/** The standard amortization formula behind the monthly mortgage payment,
    and the loan balance it is meant to pay off. */
module Amortization {

  /** `b` raised to a natural power. */
  function Pow(b: real, k: nat): (p: real)
    ensures b >= 1.0 ==> p >= 1.0
    ensures b > 1.0 && k > 0 ==> p > 1.0
  {
    if k == 0 then 1.0 else b * Pow(b, k - 1)
  }

  /** What `Math.pow` is relied on for: a base above one raised to a positive
      exponent stays above one, so the formula's denominator is never zero. */
  ghost predicate GrowsAboveOne(pow: (real, real) -> real) {
    forall b: real, e: real :: 1.0 < b && 0.0 < e ==> 1.0 < pow(b, e)
  }

  /** The monthly payment `principal * (r * g) / (g - 1)`, where `r` is the
      monthly rate and `g` the growth factor `(1 + r)^n` over the whole term.
      It is more than the interest of the first month whenever there is a loan. */
  function Payment(principal: real, r: real, g: real): (m: real)
    requires g > 1.0
    ensures m * (g - 1.0) == principal * r * g
    ensures principal > 0.0 && r > 0.0 ==> m > principal * r
    ensures principal == 0.0 ==> m == 0.0
  {
    var q := (r * g) / (g - 1.0);
    assert q * (g - 1.0) == r * g;
    assert r > 0.0 ==> q > r by {
      if r > 0.0 {
        assert q * (g - 1.0) == r * (g - 1.0) + r;
        assert (q - r) * (g - 1.0) == r;
        if q <= r {
          NonNegativeProduct(r - q, g - 1.0);
        }
      }
    }
    assert principal > 0.0 && r > 0.0 ==> principal * q > principal * r by {
      if principal > 0.0 && r > 0.0 {
        PositiveProduct(principal, q - r);
      }
    }
    principal * q
  }

  lemma NonNegativeProduct(a: real, b: real)
    requires a >= 0.0 && b >= 0.0
    ensures a * b >= 0.0
  {
  }

  lemma PositiveProduct(a: real, b: real)
    requires a > 0.0 && b > 0.0
    ensures a * b > 0.0
  {
  }

  /** The balance still owed after `k` months, each month adding interest at
      rate `r` to what is owed and then subtracting the payment `m`. */
  function Balance(principal: real, r: real, m: real, k: nat): real {
    if k == 0 then principal else Balance(principal, r, m, k - 1) * (1.0 + r) - m
  }

  /** Closed form of the balance: `r * B_k == principal * r * g^k - m * (g^k - 1)`
      with `g == 1 + r`. */
  lemma {:induction false} BalanceClosedForm(principal: real, r: real, m: real, k: nat)
    ensures Balance(principal, r, m, k) * r
         == principal * r * Pow(1.0 + r, k) - m * (Pow(1.0 + r, k) - 1.0)
  {
    if k > 0 {
      var b := Balance(principal, r, m, k - 1);
      var g := Pow(1.0 + r, k - 1);
      BalanceClosedForm(principal, r, m, k - 1);
      BalanceStep(principal, r, m, b, g);
      assert Balance(principal, r, m, k) == b * (1.0 + r) - m;
      assert Pow(1.0 + r, k) == (1.0 + r) * g;
    }
  }

  /** One month of the closed form, with the previous balance `b` and power
      `g` as plain numbers. */
  lemma BalanceStep(principal: real, r: real, m: real, b: real, g: real)
    requires b * r == principal * r * g - m * (g - 1.0)
    ensures (b * (1.0 + r) - m) * r == principal * r * ((1.0 + r) * g) - m * ((1.0 + r) * g - 1.0)
  {
    calc {
      (b * (1.0 + r) - m) * r;
      (b * r) * (1.0 + r) - m * r;
      (principal * r * g - m * (g - 1.0)) * (1.0 + r) - m * r;
      principal * r * ((1.0 + r) * g) - m * ((1.0 + r) * g - 1.0);
    }
  }

  /** The payment of the amortization formula pays the loan off exactly:
      after `n` monthly payments nothing is owed. */
  lemma PaymentRepaysLoan(principal: real, r: real, n: nat)
    requires r > 0.0 && n > 0
    ensures Pow(1.0 + r, n) > 1.0
    ensures Balance(principal, r, Payment(principal, r, Pow(1.0 + r, n)), n) == 0.0
  {
    var g := Pow(1.0 + r, n);
    var m := Payment(principal, r, g);
    BalanceClosedForm(principal, r, m, n);
    assert Balance(principal, r, m, n) * r == 0.0;
  }

  /** Powers of a base above one grow with the exponent. */
  lemma {:induction false} PowIncreasing(b: real, j: nat, k: nat)
    requires b > 1.0 && j < k
    ensures Pow(b, j) < Pow(b, k)
  {
    if j < k - 1 {
      PowIncreasing(b, j, k - 1);
    }
    PowStep(b, k);
  }

  /** One more factor of a base above one makes a power larger. */
  lemma PowStep(b: real, k: nat)
    requires b > 1.0 && k > 0
    ensures Pow(b, k - 1) < Pow(b, k)
  {
    var p := Pow(b, k - 1);
    Grows(b, p);
    assert Pow(b, k) == b * p;
    assert b * p > p;
    assert p < Pow(b, k);
  }

  /** Multiplying a positive number by a base above one makes it larger. */
  lemma Grows(b: real, p: real)
    requires b > 1.0 && p > 0.0
    ensures b * p > p
  {
    PositiveProduct(b - 1.0, p);
    assert b * p == p + (b - 1.0) * p;
  }

  /** The payment is not too large either: before the last of the `n`
      payments some of a positive loan is still owed. */
  lemma BalanceBeforeTermIsPositive(principal: real, r: real, n: nat, k: nat)
    requires principal > 0.0 && r > 0.0 && k < n
    ensures Pow(1.0 + r, n) > 1.0
    ensures Balance(principal, r, Payment(principal, r, Pow(1.0 + r, n)), k) > 0.0
  {
    var gn := Pow(1.0 + r, n);
    var gk := Pow(1.0 + r, k);
    var m := Payment(principal, r, gn);
    var b := Balance(principal, r, m, k);
    BalanceClosedForm(principal, r, m, k);
    PowIncreasing(1.0 + r, k, n);
    OwedBeforeTerm(principal, r, m, gk, gn, b);
  }

  /** The algebra behind `BalanceBeforeTermIsPositive`, with the powers
      `gk < gn` and the balance `b` as plain numbers. */
  lemma OwedBeforeTerm(principal: real, r: real, m: real, gk: real, gn: real, b: real)
    requires principal > 0.0 && r > 0.0 && 1.0 <= gk < gn
    requires b * r == principal * r * gk - m * (gk - 1.0)
    requires m * (gn - 1.0) == principal * r * gn
    ensures b > 0.0
  {
    calc {
      (b * r) * (gn - 1.0);
      principal * r * gk * (gn - 1.0) - (m * (gn - 1.0)) * (gk - 1.0);
      principal * r * gk * (gn - 1.0) - principal * r * gn * (gk - 1.0);
      (principal * r) * (gn - gk);
    }
    PositiveProduct(principal, r);
    PositiveProduct(principal * r, gn - gk);
    PositiveProduct(r, gn - 1.0);
  }
}
