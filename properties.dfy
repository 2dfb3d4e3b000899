/** Properties of the three `Calculator` operations: the order of the guards,
    the split of the price, the monthly total, the repayment of the loan, and
    the agreement between `calculate` and `downPaymentValue`. */
module CalculatorProperties {
  import opened Rounding
  import opened Amortization
  import opened Calculator

  datatype Option<T> = None | Some(value: T)

  /** One guard of a validation chain: whether it fails, and its message. */
  datatype Guard = Guard(fails: bool, msg: string)

  /** The message of the first failing guard, if any guard fails. */
  function FirstFailure(guards: seq<Guard>): (m: Option<string>)
    ensures m.None? <==> forall i :: 0 <= i < |guards| ==> !guards[i].fails
    ensures m.Some? ==>
      exists i :: 0 <= i < |guards| && guards[i].fails && guards[i].msg == m.value
        && forall j :: 0 <= j < i ==> !guards[j].fails
  {
    if |guards| == 0 then None
    else if guards[0].fails then Some(guards[0].msg)
    else
      var rest := FirstFailure(guards[1..]);
      assert rest.Some? ==>
        exists i :: 0 < i < |guards| && guards[i].fails && guards[i].msg == rest.value
          && forall j :: 0 <= j < i ==> !guards[j].fails
      by {
        if rest.Some? {
          var i :| 0 <= i < |guards[1..]| && guards[1..][i].fails && guards[1..][i].msg == rest.value
            && forall j :: 0 <= j < i ==> !guards[1..][j].fails;
          assert forall j :: 0 <= j < i + 1 ==> !guards[j].fails by {
            forall j | 0 <= j < i + 1 ensures !guards[j].fails {
              if j > 0 { assert guards[j] == guards[1..][j - 1]; }
            }
          }
        }
      }
      assert rest.None? ==> forall i :: 0 <= i < |guards| ==> !guards[i].fails by {
        if rest.None? {
          forall i | 0 <= i < |guards| ensures !guards[i].fails {
            if i > 0 { assert guards[i] == guards[1..][i - 1]; }
          }
        }
      }
      rest
  }

  /** The guards of `calculate`, in the order the code runs them. */
  function CalculateGuards(price: Arg, rate: Arg, period: Arg, downPaymentPerc: Arg, annualTax: Arg, additionalFees: Arg): seq<Guard> {
    [ Guard(RejectsPositive(price), PriceMsg),
      Guard(RejectsPositive(rate), RateMsg),
      Guard(RejectsPeriod(period), PeriodMsg),
      Guard(RejectsPercent(downPaymentPerc), PercMsg),
      Guard(RejectsOptional(annualTax), TaxMsg),
      Guard(RejectsOptional(additionalFees), FeesMsg) ]
  }

  /** `calculate` fails exactly when one of its guards fails, and then with the
      message of the first guard that fails: price, rate, period, percentage,
      tax, fees. */
  lemma CalculateReportsFirstFailure(price: Arg, rate: Arg, period: Arg, downPaymentPerc: Arg, annualTax: Arg, additionalFees: Arg,
                                     pow: (real, real) -> real)
    requires GrowsAboveOne(pow)
    ensures var first := FirstFailure(CalculateGuards(price, rate, period, downPaymentPerc, annualTax, additionalFees));
      match Calculate(price, rate, period, downPaymentPerc, annualTax, additionalFees, pow)
      case Ok(_) => first.None?
      case Err(msg) => first == Some(msg)
  {
    var g := CalculateGuards(price, rate, period, downPaymentPerc, annualTax, additionalFees);
    assert g == [g[0]] + ([g[1]] + ([g[2]] + ([g[3]] + ([g[4]] + ([g[5]] + [])))));
    FirstFailureCons(g[5], []);
    FirstFailureCons(g[4], [g[5]] + []);
    FirstFailureCons(g[3], [g[4]] + ([g[5]] + []));
    FirstFailureCons(g[2], [g[3]] + ([g[4]] + ([g[5]] + [])));
    FirstFailureCons(g[1], [g[2]] + ([g[3]] + ([g[4]] + ([g[5]] + []))));
    FirstFailureCons(g[0], [g[1]] + ([g[2]] + ([g[3]] + ([g[4]] + ([g[5]] + [])))));
  }

  /** The first guard is tried first; only when it passes do the others count. */
  lemma FirstFailureCons(g: Guard, rest: seq<Guard>)
    ensures FirstFailure([g] + rest) == if g.fails then Some(g.msg) else FirstFailure(rest)
  {
    assert ([g] + rest)[1..] == rest;
  }

  /** An invalid price is reported whatever the other arguments are. */
  lemma NegativePriceIsRejectedFirst(rate: Arg, period: Arg, downPaymentPerc: Arg, annualTax: Arg, additionalFees: Arg,
                                     pow: (real, real) -> real)
    requires GrowsAboveOne(pow)
    ensures Calculate(Num(-100.0), rate, period, downPaymentPerc, annualTax, additionalFees, pow) == Err(PriceMsg)
    ensures DownPaymentValue(Num(-100.0), downPaymentPerc) == Err(PriceMsg)
  {
  }

  /** The percentage bound is inclusive at 1 and 99; the period bound is
      exclusive at 100. */
  lemma BoundaryValues(price: real, pow: (real, real) -> real)
    requires price > 0.0 && GrowsAboveOne(pow)
    ensures DownPaymentValue(Num(price), Num(1.0)).Ok?
    ensures DownPaymentValue(Num(price), Num(99.0)).Ok?
    ensures DownPaymentValue(Num(price), Num(0.0)) == Err(PercMsg)
    ensures DownPaymentValue(Num(price), Num(0.5)) == Err(PercMsg)
    ensures DownPaymentValue(Num(price), Num(100.0)) == Err(PercMsg)
    ensures Calculate(Num(price), Num(5.0), Num(100.0), Num(20.0), Absent, Absent, pow) == Err(PeriodMsg)
    ensures Calculate(Num(price), Num(5.0), Num(99.99), Num(20.0), Absent, Absent, pow).Ok?
  {
  }

  /** On success of `calculate`, the down payment and the principal are the
      split of the price rounded to the cent: they add up to it exactly, both
      are positive and below it once the price is at least half a cent, and
      their integer fields add up to its ceiling or one more. */
  lemma CalculateSplitsPrice(price: Arg, rate: Arg, period: Arg, downPaymentPerc: Arg, annualTax: Arg, additionalFees: Arg,
                             pow: (real, real) -> real)
    requires GrowsAboveOne(pow)
    requires CalculateAccepts(price, rate, period, downPaymentPerc, annualTax, additionalFees)
    ensures var res := Calculate(price, rate, period, downPaymentPerc, annualTax, additionalFees, pow).value;
      var cents := Round2(price.value);
      exists downPayment: real, principal: real ::
        && res.downPayment == Report(downPayment)
        && res.principal == Report(principal)
        && downPayment + principal == cents
        && downPayment * 100.0 == cents * downPaymentPerc.value
        && (price.value >= 0.005 ==> 0.0 < principal < cents && 0.0 < downPayment < cents)
        && (price.value < 0.005 ==> downPayment == 0.0 && principal == 0.0)
    ensures var res := Calculate(price, rate, period, downPaymentPerc, annualTax, additionalFees, pow).value;
      var cents := Round2(price.value);
      Ceil(cents) <= res.downPayment.asInt + res.principal.asInt <= Ceil(cents) + 1
  {
    var cents := Round2(price.value);
    var s := SplitPrice(cents, downPaymentPerc.value);
    CalculateReportsSplit(price, rate, period, downPaymentPerc, annualTax, additionalFees, pow);
    SplitOfRoundedPrice(price.value, downPaymentPerc.value);
    var res := Calculate(price, rate, period, downPaymentPerc, annualTax, additionalFees, pow).value;
    assert res.downPayment == Report(s.downPayment) && res.principal == Report(s.principal);
  }

  /** The down payment and principal fields of `calculate` report the split
      of the price rounded to the cent. */
  lemma CalculateReportsSplit(price: Arg, rate: Arg, period: Arg, downPaymentPerc: Arg, annualTax: Arg, additionalFees: Arg,
                              pow: (real, real) -> real)
    requires GrowsAboveOne(pow)
    requires CalculateAccepts(price, rate, period, downPaymentPerc, annualTax, additionalFees)
    ensures var res := Calculate(price, rate, period, downPaymentPerc, annualTax, additionalFees, pow).value;
      var s := SplitPrice(Round2(price.value), downPaymentPerc.value);
      res.downPayment == Report(s.downPayment) && res.principal == Report(s.principal)
  {
  }

  /** The split of a positive price rounded to the cent: both parts positive
      from half a cent up, both zero below it, ceilings adding up to the
      price's ceiling or one more. */
  lemma SplitOfRoundedPrice(price: real, perc: real)
    requires price > 0.0 && 1.0 <= perc <= 99.0
    ensures var cents := Round2(price);
      var s := SplitPrice(cents, perc);
      && (price >= 0.005 ==> 0.0 < s.principal < cents && 0.0 < s.downPayment < cents)
      && (price < 0.005 ==> s.downPayment == 0.0 && s.principal == 0.0)
      && Ceil(cents) <= Ceil(s.downPayment) + Ceil(s.principal) <= Ceil(cents) + 1
  {
    var cents := Round2(price);
    var s := SplitPrice(cents, perc);
    Round2IsZero(price);
    CeilOfSum(s.downPayment, s.principal);
  }

  /** For the same price and percentage, `calculate` and `downPaymentValue`
      report the same down payment and principal; and a price that one of
      them rejects, the other rejects with the same message. */
  lemma CalculateAgreesWithDownPaymentValue(price: Arg, rate: Arg, period: Arg, downPaymentPerc: Arg, annualTax: Arg, additionalFees: Arg,
                                            pow: (real, real) -> real)
    requires GrowsAboveOne(pow)
    ensures var res := Calculate(price, rate, period, downPaymentPerc, annualTax, additionalFees, pow);
      res.Ok? ==> DownPaymentValue(price, downPaymentPerc) == Ok(DownPaymentSplit(res.value.principal, res.value.downPayment))
    ensures RejectsPositive(price) ==>
      Calculate(price, rate, period, downPaymentPerc, annualTax, additionalFees, pow) == Err(PriceMsg)
      && DownPaymentValue(price, downPaymentPerc) == Err(PriceMsg)
  {
  }

  /** The monthly total is the mortgage payment plus the monthly tax plus the
      fees; the tax is the annual tax over twelve, the fees as given, each to
      the cent, and zero when not given. The two-decimal figures add up
      exactly, since tax and fees are already whole cents. */
  lemma MonthlyTotal(price: Arg, rate: Arg, period: Arg, downPaymentPerc: Arg, annualTax: Arg, additionalFees: Arg,
                     pow: (real, real) -> real)
    requires GrowsAboveOne(pow)
    requires CalculateAccepts(price, rate, period, downPaymentPerc, annualTax, additionalFees)
    ensures var res := Calculate(price, rate, period, downPaymentPerc, annualTax, additionalFees, pow).value;
      && res.totalMonthly.asDecimal
         == res.monthlyMortgage.asDecimal + res.monthlyTax.asDecimal + res.additionalMonthlyFees.asDecimal
      && res.monthlyTax.asDecimal == (if Falsy(annualTax) then 0.0 else Round2(annualTax.value / 12.0))
      && res.additionalMonthlyFees.asDecimal == (if Falsy(additionalFees) then 0.0 else Round2(additionalFees.value))
      && res.monthlyMortgage.asDecimal >= 0.0
  {
    var r := MonthlyRate(rate.value);
    var s := SplitPrice(Round2(price.value), downPaymentPerc.value);
    var m := Payment(s.principal, r, pow(1.0 + r, period.value * 12.0));
    var t := MonthlyTax(annualTax);
    var f := MonthlyFees(additionalFees);
    var res := Calculate(price, rate, period, downPaymentPerc, annualTax, additionalFees, pow).value;
    CalculateReportsMonthly(price, rate, period, downPaymentPerc, annualTax, additionalFees, pow);
    TotalOfCents(m, t, f);
    assert res.totalMonthly.asDecimal == Round2(m + t + f);
    assert res.monthlyMortgage.asDecimal == Round2(m);
    assert res.monthlyTax.asDecimal == Round2(t) == t by { Round2OfCents(t); }
    assert res.additionalMonthlyFees.asDecimal == Round2(f) == f by { Round2OfCents(f); }
  }

  /** The monthly fields of `calculate`: the amortization payment on the
      principal, the monthly tax, the fees and their total. */
  lemma CalculateReportsMonthly(price: Arg, rate: Arg, period: Arg, downPaymentPerc: Arg, annualTax: Arg, additionalFees: Arg,
                                pow: (real, real) -> real)
    requires GrowsAboveOne(pow)
    requires CalculateAccepts(price, rate, period, downPaymentPerc, annualTax, additionalFees)
    ensures var res := Calculate(price, rate, period, downPaymentPerc, annualTax, additionalFees, pow).value;
      var r := MonthlyRate(rate.value);
      var s := SplitPrice(Round2(price.value), downPaymentPerc.value);
      var m := Payment(s.principal, r, pow(1.0 + r, period.value * 12.0));
      && m >= 0.0
      && res.monthlyMortgage == Report(m)
      && res.monthlyTax == Report(MonthlyTax(annualTax))
      && res.additionalMonthlyFees == Report(MonthlyFees(additionalFees))
      && res.totalMonthly == Report(m + MonthlyTax(annualTax) + MonthlyFees(additionalFees))
  {
  }

  /** Rounding to the cent a non-negative amount plus whole cents gives the
      rounded amount plus those cents. */
  lemma TotalOfCents(m: real, t: real, f: real)
    requires m >= 0.0 && t >= 0.0 && f >= 0.0 && IsCents(t) && IsCents(f)
    ensures Round2(m + t + f) == Round2(m) + Round2(t) + Round2(f)
  {
    Round2AddCents(m, t);
    Round2AddCents(m + t, f);
    Round2OfCents(t);
    Round2OfCents(f);
  }

  /** An optional figure that is absent or zero contributes nothing, and its
      fields are still reported, as zero. The number of payments is the period
      times twelve, not rounded. */
  lemma AbsentOptionalsContributeZero(price: Arg, rate: Arg, period: Arg, downPaymentPerc: Arg, annualTax: Arg, additionalFees: Arg,
                                      pow: (real, real) -> real)
    requires GrowsAboveOne(pow)
    requires CalculateAccepts(price, rate, period, downPaymentPerc, annualTax, additionalFees)
    ensures var res := Calculate(price, rate, period, downPaymentPerc, annualTax, additionalFees, pow).value;
      && res.totalNoOfPayments == period.value * 12.0
      && (Falsy(annualTax) ==> res.monthlyTax == Figure(0, 0.0))
      && (Falsy(additionalFees) ==> res.additionalMonthlyFees == Figure(0, 0.0))
      && (Falsy(annualTax) && Falsy(additionalFees) ==> res.totalMonthly == res.monthlyMortgage)
  {
    Round2OfCents(0.0);
  }

  /** When the period is a whole number of months, the reported monthly
      mortgage is the payment that repays the principal, with interest at the
      monthly rate, in exactly `period * 12` payments and not before. */
  lemma MortgageRepaysPrincipal(price: Arg, rate: Arg, period: Arg, downPaymentPerc: Arg, annualTax: Arg, additionalFees: Arg,
                                pow: (real, real) -> real, months: nat)
    requires GrowsAboveOne(pow)
    requires CalculateAccepts(price, rate, period, downPaymentPerc, annualTax, additionalFees)
    requires period.value * 12.0 == months as real
    requires pow(1.0 + MonthlyRate(rate.value), months as real) == Pow(1.0 + MonthlyRate(rate.value), months)
    ensures months > 0
    ensures var res := Calculate(price, rate, period, downPaymentPerc, annualTax, additionalFees, pow).value;
      exists principal: real, r: real, m: real ::
        && res.principal == Report(principal)
        && r * 1200.0 == rate.value
        && res.monthlyMortgage == Report(m)
        && Balance(principal, r, m, months) == 0.0
        && (price.value >= 0.005 ==> forall k: nat :: k < months ==> Balance(principal, r, m, k) > 0.0)
  {
    var r := MonthlyRate(rate.value);
    var s := SplitPrice(Round2(price.value), downPaymentPerc.value);
    PaymentRepaysLoan(s.principal, r, months);
    if price.value >= 0.005 {
      Round2IsZero(price.value);
      var m := Payment(s.principal, r, Pow(1.0 + r, months));
      forall k: nat | k < months ensures Balance(s.principal, r, m, k) > 0.0 {
        BalanceBeforeTermIsPositive(s.principal, r, months, k);
      }
    }
  }

  /** On success of `downPaymentPerc` with a price of at least half a cent,
      the down payment and principal are whole cents adding up to the price
      rounded to the cent, and the percentage is the down payment's share of
      that price, to the cent, between 0 and 100. */
  lemma DownPaymentPercFigures(price: Arg, downPaymentPrice: Arg)
    requires price.Num? && downPaymentPrice.Num? && 0.0 < downPaymentPrice.value < price.value
    requires price.value >= 0.005
    ensures var res := DownPaymentPerc(price, downPaymentPrice).value;
      var cents := Round2(price.value);
      var downPayment := Round2(downPaymentPrice.value);
      && res.downPayment == Report(downPayment)
      && res.downPayment.asDecimal + res.principal.asDecimal == cents
      && res.principal.asDecimal >= 0.0
      && res.downPaymentPerc == Finite(Round2(downPayment / cents * 100.0))
      && 0.0 <= res.downPaymentPerc.value <= 100.0
  {
    var cents := Round2(price.value);
    var downPayment := Round2(downPaymentPrice.value);
    Round2IsZero(price.value);
    Round2Monotone(downPaymentPrice.value, price.value);
    CentsDifference(cents, downPayment);
    Round2OfCents(cents - downPayment);
    Round2OfCents(downPayment);
    RoundedShareIsPercent(downPayment, cents);
  }

  /** A part of a positive whole, as a percentage rounded to the cent, lies
      between 0 and 100. */
  lemma RoundedShareIsPercent(part: real, whole: real)
    requires 0.0 <= part <= whole && whole > 0.0
    ensures 0.0 <= Round2(part / whole * 100.0) <= 100.0
  {
    var share := part / whole * 100.0;
    assert share * whole == part * 100.0;
    if share > 100.0 { PositiveProduct(share - 100.0, whole); }
    Round2Monotone(share, 100.0);
    Round2OfCents(100.0);
  }

  /** `calculate(300000, 6.5, 30, 20)`: 60000 down, 240000 financed, 360
      payments, no tax. */
  lemma ThirtyYearScenario(pow: (real, real) -> real)
    requires GrowsAboveOne(pow)
    ensures var res := Calculate(Num(300000.0), Num(6.5), Num(30.0), Num(20.0), Absent, Absent, pow);
      && res.Ok?
      && res.value.principal == Figure(240000, 240000.0)
      && res.value.downPayment == Figure(60000, 60000.0)
      && res.value.totalNoOfPayments == 360.0
      && res.value.monthlyTax == Figure(0, 0.0)
      && res.value.additionalMonthlyFees == Figure(0, 0.0)
  {
    Round2OfCents(300000.0);
    Round2OfCents(240000.0);
    Round2OfCents(60000.0);
    Round2OfCents(0.0);
  }

  /** `downPaymentValue(500000, 50)` splits the price in two halves. */
  lemma HalfDownScenario()
    ensures DownPaymentValue(Num(500000.0), Num(50.0))
         == Ok(DownPaymentSplit(Figure(250000, 250000.0), Figure(250000, 250000.0)))
  {
    Round2OfCents(500000.0);
    Round2OfCents(250000.0);
  }

  /** `downPaymentPerc(200000, 40000)` is a 20 percent down payment. */
  lemma TwentyPercentScenario()
    ensures DownPaymentPerc(Num(200000.0), Num(40000.0))
         == Ok(DownPaymentShare(Figure(160000, 160000.0), Figure(40000, 40000.0), Finite(20.0)))
  {
    Round2OfCents(200000.0);
    Round2OfCents(40000.0);
    Round2OfCents(160000.0);
    Round2OfCents(20.0);
  }
}
