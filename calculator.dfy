/** The mortgage `Calculator`: three stateless operations, each a chain of
    argument guards (the first failing guard decides the error message)
    followed by arithmetic on the accepted values. */
module Calculator {
  import opened Rounding
  import opened Amortization

  /** An argument as the JavaScript code sees it: a number, a truthy value
      that is not a number (a non-empty string, `true`, an object), or a value
      that is falsy without being a number (`undefined`, `null`, `""`, `false`). */
  datatype Arg = Num(value: real) | NonNumber | Absent

  /** What an operation returns: its result object, or the error it caught. */
  datatype Result<T> = Ok(value: T) | Err(msg: string)

  /** One figure of a result, reported as `Math.ceil` of it (the `...Int`
      key) and as its two-decimal rounding (the `...Decimal` key). */
  datatype Figure = Figure(asInt: int, asDecimal: real)

  /** The result object of `calculate`. */
  datatype Mortgage = Mortgage(
    monthlyMortgage: Figure,
    principal: Figure,
    totalNoOfPayments: real,
    downPayment: Figure,
    additionalMonthlyFees: Figure,
    monthlyTax: Figure,
    totalMonthly: Figure)

  /** The result object of `downPaymentValue`. */
  datatype DownPaymentSplit = DownPaymentSplit(principal: Figure, downPayment: Figure)

  /** A number that may be JavaScript's `NaN`. */
  datatype Percent = Finite(value: real) | NaN

  /** The result object of `downPaymentPerc`. */
  datatype DownPaymentShare = DownPaymentShare(principal: Figure, downPayment: Figure, downPaymentPerc: Percent)

  const PriceMsg: string := "Price must be a positive number greater than 0."
  const RateMsg: string := "Interest Rate must be a positive number greater than 0."
  const PeriodMsg: string := "Period must be a positive number. Must in years. Must be less than 100 and greater than 0"
  const PercMsg: string := "Down Payment Percentage must be in number. Must be between 1-99."
  const TaxMsg: string := "Annual Tax must be a number. Value must be a positive number."
  const FeesMsg: string := "Additional Monthly Fees must be a number. Value must be a positive number."
  const DownPriceMsg: string := "Down Payment Price must be a positive number greater than 0 and less than original price."

  /** JavaScript's `!a`: absent, or the number zero. */
  predicate Falsy(a: Arg) {
    a.Absent? || a == Num(0.0)
  }

  /** The guard on `price` and `rate`: rejected unless a number above zero. */
  predicate RejectsPositive(a: Arg): (b: bool)
    ensures b <==> !(a.Num? && a.value > 0.0)
  {
    Falsy(a) || !a.Num? || a.value <= 0.0
  }

  /** The guard on `period`: rejected unless a number strictly between 0 and 100. */
  predicate RejectsPeriod(a: Arg): (b: bool)
    ensures b <==> !(a.Num? && 0.0 < a.value < 100.0)
  {
    Falsy(a) || !a.Num? || a.value <= 0.0 || a.value >= 100.0
  }

  /** The guard on the down-payment percentage: rejected unless a number from 1 to 99 inclusive. */
  predicate RejectsPercent(a: Arg): (b: bool)
    ensures b <==> !(a.Num? && 1.0 <= a.value <= 99.0)
  {
    Falsy(a) || !a.Num? || a.value < 1.0 || a.value > 99.0
  }

  /** The guard on an optional figure: a falsy value is skipped, anything
      else must be a number above zero. So exactly the absent values and the
      numbers from zero up pass. */
  predicate RejectsOptional(a: Arg): (b: bool)
    ensures b <==> !(a.Absent? || (a.Num? && a.value >= 0.0))
  {
    !Falsy(a) && (!a.Num? || a.value <= 0.0)
  }

  /** The guard on the down-payment price, checked against the price as given. */
  predicate RejectsDownPrice(a: Arg, price: real): (b: bool)
    ensures b <==> !(a.Num? && 0.0 < a.value < price)
  {
    Falsy(a) || !a.Num? || a.value <= 0.0 || a.value >= price
  }

  /** The two forms in which every figure is reported. */
  function Report(x: real): (f: Figure)
    ensures x <= f.asInt as real < x + 1.0
    ensures IsCents(f.asDecimal)
    ensures x >= 0.0 ==> f.asDecimal - 0.005 <= x < f.asDecimal + 0.005
  {
    Figure(Ceil(x), Round2(x))
  }

  /** The down payment `price * (perc / 100)` and the principal that is left. */
  datatype PriceSplit = PriceSplit(downPayment: real, principal: real)

  /** Splits a price into down payment and principal. The two always add up to
      the price; for a percentage between 1 and 99 of a positive price both
      parts are positive and below the price. */
  function SplitPrice(price: real, perc: real): (s: PriceSplit)
    ensures s.downPayment + s.principal == price
    ensures s.downPayment * 100.0 == price * perc
    ensures price > 0.0 && 1.0 <= perc <= 99.0 ==>
      0.0 < s.downPayment < price && 0.0 < s.principal < price
    ensures price == 0.0 ==> s == PriceSplit(0.0, 0.0)
  {
    var downPayment := price * (perc / 100.0);
    ProperFraction(price, perc / 100.0);
    PriceSplit(downPayment, price - downPayment)
  }

  /** A proper fraction of a positive amount is positive and below it. */
  lemma ProperFraction(amount: real, q: real)
    ensures amount > 0.0 && 0.0 < q < 1.0 ==> 0.0 < amount * q < amount
  {
    if amount > 0.0 && 0.0 < q < 1.0 {
      PositiveProduct(amount, q);
      PositiveProduct(amount, 1.0 - q);
      assert amount * (1.0 - q) == amount - amount * q;
    }
  }

  /** The monthly interest rate for an annual rate given in percent. */
  function MonthlyRate(rate: real): (r: real)
    ensures rate > 0.0 ==> r > 0.0
    ensures r * 1200.0 == rate
  {
    (rate / 100.0) / 12.0
  }

  /** The inputs `calculate` accepts. */
  predicate CalculateAccepts(price: Arg, rate: Arg, period: Arg, downPaymentPerc: Arg, annualTax: Arg, additionalFees: Arg) {
    && price.Num? && price.value > 0.0
    && rate.Num? && rate.value > 0.0
    && period.Num? && 0.0 < period.value < 100.0
    && downPaymentPerc.Num? && 1.0 <= downPaymentPerc.value <= 99.0
    && (annualTax.Absent? || (annualTax.Num? && annualTax.value >= 0.0))
    && (additionalFees.Absent? || (additionalFees.Num? && additionalFees.value >= 0.0))
  }

  /** The monthly share of an accepted annual tax; zero when none is given. */
  function MonthlyTax(annualTax: Arg): (t: real)
    requires !RejectsOptional(annualTax)
    ensures t >= 0.0 && IsCents(t)
    ensures Falsy(annualTax) ==> t == 0.0
  {
    if !Falsy(annualTax) then Round2(annualTax.value / 12.0) else 0.0
  }

  /** Accepted additional monthly fees, to the cent; zero when none are given. */
  function MonthlyFees(additionalFees: Arg): (f: real)
    requires !RejectsOptional(additionalFees)
    ensures f >= 0.0 && IsCents(f)
    ensures Falsy(additionalFees) ==> f == 0.0
  {
    if !Falsy(additionalFees) then Round2(additionalFees.value) else 0.0
  }

  /** `calculate`: the monthly mortgage payment and its parts. `pow` stands for
      `Math.pow`. Succeeds exactly on the accepted inputs. */
  function Calculate(price: Arg, rate: Arg, period: Arg, downPaymentPerc: Arg, annualTax: Arg, additionalFees: Arg,
                     pow: (real, real) -> real): (res: Result<Mortgage>)
    requires GrowsAboveOne(pow)
    ensures res.Ok? <==> CalculateAccepts(price, rate, period, downPaymentPerc, annualTax, additionalFees)
  {
    if RejectsPositive(price) then Err(PriceMsg)
    else if RejectsPositive(rate) then Err(RateMsg)
    else if RejectsPeriod(period) then Err(PeriodMsg)
    else if RejectsPercent(downPaymentPerc) then Err(PercMsg)
    else if RejectsOptional(annualTax) then Err(TaxMsg)
    else if RejectsOptional(additionalFees) then Err(FeesMsg)
    else
      var cents := Round2(price.value);
      var r := MonthlyRate(rate.value);
      var n := period.value * 12.0;
      var split := SplitPrice(cents, downPaymentPerc.value);
      var m := Payment(split.principal, r, pow(1.0 + r, n));
      var monthlyTax := MonthlyTax(annualTax);
      var fees := MonthlyFees(additionalFees);
      var totalMonthly := m + monthlyTax + fees;
      Ok(Mortgage(
        monthlyMortgage := Report(m),
        principal := Report(split.principal),
        totalNoOfPayments := n,
        downPayment := Report(split.downPayment),
        additionalMonthlyFees := Report(fees),
        monthlyTax := Report(monthlyTax),
        totalMonthly := Report(totalMonthly)))
  }

  /** `downPaymentValue`: the split of the price alone, without the loan.
      Succeeds exactly when the price is positive and the percentage lies in 1..99. */
  function DownPaymentValue(price: Arg, downPaymentPerc: Arg): (res: Result<DownPaymentSplit>)
    ensures res.Ok? <==> price.Num? && price.value > 0.0 && downPaymentPerc.Num? && 1.0 <= downPaymentPerc.value <= 99.0
    ensures res.Err? ==> res.msg == (if RejectsPositive(price) then PriceMsg else PercMsg)
  {
    if RejectsPositive(price) then Err(PriceMsg)
    else if RejectsPercent(downPaymentPerc) then Err(PercMsg)
    else
      var split := SplitPrice(Round2(price.value), downPaymentPerc.value);
      Ok(DownPaymentSplit(Report(split.principal), Report(split.downPayment)))
  }

  /** `downPaymentPerc`: the principal and the percentage for a down payment
      given as an amount. The bounds are checked on the values as given, the
      arithmetic is done on the values rounded to the cent; a price that rounds
      to zero makes the percentage `0 / 0`, that is `NaN`. */
  function DownPaymentPerc(price: Arg, downPaymentPrice: Arg): (res: Result<DownPaymentShare>)
    ensures res.Ok? <==> price.Num? && price.value > 0.0 && downPaymentPrice.Num? && 0.0 < downPaymentPrice.value < price.value
    ensures res.Err? ==> res.msg == (if RejectsPositive(price) then PriceMsg else DownPriceMsg)
    ensures res.Ok? ==> res.value.principal.asDecimal >= 0.0
  {
    if RejectsPositive(price) then Err(PriceMsg)
    else if RejectsDownPrice(downPaymentPrice, price.value) then Err(DownPriceMsg)
    else
      var cents := Round2(price.value);
      var downPayment := Round2(downPaymentPrice.value);
      var principal := cents - downPayment;
      assert principal >= 0.0 by { Round2Monotone(downPaymentPrice.value, price.value); }
      var perc := if cents == 0.0 then NaN else Finite(Round2((downPayment / cents) * 100.0));
      Ok(DownPaymentShare(Report(principal), Report(downPayment), perc))
  }
}
