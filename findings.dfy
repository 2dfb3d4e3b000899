/** `downPaymentPerc` checks its bounds on the amounts as given and then
    computes with the amounts rounded to the cent, so the rounding can undo
    what the checks promised. */
module Findings {
  import opened Rounding
  import opened Calculator
  import opened CalculatorProperties

  /** Two inputs the guards let through: a price that rounds to zero makes the
      percentage `0 / 0`; a down payment just below the price rounds up to it,
      leaving nothing to finance and a percentage of 100. */
  lemma DownPaymentPercRoundingGap()
    ensures DownPaymentPerc(Num(0.004), Num(0.001))
         == Ok(DownPaymentShare(Figure(0, 0.0), Figure(0, 0.0), NaN))
    ensures DownPaymentPerc(Num(100.004), Num(100.001))
         == Ok(DownPaymentShare(Figure(0, 0.0), Figure(100, 100.0), Finite(100.0)))
  {
    Round2IsZero(0.004);
    Round2IsZero(0.001);
    FloorIsUnique(100.004 * 100.0 + 0.5, 10000);
    FloorIsUnique(100.001 * 100.0 + 0.5, 10000);
    Round2OfCents(0.0);
    Round2OfCents(100.0);
  }

  /** `downPaymentPerc` with its bounds checked on the amounts rounded to the
      cent, as the messages promise: a positive price, and a positive down
      payment below it. On success the percentage is a number from 0 to 100,
      both parts are positive and they add up to the rounded price. */
  function DownPaymentPercChecked(price: Arg, downPaymentPrice: Arg): (res: Result<DownPaymentShare>)
    ensures res.Ok? <==>
      && price.Num? && downPaymentPrice.Num?
      && 0.0 < Round2(downPaymentPrice.value) < Round2(price.value)
      && 0.0 < downPaymentPrice.value < price.value
    ensures res.Ok? ==>
      && res.value.downPaymentPerc.Finite?
      && 0.0 <= res.value.downPaymentPerc.value <= 100.0
      && res.value.principal.asDecimal > 0.0
      && res.value.downPayment.asDecimal > 0.0
      && res.value.downPayment.asDecimal + res.value.principal.asDecimal == Round2(price.value)
    ensures res.Err? ==> res.msg == (if RejectsPositive(price) || Round2(price.value) <= 0.0 then PriceMsg else DownPriceMsg)
  {
    if RejectsPositive(price) || Round2(price.value) <= 0.0 then Err(PriceMsg)
    else if RejectsDownPrice(downPaymentPrice, price.value)
         || Round2(downPaymentPrice.value) <= 0.0
         || Round2(downPaymentPrice.value) >= Round2(price.value)
    then Err(DownPriceMsg)
    else
      var res := DownPaymentPerc(price, downPaymentPrice);
      assert price.value >= 0.005 by { Round2IsZero(price.value); }
      DownPaymentPercFigures(price, downPaymentPrice);
      CentsDifference(Round2(price.value), Round2(downPaymentPrice.value));
      Round2OfCents(Round2(price.value) - Round2(downPaymentPrice.value));
      res
  }

  /** Wherever the checked version succeeds, it reports exactly what the
      code as written reports; the two inputs of the gap are now rejected. */
  lemma CheckedAgreesWithDownPaymentPerc(price: Arg, downPaymentPrice: Arg)
    ensures DownPaymentPercChecked(price, downPaymentPrice).Ok? ==>
      DownPaymentPercChecked(price, downPaymentPrice) == DownPaymentPerc(price, downPaymentPrice)
    ensures DownPaymentPercChecked(Num(0.004), Num(0.001)) == Err(PriceMsg)
    ensures DownPaymentPercChecked(Num(100.004), Num(100.001)) == Err(DownPriceMsg)
  {
    Round2IsZero(0.004);
    FloorIsUnique(100.004 * 100.0 + 0.5, 10000);
    FloorIsUnique(100.001 * 100.0 + 0.5, 10000);
  }
}
