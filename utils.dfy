/**
  The decimal helpers of collective_accounting/utils.py, a copy of the ones in
  collective_accounting/money.py. They are written out again here, as the
  file does, and proved to agree with the Money module on every input.
*/
module Utils {
  import opened Outcomes
  import Money

  /** round_to_cent: quantize to the cent, ties to even. */
  function RoundToCent(x: Money.Number): (c: Money.Cents)
    ensures c == Money.RoundToCent(x)
    ensures -x.den <= 2 * (100 * x.num - c * x.den) <= x.den
  {
    Money.NearestEven(100 * x.num, x.den)
  }

  /** divide: quotient rounded to the cent, remainder restoring the amount exactly. */
  function Divide(amount: Money.Cents, denominator: int): (r: Result<Money.Split>)
    ensures r == Money.Divide(amount, denominator)
    ensures r.Ok? ==> r.value.quotient * denominator + r.value.remainder == amount
    ensures r.Ok? ==> 2 * Money.Abs(r.value.remainder) <= Money.Abs(denominator)
  {
    if denominator == 0 then Err(DivisionByZero)
    else
      var ratio: Money.Number := if denominator > 0 then Money.Fraction(amount, 100 * denominator)
                                 else Money.Fraction(-amount, -100 * denominator);
      var q := RoundToCent(ratio);
      Money.DivideRemainderBound(amount, denominator);
      Ok(Money.Split(q, amount - q * denominator))
  }
}
