/**
  Cent-exact money arithmetic (collective_accounting/money.py).

  Every amount of money is a whole number of cents. A number handed to the
  money layer from outside (a Python int, float or Decimal) is an exact
  fraction `Number`; `RoundToCent` quantizes it to the cent with Decimal's
  default rounding, ROUND_HALF_EVEN.
*/
module Money {
  import opened Outcomes

  type Cents = int

  /** An exact number num/den, the value a Decimal is built from. */
  datatype Fraction = Fraction(num: int, den: int)
  type Number = x: Fraction | x.den > 0 witness Fraction(0, 1)

  /** A whole number of currency units, as a Number. */
  function Units(k: int): Number { Fraction(k, 1) }

  /** An amount of cents, as a Number. */
  function OfCents(c: Cents): Number { Fraction(c, 100) }

  /** The integer nearest to num/den, ties going to the even neighbour. */
  function NearestEven(num: int, den: int): (q: int)
    requires den > 0
    ensures -den <= 2 * (num - q * den) <= den
    ensures 2 * (num - q * den) == den ==> q % 2 == 0
    ensures 2 * (num - q * den) == -den ==> q % 2 == 0
  {
    var f, r := num / den, num % den;
    assert num - f * den == r;
    assert num - (f + 1) * den == r - den;
    if 2 * r < den then f
    else if 2 * r > den then f + 1
    else if f % 2 == 0 then f
    else f + 1
  }

  lemma MultipleBounds(e: int, den: int)
    requires den > 0
    ensures e >= 2 ==> e * den >= 2 * den
    ensures e <= -1 ==> e * den <= -den
  {
    if e >= 2 {
      assert e * den == 2 * den + (e - 2) * den;
    } else if e <= -1 {
      assert e * den == -den + (e + 1) * den;
    }
  }

  /** Only the multiples 0 and den of a positive den lie within half a den of a remainder r. */
  lemma MultipleNearRemainder(e: int, den: int, r: int)
    requires den > 0 && 0 <= r < den
    requires -den <= 2 * (r - e * den) <= den
    ensures e == 0 || e == 1
  {
    MultipleBounds(e, den);
  }

  /** The postcondition of NearestEven determines its result. */
  lemma {:induction false} NearestEvenUnique(num: int, den: int, q: int)
    requires den > 0
    requires -den <= 2 * (num - q * den) <= den
    requires 2 * (num - q * den) == den ==> q % 2 == 0
    requires 2 * (num - q * den) == -den ==> q % 2 == 0
    ensures q == NearestEven(num, den)
  {
    var f, r := num / den, num % den;
    var e := q - f;
    // q sits e denominators above the floor, so its error is the remainder less e denominators
    assert num - q * den == r - e * den by {
      assert q * den == f * den + e * den;
    }
    MultipleNearRemainder(e, den, r);
  }

  /** round_to_cent: the Number quantized to a whole number of cents. */
  function RoundToCent(x: Number): (c: Cents)
    ensures -x.den <= 2 * (100 * x.num - c * x.den) <= x.den
    ensures 2 * (100 * x.num - c * x.den) == x.den ==> c % 2 == 0
    ensures 2 * (100 * x.num - c * x.den) == -x.den ==> c % 2 == 0
  {
    NearestEven(100 * x.num, x.den)
  }

  /** An amount already in whole cents is left as it is. */
  lemma RoundToCentOfCents(c: Cents)
    ensures RoundToCent(OfCents(c)) == c
  {
    NearestEvenUnique(100 * c, 100, c);
  }

  /** A whole number of units becomes that many hundreds of cents. */
  lemma RoundToCentOfUnits(k: int)
    ensures RoundToCent(Units(k)) == 100 * k
  {
    NearestEvenUnique(100 * k, 1, 100 * k);
  }

  /** Quotient rounded to the cent and the remainder that restores the dividend. */
  datatype Split = Split(quotient: Cents, remainder: Cents)

  /** divide(amount, denominator): Decimal division then round_to_cent. */
  function Divide(amount: Cents, denominator: int): (r: Result<Split>)
    ensures r.Err? <==> denominator == 0
    ensures r.Err? ==> r.error == DivisionByZero
    ensures r.Ok? ==> r.value.quotient * denominator + r.value.remainder == amount
  {
    if denominator == 0 then Err(DivisionByZero)
    else
      // amount / 100 units divided by denominator, as a fraction with positive denominator
      var ratio: Number := if denominator > 0 then Fraction(amount, 100 * denominator)
                           else Fraction(-amount, -100 * denominator);
      var q := RoundToCent(ratio);
      Ok(Split(q, amount - q * denominator))
  }

  function Abs(x: int): nat { if x < 0 then -x else x }

  /** An error within half of 100 n cents, scaled down by 100, is within half of n. */
  lemma ScaledHalf(a: int, q: int, n: int)
    requires n > 0
    requires -100 * n <= 2 * (100 * a - q * (100 * n)) <= 100 * n
    ensures -n <= 2 * (a - q * n) <= n
  {
    assert q * (100 * n) == 100 * (q * n);
  }

  /** The quotient is the nearest cent, so the remainder is at most half the denominator. */
  lemma {:induction false} DivideRemainderBound(amount: Cents, denominator: int)
    requires denominator != 0
    ensures 2 * Abs(Divide(amount, denominator).value.remainder) <= Abs(denominator)
  {
    var n := Abs(denominator);
    var sign := if denominator > 0 then 1 else -1;
    var x: Number := Fraction(sign * amount, 100 * n);
    var q := RoundToCent(x);
    assert Divide(amount, denominator).value == Split(q, amount - q * denominator);
    ScaledHalf(sign * amount, q, n);
    assert q * denominator == sign * (q * n);
  }

  /** When the denominator divides the amount, the division is exact. */
  lemma {:induction false} DivideExact(k: Cents, denominator: int)
    requires denominator != 0
    ensures Divide(k * denominator, denominator) == Ok(Split(k, 0))
  {
    var amount := k * denominator;
    if denominator > 0 {
      var x := Fraction(amount, 100 * denominator);
      assert 100 * x.num - k * x.den == 0;
      NearestEvenUnique(100 * x.num, x.den, k);
    } else {
      var x := Fraction(-amount, -100 * denominator);
      assert 100 * x.num - k * x.den == 0;
      NearestEvenUnique(100 * x.num, x.den, k);
    }
  }

  /** divide(9, 3), divide(10, 3), divide(20, 3), and the three-way splits of 125 and 100. */
  lemma DivideSamples()
    ensures Divide(900, 3) == Ok(Split(300, 0))
    ensures Divide(1000, 3) == Ok(Split(333, 1))
    ensures Divide(2000, 3) == Ok(Split(667, -1))
    ensures Divide(12500, 3) == Ok(Split(4167, -1))
    ensures Divide(10000, 3) == Ok(Split(3333, 1))
  {
    DivideExact(300, 3);
    NearestEvenUnique(100 * 1000, 300, 333);
    NearestEvenUnique(100 * 2000, 300, 667);
    NearestEvenUnique(100 * 12500, 300, 4167);
    NearestEvenUnique(100 * 10000, 300, 3333);
  }

  /** round_to_cent(10) and round_to_cent of the exact decimals 10.123, 0.005 and 0.015. */
  lemma RoundToCentSamples()
    ensures RoundToCent(Units(10)) == 1000
    ensures RoundToCent(Fraction(10123, 1000)) == 1012
    ensures RoundToCent(Fraction(5, 1000)) == 0
    ensures RoundToCent(Fraction(15, 1000)) == 2
  {
    RoundToCentOfUnits(10);
    NearestEvenUnique(100 * 10123, 1000, 1012);
    NearestEvenUnique(100 * 5, 1000, 0);
    NearestEvenUnique(100 * 15, 1000, 2);
  }

  function Sum(s: seq<Cents>): Cents
  {
    if s == [] then 0 else s[0] + Sum(s[1..])
  }

  lemma {:induction false} SumConcat(a: seq<Cents>, b: seq<Cents>)
    ensures Sum(a + b) == Sum(a) + Sum(b)
  {
    if a != [] {
      assert a + b != [] && (a + b)[0] == a[0];
      assert (a + b)[1..] == a[1..] + b;
      SumConcat(a[1..], b);
    } else {
      assert a + b == b;
    }
  }

  lemma {:induction false} SumConstant(q: Cents, k: nat)
    ensures Sum(seq(k, _ => q)) == k * q
  {
    if k > 0 {
      assert seq(k, _ => q) == [q] + seq(k - 1, _ => q);
      SumConstant(q, k - 1);
    }
  }

  /** One share of q + rem and n - 1 shares of q add up to q n + rem. */
  lemma SharesSum(q: Cents, rem: Cents, n: nat)
    requires n > 0
    ensures Sum([q + rem] + seq(n - 1, _ => q)) == q * n + rem
  {
    SumConcat([q + rem], seq(n - 1, _ => q));
    SumConstant(q, n - 1);
  }

  /**
    divide_into(n): the amount split into n shares; the first share absorbs
    the remainder of the rounded division, the others get the quotient.
  */
  function Shares(amount: Cents, n: nat): (r: Result<seq<Cents>>)
    ensures r.Err? <==> n == 0
    ensures r.Err? ==> r.error == DivisionByZero
    ensures r.Ok? ==> |r.value| == n && Sum(r.value) == amount
    ensures r.Ok? ==> r.value[0] == Divide(amount, n).value.quotient + Divide(amount, n).value.remainder
    ensures r.Ok? ==> forall i :: 1 <= i < n ==> r.value[i] == Divide(amount, n).value.quotient
  {
    match Divide(amount, n)
    case Err(e) => Err(e)
    case Ok(Split(q, rem)) =>
      SharesSum(q, rem, n);
      Ok([q + rem] + seq(n - 1, _ => q))
  }

  /** A multiple of the share count splits into equal shares. */
  lemma SharesOfMultiple(k: Cents, n: nat)
    requires n > 0
    ensures Shares(k * n, n) == Ok(seq(n, _ => k))
  {
    DivideExact(k, n);
    var s := Shares(k * n, n).value;
    assert forall i :: 0 <= i < n ==> s[i] == k;
    assert s == seq(n, _ => k);
  }
}
