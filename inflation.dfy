/** Compounding and rounding primitives used by every simulation. */
module Inflation {

  /** `b` raised to a whole, non-negative power (`Math.pow` with an integer exponent). */
  function Pow(b: real, n: nat): real
  {
    if n == 0 then 1.0 else Pow(b, n - 1) * b
  }

  lemma {:induction false} PowNonZero(b: real, n: nat)
    requires b != 0.0
    ensures Pow(b, n) != 0.0
  {
    if n > 0 {
      PowNonZero(b, n - 1);
    }
  }

  lemma {:induction false} PowOne(n: nat)
    ensures Pow(1.0, n) == 1.0
  {
    if n > 0 {
      PowOne(n - 1);
    }
  }

  lemma {:induction false} PowAdd(b: real, m: nat, n: nat)
    ensures Pow(b, m + n) == Pow(b, m) * Pow(b, n)
    decreases n
  {
    if n > 0 {
      PowAdd(b, m, n - 1);
      assert Pow(b, m) * Pow(b, n - 1) * b == Pow(b, m) * (Pow(b, n - 1) * b);
    }
  }

  /**
   * calculateInflated: `value * (1 + rate)^years`. A negative number of years
   * deflates, which needs `1 + rate` to be non-zero.
   */
  function Inflated(value: real, rate: real, years: int): (r: real)
    requires years >= 0 || 1.0 + rate != 0.0
    ensures years == 0 ==> r == value
  {
    if years >= 0 then
      value * Pow(1.0 + rate, years)
    else
      PowNonZero(1.0 + rate, -(years as int));
      value / Pow(1.0 + rate, -(years as int))
  }

  /** For a non-negative number of years the result is the compounded product. */
  lemma Forward(value: real, rate: real, years: nat)
    ensures Inflated(value, rate, years) == value * Pow(1.0 + rate, years)
  {
  }

  /** With a zero rate nothing is ever compounded, whatever the number of years. */
  lemma InflatedZeroRate(value: real, years: int)
    ensures Inflated(value, 0.0, years) == value
  {
    var n: nat := if years >= 0 then years else -years;
    PowOne(n);
  }

  /** One more year multiplies the result by `1 + rate`. */
  lemma InflatedStep(value: real, rate: real, years: nat)
    ensures Inflated(value, rate, years + 1) == Inflated(value, rate, years) * (1.0 + rate)
  {
  }

  /** Compounding over `m` and then `n` years is compounding over `m + n` years. */
  lemma InflatedTwice(value: real, rate: real, m: nat, n: nat)
    ensures Inflated(Inflated(value, rate, m), rate, n) == Inflated(value, rate, m + n)
  {
    var b := 1.0 + rate;
    var pm, pn := Pow(b, m), Pow(b, n);
    PowAdd(b, m, n);
    Forward(value, rate, m);
    Forward(value * pm, rate, n);
    Forward(value, rate, m + n);
    assert value * pm * pn == value * (pm * pn);
  }

  /** Deflating by the same number of years undoes inflating. */
  lemma InflatedRoundTrip(value: real, rate: real, years: nat)
    requires 1.0 + rate != 0.0
    ensures Inflated(Inflated(value, rate, years), rate, -(years as int)) == value
  {
    if years > 0 {
      PowNonZero(1.0 + rate, years);
      var p := Pow(1.0 + rate, years);
      assert Inflated(Inflated(value, rate, years), rate, -(years as int)) == value * p / p;
    }
  }

  /** `Math.round`: the nearest integer, halves rounded towards positive infinity. */
  function Round(x: real): (r: int)
    ensures x - 0.5 < r as real <= x + 0.5
  {
    (x + 0.5).Floor
  }
}
