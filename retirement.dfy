/**
 * The arithmetic of one retirement year, which the deterministic decumulation
 * projector and the Monte Carlo trials share: the expense need, the pension
 * offset, the monthly withdrawal and the twelve-month draw-down with its clamp.
 */
module Retirement {
  import opened CashFlows

  /** The scalar inputs that shape every retirement year. */
  datatype Schedule = Schedule(
    retirementAge: int,
    fixedAnnualMortgage: real,
    mortgageEndAge: int,
    annualInflation: real,
    pensionStartAge: int,
    pensionRevaluationRate: real)

  /** The running values at the start of a year. */
  datatype YearState = YearState(portfolio: real, withdrawal: real, pension: real)

  /** The expense need of the year at `age`: general withdrawal plus the mortgage while it is due. */
  function TotalExpenses(sch: Schedule, s: YearState, age: int): real
  {
    s.withdrawal + MortgageDue(sch.fixedAnnualMortgage, sch.mortgageEndAge, age)
  }

  /** The pension counts from `pensionStartAge` on, never before. */
  function PensionContribution(sch: Schedule, s: YearState, age: int): (r: real)
    ensures age < sch.pensionStartAge ==> r == 0.0
  {
    if age >= sch.pensionStartAge then s.pension else 0.0
  }

  /** `Math.max(0, total - pension)`: the smallest non-negative amount that covers the need left after the pension. */
  function NetWithdrawal(total: real, pension: real): (r: real)
    ensures r >= 0.0 && r >= total - pension
    ensures r == 0.0 || r == total - pension
  {
    if total - pension > 0.0 then total - pension else 0.0
  }

  /** A twelfth of the year's net withdrawal. */
  function MonthlyWithdrawal(sch: Schedule, s: YearState, age: int): (r: real)
    ensures r >= 0.0
  {
    NetWithdrawal(TotalExpenses(sch, s, age), PensionContribution(sch, s, age)) / 12.0
  }

  /**
   * The withdrawal baseline for next year is inflated; the pension is revalued at its
   * own rate only in a year in which it was paid.
   */
  function Revalue(sch: Schedule, s: YearState, age: int, portfolio: real): YearState
  {
    YearState(
      portfolio,
      s.withdrawal * (1.0 + sch.annualInflation),
      if age >= sch.pensionStartAge then s.pension * (1.0 + sch.pensionRevaluationRate) else s.pension)
  }

  /**
   * How many earlier years of a retirement starting after `retirementAge` revalued the
   * pension by the time the year of index `year` (1-based) begins.
   */
  function RevaluedYears(sch: Schedule, year: int): nat
  {
    var first := if sch.pensionStartAge > sch.retirementAge + 1 then sch.pensionStartAge else sch.retirementAge + 1;
    if sch.retirementAge + year - first > 0 then sch.retirementAge + year - first else 0
  }

  /** The outcome of the monthly loop: the portfolio left, and whether a month clamped it to zero. */
  datatype Drawn = Drawn(value: real, depleted: bool)

  /**
   * The monthly loop over `months` months: grow, then withdraw; a month that ends at or
   * below zero sets the portfolio to zero and ends the loop.
   */
  function DrawDown(v: real, monthlyRate: real, withdrawal: real, months: nat): Drawn
    decreases months, v
  {
    if months == 0 then Drawn(v, false)
    else
      var next := v * (1.0 + monthlyRate) - withdrawal;
      if next <= 0.0 then Drawn(0.0, true)
      else DrawDown(next, monthlyRate, withdrawal, months - 1)
  }

  /** The portfolio after `k` months with no clamp: the reference the draw-down is compared with. */
  function Unclamped(v: real, monthlyRate: real, withdrawal: real, k: nat): real
    decreases k
  {
    if k == 0 then v else Unclamped(v * (1.0 + monthlyRate) - withdrawal, monthlyRate, withdrawal, k - 1)
  }

  /** Running the unclamped months one at a time. */
  lemma UnclampedStep(v: real, rate: real, w: real, k: nat)
    requires k >= 1
    ensures Unclamped(v, rate, w, k) == Unclamped(v * (1.0 + rate) - w, rate, w, k - 1)
  {
  }

  /**
   * The draw-down clamps exactly when some month of the unclamped run ends at or below
   * zero; otherwise it ends where the unclamped run ends, and then above zero.
   */
  lemma {:induction false} DrawDownAgreesWithUnclamped(v: real, rate: real, w: real, months: nat)
    ensures DrawDown(v, rate, w, months).depleted
        <==> exists k :: 1 <= k <= months && Unclamped(v, rate, w, k) <= 0.0
    ensures DrawDown(v, rate, w, months).depleted ==> DrawDown(v, rate, w, months).value == 0.0
    ensures !DrawDown(v, rate, w, months).depleted ==>
              DrawDown(v, rate, w, months).value == Unclamped(v, rate, w, months)
    ensures !DrawDown(v, rate, w, months).depleted && months >= 1 ==> DrawDown(v, rate, w, months).value > 0.0
    decreases months
  {
    if months > 0 {
      var next := v * (1.0 + rate) - w;
      UnclampedStep(v, rate, w, 1);
      if next <= 0.0 {
        assert DrawDown(v, rate, w, months) == Drawn(0.0, true);
        assert Unclamped(v, rate, w, 1) <= 0.0;
      } else {
        var rest := DrawDown(next, rate, w, months - 1);
        assert DrawDown(v, rate, w, months) == rest;
        DrawDownAgreesWithUnclamped(next, rate, w, months - 1);
        if rest.depleted {
          var k' :| 1 <= k' <= months - 1 && Unclamped(next, rate, w, k') <= 0.0;
          UnclampedStep(v, rate, w, k' + 1);
          assert Unclamped(v, rate, w, k' + 1) <= 0.0;
        } else {
          forall k | 1 <= k <= months
            ensures Unclamped(v, rate, w, k) > 0.0
          {
            UnclampedStep(v, rate, w, k);
            if k > 1 {
              assert !(1 <= k - 1 <= months - 1 && Unclamped(next, rate, w, k - 1) <= 0.0);
            }
          }
          UnclampedStep(v, rate, w, months);
          if months == 1 {
            assert rest.value == next;
          }
        }
      }
    }
  }

  /** After at least one month the portfolio is never negative, whatever it started at. */
  lemma {:induction false} DrawDownNonNegative(v: real, rate: real, w: real, months: nat)
    requires months >= 1
    ensures DrawDown(v, rate, w, months).value >= 0.0
    decreases months
  {
    var next := v * (1.0 + rate) - w;
    if next > 0.0 && months > 1 {
      DrawDownNonNegative(next, rate, w, months - 1);
    }
  }

  /** A month that ends above zero after growth by a non-negative factor started above zero. */
  lemma PositiveBase(v: real, factor: real, w: real)
    requires factor >= 0.0 && w >= 0.0 && v * factor - w > 0.0
    ensures v > 0.0
  {
  }

  /** Growing a larger positive portfolio by a larger non-negative factor gives more. */
  lemma ProductMonotone(v: real, v': real, factor: real, factor': real)
    requires 0.0 < v <= v' && 0.0 <= factor <= factor'
    ensures v * factor <= v' * factor'
  {
    assert v * factor <= v' * factor;
    assert v' * factor <= v' * factor';
  }

  /**
   * The month loop is monotone: from a portfolio at least as large, at a monthly return
   * at least as high (and not below -100%), with the same withdrawal, a run that does
   * not clamp is matched by one that does not clamp either and ends at least as high.
   */
  lemma {:induction false} DrawDownMonotone(v: real, v': real, rate: real, rate': real, w: real, months: nat)
    requires v <= v' && rate <= rate' && 1.0 + rate >= 0.0 && w >= 0.0
    ensures !DrawDown(v, rate, w, months).depleted ==>
      !DrawDown(v', rate', w, months).depleted && DrawDown(v, rate, w, months).value <= DrawDown(v', rate', w, months).value
    decreases months
  {
    if months > 0 {
      var next := v * (1.0 + rate) - w;
      var next' := v' * (1.0 + rate') - w;
      if next > 0.0 {
        PositiveBase(v, 1.0 + rate, w);
        ProductMonotone(v, v', 1.0 + rate, 1.0 + rate');
        DrawDownMonotone(next, next', rate, rate', w, months - 1);
      }
    }
  }

  /**
   * The twelve-month loop of a retirement year, with its early exit.
   */
  method SpendYear(portfolio: real, monthlyRate: real, withdrawal: real) returns (value: real, depleted: bool)
    ensures Drawn(value, depleted) == DrawDown(portfolio, monthlyRate, withdrawal, 12)
    ensures value >= 0.0
  {
    value, depleted := portfolio, false;
    var month := 0;
    while month < 12
      invariant 0 <= month <= 12
      invariant DrawDown(value, monthlyRate, withdrawal, 12 - month) == DrawDown(portfolio, monthlyRate, withdrawal, 12)
      invariant month > 0 ==> value > 0.0
    {
      value := value * (1.0 + monthlyRate);
      value := value - withdrawal;
      if value <= 0.0 {
        value := 0.0;
        depleted := true;
        break;
      }
      month := month + 1;
    }
  }
}
