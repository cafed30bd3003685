/**
 * calculateDecumulationPhase: the retirement years, simulated year by year and month
 * by month, stopping after a year that ends with an empty portfolio.
 */
module Decumulation {
  import opened Types
  import opened Inflation
  import opened CashFlows
  import opened Retirement

  datatype DecumulationParams = DecumulationParams(
    startValue: real,
    initialAnnualGeneralWithdrawal: real,
    fixedAnnualMortgage: real,
    annualReturn: real,
    annualInflation: real,
    duration: int,
    retirementAge: int,
    mortgageEndAge: int,
    pensionAtStartAge: real,
    pensionStartAge: int,
    pensionRevaluationRate: real,
    extraIncomes: seq<ExtraEvent>,
    extraExpenses: seq<ExtraEvent>)
  {
    /** The inputs every retirement year reads. */
    function Terms(): Schedule
    {
      Schedule(retirementAge, fixedAnnualMortgage, mortgageEndAge, annualInflation, pensionStartAge, pensionRevaluationRate)
    }

    /** The most years simulated: the loop `year = 1 .. duration` runs no time when `duration <= 0`. */
    function Span(): nat
    {
      if duration > 0 then duration else 0
    }

    /** The running values before the first year; the pension is taken as already valued for its first year. */
    function Start(): YearState
    {
      YearState(startValue, initialAnnualGeneralWithdrawal, pensionAtStartAge)
    }
  }

  /** One simulated year: the state for the next year, the point recorded, and whether the monthly loop clamped. */
  datatype YearOutcome = YearOutcome(next: YearState, point: ProjectionDataPoint, depleted: bool)

  /**
   * The year of index `year` (1-based): twelve months of growth and withdrawal, then
   * the year's extra cash, then inflation of the withdrawal and revaluation of the pension.
   * The recorded general expense divides the inflated baseline back by `1 + annualInflation`.
   */
  function DecYear(p: DecumulationParams, s: YearState, year: int): (o: YearOutcome)
    requires 1.0 + p.annualInflation != 0.0
    ensures o.point.age == p.retirementAge + year
    ensures o.point.value == Round(o.next.portfolio) as real
  {
    var sch := p.Terms();
    var age := p.retirementAge + year;
    var total := TotalExpenses(sch, s, age);
    var pension := PensionContribution(sch, s, age);
    var drawn := DrawDown(s.portfolio, p.annualReturn / 12.0, MonthlyWithdrawal(sch, s, age), 12);
    var portfolio := drawn.value + NetFlow(p.extraIncomes, p.extraExpenses, age);
    var next := Revalue(sch, s, age, portfolio);
    YearOutcome(
      next,
      ProjectionDataPoint(
        age, Round(portfolio) as real, Round(next.withdrawal / (1.0 + p.annualInflation)) as real,
        Round(total) as real, Some(Round(pension) as real)),
      drawn.depleted)
  }

  /** Dividing by the factor just multiplied in gives the value back. */
  lemma Deflate(x: real, w: real, f: real)
    requires f != 0.0 && x == w * f
    ensures x / f == w
  {
  }

  /** The points of at most `n` years starting with the year of index `year`, ending early after a year that leaves exactly zero. */
  function DecFrom(p: DecumulationParams, s: YearState, year: int, n: nat): seq<ProjectionDataPoint>
    requires 1.0 + p.annualInflation != 0.0
    decreases n
  {
    if n == 0 then []
    else
      var o := DecYear(p, s, year);
      [o.point] + (if o.next.portfolio == 0.0 then [] else DecFrom(p, o.next, year + 1, n - 1))
  }

  /** One year of the trajectory, then the rest. */
  lemma DecFromUnfold(p: DecumulationParams, s: YearState, year: int, n: nat)
    requires 1.0 + p.annualInflation != 0.0
    requires n >= 1
    ensures var o := DecYear(p, s, year);
      DecFrom(p, s, year, n) == [o.point] + (if o.next.portfolio == 0.0 then [] else DecFrom(p, o.next, year + 1, n - 1))
  {
  }

  /** A pass of the yearly loop appends the year's point, then either stops or leaves the rest of the trajectory to come. */
  lemma DecStep(p: DecumulationParams, s: YearState, year: int, n: nat, done: seq<ProjectionDataPoint>, next: YearState, point: ProjectionDataPoint)
    requires 1.0 + p.annualInflation != 0.0
    requires n >= 1
    requires DecYear(p, s, year).next == next && DecYear(p, s, year).point == point
    ensures done + DecFrom(p, s, year, n)
      == (done + [point]) + (if next.portfolio == 0.0 then [] else DecFrom(p, next, year + 1, n - 1))
  {
    DecFromUnfold(p, s, year, n);
  }

  /** What calculateDecumulationPhase returns. */
  function Decumulate(p: DecumulationParams): seq<ProjectionDataPoint>
    requires 1.0 + p.annualInflation != 0.0
  {
    DecFrom(p, p.Start(), 1, p.Span())
  }

  /** The body of one pass of the yearly loop, on the running values it updates. */
  method RetirementYear(p: DecumulationParams, portfolio: real, withdrawal: real, pension: real, year: int)
    returns (portfolio': real, withdrawal': real, pension': real, point: ProjectionDataPoint)
    requires 1.0 + p.annualInflation != 0.0
    ensures DecYear(p, YearState(portfolio, withdrawal, pension), year).next == YearState(portfolio', withdrawal', pension')
    ensures DecYear(p, YearState(portfolio, withdrawal, pension), year).point == point
  {
    ghost var s := YearState(portfolio, withdrawal, pension);
    var age := p.retirementAge + year;
    var totalExpenses := withdrawal;
    if age <= p.mortgageEndAge {
      totalExpenses := totalExpenses + p.fixedAnnualMortgage;
    }
    assert totalExpenses == TotalExpenses(p.Terms(), s, age);
    var pensionContribution := 0.0;
    if age >= p.pensionStartAge {
      pensionContribution := pension;
    }
    assert pensionContribution == PensionContribution(p.Terms(), s, age);
    var annualNetWithdrawal := if totalExpenses - pensionContribution > 0.0 then totalExpenses - pensionContribution else 0.0;
    assert annualNetWithdrawal / 12.0 == MonthlyWithdrawal(p.Terms(), s, age);
    var depleted;
    portfolio', depleted := SpendYear(portfolio, p.annualReturn / 12.0, annualNetWithdrawal / 12.0);
    assert portfolio' == DrawDown(portfolio, p.annualReturn / 12.0, MonthlyWithdrawal(p.Terms(), s, age), 12).value;
    var net := NetExtraCashFlow(p.extraIncomes, p.extraExpenses, age);
    portfolio' := portfolio' + net;
    withdrawal' := withdrawal * (1.0 + p.annualInflation);
    pension' := pension;
    if age >= p.pensionStartAge {
      pension' := pension * (1.0 + p.pensionRevaluationRate);
    }
    assert YearState(portfolio', withdrawal', pension') == Revalue(p.Terms(), s, age, portfolio');
    point := ProjectionDataPoint(
      age, Round(portfolio') as real, Round(withdrawal' / (1.0 + p.annualInflation)) as real,
      Round(totalExpenses) as real, Some(Round(pensionContribution) as real));
  }

  method CalculateDecumulationPhase(p: DecumulationParams) returns (data: seq<ProjectionDataPoint>)
    requires 1.0 + p.annualInflation != 0.0
    ensures data == Decumulate(p)
  {
    var portfolio := p.startValue;
    var withdrawal := p.initialAnnualGeneralWithdrawal;
    data := [];
    var pension := p.pensionAtStartAge;
    var year := 1;
    while year <= p.duration
      invariant 1 <= year <= p.Span() + 1
      invariant data + DecFrom(p, YearState(portfolio, withdrawal, pension), year, p.Span() - year + 1) == Decumulate(p)
    {
      ghost var before := YearState(portfolio, withdrawal, pension);
      ghost var done := data;
      ghost var left := p.Span() - year + 1;
      var point;
      portfolio, withdrawal, pension, point := RetirementYear(p, portfolio, withdrawal, pension, year);
      DecStep(p, before, year, left, done, YearState(portfolio, withdrawal, pension), point);
      data := data + [point];
      if portfolio == 0.0 {
        break;
      }
      year := year + 1;
    }
  }

  /** The running values `k` years after state `s` at year `year`, as if the trajectory never stopped. */
  function StateAt(p: DecumulationParams, s: YearState, year: int, k: nat): YearState
    requires 1.0 + p.annualInflation != 0.0
    decreases k
  {
    if k == 0 then s else StateAt(p, DecYear(p, s, year).next, year + 1, k - 1)
  }

  /** The k-th recorded point is the point of the year reached after k steps. */
  lemma {:induction false} DecFromAt(p: DecumulationParams, s: YearState, year: int, n: nat, k: nat)
    requires 1.0 + p.annualInflation != 0.0
    requires k < |DecFrom(p, s, year, n)|
    ensures DecFrom(p, s, year, n)[k] == DecYear(p, StateAt(p, s, year, k), year + k).point
    decreases k
  {
    var o := DecYear(p, s, year);
    if k > 0 {
      assert o.next.portfolio != 0.0;
      var rest := DecFrom(p, o.next, year + 1, n - 1);
      assert DecFrom(p, s, year, n) == [o.point] + rest;
      assert DecFrom(p, s, year, n)[k] == rest[k - 1];
      DecFromAt(p, o.next, year + 1, n - 1, k - 1);
      assert StateAt(p, s, year, k) == StateAt(p, o.next, year + 1, k - 1);
    }
  }

  /**
   * At most `n` points; at least one when `n >= 1`; every year but the last ends with a
   * nonzero portfolio, and a trajectory shorter than `n` ends with a year that leaves exactly zero.
   */
  lemma {:induction false} DecFromLength(p: DecumulationParams, s: YearState, year: int, n: nat)
    requires 1.0 + p.annualInflation != 0.0
    ensures |DecFrom(p, s, year, n)| <= n
    ensures n >= 1 ==> |DecFrom(p, s, year, n)| >= 1
    ensures forall j :: 1 <= j < |DecFrom(p, s, year, n)| ==> StateAt(p, s, year, j).portfolio != 0.0
    ensures |DecFrom(p, s, year, n)| < n ==> StateAt(p, s, year, |DecFrom(p, s, year, n)|).portfolio == 0.0
    decreases n
  {
    if n > 0 {
      var o := DecYear(p, s, year);
      if o.next.portfolio != 0.0 {
        DecFromLength(p, o.next, year + 1, n - 1);
        var rest := DecFrom(p, o.next, year + 1, n - 1);
        assert DecFrom(p, s, year, n) == [o.point] + rest;
        forall j | 1 <= j < |DecFrom(p, s, year, n)|
          ensures StateAt(p, s, year, j).portfolio != 0.0
        {
          assert StateAt(p, s, year, j) == StateAt(p, o.next, year + 1, j - 1);
        }
        assert StateAt(p, s, year, |rest| + 1) == StateAt(p, o.next, year + 1, |rest|);
      } else {
        assert StateAt(p, s, year, 1) == o.next;
      }
    }
  }

  /** Revaluation years grow by one exactly in a year whose age has reached the pension start age. */
  lemma RevaluedYearsStep(sch: Schedule, year: int)
    requires year >= 1
    ensures RevaluedYears(sch, year + 1) == RevaluedYears(sch, year) + (if sch.retirementAge + year >= sch.pensionStartAge then 1 else 0)
  {
  }

  /** The running withdrawal and pension for the next year, read off one year. */
  lemma NextRunning(p: DecumulationParams, s: YearState, year: int)
    requires 1.0 + p.annualInflation != 0.0
    ensures DecYear(p, s, year).next.withdrawal == s.withdrawal * (1.0 + p.annualInflation)
    ensures DecYear(p, s, year).next.pension
      == if p.retirementAge + year >= p.pensionStartAge then s.pension * (1.0 + p.pensionRevaluationRate) else s.pension
  {
  }

  /** One year moves the withdrawal one more year along its inflation schedule. */
  lemma WithdrawalStep(p: DecumulationParams, s: YearState, year: int)
    requires 1.0 + p.annualInflation != 0.0
    requires year >= 1
    requires s.withdrawal == Inflated(p.initialAnnualGeneralWithdrawal, p.annualInflation, year - 1)
    ensures DecYear(p, s, year).next.withdrawal == Inflated(p.initialAnnualGeneralWithdrawal, p.annualInflation, year)
  {
    NextRunning(p, s, year);
    InflatedStep(p.initialAnnualGeneralWithdrawal, p.annualInflation, year - 1);
  }

  /** One year moves the pension one more revaluation along exactly when it was paid. */
  lemma PensionStep(p: DecumulationParams, s: YearState, year: int)
    requires 1.0 + p.annualInflation != 0.0
    requires year >= 1
    requires s.pension == Inflated(p.pensionAtStartAge, p.pensionRevaluationRate, RevaluedYears(p.Terms(), year))
    ensures DecYear(p, s, year).next.pension == Inflated(p.pensionAtStartAge, p.pensionRevaluationRate, RevaluedYears(p.Terms(), year + 1))
  {
    NextRunning(p, s, year);
    RevaluedYearsStep(p.Terms(), year);
    InflatedStep(p.pensionAtStartAge, p.pensionRevaluationRate, RevaluedYears(p.Terms(), year));
  }

  /**
   * From a year whose withdrawal is the initial one inflated over `year - 1` years, the
   * withdrawal `k` years later is the initial one inflated over `year - 1 + k` years.
   */
  lemma {:induction false} WithdrawalSchedule(p: DecumulationParams, s: YearState, year: int, k: nat)
    requires 1.0 + p.annualInflation != 0.0
    requires year >= 1
    requires s.withdrawal == Inflated(p.initialAnnualGeneralWithdrawal, p.annualInflation, year - 1)
    ensures StateAt(p, s, year, k).withdrawal == Inflated(p.initialAnnualGeneralWithdrawal, p.annualInflation, year - 1 + k)
    decreases k
  {
    if k > 0 {
      var next := DecYear(p, s, year).next;
      WithdrawalStep(p, s, year);
      WithdrawalSchedule(p, next, year + 1, k - 1);
      assert StateAt(p, s, year, k) == StateAt(p, next, year + 1, k - 1);
    }
  }

  /**
   * From a year whose pension is the initial one revalued once per year already paid,
   * the pension `k` years later is revalued once per year paid by then.
   */
  lemma {:induction false} PensionSchedule(p: DecumulationParams, s: YearState, year: int, k: nat)
    requires 1.0 + p.annualInflation != 0.0
    requires year >= 1
    requires s.pension == Inflated(p.pensionAtStartAge, p.pensionRevaluationRate, RevaluedYears(p.Terms(), year))
    ensures StateAt(p, s, year, k).pension == Inflated(p.pensionAtStartAge, p.pensionRevaluationRate, RevaluedYears(p.Terms(), year + k))
    decreases k
  {
    if k > 0 {
      var next := DecYear(p, s, year).next;
      PensionStep(p, s, year);
      PensionSchedule(p, next, year + 1, k - 1);
      assert StateAt(p, s, year, k) == StateAt(p, next, year + 1, k - 1);
    }
  }

  /** The fields of one year's point other than the portfolio value, read off the running values. */
  lemma RecordedFields(p: DecumulationParams, s: YearState, year: int)
    requires 1.0 + p.annualInflation != 0.0
    ensures DecYear(p, s, year).point.generalExpenses == Round(s.withdrawal) as real
    ensures DecYear(p, s, year).point.totalExpenses
      == Round(s.withdrawal + MortgageDue(p.fixedAnnualMortgage, p.mortgageEndAge, p.retirementAge + year)) as real
    ensures DecYear(p, s, year).point.pensionIncome
      == Some(if p.retirementAge + year >= p.pensionStartAge then Round(s.pension) as real else 0.0)
  {
    var o := DecYear(p, s, year);
    NextRunning(p, s, year);
    Deflate(o.next.withdrawal, s.withdrawal, 1.0 + p.annualInflation);
    assert Round(0.0) == 0;
  }

  /**
   * Shape of the decumulation trajectory: at most `max(0, duration)` points, at least one
   * when `duration >= 1`, consecutive ages from `retirementAge + 1`, and a trajectory cut
   * short ends with a recorded value of 0.
   */
  lemma DecumulationShape(p: DecumulationParams)
    requires 1.0 + p.annualInflation != 0.0
    ensures |Decumulate(p)| <= p.Span()
    ensures p.duration >= 1 ==> |Decumulate(p)| >= 1
    ensures forall k :: 0 <= k < |Decumulate(p)| ==> Decumulate(p)[k].age == p.retirementAge + 1 + k
    ensures 0 < |Decumulate(p)| < p.Span() ==> Decumulate(p)[|Decumulate(p)| - 1].value == 0.0
  {
    var d := Decumulate(p);
    DecFromLength(p, p.Start(), 1, p.Span());
    forall k | 0 <= k < |d|
      ensures d[k].age == p.retirementAge + 1 + k
    {
      DecFromAt(p, p.Start(), 1, p.Span(), k);
    }
    if 0 < |d| < p.Span() {
      var last := |d| - 1;
      DecFromAt(p, p.Start(), 1, p.Span(), last);
      var st := StateAt(p, p.Start(), 1, last);
      StateAtNext(p, p.Start(), 1, last);
      assert DecYear(p, st, 1 + last).next.portfolio == 0.0;
      assert Round(0.0) == 0;
    }
  }

  /** One more step of the running values is one more year from where they stand. */
  lemma {:induction false} StateAtNext(p: DecumulationParams, s: YearState, year: int, k: nat)
    requires 1.0 + p.annualInflation != 0.0
    ensures StateAt(p, s, year, k + 1) == DecYear(p, StateAt(p, s, year, k), year + k).next
    decreases k
  {
    if k > 0 {
      StateAtNext(p, DecYear(p, s, year).next, year + 1, k - 1);
    }
  }

  /**
   * Expenses of year k+1 of retirement: the general expense is the initial withdrawal
   * inflated over k years, and the total adds the mortgage exactly while `age <= mortgageEndAge`.
   */
  lemma DecumulationExpenses(p: DecumulationParams, k: nat)
    requires 1.0 + p.annualInflation != 0.0
    requires k < |Decumulate(p)|
    ensures var pt := Decumulate(p)[k]; var age := p.retirementAge + 1 + k;
      && pt.generalExpenses == Round(Inflated(p.initialAnnualGeneralWithdrawal, p.annualInflation, k)) as real
      && pt.totalExpenses == Round(Inflated(p.initialAnnualGeneralWithdrawal, p.annualInflation, k)
           + (if age <= p.mortgageEndAge then p.fixedAnnualMortgage else 0.0)) as real
  {
    DecFromAt(p, p.Start(), 1, p.Span(), k);
    var st := StateAt(p, p.Start(), 1, k);
    WithdrawalSchedule(p, p.Start(), 1, k);
    RecordedFields(p, st, 1 + k);
  }

  /**
   * The pension of year k+1 of retirement is 0 before `pensionStartAge`, and from then on
   * the initial pension revalued once for every earlier year in which it was paid.
   */
  lemma DecumulationPension(p: DecumulationParams, k: nat)
    requires 1.0 + p.annualInflation != 0.0
    requires k < |Decumulate(p)|
    ensures var age := p.retirementAge + 1 + k;
      Decumulate(p)[k].pensionIncome == Some(if age >= p.pensionStartAge
        then Round(Inflated(p.pensionAtStartAge, p.pensionRevaluationRate, RevaluedYears(p.Terms(), k + 1))) as real
        else 0.0)
  {
    DecFromAt(p, p.Start(), 1, p.Span(), k);
    var st := StateAt(p, p.Start(), 1, k);
    PensionSchedule(p, p.Start(), 1, k);
    RecordedFields(p, st, 1 + k);
  }

  /**
   * Every recorded year ends the monthly loop with a non-negative portfolio, so with no
   * extra expenses no recorded value is negative.
   */
  lemma YearNonNegative(p: DecumulationParams, s: YearState, year: int)
    requires 1.0 + p.annualInflation != 0.0
    ensures var o := DecYear(p, s, year);
      o.next.portfolio >= NetFlow(p.extraIncomes, p.extraExpenses, p.retirementAge + year)
    ensures p.extraExpenses == [] ==> DecYear(p, s, year).point.value >= 0.0
  {
    var sch := p.Terms();
    var age := p.retirementAge + year;
    DrawDownNonNegative(s.portfolio, p.annualReturn / 12.0, MonthlyWithdrawal(sch, s, age), 12);
    if p.extraExpenses == [] {
      SumDueNonNegative(p.extraIncomes, age);
    }
  }

  lemma DecumulationNonNegative(p: DecumulationParams, k: nat)
    requires 1.0 + p.annualInflation != 0.0
    requires p.extraExpenses == []
    requires k < |Decumulate(p)|
    ensures Decumulate(p)[k].value >= 0.0
  {
    DecFromAt(p, p.Start(), 1, p.Span(), k);
    YearNonNegative(p, StateAt(p, p.Start(), 1, k), 1 + k);
  }

  /**
   * A year that ends below zero only because of extra expenses is recorded with a negative
   * value and the trajectory goes on; only an exact zero stops it.
   */
  lemma NegativeYearContinues(p: DecumulationParams, s: YearState, year: int, n: nat)
    requires 1.0 + p.annualInflation != 0.0
    requires n >= 2
    requires DecYear(p, s, year).next.portfolio < -0.5
    ensures DecFrom(p, s, year, n)[0].value < 0.0
    ensures |DecFrom(p, s, year, n)| >= 2
  {
    DecFromLength(p, DecYear(p, s, year).next, year + 1, n - 1);
  }

  /**
   * The stop rule looks at the unrounded portfolio: a year that ends strictly between 0 and
   * 0.5 is recorded as 0 and yet another year follows.
   */
  lemma RoundedZeroContinues(p: DecumulationParams, s: YearState, year: int, n: nat)
    requires 1.0 + p.annualInflation != 0.0
    requires n >= 2
    requires 0.0 < DecYear(p, s, year).next.portfolio < 0.5
    ensures DecFrom(p, s, year, n)[0].value == 0.0
    ensures |DecFrom(p, s, year, n)| >= 2
  {
    DecFromLength(p, DecYear(p, s, year).next, year + 1, n - 1);
  }

  /**
   * Starting from an empty portfolio, with no extra cash in the first year, the first
   * month empties it: a single point of value 0 is recorded and the trajectory stops.
   */
  lemma EmptyStartStops(p: DecumulationParams)
    requires 1.0 + p.annualInflation != 0.0
    requires p.startValue == 0.0 && p.duration >= 1
    requires NetFlow(p.extraIncomes, p.extraExpenses, p.retirementAge + 1) == 0.0
    ensures |Decumulate(p)| == 1
    ensures Decumulate(p)[0].value == 0.0
  {
    var sch := p.Terms();
    var s := p.Start();
    var w := MonthlyWithdrawal(sch, s, p.retirementAge + 1);
    assert DrawDown(0.0, p.annualReturn / 12.0, w, 12) == Drawn(0.0, true);
    var o := DecYear(p, s, 1);
    assert o.next.portfolio == 0.0;
    assert Round(0.0) == 0;
    DecFromUnfold(p, s, 1, p.Span());
  }

  /** No year of the trajectory, up to and including the one that stops it, clamps in its monthly loop. */
  predicate NeverClamps(p: DecumulationParams, s: YearState, year: int, n: nat)
    requires 1.0 + p.annualInflation != 0.0
    decreases n
  {
    n == 0 ||
    var o := DecYear(p, s, year);
    !o.depleted && (o.next.portfolio == 0.0 || NeverClamps(p, o.next, year + 1, n - 1))
  }

  /** The whole projection never clamps. */
  predicate ProjectionNeverClamps(p: DecumulationParams)
    requires 1.0 + p.annualInflation != 0.0
  {
    NeverClamps(p, p.Start(), 1, p.Span())
  }
}
