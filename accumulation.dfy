/**
 * calculateAccumulationPhase: the saving years, simulated year by year and month by
 * month, with a contribution that grows with inflation.
 */
module Accumulation {
  import opened Types
  import opened Inflation
  import opened CashFlows

  datatype AccumulationParams = AccumulationParams(
    initialValue: real,
    initialMonthlyContribution: real,
    annualReturn: real,
    annualInflation: real,
    years: int,
    startAge: int,
    initialGeneralExpenses: real,
    fixedAnnualMortgage: real,
    mortgageEndAge: int,
    extraIncomes: seq<ExtraEvent>,
    extraExpenses: seq<ExtraEvent>)
  {
    /** The number of simulated years: the loop `year = 1 .. years` runs no time when `years <= 0`. */
    function Span(): nat
    {
      if years > 0 then years else 0
    }
  }

  /** The unrounded final value and the yearly points. */
  datatype AccumulationResult = AccumulationResult(finalValue: real, annualData: seq<ProjectionDataPoint>)

  /** The running values between two years. */
  datatype AccState = AccState(fv: real, contribution: real, generalExpenses: real)

  /** `months` months of `fv = fv * (1 + monthlyRate) + contribution`: growth first, the contribution at month end. */
  function Grow(fv: real, monthlyRate: real, contribution: real, months: nat): real
    decreases months, fv
  {
    if months == 0 then fv else Grow(fv, monthlyRate, contribution, months - 1) * (1.0 + monthlyRate) + contribution
  }

  /** With no return and no contribution the monthly loop leaves the value unchanged. */
  lemma {:induction false} GrowFlat(fv: real, months: nat)
    ensures Grow(fv, 0.0, 0.0, months) == fv
  {
    if months > 0 {
      GrowFlat(fv, months - 1);
    }
  }

  /** The point for the starting age: the unrounded initial value and this year's expenses. */
  function InitialPoint(p: AccumulationParams): ProjectionDataPoint
  {
    ProjectionDataPoint(
      p.startAge, p.initialValue, p.initialGeneralExpenses,
      p.initialGeneralExpenses + p.fixedAnnualMortgage, None)
  }

  /**
   * One year: the year's extra cash is added first, then twelve months of growth and
   * contribution; the contribution and the reported expenses are inflated for the next year.
   */
  function YearEnd(p: AccumulationParams, s: AccState, year: int): AccState
  {
    var age := p.startAge + year;
    var fv := s.fv + NetFlow(p.extraIncomes, p.extraExpenses, age);
    AccState(
      Grow(fv, p.annualReturn / 12.0, s.contribution, 12),
      s.contribution * (1.0 + p.annualInflation),
      s.generalExpenses * (1.0 + p.annualInflation))
  }

  /** The point recorded for a year, from the state at its end (values rounded). */
  function YearPoint(p: AccumulationParams, s: AccState, year: int): ProjectionDataPoint
  {
    var age := p.startAge + year;
    ProjectionDataPoint(
      age, Round(s.fv) as real, Round(s.generalExpenses) as real,
      Round(s.generalExpenses + MortgageDue(p.fixedAnnualMortgage, p.mortgageEndAge, age)) as real, None)
  }

  /** The running values after the first `n` years. */
  function StateAfter(p: AccumulationParams, n: nat): AccState
  {
    if n == 0 then AccState(p.initialValue, p.initialMonthlyContribution, p.initialGeneralExpenses)
    else YearEnd(p, StateAfter(p, n - 1), n)
  }

  /** The points recorded over the first `n` years, after the initial point. */
  function PointsAfter(p: AccumulationParams, n: nat): seq<ProjectionDataPoint>
  {
    if n == 0 then [InitialPoint(p)]
    else PointsAfter(p, n - 1) + [YearPoint(p, StateAfter(p, n), n)]
  }

  /** What calculateAccumulationPhase returns. */
  function Accumulate(p: AccumulationParams): AccumulationResult
  {
    AccumulationResult(StateAfter(p, p.Span()).fv, PointsAfter(p, p.Span()))
  }

  /** The twelve months of a saving year. */
  method GrowYear(start: real, monthlyRate: real, contribution: real) returns (fv: real)
    ensures fv == Grow(start, monthlyRate, contribution, 12)
  {
    fv := start;
    var month := 0;
    while month < 12
      invariant 0 <= month <= 12
      invariant fv == Grow(start, monthlyRate, contribution, month)
    {
      fv := fv * (1.0 + monthlyRate) + contribution;
      month := month + 1;
    }
  }

  /** The body of one pass of the yearly loop, on the running values it updates. */
  method SavingYear(p: AccumulationParams, fv: real, contribution: real, generalExpenses: real, year: int)
    returns (fv': real, contribution': real, generalExpenses': real, point: ProjectionDataPoint)
    ensures AccState(fv', contribution', generalExpenses') == YearEnd(p, AccState(fv, contribution, generalExpenses), year)
    ensures point == YearPoint(p, AccState(fv', contribution', generalExpenses'), year)
  {
    var age := p.startAge + year;
    var net := NetExtraCashFlow(p.extraIncomes, p.extraExpenses, age);
    fv' := fv + net;
    generalExpenses' := generalExpenses * (1.0 + p.annualInflation);
    var totalExpenses := generalExpenses';
    if age <= p.mortgageEndAge {
      totalExpenses := totalExpenses + p.fixedAnnualMortgage;
    }
    assert totalExpenses == generalExpenses' + MortgageDue(p.fixedAnnualMortgage, p.mortgageEndAge, age);
    fv' := GrowYear(fv', p.annualReturn / 12.0, contribution);
    contribution' := contribution * (1.0 + p.annualInflation);
    point := ProjectionDataPoint(
      age, Round(fv') as real, Round(generalExpenses') as real, Round(totalExpenses) as real, None);
  }

  method CalculateAccumulationPhase(p: AccumulationParams) returns (finalValue: real, annualData: seq<ProjectionDataPoint>)
    ensures AccumulationResult(finalValue, annualData) == Accumulate(p)
  {
    var fv := p.initialValue;
    var contribution := p.initialMonthlyContribution;
    var generalExpenses := p.initialGeneralExpenses;
    annualData := [InitialPoint(p)];
    var year := 1;
    while year <= p.years
      invariant 1 <= year <= p.Span() + 1
      invariant StateAfter(p, year - 1) == AccState(fv, contribution, generalExpenses)
      invariant PointsAfter(p, year - 1) == annualData
    {
      var point;
      fv, contribution, generalExpenses, point := SavingYear(p, fv, contribution, generalExpenses, year);
      annualData := annualData + [point];
      year := year + 1;
    }
    finalValue := fv;
  }

  /** The trace after `n` years holds `n + 1` points, the first being the initial point. */
  lemma {:induction false} PointsLength(p: AccumulationParams, n: nat)
    ensures |PointsAfter(p, n)| == n + 1
    ensures PointsAfter(p, n)[0] == InitialPoint(p)
  {
    if n > 0 {
      PointsLength(p, n - 1);
    }
  }

  /** Later years only append: the point of year `k` is fixed once year `k` is simulated. */
  lemma {:induction false} PointsPrefix(p: AccumulationParams, n: nat, k: nat)
    requires k <= n
    ensures |PointsAfter(p, n)| == n + 1 && |PointsAfter(p, k)| == k + 1
    ensures PointsAfter(p, n)[k] == PointsAfter(p, k)[k]
  {
    PointsLength(p, n);
    PointsLength(p, k);
    if k < n {
      PointsPrefix(p, n - 1, k);
      PointsLength(p, n - 1);
    }
  }

  /** After `n` years the contribution and the general expenses have been inflated `n` times. */
  lemma StateInflation(p: AccumulationParams, n: nat)
    ensures StateAfter(p, n).contribution == Inflated(p.initialMonthlyContribution, p.annualInflation, n)
    ensures StateAfter(p, n).generalExpenses == Inflated(p.initialGeneralExpenses, p.annualInflation, n)
  {
    ContributionInflation(p, n);
    ExpensesInflation(p, n);
  }

  /** A year inflates the contribution and the general expenses once each, whatever the portfolio does. */
  lemma YearEndInflates(p: AccumulationParams, s: AccState, year: int)
    ensures YearEnd(p, s, year).contribution == s.contribution * (1.0 + p.annualInflation)
    ensures YearEnd(p, s, year).generalExpenses == s.generalExpenses * (1.0 + p.annualInflation)
  {
  }

  /** One year inflates the contribution once. */
  lemma StepContribution(p: AccumulationParams, n: nat)
    requires n > 0
    ensures StateAfter(p, n).contribution == StateAfter(p, n - 1).contribution * (1.0 + p.annualInflation)
  {
    var s := StateAfter(p, n - 1);
    assert StateAfter(p, n).contribution == s.contribution * (1.0 + p.annualInflation) by {
      assert StateAfter(p, n) == YearEnd(p, s, n);
      YearEndInflates(p, s, n);
    }
  }

  /** One year inflates the reported general expenses once. */
  lemma StepExpenses(p: AccumulationParams, n: nat)
    requires n > 0
    ensures StateAfter(p, n).generalExpenses == StateAfter(p, n - 1).generalExpenses * (1.0 + p.annualInflation)
  {
    var s := StateAfter(p, n - 1);
    assert StateAfter(p, n).generalExpenses == s.generalExpenses * (1.0 + p.annualInflation) by {
      assert StateAfter(p, n) == YearEnd(p, s, n);
      YearEndInflates(p, s, n);
    }
  }

  lemma {:induction false} ContributionInflation(p: AccumulationParams, n: nat)
    ensures StateAfter(p, n).contribution == Inflated(p.initialMonthlyContribution, p.annualInflation, n)
  {
    if n > 0 {
      ContributionInflation(p, n - 1);
      StepContribution(p, n);
      InflatedStep(p.initialMonthlyContribution, p.annualInflation, n - 1);
    }
  }

  lemma {:induction false} ExpensesInflation(p: AccumulationParams, n: nat)
    ensures StateAfter(p, n).generalExpenses == Inflated(p.initialGeneralExpenses, p.annualInflation, n)
  {
    if n > 0 {
      ExpensesInflation(p, n - 1);
      StepExpenses(p, n);
      InflatedStep(p.initialGeneralExpenses, p.annualInflation, n - 1);
    }
  }

  /** The point of year `k`: its age, its inflated expenses and the mortgage gating. */
  lemma PointAt(p: AccumulationParams, n: nat, k: nat)
    requires 1 <= k <= n
    ensures |PointsAfter(p, n)| == n + 1
    ensures var g := Inflated(p.initialGeneralExpenses, p.annualInflation, k);
      && PointsAfter(p, n)[k].age == p.startAge + k
      && PointsAfter(p, n)[k].generalExpenses == Round(g) as real
      && PointsAfter(p, n)[k].totalExpenses
         == Round(g + MortgageDue(p.fixedAnnualMortgage, p.mortgageEndAge, p.startAge + k)) as real
      && PointsAfter(p, n)[k].pensionIncome == None
      && PointsAfter(p, n)[k].value == Round(StateAfter(p, k).fv) as real
  {
    PointsPrefix(p, n, k);
    PointsLength(p, k - 1);
    StateInflation(p, k);
  }

  /**
   * calculateAccumulationPhase returns `max(0, years) + 1` points: the initial point
   * at `startAge`, then one point per year at consecutive ages, none of them with a
   * pension; the last value is the rounded final value.
   */
  lemma AccumulationShape(p: AccumulationParams)
    ensures |Accumulate(p).annualData| == p.Span() + 1
    ensures Accumulate(p).annualData[0].age == p.startAge
    ensures Accumulate(p).annualData[0].value == p.initialValue
    ensures Accumulate(p).annualData[0].totalExpenses == p.initialGeneralExpenses + p.fixedAnnualMortgage
    ensures forall k :: 0 <= k < |Accumulate(p).annualData| ==> Accumulate(p).annualData[k].age == p.startAge + k
    ensures forall k :: 0 <= k < |Accumulate(p).annualData| ==> Accumulate(p).annualData[k].pensionIncome == None
    ensures p.years >= 1 ==> Accumulate(p).annualData[p.years].value == Round(Accumulate(p).finalValue) as real
  {
    var n := p.Span();
    PointsLength(p, n);
    forall k | 1 <= k <= n
      ensures PointsAfter(p, n)[k].age == p.startAge + k
      ensures PointsAfter(p, n)[k].pensionIncome == None
    {
      PointAt(p, n, k);
    }
    if n >= 1 {
      PointAt(p, n, n);
    }
  }

  /**
   * In every year the reported total includes the mortgage exactly while the age is at
   * most `mortgageEndAge`, and the general expenses are compounded by `annualInflation`.
   */
  lemma AccumulationExpenses(p: AccumulationParams, k: nat)
    requires 1 <= k <= p.Span()
    ensures |Accumulate(p).annualData| == p.Span() + 1
    ensures var g := Inflated(p.initialGeneralExpenses, p.annualInflation, k);
      && Accumulate(p).annualData[k].generalExpenses == Round(g) as real
      && Accumulate(p).annualData[k].totalExpenses
         == Round(g + (if p.startAge + k <= p.mortgageEndAge then p.fixedAnnualMortgage else 0.0)) as real
  {
    PointAt(p, p.Span(), k);
  }

  /** The sum of the yearly net extra cash flows of years `1 .. n`. */
  function FlowTotal(p: AccumulationParams, n: nat): real
  {
    if n == 0 then 0.0 else FlowTotal(p, n - 1) + NetFlow(p.extraIncomes, p.extraExpenses, p.startAge + n)
  }

  lemma {:induction false} StateFlat(p: AccumulationParams, n: nat)
    requires p.annualReturn == 0.0 && p.initialMonthlyContribution == 0.0
    ensures StateAfter(p, n).fv == p.initialValue + FlowTotal(p, n)
    ensures StateAfter(p, n).contribution == 0.0
  {
    if n > 0 {
      StateFlat(p, n - 1);
      GrowFlat(StateAfter(p, n - 1).fv + NetFlow(p.extraIncomes, p.extraExpenses, p.startAge + n), 12);
    }
  }

  /**
   * With no return and no contribution the final value is the initial value plus the
   * extra cash of every simulated year.
   */
  lemma AccumulationIdentity(p: AccumulationParams)
    requires p.annualReturn == 0.0 && p.initialMonthlyContribution == 0.0
    ensures Accumulate(p).finalValue == p.initialValue + FlowTotal(p, p.Span())
  {
    StateFlat(p, p.Span());
  }
}
