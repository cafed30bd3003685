/**
 * runMonteCarloSimulation: `simulations` independent retirements, each drawing a fresh
 * annual return every year, counted as a success when no month ever empties the portfolio.
 * The random draws are an input: `draws[i][year - 1]` is the return trial `i` uses in `year`.
 */
module MonteCarlo {
  import opened Types
  import opened CashFlows
  import opened Retirement
  import opened Decumulation

  datatype MonteCarloParams = MonteCarloParams(
    initialPortfolio: real,
    retirementDurationYears: int,
    meanReturn: real,
    stdDev: real,
    simulations: int,
    initialAnnualGeneralWithdrawal: real,
    fixedAnnualMortgage: real,
    retirementAge: int,
    mortgageEndAge: int,
    annualInflation: real,
    pensionAtStartAge: real,
    pensionStartAge: int,
    pensionRevaluationRate: real,
    extraIncomes: seq<ExtraEvent>,
    extraExpenses: seq<ExtraEvent>)
  {
    function Terms(): Schedule
    {
      Schedule(retirementAge, fixedAnnualMortgage, mortgageEndAge, annualInflation, pensionStartAge, pensionRevaluationRate)
    }

    /** The years each trial runs when it survives: none when `retirementDurationYears <= 0`. */
    function Horizon(): nat
    {
      if retirementDurationYears > 0 then retirementDurationYears else 0
    }

    function Start(): YearState
    {
      YearState(initialPortfolio, initialAnnualGeneralWithdrawal, pensionAtStartAge)
    }
  }

  /** One trial year: the year's extra cash first, then the twelve months at this year's drawn return. */
  function TrialYear(m: MonteCarloParams, s: YearState, year: int, annualReturn: real): Drawn
  {
    var age := m.retirementAge + year;
    DrawDown(s.portfolio + NetFlow(m.extraIncomes, m.extraExpenses, age), annualReturn / 12.0, MonthlyWithdrawal(m.Terms(), s, age), 12)
  }

  /** The running values of a trial `j` years after state `s` at year `year`. */
  function TrialState(m: MonteCarloParams, s: YearState, year: int, rates: seq<real>, j: nat): YearState
    requires 1 <= year && year - 1 + j <= |rates|
    decreases j
  {
    if j == 0 then s
    else
      var d := TrialYear(m, s, year, rates[year - 1]);
      TrialState(m, Revalue(m.Terms(), s, m.retirementAge + year, d.value), year + 1, rates, j - 1)
  }

  /** Whether `n` more trial years from state `s` at year `year` all get through their twelve months. */
  predicate SurvivesFrom(m: MonteCarloParams, s: YearState, year: int, rates: seq<real>, n: nat)
    requires 1 <= year && year - 1 + n <= |rates|
    decreases n
  {
    n == 0 ||
    var d := TrialYear(m, s, year, rates[year - 1]);
    !d.depleted && SurvivesFrom(m, Revalue(m.Terms(), s, m.retirementAge + year, d.value), year + 1, rates, n - 1)
  }

  /** Whether the trial that draws `rates` survives the whole retirement. */
  predicate TrialSurvives(m: MonteCarloParams, rates: seq<real>)
    requires |rates| >= m.Horizon()
  {
    SurvivesFrom(m, m.Start(), 1, rates, m.Horizon())
  }

  /** A trial year, with its starting portfolio and monthly withdrawal named. */
  lemma TrialYearIs(m: MonteCarloParams, s: YearState, year: int, annualReturn: real, start: real, monthly: real)
    requires start == s.portfolio + NetFlow(m.extraIncomes, m.extraExpenses, m.retirementAge + year)
    requires monthly == MonthlyWithdrawal(m.Terms(), s, m.retirementAge + year)
    ensures TrialYear(m, s, year, annualReturn) == DrawDown(start, annualReturn / 12.0, monthly, 12)
  {
  }

  /** How many of the first `k` trials survive. */
  function SuccessCount(m: MonteCarloParams, draws: seq<seq<real>>, k: nat): (r: nat)
    requires k <= |draws|
    requires forall i :: 0 <= i < k ==> |draws[i]| >= m.Horizon()
    ensures r <= k
    ensures r == k <==> forall i :: 0 <= i < k ==> TrialSurvives(m, draws[i])
    decreases k, draws
  {
    if k == 0 then 0
    else SuccessCount(m, draws, k - 1) + (if TrialSurvives(m, draws[k - 1]) then 1 else 0)
  }

  /** One trial year up to its monthly loop: extra cash, the year's need net of pension, and the twelve months. */
  method SpendTrialYear(m: MonteCarloParams, portfolio: real, withdrawal: real, pension: real, year: int, annualReturn: real)
    returns (portfolio': real, depleted: bool)
    ensures Drawn(portfolio', depleted) == TrialYear(m, YearState(portfolio, withdrawal, pension), year, annualReturn)
  {
    ghost var s := YearState(portfolio, withdrawal, pension);
    var age := m.retirementAge + year;
    var monthlyReturnRate := annualReturn / 12.0;
    var net := NetExtraCashFlow(m.extraIncomes, m.extraExpenses, age);
    portfolio' := portfolio + net;
    var annualExpenses := withdrawal;
    if age <= m.mortgageEndAge {
      annualExpenses := annualExpenses + m.fixedAnnualMortgage;
    }
    var pensionContribution := 0.0;
    if age >= m.pensionStartAge {
      pensionContribution := pension;
    }
    var annualNetWithdrawal := if annualExpenses - pensionContribution > 0.0 then annualExpenses - pensionContribution else 0.0;
    TrialYearIs(m, s, year, annualReturn, portfolio', annualNetWithdrawal / 12.0);
    portfolio', depleted := SpendYear(portfolio', monthlyReturnRate, annualNetWithdrawal / 12.0);
  }

  /** One trial year, then the rest of the trial. */
  lemma SurvivesFromUnfold(m: MonteCarloParams, s: YearState, year: int, rates: seq<real>, n: nat)
    requires 1 <= year && year - 1 + n <= |rates|
    requires n >= 1
    ensures var d := TrialYear(m, s, year, rates[year - 1]);
      SurvivesFrom(m, s, year, rates, n)
        == (!d.depleted && SurvivesFrom(m, Revalue(m.Terms(), s, m.retirementAge + year, d.value), year + 1, rates, n - 1))
  {
  }

  /** The end of a trial year that did not clamp: the withdrawal is inflated, and the pension revalued once it is paid. */
  method RevalueTrialYear(m: MonteCarloParams, withdrawal: real, pension: real, age: int) returns (withdrawal': real, pension': real)
    ensures forall portfolio :: Revalue(m.Terms(), YearState(portfolio, withdrawal, pension), age, portfolio) == YearState(portfolio, withdrawal', pension')
  {
    withdrawal' := withdrawal * (1.0 + m.annualInflation);
    pension' := pension;
    if age >= m.pensionStartAge {
      pension' := pension * (1.0 + m.pensionRevaluationRate);
    }
  }

  /** One trial: its yearly loop, which ends at the first year that clamps. */
  method RunTrial(m: MonteCarloParams, rates: seq<real>) returns (survived: bool)
    requires |rates| >= m.Horizon()
    ensures survived == TrialSurvives(m, rates)
  {
    var portfolio := m.initialPortfolio;
    survived := true;
    var withdrawal := m.initialAnnualGeneralWithdrawal;
    var pension := m.pensionAtStartAge;
    var year := 1;
    while year <= m.retirementDurationYears
      invariant 1 <= year <= m.Horizon() + 1
      invariant survived
      invariant TrialSurvives(m, rates)
        == SurvivesFrom(m, YearState(portfolio, withdrawal, pension), year, rates, m.Horizon() - year + 1)
    {
      ghost var s := YearState(portfolio, withdrawal, pension);
      ghost var left := m.Horizon() - year + 1;
      var age := m.retirementAge + year;
      var depleted;
      portfolio, depleted := SpendTrialYear(m, portfolio, withdrawal, pension, year, rates[year - 1]);
      if depleted {
        survived := false;
        assert !TrialSurvives(m, rates) by {
          SurvivesFromUnfold(m, s, year, rates, left);
        }
        break;
      }
      withdrawal, pension := RevalueTrialYear(m, withdrawal, pension, age);
      assert TrialSurvives(m, rates) == SurvivesFrom(m, YearState(portfolio, withdrawal, pension), year + 1, rates, left - 1) by {
        SurvivesFromUnfold(m, s, year, rates, left);
      }
      year := year + 1;
    }
  }

  /**
   * The success ratio over `simulations` trials; the trial `i` draws `draws[i]`.
   */
  method RunMonteCarloSimulation(m: MonteCarloParams, draws: seq<seq<real>>) returns (probability: real)
    requires m.simulations > 0
    requires |draws| >= m.simulations
    requires forall i :: 0 <= i < m.simulations ==> |draws[i]| >= m.Horizon()
    ensures probability == SuccessCount(m, draws, m.simulations) as real / m.simulations as real
    ensures 0.0 <= probability <= 1.0
    ensures probability == 1.0 <==> forall i :: 0 <= i < m.simulations ==> TrialSurvives(m, draws[i])
    ensures m.retirementDurationYears <= 0 ==> probability == 1.0
  {
    var successCount := 0;
    var i := 0;
    while i < m.simulations
      invariant 0 <= i <= m.simulations
      invariant successCount == SuccessCount(m, draws, i)
    {
      var survived := RunTrial(m, draws[i]);
      if survived {
        successCount := successCount + 1;
      }
      i := i + 1;
    }
    probability := successCount as real / m.simulations as real;
    Ratio(successCount, m.simulations);
  }

  /** A product with a positive factor is non-negative only when the other factor is. */
  lemma NonNegativeFactor(a: real, t: real)
    requires t > 0.0 && a * t >= 0.0
    ensures a >= 0.0
  {
  }

  /** A count out of a positive total is a ratio in [0, 1], equal to 1 exactly when the count is the total. */
  lemma Ratio(count: nat, total: nat)
    requires 0 < total && count <= total
    ensures 0.0 <= count as real / total as real <= 1.0
    ensures count as real / total as real == 1.0 <==> count == total
  {
    var c, t := count as real, total as real;
    var q := c / t;
    assert q * t == c;
    assert (1.0 - q) * t == t - c;
    NonNegativeFactor(q, t);
    NonNegativeFactor(1.0 - q, t);
    if q == 1.0 {
      assert c == 1.0 * t;
    }
    if count == total {
      assert q == t / t == 1.0;
    }
  }

  /**
   * The portfolio at the end of month `k` of a trial year if no month clamped: the year's
   * extra cash added first, then `k` months of growth and withdrawal.
   */
  function MonthEnd(m: MonteCarloParams, s: YearState, year: int, annualReturn: real, k: nat): real
  {
    var age := m.retirementAge + year;
    Unclamped(s.portfolio + NetFlow(m.extraIncomes, m.extraExpenses, age), annualReturn / 12.0, MonthlyWithdrawal(m.Terms(), s, age), k)
  }

  /** A trial year gets through its twelve months exactly when no month ends at or below zero. */
  lemma YearSurvivesIff(m: MonteCarloParams, s: YearState, year: int, annualReturn: real)
    ensures !TrialYear(m, s, year, annualReturn).depleted
      <==> forall k :: 1 <= k <= 12 ==> MonthEnd(m, s, year, annualReturn, k) > 0.0
  {
    var age := m.retirementAge + year;
    var start := s.portfolio + NetFlow(m.extraIncomes, m.extraExpenses, age);
    var w := MonthlyWithdrawal(m.Terms(), s, age);
    DrawDownAgreesWithUnclamped(start, annualReturn / 12.0, w, 12);
    if TrialYear(m, s, year, annualReturn).depleted {
      var k :| 1 <= k <= 12 && Unclamped(start, annualReturn / 12.0, w, k) <= 0.0;
      assert MonthEnd(m, s, year, annualReturn, k) <= 0.0;
    } else {
      forall k | 1 <= k <= 12
        ensures MonthEnd(m, s, year, annualReturn, k) > 0.0
      {
        assert !(Unclamped(start, annualReturn / 12.0, w, k) <= 0.0);
      }
    }
  }

  /** Year `j` (0-based) of a trial run from state `s` at year `year`. */
  function NthYear(m: MonteCarloParams, s: YearState, year: int, rates: seq<real>, j: nat): Drawn
    requires 1 <= year && year + j <= |rates|
  {
    TrialYear(m, TrialState(m, s, year, rates, j), year + j, rates[year - 1 + j])
  }

  /** The unclamped portfolio at the end of month `k` of year `j` (0-based) of a trial run from state `s`. */
  function NthMonthEnd(m: MonteCarloParams, s: YearState, year: int, rates: seq<real>, j: nat, k: nat): real
    requires 1 <= year && year + j <= |rates|
  {
    MonthEnd(m, TrialState(m, s, year, rates, j), year + j, rates[year - 1 + j], k)
  }

  /** Year `j + 1` from `s` is year `j` from the state one year later. */
  lemma NthYearShift(m: MonteCarloParams, s: YearState, year: int, rates: seq<real>, j: nat)
    requires 1 <= year && year + j + 1 <= |rates|
    ensures var next := Revalue(m.Terms(), s, m.retirementAge + year, TrialYear(m, s, year, rates[year - 1]).value);
      NthYear(m, s, year, rates, j + 1) == NthYear(m, next, year + 1, rates, j)
  {
    var next := Revalue(m.Terms(), s, m.retirementAge + year, TrialYear(m, s, year, rates[year - 1]).value);
    assert TrialState(m, s, year, rates, j + 1) == TrialState(m, next, year + 1, rates, j);
  }

  /** A trial survives `n` years exactly when none of those years clamps. */
  lemma {:induction false} SurvivesIffEveryYear(m: MonteCarloParams, s: YearState, year: int, rates: seq<real>, n: nat)
    requires 1 <= year && year - 1 + n <= |rates|
    ensures SurvivesFrom(m, s, year, rates, n) <==> forall j :: 0 <= j < n ==> !NthYear(m, s, year, rates, j).depleted
    decreases n
  {
    if n > 0 {
      var d := TrialYear(m, s, year, rates[year - 1]);
      var next := Revalue(m.Terms(), s, m.retirementAge + year, d.value);
      SurvivesIffEveryYear(m, next, year + 1, rates, n - 1);
      assert NthYear(m, s, year, rates, 0) == d;
      forall j | 1 <= j < n
        ensures NthYear(m, s, year, rates, j) == NthYear(m, next, year + 1, rates, j - 1)
      {
        NthYearShift(m, s, year, rates, j - 1);
      }
      if SurvivesFrom(m, s, year, rates, n) {
        forall j | 0 <= j < n
          ensures !NthYear(m, s, year, rates, j).depleted
        {
          if j > 0 {
            assert !NthYear(m, next, year + 1, rates, j - 1).depleted;
          }
        }
      } else if !d.depleted {
        var j :| 0 <= j < n - 1 && NthYear(m, next, year + 1, rates, j).depleted;
        assert NthYear(m, s, year, rates, j + 1).depleted;
      }
    }
  }

  /**
   * A trial survives `n` years exactly when no month of any of those years ends at or below zero.
   */
  lemma SurvivesIffNoMonthEmpties(m: MonteCarloParams, s: YearState, year: int, rates: seq<real>, n: nat)
    requires 1 <= year && year - 1 + n <= |rates|
    ensures SurvivesFrom(m, s, year, rates, n)
      <==> forall j, k :: 0 <= j < n && 1 <= k <= 12 ==> NthMonthEnd(m, s, year, rates, j, k) > 0.0
  {
    SurvivesIffEveryYear(m, s, year, rates, n);
    if SurvivesFrom(m, s, year, rates, n) {
      forall j, k | 0 <= j < n && 1 <= k <= 12
        ensures NthMonthEnd(m, s, year, rates, j, k) > 0.0
      {
        assert !NthYear(m, s, year, rates, j).depleted;
        YearSurvivesIff(m, TrialState(m, s, year, rates, j), year + j, rates[year - 1 + j]);
      }
    } else {
      var j :| 0 <= j < n && NthYear(m, s, year, rates, j).depleted;
      YearSurvivesIff(m, TrialState(m, s, year, rates, j), year + j, rates[year - 1 + j]);
      var k :| 1 <= k <= 12 && MonthEnd(m, TrialState(m, s, year, rates, j), year + j, rates[year - 1 + j], k) <= 0.0;
      assert NthMonthEnd(m, s, year, rates, j, k) <= 0.0;
    }
  }

  /** With no years to run, every trial survives. */
  lemma NoYearsAllSurvive(m: MonteCarloParams, rates: seq<real>)
    requires m.retirementDurationYears <= 0
    ensures TrialSurvives(m, rates)
  {
  }

  /** The deterministic projector run on a trial's inputs at a fixed annual return. */
  function Deterministic(m: MonteCarloParams, annualReturn: real): (d: DecumulationParams)
    ensures d.Terms() == m.Terms() && d.Start() == m.Start() && d.Span() == m.Horizon()
    ensures d.annualReturn == annualReturn && d.annualInflation == m.annualInflation
  {
    DecumulationParams(
      m.initialPortfolio, m.initialAnnualGeneralWithdrawal, m.fixedAnnualMortgage, annualReturn,
      m.annualInflation, m.retirementDurationYears, m.retirementAge, m.mortgageEndAge,
      m.pensionAtStartAge, m.pensionStartAge, m.pensionRevaluationRate, m.extraIncomes, m.extraExpenses)
  }

  /**
   * Without extra events, a trial year at return `r` and the deterministic projection's
   * year at the same return clamp together and lead to the same next state; a year that
   * does not clamp leaves a positive portfolio.
   */
  lemma TrialYearIsProjectionYear(m: MonteCarloParams, r: real, s: YearState, year: int)
    requires 1.0 + m.annualInflation != 0.0
    requires m.extraIncomes == [] && m.extraExpenses == []
    ensures var t := TrialYear(m, s, year, r);
      var o := DecYear(Deterministic(m, r), s, year);
      o.depleted == t.depleted && o.next == Revalue(m.Terms(), s, m.retirementAge + year, t.value)
      && (!t.depleted ==> t.value > 0.0)
  {
    var age := m.retirementAge + year;
    var w := MonthlyWithdrawal(m.Terms(), s, age);
    assert NetFlow(m.extraIncomes, m.extraExpenses, age) == 0.0;
    assert TrialYear(m, s, year, r) == DrawDown(s.portfolio, r / 12.0, w, 12);
    DrawDownAgreesWithUnclamped(s.portfolio, r / 12.0, w, 12);
  }

  /**
   * Without extra events and with every drawn return equal to `r`, the remaining `n` years
   * of a trial survive exactly when the deterministic projection from the same state runs
   * all `n` years and never clamps.
   */
  lemma {:induction false} TrialMatchesProjectionFrom(m: MonteCarloParams, r: real, s: YearState, year: int, rates: seq<real>, n: nat)
    requires 1.0 + m.annualInflation != 0.0
    requires m.extraIncomes == [] && m.extraExpenses == []
    requires 1 <= year && year - 1 + n <= |rates|
    requires forall j :: year - 1 <= j < year - 1 + n ==> rates[j] == r
    ensures SurvivesFrom(m, s, year, rates, n)
      <==> |DecFrom(Deterministic(m, r), s, year, n)| == n && NeverClamps(Deterministic(m, r), s, year, n)
    decreases n
  {
    if n > 0 {
      var d := Deterministic(m, r);
      var t := TrialYear(m, s, year, r);
      var o := DecYear(d, s, year);
      assert rates[year - 1] == r;
      TrialYearIsProjectionYear(m, r, s, year);
      SurvivesFromUnfold(m, s, year, rates, n);
      DecFromUnfold(d, s, year, n);
      if !t.depleted {
        assert o.next.portfolio != 0.0;
        TrialMatchesProjectionFrom(m, r, o.next, year + 1, rates, n - 1);
      }
    }
  }

  /**
   * A trial with no extra events whose every drawn return equals the deterministic
   * `annualReturn` survives exactly when the deterministic projection produces
   * `duration` points and never clamps.
   */
  lemma TrialMatchesDeterministic(m: MonteCarloParams, r: real, rates: seq<real>)
    requires 1.0 + m.annualInflation != 0.0
    requires m.extraIncomes == [] && m.extraExpenses == []
    requires |rates| >= m.Horizon()
    requires forall j :: 0 <= j < m.Horizon() ==> rates[j] == r
    ensures TrialSurvives(m, rates)
      <==> |Decumulate(Deterministic(m, r))| == m.Horizon() && ProjectionNeverClamps(Deterministic(m, r))
  {
    TrialMatchesProjectionFrom(m, r, m.Start(), 1, rates, m.Horizon());
  }

  // ---- higher returns never lower the success count ----

  /** The revaluation reads only the withdrawal and the pension of the state it starts from. */
  lemma RevalueSameAmounts(sch: Schedule, s: YearState, s': YearState, age: int, v: real, v': real)
    requires s'.withdrawal == s.withdrawal && s'.pension == s.pension
    ensures Revalue(sch, s', age, v') == Revalue(sch, s, age, v).(portfolio := v')
  {
  }

  /** One trial year is monotone in its starting portfolio and its drawn return, for the same withdrawal and pension. */
  lemma TrialYearMonotone(m: MonteCarloParams, s: YearState, s': YearState, year: int, r: real, r': real)
    requires s'.withdrawal == s.withdrawal && s'.pension == s.pension && s.portfolio <= s'.portfolio
    requires r <= r' && r >= -12.0
    ensures !TrialYear(m, s, year, r).depleted ==>
      !TrialYear(m, s', year, r').depleted && TrialYear(m, s, year, r).value <= TrialYear(m, s', year, r').value
  {
    var age := m.retirementAge + year;
    var w := MonthlyWithdrawal(m.Terms(), s, age);
    assert MonthlyWithdrawal(m.Terms(), s', age) == w;
    var flow := NetFlow(m.extraIncomes, m.extraExpenses, age);
    TrialYearIs(m, s, year, r, s.portfolio + flow, w);
    TrialYearIs(m, s', year, r', s'.portfolio + flow, w);
    DrawDownMonotone(s.portfolio + flow, s'.portfolio + flow, r / 12.0, r' / 12.0, w, 12);
  }

  /**
   * Survival is monotone in the portfolio and the draws: from the same withdrawal and
   * pension and a portfolio at least as large, drawing returns at least as high (none
   * below -1200% a year, where a month's growth factor would turn negative) survives
   * whenever the original draws survive.
   */
  lemma {:induction false} SurvivesMonotone(m: MonteCarloParams, s: YearState, s': YearState, year: int, rates: seq<real>, rates': seq<real>, n: nat)
    requires 1 <= year && year - 1 + n <= |rates| && year - 1 + n <= |rates'|
    requires s'.withdrawal == s.withdrawal && s'.pension == s.pension && s.portfolio <= s'.portfolio
    requires forall j :: year - 1 <= j < year - 1 + n ==> rates[j] <= rates'[j] && rates[j] >= -12.0
    ensures SurvivesFrom(m, s, year, rates, n) ==> SurvivesFrom(m, s', year, rates', n)
    decreases n
  {
    if n > 0 && SurvivesFrom(m, s, year, rates, n) {
      var age := m.retirementAge + year;
      var d := TrialYear(m, s, year, rates[year - 1]);
      var d' := TrialYear(m, s', year, rates'[year - 1]);
      TrialYearMonotone(m, s, s', year, rates[year - 1], rates'[year - 1]);
      SurvivesFromUnfold(m, s, year, rates, n);
      SurvivesFromUnfold(m, s', year, rates', n);
      RevalueSameAmounts(m.Terms(), s, s', age, d.value, d'.value);
      SurvivesMonotone(m, Revalue(m.Terms(), s, age, d.value), Revalue(m.Terms(), s', age, d'.value), year + 1, rates, rates', n - 1);
    }
  }

  /** A trial whose every draw is at least as high survives whenever the original trial does. */
  lemma TrialSurvivesMonotone(m: MonteCarloParams, rates: seq<real>, rates': seq<real>)
    requires |rates| >= m.Horizon() && |rates'| >= m.Horizon()
    requires forall j :: 0 <= j < m.Horizon() ==> rates[j] <= rates'[j] && rates[j] >= -12.0
    ensures TrialSurvives(m, rates) ==> TrialSurvives(m, rates')
  {
    SurvivesMonotone(m, m.Start(), m.Start(), 1, rates, rates', m.Horizon());
  }

  /** Raising every draw of every trial never lowers the number of surviving trials. */
  lemma {:induction false} SuccessCountMonotone(m: MonteCarloParams, draws: seq<seq<real>>, draws': seq<seq<real>>, k: nat)
    requires k <= |draws| && k <= |draws'|
    requires forall i :: 0 <= i < k ==> |draws[i]| >= m.Horizon() && |draws'[i]| >= m.Horizon()
    requires forall i, j :: 0 <= i < k && 0 <= j < m.Horizon() ==> draws[i][j] <= draws'[i][j] && draws[i][j] >= -12.0
    ensures SuccessCount(m, draws, k) <= SuccessCount(m, draws', k)
    decreases k
  {
    if k > 0 {
      SuccessCountMonotone(m, draws, draws', k - 1);
      TrialSurvivesMonotone(m, draws[k - 1], draws'[k - 1]);
    }
  }

  /** The success ratio that RunMonteCarloSimulation returns never falls when every draw rises. */
  lemma ProbabilityMonotone(m: MonteCarloParams, draws: seq<seq<real>>, draws': seq<seq<real>>)
    requires m.simulations > 0 && m.simulations <= |draws| && m.simulations <= |draws'|
    requires forall i :: 0 <= i < m.simulations ==> |draws[i]| >= m.Horizon() && |draws'[i]| >= m.Horizon()
    requires forall i, j :: 0 <= i < m.simulations && 0 <= j < m.Horizon() ==> draws[i][j] <= draws'[i][j] && draws[i][j] >= -12.0
    ensures SuccessCount(m, draws, m.simulations) as real / m.simulations as real
      <= SuccessCount(m, draws', m.simulations) as real / m.simulations as real
  {
    SuccessCountMonotone(m, draws, draws', m.simulations);
    RatioMonotone(SuccessCount(m, draws, m.simulations), SuccessCount(m, draws', m.simulations), m.simulations);
  }

  /** Out of the same positive total, a larger count is a larger ratio. */
  lemma RatioMonotone(a: nat, b: nat, total: nat)
    requires a <= b && total > 0
    ensures a as real / total as real <= b as real / total as real
  {
    var t := total as real;
    assert (b as real / t - a as real / t) * t == b as real - a as real;
    NonNegativeFactor(b as real / t - a as real / t, t);
  }
}
