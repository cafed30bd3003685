/**
 * The planner page: the user's inputs, the constants derived from them, the chaining of
 * the three simulations on "calculate", the FIRE target and the chart series.
 */
module App {
  import opened Types
  import opened Inflation
  import opened CashFlows
  import opened Retirement
  import opened Accumulation
  import opened Decumulation
  import opened MonteCarlo
  import Events

  /** Every input the page holds. Ages and year counts are whole numbers; rates are fractions. */
  datatype Inputs = Inputs(
    currentAge: int,
    currentSavings: real,
    monthlyContribution: real,
    yearsToRetirement: int,
    generalAnnualExpenses: real,
    monthlyMortgagePayment: real,
    remainingMortgageYears: int,
    pensionStartAge: int,
    annualPensionIncome: real,
    extraIncomes: seq<ExtraEvent>,
    extraExpenses: seq<ExtraEvent>,
    grossAnnualReturn: real,
    annualInflation: real,
    capitalGainsTaxRate: real,
    pensionRevaluationRate: real,
    simGrossMeanReturn: real,
    simStdDev: real)

  /** The number of Monte Carlo trials the page asks for. */
  function Simulations(): nat { 5000 }

  // ---- derived constants ----

  function RetirementAge(inp: Inputs): int
  {
    inp.currentAge + inp.yearsToRetirement
  }

  /** `Math.max(0, 100 - retirementAge)`: retirement is simulated up to age 100, and not at all from 100 on. */
  function DecumulationDuration(inp: Inputs): (r: nat)
    ensures RetirementAge(inp) <= 100 ==> RetirementAge(inp) + r == 100
    ensures RetirementAge(inp) >= 100 ==> r == 0
  {
    if 100 - RetirementAge(inp) > 0 then 100 - RetirementAge(inp) else 0
  }

  function AnnualMortgage(inp: Inputs): real
  {
    inp.monthlyMortgagePayment * 12.0
  }

  function MortgageEndAge(inp: Inputs): int
  {
    inp.currentAge + inp.remainingMortgageYears
  }

  /** A gross return net of the capital-gains tax. */
  function NetReturn(gross: real, taxRate: real): real
  {
    gross * (1.0 - taxRate)
  }

  /** The general expenses of today carried to the retirement age. */
  function InflatedGeneral(inp: Inputs): real
    requires inp.yearsToRetirement >= 0 || 1.0 + inp.annualInflation != 0.0
  {
    Inflated(inp.generalAnnualExpenses, inp.annualInflation, inp.yearsToRetirement)
  }

  /** The expense figure the page reports: inflated general expenses, plus the mortgage if it outlives the retirement age. */
  function ReportedInflatedExpenses(inp: Inputs): real
    requires inp.yearsToRetirement >= 0 || 1.0 + inp.annualInflation != 0.0
  {
    InflatedGeneral(inp) + (if RetirementAge(inp) < MortgageEndAge(inp) then AnnualMortgage(inp) else 0.0)
  }

  // ---- the three calls and how their results are chained ----

  function AccParams(inp: Inputs): AccumulationParams
  {
    AccumulationParams(
      inp.currentSavings, inp.monthlyContribution, NetReturn(inp.grossAnnualReturn, inp.capitalGainsTaxRate),
      inp.annualInflation, inp.yearsToRetirement, inp.currentAge, inp.generalAnnualExpenses,
      AnnualMortgage(inp), MortgageEndAge(inp), inp.extraIncomes, inp.extraExpenses)
  }

  function DecParams(inp: Inputs, finalValue: real): DecumulationParams
    requires inp.yearsToRetirement >= 0 || 1.0 + inp.annualInflation != 0.0
  {
    DecumulationParams(
      finalValue, InflatedGeneral(inp), AnnualMortgage(inp), NetReturn(inp.grossAnnualReturn, inp.capitalGainsTaxRate),
      inp.annualInflation, DecumulationDuration(inp), RetirementAge(inp), MortgageEndAge(inp),
      inp.annualPensionIncome, inp.pensionStartAge, inp.pensionRevaluationRate, inp.extraIncomes, inp.extraExpenses)
  }

  function McParams(inp: Inputs, finalValue: real): MonteCarloParams
    requires inp.yearsToRetirement >= 0 || 1.0 + inp.annualInflation != 0.0
  {
    MonteCarloParams(
      finalValue, DecumulationDuration(inp), NetReturn(inp.simGrossMeanReturn, inp.capitalGainsTaxRate),
      inp.simStdDev, Simulations(), InflatedGeneral(inp), AnnualMortgage(inp), RetirementAge(inp),
      MortgageEndAge(inp), inp.annualInflation, inp.annualPensionIncome, inp.pensionStartAge,
      inp.pensionRevaluationRate, inp.extraIncomes, inp.extraExpenses)
  }

  /** The stored projection: the saving years followed by the retirement years started from the final saved value. */
  function Projection(inp: Inputs): seq<ProjectionDataPoint>
    requires 1.0 + inp.annualInflation != 0.0
  {
    var acc := Accumulate(AccParams(inp));
    acc.annualData + Decumulate(DecParams(inp, acc.finalValue))
  }

  /**
   * The Monte Carlo trials run on exactly the inputs of the deterministic retirement
   * projection, save the return, so the agreement proved between the two applies to the page.
   */
  lemma TrialsShareProjectionInputs(inp: Inputs, finalValue: real)
    requires inp.yearsToRetirement >= 0 || 1.0 + inp.annualInflation != 0.0
    ensures Deterministic(McParams(inp, finalValue), NetReturn(inp.grossAnnualReturn, inp.capitalGainsTaxRate))
      == DecParams(inp, finalValue)
    ensures McParams(inp, finalValue).Horizon() == DecParams(inp, finalValue).Span() == DecumulationDuration(inp)
  {
  }

  /**
   * With a non-negative number of saving years the stored projection has one point per
   * age from the current age on, with no gap or repeat where retirement begins, and
   * never passes age 100 unless retirement itself starts later.
   */
  lemma ProjectionAges(inp: Inputs)
    requires inp.yearsToRetirement >= 0 && 1.0 + inp.annualInflation != 0.0
    ensures |Projection(inp)| <= inp.yearsToRetirement + 1 + DecumulationDuration(inp)
    ensures RetirementAge(inp) < 100 ==> |Projection(inp)| >= inp.yearsToRetirement + 2
    ensures forall k :: 0 <= k < |Projection(inp)| ==> Projection(inp)[k].age == inp.currentAge + k
    ensures forall k :: 0 <= k < |Projection(inp)| ==> Projection(inp)[k].age <= 100 || Projection(inp)[k].age <= RetirementAge(inp)
  {
    var acc := Accumulate(AccParams(inp));
    var dec := Decumulate(DecParams(inp, acc.finalValue));
    AccumulationShape(AccParams(inp));
    DecumulationShape(DecParams(inp, acc.finalValue));
    var all := acc.annualData + dec;
    assert |acc.annualData| == inp.yearsToRetirement + 1;
    forall k | 0 <= k < |all|
      ensures all[k].age == inp.currentAge + k
    {
      if k >= |acc.annualData| {
        assert all[k] == dec[k - |acc.annualData|];
      }
    }
  }

  /**
   * The reported expense figure is the unrounded need of the first retirement year: the
   * page's `retirementAge < mortgageEndAge` is the service's `age <= mortgageEndAge` for
   * the age `retirementAge + 1` of that year.
   */
  lemma ReportedIsFirstRetirementYear(inp: Inputs)
    requires 1.0 + inp.annualInflation != 0.0
    requires RetirementAge(inp) < 100
    ensures |Decumulate(DecParams(inp, Accumulate(AccParams(inp)).finalValue))| >= 1
    ensures Decumulate(DecParams(inp, Accumulate(AccParams(inp)).finalValue))[0].totalExpenses
      == Round(ReportedInflatedExpenses(inp)) as real
  {
    var d := DecParams(inp, Accumulate(AccParams(inp)).finalValue);
    DecumulationShape(d);
    DecumulationExpenses(d, 0);
  }

  // ---- the FIRE target ----

  /** The pension at the retirement age: revalued yearly from its start when it starts by then, otherwise nothing. */
  function PensionAtRetirement(inp: Inputs): (r: real)
    ensures inp.pensionStartAge > RetirementAge(inp) ==> r == 0.0
    ensures inp.pensionStartAge == RetirementAge(inp) ==> r == inp.annualPensionIncome
    ensures inp.pensionStartAge <= RetirementAge(inp) ==>
      r == Inflated(inp.annualPensionIncome, inp.pensionRevaluationRate, RetirementAge(inp) - inp.pensionStartAge)
  {
    if inp.pensionStartAge <= RetirementAge(inp) then
      inp.annualPensionIncome * Pow(1.0 + inp.pensionRevaluationRate, RetirementAge(inp) - inp.pensionStartAge)
    else 0.0
  }

  /** 25 times the annual need left after the pension, never below 0; 0 while no expense figure exists. */
  function TargetFire(inflatedExpenses: Option<real>, inp: Inputs): (r: real)
    ensures r >= 0.0
    ensures inflatedExpenses.None? ==> r == 0.0
  {
    match inflatedExpenses
    case None => 0.0
    case Some(need) =>
      var annualNeed := need - PensionAtRetirement(inp);
      (if annualNeed > 0.0 then annualNeed else 0.0) * 25.0
  }

  /**
   * A 4% yearly draw on the target, with the pension, covers the need; and the target is
   * the least that does: it is 0 when the pension alone covers the need, and otherwise
   * the 4% draw and the pension add up to the need exactly.
   */
  lemma TargetCoversNeed(need: real, inp: Inputs)
    ensures TargetFire(Some(need), inp) / 25.0 + PensionAtRetirement(inp) >= need
    ensures need <= PensionAtRetirement(inp) <==> TargetFire(Some(need), inp) == 0.0
    ensures need > PensionAtRetirement(inp) ==> TargetFire(Some(need), inp) / 25.0 + PensionAtRetirement(inp) == need
  {
  }

  /** A larger need never lowers the target. */
  lemma TargetMonotone(need1: real, need2: real, inp: Inputs)
    requires need1 <= need2
    ensures TargetFire(Some(need1), inp) <= TargetFire(Some(need2), inp)
  {
  }

  /**
   * The target counts a pension that started before retirement at its revalued amount,
   * while the retirement projection pays the amount as entered in its first year.
   */
  lemma TargetPensionVersusProjection(inp: Inputs)
    requires 1.0 + inp.annualInflation != 0.0
    requires inp.pensionStartAge <= RetirementAge(inp) < 100
    ensures PensionAtRetirement(inp) == Inflated(inp.annualPensionIncome, inp.pensionRevaluationRate, RetirementAge(inp) - inp.pensionStartAge)
    ensures |Decumulate(DecParams(inp, Accumulate(AccParams(inp)).finalValue))| >= 1
    ensures Decumulate(DecParams(inp, Accumulate(AccParams(inp)).finalValue))[0].pensionIncome
      == Some(Round(inp.annualPensionIncome) as real)
  {
    FirstYearPension(inp, Accumulate(AccParams(inp)).finalValue);
  }

  /** Whatever the saved value, the first retirement year records the pension as entered, rounded. */
  lemma FirstYearPension(inp: Inputs, finalValue: real)
    requires 1.0 + inp.annualInflation != 0.0
    requires inp.pensionStartAge <= RetirementAge(inp) < 100
    ensures |Decumulate(DecParams(inp, finalValue))| >= 1
    ensures Decumulate(DecParams(inp, finalValue))[0].pensionIncome == Some(Round(inp.annualPensionIncome) as real)
  {
    var d := DecParams(inp, finalValue);
    DecumulationShape(d);
    DecumulationPension(d, 0);
  }

  // ---- the chart ----

  /** One chart point: the projected value, the target, the year's total expenses and the pension (0 when absent). */
  function ChartPoint(d: ProjectionDataPoint, target: real): ChartDataPoint
  {
    ChartDataPoint(d.age, d.value, target, d.totalExpenses, d.pensionIncome.GetOr(0.0))
  }

  /** The chart series: one point per projection point, in order; nothing when there is no projection. */
  function ChartData(data: seq<ProjectionDataPoint>, target: real): (r: seq<ChartDataPoint>)
    ensures |r| == |data|
  {
    if data == [] then [] else [ChartPoint(data[0], target)] + ChartData(data[1..], target)
  }

  /** The chart keeps each point's age and value, draws the same target everywhere, and shows a missing pension as 0. */
  lemma {:induction false} ChartAt(data: seq<ProjectionDataPoint>, target: real, k: nat)
    requires k < |data|
    ensures ChartData(data, target)[k].age == data[k].age
    ensures ChartData(data, target)[k].projectedValue == data[k].value
    ensures ChartData(data, target)[k].simulatedExpenses == data[k].totalExpenses
    ensures ChartData(data, target)[k].fireTarget == target
    ensures data[k].pensionIncome.None? ==> ChartData(data, target)[k].pensionIncome == 0.0
    ensures data[k].pensionIncome.Some? ==> ChartData(data, target)[k].pensionIncome == data[k].pensionIncome.value
  {
    if k > 0 {
      ChartAt(data[1..], target, k - 1);
    }
  }

  /** The chart of two runs of points is the two charts one after the other. */
  lemma {:induction false} ChartAppend(a: seq<ProjectionDataPoint>, b: seq<ProjectionDataPoint>, target: real)
    ensures ChartData(a + b, target) == ChartData(a, target) + ChartData(b, target)
  {
    if a != [] {
      assert a + b != [] && (a + b)[0] == a[0];
      assert (a + b)[1..] == a[1..] + b;
      ChartAppend(a[1..], b, target);
      calc {
        ChartData(a + b, target);
        [ChartPoint(a[0], target)] + ChartData(a[1..] + b, target);
        [ChartPoint(a[0], target)] + (ChartData(a[1..], target) + ChartData(b, target));
        ([ChartPoint(a[0], target)] + ChartData(a[1..], target)) + ChartData(b, target);
      }
    } else {
      assert a + b == b;
    }
  }

  /** The saving years carry no pension, so the chart shows 0 for each of them. */
  lemma SavingYearsShowNoPension(inp: Inputs, k: nat)
    requires k < |Accumulate(AccParams(inp)).annualData|
    ensures ChartData(Accumulate(AccParams(inp)).annualData, 0.0)[k].pensionIncome == 0.0
  {
    var p := AccParams(inp);
    AccumulationShape(p);
    ChartAt(Accumulate(p).annualData, 0.0, k);
  }

  /** The page's initial inputs. */
  function DefaultInputs(): Inputs
  {
    Inputs(
      44, 250000.0, 1000.0, 15, 20200.0, 550.0, 15, 67, 12000.0,
      [ExtraEvent(1.0, 0.0, 60.0, "Liquidazione Fondo Pensione 1"),
       ExtraEvent(2.0, 0.0, 65.0, "Liquidazione Fondo Pensione 2"),
       ExtraEvent(3.0, 0.0, 75.0, "Entrata Addizionale Eredità")],
      [ExtraEvent(1.0, 0.0, 50.0, "Ristrutturazione Casa"),
       ExtraEvent(2.0, 0.0, 60.0, "Spese Università Figli"),
       ExtraEvent(3.0, 0.0, 70.0, "Uscita Medica Straordinaria")],
      0.07, 0.02, 0.26, 0.015, 0.08, 0.12)
  }

  /**
   * The page's state: the inputs, the events lists the user edits in place, and the
   * results of the last calculation.
   */
  class Planner {
    var currentAge: int
    var currentSavings: real
    var monthlyContribution: real
    var yearsToRetirement: int
    var generalAnnualExpenses: real
    var monthlyMortgagePayment: real
    var remainingMortgageYears: int
    var pensionStartAge: int
    var annualPensionIncome: real
    var extraIncomes: seq<ExtraEvent>
    var extraExpenses: seq<ExtraEvent>
    var grossAnnualReturn: real
    var annualInflation: real
    var capitalGainsTaxRate: real
    var pensionRevaluationRate: real
    var simGrossMeanReturn: real
    var simStdDev: real

    var projectedValue: Option<real>
    var inflatedExpenses: Option<real>
    var fireProbability: Option<real>
    var projectionData: seq<ProjectionDataPoint>

    /** The inputs as they stand. */
    function CurrentInputs(): Inputs
      reads this
    {
      Inputs(
        currentAge, currentSavings, monthlyContribution, yearsToRetirement, generalAnnualExpenses,
        monthlyMortgagePayment, remainingMortgageYears, pensionStartAge, annualPensionIncome,
        extraIncomes, extraExpenses, grossAnnualReturn, annualInflation, capitalGainsTaxRate,
        pensionRevaluationRate, simGrossMeanReturn, simStdDev)
    }

    /** The results of the last calculation. */
    function Results(): (Option<real>, Option<real>, Option<real>, seq<ProjectionDataPoint>)
      reads this
    {
      (projectedValue, inflatedExpenses, fireProbability, projectionData)
    }

    /** `targetFIRE`, recomputed from the current inputs and the last reported expenses. */
    function TargetFIRE(): (r: real)
      reads this
      ensures r >= 0.0
    {
      TargetFire(inflatedExpenses, CurrentInputs())
    }

    /** `chartData`, from the last projection and the current target. */
    function Chart(): (r: seq<ChartDataPoint>)
      reads this
      ensures |r| == |projectionData|
    {
      ChartData(projectionData, TargetFIRE())
    }

    /** The page as first shown: the default inputs and no results. */
    constructor ()
      ensures CurrentInputs() == DefaultInputs()
      ensures Results() == (None, None, None, [])
    {
      var d := DefaultInputs();
      currentAge, currentSavings, monthlyContribution, yearsToRetirement := d.currentAge, d.currentSavings, d.monthlyContribution, d.yearsToRetirement;
      generalAnnualExpenses, monthlyMortgagePayment, remainingMortgageYears := d.generalAnnualExpenses, d.monthlyMortgagePayment, d.remainingMortgageYears;
      pensionStartAge, annualPensionIncome := d.pensionStartAge, d.annualPensionIncome;
      extraIncomes, extraExpenses := d.extraIncomes, d.extraExpenses;
      grossAnnualReturn, annualInflation, capitalGainsTaxRate, pensionRevaluationRate := d.grossAnnualReturn, d.annualInflation, d.capitalGainsTaxRate, d.pensionRevaluationRate;
      simGrossMeanReturn, simStdDev := d.simGrossMeanReturn, d.simStdDev;
      projectedValue, inflatedExpenses, fireProbability, projectionData := None, None, None, [];
    }

    /**
     * The edit of one field of the events with id `id`, in the incomes when `isIncome`
     * and in the expenses otherwise, with numeric fields read by `toNumber`.
     */
    method UpdateExtraEvents(id: real, field: Events.EventField, text: string, isIncome: bool, toNumber: string -> real)
      modifies this
      ensures isIncome ==> extraIncomes == Events.UpdateExtraEvents(old(extraIncomes), id, field, text, toNumber)
      ensures isIncome ==> extraExpenses == old(extraExpenses)
      ensures !isIncome ==> extraExpenses == Events.UpdateExtraEvents(old(extraExpenses), id, field, text, toNumber)
      ensures !isIncome ==> extraIncomes == old(extraIncomes)
      ensures CurrentInputs() == old(CurrentInputs()).(extraIncomes := extraIncomes, extraExpenses := extraExpenses)
      ensures Results() == old(Results())
    {
      if isIncome {
        extraIncomes := Events.UpdateExtraEvents(extraIncomes, id, field, text, toNumber);
      } else {
        extraExpenses := Events.UpdateExtraEvents(extraExpenses, id, field, text, toNumber);
      }
    }

    /**
     * handleCalculate: clear the results, then store those of the calculation on the
     * current inputs.
     */
    method HandleCalculate(draws: seq<seq<real>>)
      requires 1.0 + annualInflation != 0.0
      requires |draws| >= Simulations()
      requires forall i :: 0 <= i < Simulations() ==> |draws[i]| >= DecumulationDuration(CurrentInputs())
      modifies this`projectedValue, this`inflatedExpenses, this`projectionData, this`fireProbability
      ensures CurrentInputs() == old(CurrentInputs())
      ensures projectedValue == Some(Accumulate(AccParams(CurrentInputs())).finalValue)
      ensures inflatedExpenses == Some(ReportedInflatedExpenses(CurrentInputs()))
      ensures projectionData == Projection(CurrentInputs())
      ensures fireProbability.Some? && 0.0 <= fireProbability.value <= 1.0
      ensures fireProbability == Some(
        SuccessCount(McParams(CurrentInputs(), projectedValue.value), draws, Simulations()) as real / Simulations() as real)
    {
      var inp := CurrentInputs();
      var finalValue, inflated, data, probability := Calculate(inp, draws);
      projectedValue, inflatedExpenses, projectionData, fireProbability := Some(finalValue), Some(inflated), data, Some(probability);
      assert CurrentInputs() == inp;
    }
  }

  /**
   * The calculation behind handleCalculate: derive the constants, run the saving years,
   * then start retirement and the Monte Carlo trials from the final saved value. The
   * trial `i` draws its returns from `draws[i]`.
   */
  method Calculate(inp: Inputs, draws: seq<seq<real>>)
    returns (finalValue: real, inflatedExpenses: real, projectionData: seq<ProjectionDataPoint>, probability: real)
    requires 1.0 + inp.annualInflation != 0.0
    requires |draws| >= Simulations()
    requires forall i :: 0 <= i < Simulations() ==> |draws[i]| >= DecumulationDuration(inp)
    ensures finalValue == Accumulate(AccParams(inp)).finalValue
    ensures inflatedExpenses == ReportedInflatedExpenses(inp)
    ensures projectionData == Projection(inp)
    ensures 0.0 <= probability <= 1.0
    ensures probability == SuccessCount(McParams(inp, finalValue), draws, Simulations()) as real / Simulations() as real
    ensures probability == 1.0 <==> forall i :: 0 <= i < Simulations() ==> TrialSurvives(McParams(inp, finalValue), draws[i])
  {
    var retirementAge := inp.currentAge + inp.yearsToRetirement;
    var decumulationDuration := if 100 - retirementAge > 0 then 100 - retirementAge else 0;
    var annualMortgageValue := inp.monthlyMortgagePayment * 12.0;
    var mortgageEndAge := inp.currentAge + inp.remainingMortgageYears;
    var netAnnualReturn := inp.grossAnnualReturn * (1.0 - inp.capitalGainsTaxRate);
    var simNetMeanReturn := inp.simGrossMeanReturn * (1.0 - inp.capitalGainsTaxRate);

    var inflatedGeneralExpensesResult := Inflated(inp.generalAnnualExpenses, inp.annualInflation, inp.yearsToRetirement);
    inflatedExpenses := inflatedGeneralExpensesResult + (if retirementAge < mortgageEndAge then annualMortgageValue else 0.0);

    var acc := AccumulationParams(
      inp.currentSavings, inp.monthlyContribution, netAnnualReturn, inp.annualInflation, inp.yearsToRetirement,
      inp.currentAge, inp.generalAnnualExpenses, annualMortgageValue, mortgageEndAge, inp.extraIncomes, inp.extraExpenses);
    assert acc == AccParams(inp);
    var accumulationData;
    finalValue, accumulationData := CalculateAccumulationPhase(acc);

    var dec := DecumulationParams(
      finalValue, inflatedGeneralExpensesResult, annualMortgageValue, netAnnualReturn, inp.annualInflation,
      decumulationDuration, retirementAge, mortgageEndAge, inp.annualPensionIncome, inp.pensionStartAge,
      inp.pensionRevaluationRate, inp.extraIncomes, inp.extraExpenses);
    assert dec == DecParams(inp, finalValue);
    var decumulationData := CalculateDecumulationPhase(dec);
    projectionData := accumulationData + decumulationData;

    var mc := MonteCarloParams(
      finalValue, decumulationDuration, simNetMeanReturn, inp.simStdDev, Simulations(), inflatedGeneralExpensesResult,
      annualMortgageValue, retirementAge, mortgageEndAge, inp.annualInflation, inp.annualPensionIncome,
      inp.pensionStartAge, inp.pensionRevaluationRate, inp.extraIncomes, inp.extraExpenses);
    assert mc == McParams(inp, finalValue);
    probability := RunMonteCarloSimulation(mc, draws);
  }
}
