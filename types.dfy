/** The record shapes shared by the simulation engine and the planner page. */
module Types {

  datatype Option<T> = None | Some(value: T) {
    /** The carried value, or `default` when there is none (JavaScript's `x || default` on a number). */
    function GetOr(default: T): T {
      match this
      case Some(v) => v
      case None => default
    }
  }

  /**
   * A one-time, non-inflated cash flow that falls due in the single year whose age
   * equals `age`. Incomes and expenses are kept in two separate lists.
   * All numeric fields are JavaScript numbers, hence `real`.
   */
  datatype ExtraEvent = ExtraEvent(id: real, amount: real, age: real, description: string)

  /**
   * One simulated year. `value` is the portfolio at the end of the year,
   * `generalExpenses` the inflated recurring expenses, `totalExpenses` those plus the
   * mortgage while it is still due; `pensionIncome` is only filled in by decumulation.
   */
  datatype ProjectionDataPoint = ProjectionDataPoint(
    age: int,
    value: real,
    generalExpenses: real,
    totalExpenses: real,
    pensionIncome: Option<real>)

  /** One point of the chart: the four series the page draws, keyed by age. */
  datatype ChartDataPoint = ChartDataPoint(
    age: int,
    projectedValue: real,
    fireTarget: real,
    simulatedExpenses: real,
    pensionIncome: real)
}
