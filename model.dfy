/**
 The projection engine of the AI job impact calculator, as pure definitions.

 The calculator projects, one year at a time from 2025 through 2033, the
 civilian labor force, total employment, the jobs lost to AI in a
 high-impact and a moderate-impact tier, and the resulting unemployment.
 Every quantity is in millions of workers except the two loss rates
 (fractions), the unemployment rate (percent) and the raw count of new
 jobs per year. Quantities are exact reals; the program's floating point
 rounding is not modelled.

 The functions below give each year's value directly as a function of
 the year, by recursion on the year. They are the specification against
 which the imperative loop in module Calculator is proved.
 */
module Model {

  /** The first and last projected years (the program's `range(2025, 2034)`). */
  const FirstYear: int := 2025
  const LastYear: int := 2033
  /** The year the baseline figures describe. */
  const BaseYear: int := 2024

  /** Baseline figures for the base year, in millions. */
  const BaseLaborForce: real := 168.5
  const BaseEmployed: real := 161.7
  const InitialHighImpactJobs: real := 22.74
  const InitialModerateImpactJobs: real := 5.08

  /** The six scenario parameters the user chooses. */
  datatype Inputs = Inputs(
    highInitialRate: real,
    moderateInitialRate: real,
    highRateChange: real,
    moderateRateChange: real,
    laborForceGrowth: real,
    newJobsPerYear: real)

  /** The two tiers of jobs exposed to AI. */
  datatype Tier = High | Moderate

  /** One projected year, as the program appends it to its result table. */
  datatype Row = Row(
    year: int,
    laborForce: real,
    totalEmployed: real,
    highRate: real,
    highLoss: real,
    moderateRate: real,
    moderateLoss: real,
    totalLoss: real,
    unemployed: real,
    unemploymentRate: real)

  /** The one failure the projection can raise: the unemployment rate of
      a year whose labor force is exactly zero divides by zero. */
  datatype ProjectionError = ZeroLaborForce(year: int)

  datatype Result<T> = Success(value: T) | Failure(error: ProjectionError)

  function InitialRate(inp: Inputs, t: Tier): (rate: real)
  {
    match t
    case High => inp.highInitialRate
    case Moderate => inp.moderateInitialRate
  }

  function RateChange(inp: Inputs, t: Tier): (change: real)
  {
    match t
    case High => inp.highRateChange
    case Moderate => inp.moderateRateChange
  }

  function InitialPool(t: Tier): (pool: real)
  {
    match t
    case High => InitialHighImpactJobs
    case Moderate => InitialModerateImpactJobs
  }

  /** The input ranges the program's sidebar enforces for a tier: an
      initial rate in [0, 1] and a non-negative annual change. */
  predicate WellFormedTier(inp: Inputs, t: Tier)
  {
    0.0 <= InitialRate(inp, t) <= 1.0 && 0.0 <= RateChange(inp, t)
  }

  /** The smaller of two values; on a tie, the first (as Python's `min`). */
  function Min(a: real, b: real): (m: real)
    ensures m <= a && m <= b
    ensures m == a || m == b
  {
    if b < a then b else a
  }

  /** A rate grown by a proportional change. */
  function Grown(rate: real, change: real): (grown: real)
  {
    rate * (1.0 + change)
  }

  /** The loss rate of tier `t` in `year`: the initial rate in the first
      year, afterwards the previous rate grown by the tier's change and
      capped at 1 (100%). */
  function Rate(inp: Inputs, t: Tier, year: int): (rate: real)
    requires FirstYear <= year
    decreases year - FirstYear
  {
    if year == FirstYear then InitialRate(inp, t)
    else Min(1.0, Grown(Rate(inp, t, year - 1), RateChange(inp, t)))
  }

  /** The pool of exposed jobs of tier `t` at the start of `year`, before
      that year's loss is taken from it: the initial pool, less every
      earlier year's loss. */
  function PoolBefore(inp: Inputs, t: Tier, year: int): (pool: real)
    requires FirstYear <= year
    decreases year - FirstYear, 0
  {
    if year == FirstYear then InitialPool(t)
    else PoolBefore(inp, t, year - 1) - Loss(inp, t, year - 1)
  }

  /** The jobs of tier `t` lost to AI in `year`: the year's rate applied
      to the pool as it stands at the start of the year. */
  function Loss(inp: Inputs, t: Tier, year: int): (loss: real)
    requires FirstYear <= year
    decreases year - FirstYear, 1
  {
    PoolBefore(inp, t, year) * Rate(inp, t, year)
  }

  function TotalLoss(inp: Inputs, year: int): (total: real)
    requires FirstYear <= year
  {
    Loss(inp, High, year) + Loss(inp, Moderate, year)
  }

  /** The jobs of tier `t` lost in all years before `year`. */
  function LossesBefore(inp: Inputs, t: Tier, year: int): (lost: real)
    requires FirstYear <= year
    decreases year - FirstYear
  {
    if year == FirstYear then 0.0
    else LossesBefore(inp, t, year - 1) + Loss(inp, t, year - 1)
  }

  /** The civilian labor force in `year`: the base-year figure, grown by
      the same amount every year. */
  function LaborForce(inp: Inputs, year: int): (laborForce: real)
    requires BaseYear <= year
    decreases year - BaseYear
  {
    if year == BaseYear then BaseLaborForce
    else LaborForce(inp, year - 1) + inp.laborForceGrowth
  }

  /** New jobs are given as a raw count and converted to millions. */
  function NewJobsMillions(inp: Inputs): (millions: real)
  {
    inp.newJobsPerYear / 1000000.0
  }

  /** Total employment in `year`: the base-year figure, then each year the
      previous year's employment plus the new jobs minus that same year's
      AI job loss. */
  function Employed(inp: Inputs, year: int): (employed: real)
    requires BaseYear <= year
    decreases year - BaseYear
  {
    if year == BaseYear then BaseEmployed
    else Employed(inp, year - 1) + NewJobsMillions(inp) - TotalLoss(inp, year)
  }

  /** The row the program records for `year`, once it knows that the
      labor force is not zero. */
  function RowFor(inp: Inputs, year: int): (row: Row)
    requires FirstYear <= year && LaborForce(inp, year) != 0.0
  {
    var laborForce := LaborForce(inp, year);
    var employed := Employed(inp, year);
    var unemployed := laborForce - employed;
    Row(year, laborForce, employed,
        Rate(inp, High, year), Loss(inp, High, year),
        Rate(inp, Moderate, year), Loss(inp, Moderate, year),
        TotalLoss(inp, year), unemployed, unemployed / laborForce * 100.0)
  }

  /** The rows for the years `FirstYear` up to but excluding `end`, or the
      error raised by the first of those years whose labor force is zero. */
  function ProjectUntil(inp: Inputs, end: int): (result: Result<seq<Row>>)
    requires FirstYear <= end
    decreases end - FirstYear
  {
    if end == FirstYear then Success([])
    else
      match ProjectUntil(inp, end - 1)
      case Failure(e) => Failure(e)
      case Success(rows) =>
        if LaborForce(inp, end - 1) == 0.0 then Failure(ZeroLaborForce(end - 1))
        else Success(rows + [RowFor(inp, end - 1)])
  }

  /** The whole projection, 2025 through 2033. */
  function Projections(inp: Inputs): (result: Result<seq<Row>>)
  {
    ProjectUntil(inp, LastYear + 1)
  }
}
