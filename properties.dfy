/**
 What the projection promises: the shape of its result and its one error,
 the loss-rate cap and growth, the depletion of the job pools, the linear
 labor force and the employment and unemployment arithmetic, each stated
 about the year functions of module Model and about the rows of a
 successful projection.
 */
module Properties {
  import opened Model

  // ---------------------------------------------------------------------
  // Shape of the result and the zero-labor-force error
  // ---------------------------------------------------------------------

  /** A successful run up to `end` holds one row per year, in order, each
      the row of its year. */
  lemma {:induction false} RowsOf(inp: Inputs, end: int, rows: seq<Row>)
    requires FirstYear <= end
    requires ProjectUntil(inp, end) == Success(rows)
    ensures |rows| == end - FirstYear
    ensures forall year :: FirstYear <= year < end ==>
              LaborForce(inp, year) != 0.0 && rows[year - FirstYear] == RowFor(inp, year)
    decreases end - FirstYear
  {
    if end > FirstYear {
      var prefix := ProjectUntil(inp, end - 1).value;
      RowsOf(inp, end - 1, prefix);
      assert rows == prefix + [RowFor(inp, end - 1)];
    }
  }

  // The rows of a successful run, a few fields at a time, so that a proof
  // about one field does not carry the arithmetic of all the others. They
  // are stated for a run up to any `end`: a concrete end year would make
  // the solver unfold every year of the run.

  /** The row at index `i` of a successful run is the row of year 2025 + i. */
  lemma RowAt(inp: Inputs, end: int, rows: seq<Row>, i: int)
    requires FirstYear <= end && ProjectUntil(inp, end) == Success(rows)
    requires 0 <= i < end - FirstYear
    ensures |rows| == end - FirstYear
    ensures LaborForce(inp, FirstYear + i) != 0.0 && rows[i] == RowFor(inp, FirstYear + i)
  {
    RowsOf(inp, end, rows);
    var year := FirstYear + i;
    assert rows[year - FirstYear] == RowFor(inp, year);
  }

  lemma RowCount(inp: Inputs, end: int, rows: seq<Row>)
    requires FirstYear <= end && ProjectUntil(inp, end) == Success(rows)
    ensures |rows| == end - FirstYear
  {
    RowsOf(inp, end, rows);
  }

  lemma RowYear(inp: Inputs, end: int, rows: seq<Row>, i: int)
    requires FirstYear <= end && ProjectUntil(inp, end) == Success(rows)
    requires 0 <= i < end - FirstYear
    ensures |rows| == end - FirstYear
    ensures rows[i].year == FirstYear + i
  {
    RowAt(inp, end, rows, i);
  }

  lemma RowRates(inp: Inputs, end: int, rows: seq<Row>, i: int)
    requires FirstYear <= end && ProjectUntil(inp, end) == Success(rows)
    requires 0 <= i < end - FirstYear
    ensures |rows| == end - FirstYear
    ensures rows[i].highRate == Rate(inp, High, FirstYear + i)
    ensures rows[i].moderateRate == Rate(inp, Moderate, FirstYear + i)
  {
    RowAt(inp, end, rows, i);
  }

  lemma RowLosses(inp: Inputs, end: int, rows: seq<Row>, i: int)
    requires FirstYear <= end && ProjectUntil(inp, end) == Success(rows)
    requires 0 <= i < end - FirstYear
    ensures |rows| == end - FirstYear
    ensures rows[i].highLoss == Loss(inp, High, FirstYear + i)
    ensures rows[i].moderateLoss == Loss(inp, Moderate, FirstYear + i)
    ensures rows[i].totalLoss == TotalLoss(inp, FirstYear + i)
  {
    RowAt(inp, end, rows, i);
  }

  lemma LossAtRate(inp: Inputs, t: Tier, year: int, rate: real)
    requires FirstYear <= year && rate == Rate(inp, t, year)
    ensures Loss(inp, t, year) == PoolBefore(inp, t, year) * rate
  {
  }

  lemma RowLaborForce(inp: Inputs, end: int, rows: seq<Row>, i: int)
    requires FirstYear <= end && ProjectUntil(inp, end) == Success(rows)
    requires 0 <= i < end - FirstYear
    ensures |rows| == end - FirstYear
    ensures rows[i].laborForce == LaborForce(inp, FirstYear + i) != 0.0
  {
    RowAt(inp, end, rows, i);
  }

  lemma RowEmployment(inp: Inputs, end: int, rows: seq<Row>, i: int)
    requires FirstYear <= end && ProjectUntil(inp, end) == Success(rows)
    requires 0 <= i < end - FirstYear
    ensures |rows| == end - FirstYear
    ensures rows[i].totalEmployed == Employed(inp, FirstYear + i)
    ensures rows[i].totalLoss == TotalLoss(inp, FirstYear + i)
  {
    RowAt(inp, end, rows, i);
  }

  lemma RowUnemployment(inp: Inputs, end: int, rows: seq<Row>, i: int)
    requires FirstYear <= end && ProjectUntil(inp, end) == Success(rows)
    requires 0 <= i < end - FirstYear
    ensures |rows| == end - FirstYear
    ensures rows[i].unemployed == rows[i].laborForce - rows[i].totalEmployed
    ensures rows[i].laborForce != 0.0
    ensures rows[i].unemploymentRate == rows[i].unemployed / rows[i].laborForce * 100.0
  {
    RowAt(inp, end, rows, i);
  }

  /** Once a year has failed, no later year changes the outcome. */
  lemma {:induction false} FailureIsFinal(inp: Inputs, failed: int, later: int)
    requires FirstYear <= failed <= later
    requires ProjectUntil(inp, failed).Failure?
    ensures ProjectUntil(inp, later) == ProjectUntil(inp, failed)
    decreases later - failed
  {
    if later > failed {
      FailureIsFinal(inp, failed, later - 1);
    }
  }

  /** A run up to `end` fails exactly when some year before `end` has a
      zero labor force, and then it names the first such year. */
  lemma {:induction false} FailureIff(inp: Inputs, end: int)
    requires FirstYear <= end
    ensures ProjectUntil(inp, end).Failure? <==>
              exists year :: FirstYear <= year < end && LaborForce(inp, year) == 0.0
    ensures ProjectUntil(inp, end).Failure? ==>
              var year := ProjectUntil(inp, end).error.year;
              FirstYear <= year < end && LaborForce(inp, year) == 0.0 &&
              forall earlier :: FirstYear <= earlier < year ==> LaborForce(inp, earlier) != 0.0
    decreases end - FirstYear
  {
    if end > FirstYear {
      FailureIff(inp, end - 1);
      var last := end - 1;
      if ProjectUntil(inp, last).Failure? {
        assert ProjectUntil(inp, end) == ProjectUntil(inp, last);
      } else if LaborForce(inp, last) == 0.0 {
        assert ProjectUntil(inp, end) == Failure(ZeroLaborForce(last));
        assert FirstYear <= last < end && LaborForce(inp, last) == 0.0;
      } else {
        assert ProjectUntil(inp, end).Success?;
        forall year | FirstYear <= year < end
          ensures LaborForce(inp, year) != 0.0
        {
          if year < last {
            assert !(FirstYear <= year < last && LaborForce(inp, year) == 0.0);
          }
        }
      }
    }
  }

  /** The projection fails exactly when a year from 2025 to 2033 has a zero
      labor force, and the error names the first such year. */
  lemma ProjectionsFailure(inp: Inputs)
    ensures Projections(inp).Success? <==>
              forall year :: FirstYear <= year <= LastYear ==> LaborForce(inp, year) != 0.0
    ensures Projections(inp).Failure? ==>
              var year := Projections(inp).error.year;
              FirstYear <= year <= LastYear && LaborForce(inp, year) == 0.0 &&
              forall earlier :: FirstYear <= earlier < year ==> LaborForce(inp, earlier) != 0.0
  {
    FailureIff(inp, LastYear + 1);
  }

  /** A successful projection has nine rows, for the years 2025 to 2033 in
      strictly ascending order with no gaps. */
  lemma ProjectionsShape(inp: Inputs)
    ensures Projections(inp).Success? ==>
              var rows := Projections(inp).value;
              |rows| == 9 &&
              (forall i :: 0 <= i < |rows| ==> rows[i].year == FirstYear + i) &&
              (forall i, j :: 0 <= i < j < |rows| ==> rows[i].year < rows[j].year)
  {
    if Projections(inp).Success? {
      var rows := Projections(inp).value;
      RowCount(inp, LastYear + 1, rows);
      forall i | 0 <= i < |rows|
        ensures rows[i].year == FirstYear + i
      {
        RowYear(inp, LastYear + 1, rows, i);
      }
    }
  }

  /** A labor force that does not shrink never reaches zero, so the
      projection always succeeds. */
  lemma NonNegativeGrowthSucceeds(inp: Inputs)
    requires 0.0 <= inp.laborForceGrowth
    ensures Projections(inp).Success?
  {
    forall year | FirstYear <= year <= LastYear
      ensures LaborForce(inp, year) != 0.0
    {
      LaborForceAtLeastBase(inp, year);
    }
    ProjectionsFailure(inp);
  }

  // ---------------------------------------------------------------------
  // Real arithmetic used below
  // ---------------------------------------------------------------------

  lemma MulNonNegative(a: real, b: real)
    requires 0.0 <= a && 0.0 <= b
    ensures 0.0 <= a * b
  {
  }

  /** A fraction of a non-negative amount lies between zero and the amount. */
  lemma FractionOf(amount: real, fraction: real)
    requires 0.0 <= amount && 0.0 <= fraction <= 1.0
    ensures 0.0 <= amount * fraction <= amount
  {
    assert amount - amount * fraction == amount * (1.0 - fraction);
    MulNonNegative(amount, 1.0 - fraction);
  }

  /** Growing a non-negative rate by a non-negative change never lowers it. */
  lemma GrownAtLeast(rate: real, change: real)
    requires 0.0 <= rate && 0.0 <= change
    ensures rate <= Grown(rate, change)
  {
    assert Grown(rate, change) == rate + rate * change;
    MulNonNegative(rate, change);
  }

  lemma ProductAtLeastOne(a: real, b: real)
    requires 1.0 <= a && 1.0 <= b
    ensures 1.0 <= a * b
  {
    assert a * b == a + a * (b - 1.0);
    MulNonNegative(a, b - 1.0);
  }

  // ---------------------------------------------------------------------
  // Loss rates
  // ---------------------------------------------------------------------

  /** The rate recurrence one year on, with the growth left unexpanded. */
  lemma RateUnfold(inp: Inputs, t: Tier, year: int)
    requires FirstYear <= year
    ensures Rate(inp, t, year + 1) == Min(1.0, Grown(Rate(inp, t, year), RateChange(inp, t)))
  {
  }

  /** With inputs in the sidebar's ranges, every rate lies in [0, 1]. */
  lemma {:induction false} RateBounds(inp: Inputs, t: Tier, year: int)
    requires WellFormedTier(inp, t)
    requires FirstYear <= year
    ensures 0.0 <= Rate(inp, t, year) <= 1.0
    decreases year - FirstYear
  {
    if year > FirstYear {
      RateBounds(inp, t, year - 1);
      var previous := Rate(inp, t, year - 1);
      GrownAtLeast(previous, RateChange(inp, t));
      assert Rate(inp, t, year) == Min(1.0, Grown(previous, RateChange(inp, t)));
    }
  }

  /** With a non-negative change, a rate never decreases from one year to
      the next. */
  lemma RateStep(inp: Inputs, t: Tier, year: int)
    requires WellFormedTier(inp, t)
    requires FirstYear <= year
    ensures Rate(inp, t, year) <= Rate(inp, t, year + 1)
  {
    RateBounds(inp, t, year);
    var current := Rate(inp, t, year);
    GrownAtLeast(current, RateChange(inp, t));
    assert Rate(inp, t, year + 1) == Min(1.0, Grown(current, RateChange(inp, t)));
  }

  /** With inputs in the sidebar's ranges, each tier's rates are
      non-decreasing over the years. */
  lemma {:induction false} RateMonotone(inp: Inputs, t: Tier, year: int, later: int)
    requires WellFormedTier(inp, t)
    requires FirstYear <= year <= later
    ensures Rate(inp, t, year) <= Rate(inp, t, later)
    decreases later - year
  {
    if year < later {
      RateMonotone(inp, t, year, later - 1);
      RateStep(inp, t, later - 1);
    }
  }

  /** With no annual change, a rate of at most 1 stays at its initial value
      every year. */
  lemma {:induction false} RateConstantWithoutChange(inp: Inputs, t: Tier, year: int)
    requires RateChange(inp, t) == 0.0 && InitialRate(inp, t) <= 1.0
    requires FirstYear <= year
    ensures Rate(inp, t, year) == InitialRate(inp, t)
    decreases year - FirstYear
  {
    if year > FirstYear {
      RateConstantWithoutChange(inp, t, year - 1);
      var previous := Rate(inp, t, year - 1);
      assert Grown(previous, 0.0) == previous;
      assert Rate(inp, t, year) == Min(1.0, Grown(previous, RateChange(inp, t)));
    }
  }

  /** `x` raised to the power `n`. */
  function Power(x: real, n: nat): (power: real)
  {
    if n == 0 then 1.0 else Power(x, n - 1) * x
  }

  /** The initial rate of tier `t` compounded `n` times by its change,
      without the cap. */
  function CompoundRate(inp: Inputs, t: Tier, n: nat): (rate: real)
  {
    InitialRate(inp, t) * Power(1.0 + RateChange(inp, t), n)
  }

  /** One more year of compounding is one more growth step. */
  lemma CompoundRateStep(inp: Inputs, t: Tier, n: nat)
    ensures CompoundRate(inp, t, n + 1) == Grown(CompoundRate(inp, t, n), RateChange(inp, t))
  {
    var a := InitialRate(inp, t);
    var g := 1.0 + RateChange(inp, t);
    var p := Power(g, n);
    assert Power(g, n + 1) == p * g;
    assert a * (p * g) == (a * p) * g;
  }

  /** Capping, growing by a non-negative change and capping again is the
      same as growing and capping once. */
  lemma CappedGrowthStep(uncapped: real, grown: real, change: real)
    requires 0.0 <= change && grown == Grown(uncapped, change)
    ensures Min(1.0, Grown(Min(1.0, uncapped), change)) == Min(1.0, grown)
  {
    if 1.0 <= uncapped {
      assert Grown(Min(1.0, uncapped), change) == 1.0 + change;
      ProductAtLeastOne(uncapped, 1.0 + change);
    }
  }

  /** A closed form of the rate recurrence: with inputs in the sidebar's
      ranges, the rate in `year` is the initial rate compounded by the
      change once per year since 2025, capped at 1. */
  lemma {:induction false} RateClosedForm(inp: Inputs, t: Tier, year: int)
    requires WellFormedTier(inp, t)
    requires FirstYear <= year
    ensures Rate(inp, t, year) == Min(1.0, CompoundRate(inp, t, year - FirstYear))
    decreases year - FirstYear
  {
    if year > FirstYear {
      var previous := year - 1;
      var n := previous - FirstYear;
      RateClosedForm(inp, t, previous);
      RateUnfold(inp, t, previous);
      assert previous + 1 == year;
      CompoundRateStep(inp, t, n);
      assert n + 1 == year - FirstYear;
      CappedGrowthStep(CompoundRate(inp, t, n), CompoundRate(inp, t, n + 1), RateChange(inp, t));
    } else {
      assert Power(1.0 + RateChange(inp, t), 0) == 1.0;
    }
  }

  // ---------------------------------------------------------------------
  // Job pools
  // ---------------------------------------------------------------------

  /** Each year takes its loss from the pool: what remains is the pool
      less the loss, that is the pool times one minus the rate. */
  lemma PoolDepletion(inp: Inputs, t: Tier, year: int)
    requires FirstYear <= year
    ensures PoolBefore(inp, t, year + 1) == PoolBefore(inp, t, year) - Loss(inp, t, year)
    ensures PoolBefore(inp, t, year + 1) == PoolBefore(inp, t, year) * (1.0 - Rate(inp, t, year))
  {
    var pool := PoolBefore(inp, t, year);
    var rate := Rate(inp, t, year);
    assert Loss(inp, t, year) == pool * rate;
    assert pool - pool * rate == pool * (1.0 - rate);
  }

  /** With inputs in the sidebar's ranges, a year's loss is between zero
      and what remains of the pool. */
  lemma LossWithinPool(inp: Inputs, t: Tier, year: int)
    requires WellFormedTier(inp, t)
    requires FirstYear <= year && 0.0 <= PoolBefore(inp, t, year)
    ensures 0.0 <= Loss(inp, t, year) <= PoolBefore(inp, t, year)
  {
    RateBounds(inp, t, year);
    var pool := PoolBefore(inp, t, year);
    var rate := Rate(inp, t, year);
    FractionOf(pool, rate);
    assert Loss(inp, t, year) == pool * rate;
  }

  /** With inputs in the sidebar's ranges, a pool stays non-negative, never
      grows, and each year's loss is between zero and the pool. */
  lemma {:induction false} PoolBounds(inp: Inputs, t: Tier, year: int)
    requires WellFormedTier(inp, t)
    requires FirstYear <= year
    ensures 0.0 <= Loss(inp, t, year) <= PoolBefore(inp, t, year) <= InitialPool(t)
    ensures 0.0 <= PoolBefore(inp, t, year + 1) <= PoolBefore(inp, t, year)
    decreases year - FirstYear
  {
    if year > FirstYear {
      PoolBounds(inp, t, year - 1);
    }
    LossWithinPool(inp, t, year);
    PoolDepletion(inp, t, year);
  }

  /** No job leaves a pool except as a loss: the pool at the start of a
      year plus everything lost before it is the initial pool. */
  lemma {:induction false} PoolConservation(inp: Inputs, t: Tier, year: int)
    requires FirstYear <= year
    ensures PoolBefore(inp, t, year) + LossesBefore(inp, t, year) == InitialPool(t)
    decreases year - FirstYear
  {
    if year > FirstYear {
      PoolConservation(inp, t, year - 1);
    }
  }

  /** With inputs in the sidebar's ranges, a tier never loses more jobs in
      all than its initial pool. */
  lemma LossesBounded(inp: Inputs, t: Tier, year: int)
    requires WellFormedTier(inp, t)
    requires FirstYear <= year
    ensures 0.0 <= LossesBefore(inp, t, year) <= InitialPool(t)
  {
    PoolConservation(inp, t, year);
    PoolBounds(inp, t, year);
  }

  // ---------------------------------------------------------------------
  // Labor force and employment
  // ---------------------------------------------------------------------

  /** The labor force in `year` is the base figure plus the growth once
      per year since the base year, as the program computes it. */
  lemma {:induction false} LaborForceClosedForm(inp: Inputs, year: int)
    requires BaseYear <= year
    ensures LaborForce(inp, year) == BaseLaborForce + inp.laborForceGrowth * (year - BaseYear) as real
    decreases year - BaseYear
  {
    if year > BaseYear {
      var previous := year - 1;
      LaborForceClosedForm(inp, previous);
      var g := inp.laborForceGrowth;
      var k := (previous - BaseYear) as real;
      assert (year - BaseYear) as real == k + 1.0;
      calc {
        LaborForce(inp, year);
        LaborForce(inp, previous) + g;
        BaseLaborForce + g * k + g;
        { assert g * (k + 1.0) == g * k + g; }
        BaseLaborForce + g * (k + 1.0);
      }
    }
  }

  /** The labor force depends on the labor force growth alone: not on the
      loss rates, the new jobs or the employment. */
  lemma LaborForceIndependent(inp: Inputs, other: Inputs, year: int)
    requires inp.laborForceGrowth == other.laborForceGrowth
    requires BaseYear <= year
    ensures LaborForce(inp, year) == LaborForce(other, year)
  {
    LaborForceClosedForm(inp, year);
    LaborForceClosedForm(other, year);
  }

  /** A labor force that does not shrink stays at least the base figure. */
  lemma {:induction false} LaborForceAtLeastBase(inp: Inputs, year: int)
    requires 0.0 <= inp.laborForceGrowth
    requires BaseYear <= year
    ensures BaseLaborForce <= LaborForce(inp, year)
    decreases year - BaseYear
  {
    if year > BaseYear {
      LaborForceAtLeastBase(inp, year - 1);
    }
  }

  /** A closed form of the employment recurrence: the base employment, plus
      the new jobs of every year since the base year, minus every job lost
      to AI up to and including `year`. */
  lemma {:induction false} EmploymentClosedForm(inp: Inputs, year: int)
    requires FirstYear <= year
    ensures Employed(inp, year) ==
              BaseEmployed + (year - BaseYear) as real * NewJobsMillions(inp)
              - (LossesBefore(inp, High, year + 1) + LossesBefore(inp, Moderate, year + 1))
    decreases year - FirstYear
  {
    var n := NewJobsMillions(inp);
    var k := (year - 1 - BaseYear) as real;
    assert (year - BaseYear) as real * n == k * n + n;
    if year > FirstYear {
      EmploymentClosedForm(inp, year - 1);
    }
  }

  /** With inputs in the sidebar's ranges, AI takes away at most the two
      initial pools from what employment would be without it. */
  lemma EmploymentBounds(inp: Inputs, year: int)
    requires WellFormedTier(inp, High) && WellFormedTier(inp, Moderate)
    requires FirstYear <= year
    ensures BaseEmployed + (year - BaseYear) as real * NewJobsMillions(inp)
              - (InitialHighImpactJobs + InitialModerateImpactJobs)
            <= Employed(inp, year)
            <= BaseEmployed + (year - BaseYear) as real * NewJobsMillions(inp)
  {
    EmploymentClosedForm(inp, year);
    LossesBounded(inp, High, year + 1);
    LossesBounded(inp, Moderate, year + 1);
  }

  // ---------------------------------------------------------------------
  // The rows of a successful projection
  // ---------------------------------------------------------------------

  /** In every successful run, each row's rates are the initial inputs in
      2025, then the previous row's rates grown by the change and capped
      at 1. */
  lemma RowsRates(inp: Inputs, end: int, rows: seq<Row>)
    requires FirstYear <= end && ProjectUntil(inp, end) == Success(rows)
    ensures |rows| == end - FirstYear
    ensures 0 < |rows| ==>
              rows[0].highRate == inp.highInitialRate &&
              rows[0].moderateRate == inp.moderateInitialRate
    ensures forall i :: 0 < i < |rows| ==>
              rows[i].highRate == Min(1.0, Grown(rows[i - 1].highRate, inp.highRateChange)) &&
              rows[i].moderateRate == Min(1.0, Grown(rows[i - 1].moderateRate, inp.moderateRateChange)) &&
              rows[i].highRate <= 1.0 && rows[i].moderateRate <= 1.0
  {
    RowCount(inp, end, rows);
    if 0 < |rows| {
      RowRates(inp, end, rows, 0);
    }
    forall i | 0 < i < |rows|
      ensures rows[i].highRate == Min(1.0, Grown(rows[i - 1].highRate, inp.highRateChange))
      ensures rows[i].moderateRate == Min(1.0, Grown(rows[i - 1].moderateRate, inp.moderateRateChange))
      ensures rows[i].highRate <= 1.0 && rows[i].moderateRate <= 1.0
    {
      RowRates(inp, end, rows, i);
      RowRates(inp, end, rows, i - 1);
      var previous := FirstYear + (i - 1);
      RateUnfold(inp, High, previous);
      RateUnfold(inp, Moderate, previous);
      assert previous + 1 == FirstYear + i;
    }
  }

  /** With inputs in the sidebar's ranges, each row's rates lie in [0, 1]
      and never fall from one row to a later one. */
  lemma RowsRatesMonotone(inp: Inputs, end: int, rows: seq<Row>)
    requires WellFormedTier(inp, High) && WellFormedTier(inp, Moderate)
    requires FirstYear <= end && ProjectUntil(inp, end) == Success(rows)
    ensures forall i :: 0 <= i < |rows| ==>
              0.0 <= rows[i].highRate <= 1.0 && 0.0 <= rows[i].moderateRate <= 1.0
    ensures forall i, j :: 0 <= i <= j < |rows| ==>
              rows[i].highRate <= rows[j].highRate && rows[i].moderateRate <= rows[j].moderateRate
  {
    RowCount(inp, end, rows);
    forall i | 0 <= i < |rows|
      ensures 0.0 <= rows[i].highRate <= 1.0 && 0.0 <= rows[i].moderateRate <= 1.0
    {
      RowRates(inp, end, rows, i);
      RateBounds(inp, High, FirstYear + i);
      RateBounds(inp, Moderate, FirstYear + i);
    }
    forall i, j | 0 <= i <= j < |rows|
      ensures rows[i].highRate <= rows[j].highRate && rows[i].moderateRate <= rows[j].moderateRate
    {
      RowRates(inp, end, rows, i);
      RowRates(inp, end, rows, j);
      RateMonotone(inp, High, FirstYear + i, FirstYear + j);
      RateMonotone(inp, Moderate, FirstYear + i, FirstYear + j);
    }
  }

  /** In every successful run, each row's total AI job loss is exactly the
      sum of its two tiers' losses, and each tier's loss is its rate applied
      to what remains of its pool. */
  lemma RowsLossDecomposition(inp: Inputs, end: int, rows: seq<Row>)
    requires FirstYear <= end && ProjectUntil(inp, end) == Success(rows)
    ensures forall i :: 0 <= i < |rows| ==>
              rows[i].totalLoss == rows[i].highLoss + rows[i].moderateLoss &&
              rows[i].highLoss == PoolBefore(inp, High, FirstYear + i) * rows[i].highRate &&
              rows[i].moderateLoss == PoolBefore(inp, Moderate, FirstYear + i) * rows[i].moderateRate
  {
    RowCount(inp, end, rows);
    forall i | 0 <= i < |rows|
      ensures rows[i].totalLoss == rows[i].highLoss + rows[i].moderateLoss
      ensures rows[i].highLoss == PoolBefore(inp, High, FirstYear + i) * rows[i].highRate
      ensures rows[i].moderateLoss == PoolBefore(inp, Moderate, FirstYear + i) * rows[i].moderateRate
    {
      RowLossDecomposition(inp, end, rows, i);
    }
  }

  lemma RowLossDecomposition(inp: Inputs, end: int, rows: seq<Row>, i: int)
    requires FirstYear <= end && ProjectUntil(inp, end) == Success(rows)
    requires 0 <= i < end - FirstYear
    ensures |rows| == end - FirstYear
    ensures rows[i].totalLoss == rows[i].highLoss + rows[i].moderateLoss
    ensures rows[i].highLoss == PoolBefore(inp, High, FirstYear + i) * rows[i].highRate
    ensures rows[i].moderateLoss == PoolBefore(inp, Moderate, FirstYear + i) * rows[i].moderateRate
  {
    RowLosses(inp, end, rows, i);
    RowHighLoss(inp, end, rows, i);
    RowModerateLoss(inp, end, rows, i);
  }

  lemma RowHighLoss(inp: Inputs, end: int, rows: seq<Row>, i: int)
    requires FirstYear <= end && ProjectUntil(inp, end) == Success(rows)
    requires 0 <= i < end - FirstYear
    ensures |rows| == end - FirstYear
    ensures rows[i].highLoss == PoolBefore(inp, High, FirstYear + i) * rows[i].highRate
  {
    RowRates(inp, end, rows, i);
    RowLosses(inp, end, rows, i);
    LossAtRate(inp, High, FirstYear + i, rows[i].highRate);
  }

  lemma RowModerateLoss(inp: Inputs, end: int, rows: seq<Row>, i: int)
    requires FirstYear <= end && ProjectUntil(inp, end) == Success(rows)
    requires 0 <= i < end - FirstYear
    ensures |rows| == end - FirstYear
    ensures rows[i].moderateLoss == PoolBefore(inp, Moderate, FirstYear + i) * rows[i].moderateRate
  {
    RowRates(inp, end, rows, i);
    RowLosses(inp, end, rows, i);
    LossAtRate(inp, Moderate, FirstYear + i, rows[i].moderateRate);
  }

  /** In every successful run, each row's labor force is the base plus the
      growth once per year since 2024, and is not zero. */
  lemma RowsLaborForce(inp: Inputs, end: int, rows: seq<Row>)
    requires FirstYear <= end && ProjectUntil(inp, end) == Success(rows)
    ensures forall i :: 0 <= i < |rows| ==>
              rows[i].laborForce == BaseLaborForce + inp.laborForceGrowth * (i + 1) as real &&
              rows[i].laborForce != 0.0
  {
    RowCount(inp, end, rows);
    forall i | 0 <= i < |rows|
      ensures rows[i].laborForce == BaseLaborForce + inp.laborForceGrowth * (i + 1) as real
      ensures rows[i].laborForce != 0.0
    {
      RowLaborForce(inp, end, rows, i);
      LaborForceClosedForm(inp, FirstYear + i);
    }
  }

  /** In every successful run, each row's employment is the previous row's
      (the base figure for 2025) plus the new jobs in millions minus that
      row's own AI loss. */
  lemma RowsEmployment(inp: Inputs, end: int, rows: seq<Row>)
    requires FirstYear <= end && ProjectUntil(inp, end) == Success(rows)
    ensures 0 < |rows| ==>
              rows[0].totalEmployed == BaseEmployed + inp.newJobsPerYear / 1000000.0 - rows[0].totalLoss
    ensures forall i :: 0 < i < |rows| ==>
              rows[i].totalEmployed ==
                rows[i - 1].totalEmployed + inp.newJobsPerYear / 1000000.0 - rows[i].totalLoss
  {
    RowCount(inp, end, rows);
    if 0 < |rows| {
      RowEmployment(inp, end, rows, 0);
    }
    forall i | 0 < i < |rows|
      ensures rows[i].totalEmployed ==
                rows[i - 1].totalEmployed + inp.newJobsPerYear / 1000000.0 - rows[i].totalLoss
    {
      RowEmployment(inp, end, rows, i);
      RowEmployment(inp, end, rows, i - 1);
      var year := FirstYear + i;
      assert year - 1 == FirstYear + (i - 1);
    }
  }

  /** In every successful run, each row's unemployment is its labor force
      minus its employment, and its unemployment rate is that as a
      percentage of the labor force. */
  lemma RowsUnemployment(inp: Inputs, end: int, rows: seq<Row>)
    requires FirstYear <= end && ProjectUntil(inp, end) == Success(rows)
    ensures forall i :: 0 <= i < |rows| ==>
              rows[i].unemployed == rows[i].laborForce - rows[i].totalEmployed &&
              rows[i].laborForce != 0.0 &&
              rows[i].unemploymentRate == rows[i].unemployed / rows[i].laborForce * 100.0
  {
    RowCount(inp, end, rows);
    forall i | 0 <= i < |rows|
      ensures rows[i].unemployed == rows[i].laborForce - rows[i].totalEmployed
      ensures rows[i].laborForce != 0.0
      ensures rows[i].unemploymentRate == rows[i].unemployed / rows[i].laborForce * 100.0
    {
      RowUnemployment(inp, end, rows, i);
    }
  }

  /** The sum of the rows' total AI job losses. */
  function SumTotalLoss(rows: seq<Row>): (sum: real)
  {
    if rows == [] then 0.0 else SumTotalLoss(rows[..|rows| - 1]) + rows[|rows| - 1].totalLoss
  }

  /** The total AI job losses of the first `k` rows of a successful run are
      everything both tiers lost in those years. */
  lemma {:induction false} SumTotalLossPrefix(inp: Inputs, end: int, rows: seq<Row>, k: nat)
    requires FirstYear <= end && ProjectUntil(inp, end) == Success(rows)
    requires k <= |rows|
    ensures SumTotalLoss(rows[..k]) ==
              LossesBefore(inp, High, FirstYear + k) + LossesBefore(inp, Moderate, FirstYear + k)
  {
    RowCount(inp, end, rows);
    if k > 0 {
      SumTotalLossPrefix(inp, end, rows, k - 1);
      assert rows[..k][..k - 1] == rows[..k - 1];
      RowLosses(inp, end, rows, k - 1);
      var year := FirstYear + k;
      assert year - 1 == FirstYear + (k - 1);
    }
  }

  /** With inputs in the sidebar's ranges, the AI job losses over a whole
      successful run are non-negative and never exceed the two initial
      pools. */
  lemma RowsLossesWithinPools(inp: Inputs, end: int, rows: seq<Row>)
    requires WellFormedTier(inp, High) && WellFormedTier(inp, Moderate)
    requires FirstYear <= end && ProjectUntil(inp, end) == Success(rows)
    ensures 0.0 <= SumTotalLoss(rows) <= InitialHighImpactJobs + InitialModerateImpactJobs
  {
    RowCount(inp, end, rows);
    SumTotalLossPrefix(inp, end, rows, |rows|);
    assert rows[..|rows|] == rows;
    LossesBounded(inp, High, end);
    LossesBounded(inp, Moderate, end);
  }

  /** The first projected year under the sidebar's default inputs. */
  lemma DefaultScenarioFirstYear()
    ensures var inp := Inputs(0.05, 0.025, 0.30, 0.20, 0.62, 1084000.0);
            Projections(inp).Success? &&
            Projections(inp).value[0] ==
              Row(2025, 169.12, 161.52, 0.05, 1.137, 0.025, 0.127, 1.264, 7.6, 760.0 / 169.12)
  {
    var inp := Inputs(0.05, 0.025, 0.30, 0.20, 0.62, 1084000.0);
    NonNegativeGrowthSucceeds(inp);
    RowAt(inp, LastYear + 1, Projections(inp).value, 0);
  }
}
