/**
 The projection loop as the program runs it: one pass per year, carrying
 the two tiers' remaining job pools, the previous year's rates and the
 previous year's employment in local variables, and appending one row per
 year. It is proved to produce exactly `Model.Projections`.
 */
module Calculator {
  import opened Model
  import Properties

  /** One year's rate as the loop computes it is the model's rate. */
  lemma RateFrom(inp: Inputs, t: Tier, year: int, previous: real, change: real, rate: real)
    requires FirstYear < year && previous == Rate(inp, t, year - 1) && change == RateChange(inp, t)
    requires rate == Min(1.0, previous * (1.0 + change))
    ensures rate == Rate(inp, t, year)
  {
    assert Grown(previous, change) == previous * (1.0 + change);
  }

  /** One year's loss as the loop computes it is the model's loss, and the
      pool it leaves is the model's pool for the next year. */
  lemma LossFrom(inp: Inputs, t: Tier, year: int, pool: real, rate: real, loss: real)
    requires FirstYear <= year && pool == PoolBefore(inp, t, year) && rate == Rate(inp, t, year)
    requires loss == pool * rate
    ensures loss == Loss(inp, t, year)
    ensures pool - loss == PoolBefore(inp, t, year + 1)
  {
    assert Loss(inp, t, year) == PoolBefore(inp, t, year) * Rate(inp, t, year);
  }

  /** What the loop carries into `year` agrees with the model: the pools
      left at its start and, after the first year, the previous year's rates
      and employment. */
  predicate Carried(inp: Inputs, year: int, highPool: real, moderatePool: real,
                    prevHighRate: real, prevModerateRate: real, prevEmployed: real)
    requires FirstYear <= year
  {
    highPool == PoolBefore(inp, High, year) &&
    moderatePool == PoolBefore(inp, Moderate, year) &&
    (FirstYear < year ==>
       prevHighRate == Rate(inp, High, year - 1) &&
       prevModerateRate == Rate(inp, Moderate, year - 1) &&
       prevEmployed == Employed(inp, year - 1))
  }

  /** The year's two rates as the loop computes them are the model's. */
  lemma RatesStep(inp: Inputs, year: int, prevHighRate: real, prevModerateRate: real,
                  highRate: real, moderateRate: real)
    requires FirstYear <= year
    requires FirstYear < year ==>
               prevHighRate == Rate(inp, High, year - 1) &&
               prevModerateRate == Rate(inp, Moderate, year - 1)
    requires year == FirstYear ==> highRate == inp.highInitialRate && moderateRate == inp.moderateInitialRate
    requires FirstYear < year ==>
               highRate == Min(1.0, prevHighRate * (1.0 + inp.highRateChange)) &&
               moderateRate == Min(1.0, prevModerateRate * (1.0 + inp.moderateRateChange))
    ensures highRate == Rate(inp, High, year) && moderateRate == Rate(inp, Moderate, year)
  {
    if FirstYear < year {
      RateFrom(inp, High, year, prevHighRate, inp.highRateChange, highRate);
      RateFrom(inp, Moderate, year, prevModerateRate, inp.moderateRateChange, moderateRate);
    }
  }

  /** The year's losses as the loop computes them are the model's, and the
      pools they leave are the model's pools for the next year. */
  lemma LossesStep(inp: Inputs, year: int, highPool: real, moderatePool: real,
                   highRate: real, moderateRate: real,
                   highLoss: real, moderateLoss: real, totalLoss: real)
    requires FirstYear <= year
    requires highPool == PoolBefore(inp, High, year) && moderatePool == PoolBefore(inp, Moderate, year)
    requires highRate == Rate(inp, High, year) && moderateRate == Rate(inp, Moderate, year)
    requires highLoss == highPool * highRate && moderateLoss == moderatePool * moderateRate
    requires totalLoss == highLoss + moderateLoss
    ensures totalLoss == TotalLoss(inp, year)
    ensures highLoss == Loss(inp, High, year) && moderateLoss == Loss(inp, Moderate, year)
    ensures highPool - highLoss == PoolBefore(inp, High, year + 1)
    ensures moderatePool - moderateLoss == PoolBefore(inp, Moderate, year + 1)
  {
    LossFrom(inp, High, year, highPool, highRate, highLoss);
    LossFrom(inp, Moderate, year, moderatePool, moderateRate, moderateLoss);
  }

  /** The year's employment as the loop computes it is the model's. */
  lemma EmploymentStep(inp: Inputs, year: int, prevEmployed: real, totalLoss: real, totalEmployed: real)
    requires FirstYear <= year && totalLoss == TotalLoss(inp, year)
    requires FirstYear < year ==> prevEmployed == Employed(inp, year - 1)
    requires year == FirstYear ==> totalEmployed == BaseEmployed + inp.newJobsPerYear / 1000000.0 - totalLoss
    requires FirstYear < year ==> totalEmployed == prevEmployed + inp.newJobsPerYear / 1000000.0 - totalLoss
    ensures totalEmployed == Employed(inp, year)
  {
  }

  /** A row whose fields agree with the model's year functions is the
      model's row for that year. */
  lemma RowFrom(inp: Inputs, year: int, row: Row)
    requires FirstYear <= year && LaborForce(inp, year) != 0.0
    requires row.year == year && row.laborForce == LaborForce(inp, year)
    requires row.totalEmployed == Employed(inp, year)
    requires row.highRate == Rate(inp, High, year) && row.highLoss == Loss(inp, High, year)
    requires row.moderateRate == Rate(inp, Moderate, year) && row.moderateLoss == Loss(inp, Moderate, year)
    requires row.totalLoss == TotalLoss(inp, year)
    requires row.unemployed == row.laborForce - row.totalEmployed
    requires row.unemploymentRate == row.unemployed / row.laborForce * 100.0
    ensures row == RowFor(inp, year)
  {
  }

  method CalculateProjections(inp: Inputs) returns (result: Result<seq<Row>>)
    ensures result == Projections(inp)
    ensures result.Success? <==>
              forall year :: FirstYear <= year <= LastYear ==> LaborForce(inp, year) != 0.0
    ensures result.Success? ==>
              |result.value| == LastYear - FirstYear + 1 &&
              forall i :: 0 <= i < |result.value| ==> result.value[i].year == FirstYear + i
    ensures result.Failure? ==>
              FirstYear <= result.error.year <= LastYear &&
              LaborForce(inp, result.error.year) == 0.0
  {
    var highImpactJobs := InitialHighImpactJobs;
    var moderateImpactJobs := InitialModerateImpactJobs;
    var prevHighRate, prevModerateRate, prevEmployed := 0.0, 0.0, 0.0;
    var data: seq<Row> := [];

    for year := FirstYear to LastYear + 1
      invariant ProjectUntil(inp, year) == Success(data)
      invariant Carried(inp, year, highImpactJobs, moderateImpactJobs,
                        prevHighRate, prevModerateRate, prevEmployed)
    {
      var highRate, moderateRate;
      if year == FirstYear {
        highRate := inp.highInitialRate;
        moderateRate := inp.moderateInitialRate;
      } else {
        highRate := Min(1.0, prevHighRate * (1.0 + inp.highRateChange));
        moderateRate := Min(1.0, prevModerateRate * (1.0 + inp.moderateRateChange));
      }
      RatesStep(inp, year, prevHighRate, prevModerateRate, highRate, moderateRate);

      var laborForce := BaseLaborForce + inp.laborForceGrowth * (year - BaseYear) as real;
      Properties.LaborForceClosedForm(inp, year);

      var highImpactLoss := highImpactJobs * highRate;
      var moderateImpactLoss := moderateImpactJobs * moderateRate;
      var totalAiJobLoss := highImpactLoss + moderateImpactLoss;
      LossesStep(inp, year, highImpactJobs, moderateImpactJobs, highRate, moderateRate,
                 highImpactLoss, moderateImpactLoss, totalAiJobLoss);

      highImpactJobs := highImpactJobs - highImpactLoss;
      moderateImpactJobs := moderateImpactJobs - moderateImpactLoss;

      var totalEmployed;
      if year == FirstYear {
        totalEmployed := BaseEmployed + inp.newJobsPerYear / 1000000.0 - totalAiJobLoss;
      } else {
        totalEmployed := prevEmployed + inp.newJobsPerYear / 1000000.0 - totalAiJobLoss;
      }
      EmploymentStep(inp, year, prevEmployed, totalAiJobLoss, totalEmployed);

      var unemployed := laborForce - totalEmployed;
      if laborForce == 0.0 {
        assert ProjectUntil(inp, year + 1) == Failure(ZeroLaborForce(year));
        Properties.FailureIsFinal(inp, year + 1, LastYear + 1);
        result := Failure(ZeroLaborForce(year));
        Properties.ProjectionsFailure(inp);
        return;
      }
      var unemploymentRate := unemployed / laborForce * 100.0;

      prevHighRate := highRate;
      prevModerateRate := moderateRate;
      prevEmployed := totalEmployed;

      var row := Row(year, laborForce, totalEmployed, highRate, highImpactLoss,
                     moderateRate, moderateImpactLoss, totalAiJobLoss,
                     unemployed, unemploymentRate);
      RowFrom(inp, year, row);
      data := data + [row];
    }
    result := Success(data);
    Properties.ProjectionsFailure(inp);
    Properties.ProjectionsShape(inp);
  }
}
