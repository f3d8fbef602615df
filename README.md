# AI job impact calculator: the projection engine in Dafny

This project models `calculate_projections`, the projection engine of a
what-if calculator for the effect of AI on US employment. The engine takes
six scenario inputs:

- an initial AI job-loss rate for each of two tiers of exposed jobs (high and moderate impact);
- each tier's annual rate change;
- the annual labor force growth, in millions;
- the number of new jobs created per year.

It runs one pass per year from 2025 through 2033. Each pass:

- grows each tier's loss rate and caps it at 100%;
- computes the civilian labor force;
- takes each tier's loss from its remaining pool of exposed jobs;
- carries total employment forward;
- derives unemployment and the unemployment rate.

It records one row per year.

The model has three modules:

- `Model` (`model.dfy`) holds the data model (`Inputs`, `Tier`, `Row`, the
  `Result` of a projection and its one error `ZeroLaborForce`). It also
  holds the engine as pure recursive functions of the year: `Rate`,
  `PoolBefore`/`Loss`, `LossesBefore`, `LaborForce`, `Employed`, `RowFor`,
  `ProjectUntil` and `Projections`. These functions are the specification.
- `Calculator` (`calculator.dfy`) holds `CalculateProjections`, the
  engine's loop as the program runs it. It updates the two job pools in
  place, carries the previous year's rates and employment in local
  variables, and appends one row per year. It is proved to return exactly
  `Model.Projections`.
- `Properties` (`properties.dfy`) holds what the engine promises:
  - the shape of the result and its one failure;
  - the rate cap, bounds, monotonicity and closed form;
  - pool depletion and conservation;
  - the linear labor force;
  - the employment recurrence and its closed form;
  - the unemployment arithmetic;
  - the first row of the default scenario.

All quantities are exact `real`s. The program's only run-time failure is
Python's `ZeroDivisionError` in `unemployed / labor_force`. It is raised
exactly when a year's labor force is `0.0`. The model returns it as
`Failure(ZeroLaborForce(year))` for the first such year. A negative labor
force divides normally and is not an error.

The model follows the code as written:

- The 2024 baselines are a labor force of 168.5 million and employment
  of 161.7 million, with 22.74 million high-impact and 5.08 million
  moderate-impact exposed jobs.
- The labor force in year `y` is `168.5 + growth * (y - 2024)`, so 2025
  is already one year of growth above the baseline.
- Employment in 2025 is the 2024 baseline plus the new jobs minus the
  2025 AI job loss. In each later year it is the previous year's
  employment plus the new jobs minus that same year's AI job loss.
- New jobs are given as a raw count and divided by 1,000,000.
- `unemployed` is the labor force minus employment.
- The unemployment rate is `unemployed / labor force * 100`, a percentage.
- The division fails only for a labor force of exactly zero. A negative
  labor force divides normally.

## Model

| member | source | states |
|---|---|---|
| Calculator.CalculateProjections | streamlit_app.py:33-100 | The loop's result is exactly the specification's projection. It succeeds iff no year 2025..2033 has a zero labor force. On success it has 9 rows, for years 2025, 2026, … in order. On failure it names a year in range whose labor force is zero. |
| Calculator.RatesStep | streamlit_app.py:52-57 | The rates the loop computes from the carried previous rates are the model's rates for the year. |
| Calculator.LossesStep | streamlit_app.py:63-69 | The losses the loop computes are the model's losses, their sum is the year's total loss, and the decremented pools are the model's pools for the next year. |
| Calculator.EmploymentStep | streamlit_app.py:72-75 | Employment as the loop computes it (from the baseline in 2025, else from the carried previous employment) is the model's employment. |
| Calculator.RowFrom | streamlit_app.py:77-98 | A row whose fields agree with the model's values, with unemployment and rate derived from them, is the model's row for the year. |
| Model.Min | streamlit_app.py:56 | `min` returns one of its arguments and is at most both. |
| Properties.FailureIsFinal | streamlit_app.py:50-79 | Once a year has raised the division error, no later year changes the outcome. |
| Properties.RowsOf | streamlit_app.py:47-98 | A successful run up to any end year holds one row per year, and row `i` is the row of year 2025 + i, whose labor force is non-zero. |
| Properties.FailureIff | streamlit_app.py:60-79 | A run fails iff some year before its end has a zero labor force, and the error names the first such year. |
| Properties.ProjectionsFailure | streamlit_app.py:47-79 | The projection succeeds iff every year 2025..2033 has a non-zero labor force. A failure names a year in range with a zero labor force, and every earlier year's is non-zero. |
| Properties.ProjectionsShape | streamlit_app.py:47-88 | A successful projection has exactly 9 rows. Row `i` is year 2025 + i, and the years ascend strictly with no gaps. |
| Properties.NonNegativeGrowthSucceeds | streamlit_app.py:60-79 | With non-negative labor force growth, the projection never fails. |
| Properties.RateBounds | streamlit_app.py:52-57 | With an initial rate in [0, 1] and a non-negative change (the sidebar's ranges), every year's rate lies in [0, 1]. |
| Properties.RateStep | streamlit_app.py:56-57 | With inputs in range, a rate never decreases from one year to the next. |
| Properties.RateMonotone | streamlit_app.py:52-57 | With inputs in range, each tier's rate is non-decreasing over any span of years. |
| Properties.RateConstantWithoutChange | streamlit_app.py:52-57 | With a zero change, a rate of at most 1 stays at its initial value every year. |
| Properties.RateClosedForm | streamlit_app.py:52-57 | With inputs in range, the rate in year `y` is `min(1, initial * (1 + change)^(y - 2025))`. |
| Properties.CappedGrowthStep | streamlit_app.py:56-57 | Capping at 1, growing by a non-negative change and capping again equals growing first and capping once. |
| Properties.PoolDepletion | streamlit_app.py:63-69 | The pool after a year is the pool before minus that year's loss, that is the pool times (1 - rate). |
| Properties.LossWithinPool | streamlit_app.py:63-64 | With a rate in range and a non-negative pool, a year's loss lies between 0 and the pool. |
| Properties.PoolBounds | streamlit_app.py:44-69 | With inputs in range, each pool stays non-negative and never increases. Each year's loss is between 0 and the pool, which is at most the initial 22.74 / 5.08. |
| Properties.PoolConservation | streamlit_app.py:44-69 | The pool at the start of a year plus every earlier loss equals the initial pool. |
| Properties.LossesBounded | streamlit_app.py:44-69 | With inputs in range, a tier's cumulative loss lies between 0 and its initial pool. |
| Properties.LaborForceClosedForm | streamlit_app.py:60 | The labor force of the year-on-year recurrence is `168.5 + growth * (y - 2024)`. |
| Properties.LaborForceIndependent | streamlit_app.py:60 | The labor force depends only on the growth input, not on the rates, the new jobs or employment. |
| Properties.LaborForceAtLeastBase | streamlit_app.py:60 | With non-negative growth, the labor force is never below 168.5. |
| Properties.EmploymentClosedForm | streamlit_app.py:72-75 | Employment in year `y` is 161.7, plus `(y - 2024)` years of new jobs in millions, minus every AI loss of both tiers through year `y`. |
| Properties.EmploymentBounds | streamlit_app.py:72-75 | With inputs in range, employment lies between the no-AI figure minus both initial pools and the no-AI figure. |
| Properties.RowsRates | streamlit_app.py:52-57 | In every successful run, the 2025 row holds the initial rates. Every later row's rate is `min(1, previous row's rate * (1 + change))`, hence at most 1. |
| Properties.RowsRatesMonotone | streamlit_app.py:52-57 | With inputs in range, every row's rates lie in [0, 1] and are non-decreasing from row to row. |
| Properties.RowsLossDecomposition | streamlit_app.py:63-65 | In every row, the total AI loss is exactly the high plus the moderate loss. Each tier's loss is that year's remaining pool times the row's rate. |
| Properties.RowsLaborForce | streamlit_app.py:60 | Row `i`'s labor force is `168.5 + growth * (i + 1)`, and it is non-zero. |
| Properties.RowsEmployment | streamlit_app.py:72-75 | The 2025 row's employment is 161.7 + new jobs / 1e6 - its total loss. Every later row's is the previous row's + new jobs / 1e6 - its own total loss. |
| Properties.RowsUnemployment | streamlit_app.py:78-79 | In every row, unemployed is labor force minus employment, the labor force is non-zero, and the unemployment rate is `unemployed / labor force * 100`. |
| Properties.SumTotalLossPrefix | streamlit_app.py:63-65 | The total losses of the first `k` rows add up to everything both tiers lost in those years. |
| Properties.RowsLossesWithinPools | streamlit_app.py:44-65 | With inputs in range, the AI losses over a whole successful run are non-negative and at most 22.74 + 5.08. |
| Properties.DefaultScenarioFirstYear | streamlit_app.py:19-79 | Under the sidebar's default inputs, the projection succeeds. Its 2025 row is: labor force 169.12, employment 161.52, losses 1.137 + 0.127 = 1.264, unemployed 7.6, rate 7.6 / 169.12 * 100. |

## Left out

- The Streamlit page and sidebar widgets (streamlit_app.py:1-31): UI. Their value ranges appear only as the `WellFormedTier` preconditions of the bound and monotonicity lemmas. The upper bound of 5.0 on the rate change is not needed by any lemma.
- The top-level call and `st.dataframe` display (streamlit_app.py:103-112), and the Plotly charts (streamlit_app.py:114-130): presentation through library code that is not part of this model.
- The `pd.DataFrame` wrapping (streamlit_app.py:100): the result is a `seq<Row>`.
- The display formatting of each row (streamlit_app.py:89-97): the rows hold the exact values. The `round(…, 1)` / `round(…, 2)` calls and the `.1%` percent strings are not modelled. As written, `.1%` is applied to an unemployment rate already multiplied by 100, which is a display quirk, not arithmetic.
- IEEE-754 floating point: every quantity is an exact real, so rounding, overflow, `inf` and `nan` are not modelled. Division fails only on an exact zero, as Python's float division does.
- The Python loop reads `prev_high_rate`, `prev_moderate_rate` and `prev_employed` only after 2025 has set them. `Calculator.CalculateProjections` initialises them to 0.0, a value it never reads.
- Python's int / float distinction for `new_jobs_per_year` and `year - 2024`: both become reals.
