# Salary statistics: estimation and aggregation

A Dafny model of the decision logic of `salary_statistics`, a script that
collects programming-job vacancies from HeadHunter and SuperJob and reports,
per language, how many vacancies were found, how many were processed and
their average salary. The model covers the part of `main.py` that turns raw
vacancy records into that average:

- the **salary estimator** (`get_predict_salary`): a range with both bounds
  gives its midpoint, a lower bound alone gives 1.2 times it, an upper bound
  alone gives 0.8 times it, and no bound gives 0, the "no estimate" sentinel.
  A bound is absent when it is null or 0 (Python truthiness);
- the two **aggregators** (`predict_rub_salary_hh`, `predict_rub_salary_sj`):
  loops that skip vacancies without a rouble salary (HeadHunter: null
  `salary` or currency other than `"RUR"`; SuperJob: currency other than
  `"rub"`), add every remaining estimate to a running total and count the
  vacancies whose estimate is non-zero;
- the **guarded average** (`get_average_salary`): the total divided by the
  count, truncated toward zero, or "no data" when the count is 0, returned
  together with the count.

Files and modules:

- `estimator.dfy`: `Wrappers` (an `Option` type) and `Estimator`: salary
  bounds as `Option<int>`, `GetPredictSalary` on exact `real` arithmetic.
- `average.dfy`: `Average`: the `Average` result (`NoData` stands for the
  source's string "Нет данных"), truncation `Trunc`, `GetAverageSalary`.
- `aggregate.dfy`: `Aggregate`: what both aggregators compute, stated once.
  A source supplies `pick`, which reads the range of a record or rejects it;
  `Selected` keeps the picked ranges in order, `Total` sums their
  estimates, `Processed` counts the non-zero ones, `Summary` averages.
- `headhunter.dfy`, `superjob.dfy`: each source's record shape, its `Pick`,
  and its aggregator as a method with a loop over the vacancies whose
  invariants tie the two accumulators to `Total` and `Processed` of the
  prefix already walked. Each method's result is proved equal to `Summary`
  of its input; since that is a function of the input alone, calling an
  aggregator twice on the same records gives the same result.

## Model

| member | source | states |
|---|---|---|
| Estimator.GetPredictSalary | main.py:59-69 | with both bounds present the estimate lies between them; for non-negative bounds the estimate is non-negative and is 0 exactly when both bounds are absent (null or 0) |
| Estimator.EstimateRules | main.py:60-68 | the rule table, by definition, as a readable statement of the four cases: both bounds present gives their mean, lower only gives lower × 6/5, upper only gives upper × 4/5, neither gives 0 |
| Estimator.NullAndZeroAlike | main.py:61-67 | a null bound and a bound of 0 give the same estimate, on either side |
| Estimator.EstimateExamples | main.py:59-69 | (100, 200) gives 150, (100, 0) gives 120, (0, 200) gives 160, (0, 0) and (null, null) give 0 |
| Average.Trunc | main.py:126 | `int()` truncates toward zero: the result is within 1 of the argument, on the zero side |
| Average.GetAverageSalary | main.py:124-129 | the count is returned unchanged; the average is "no data" exactly when the count is 0; otherwise it is the quotient truncated toward zero, and for a non-negative total and positive count it is the largest n with n × count ≤ total |
| Average.NothingProcessed | main.py:125-129 | a count of 0 yields ("no data", 0) whatever the total |
| Aggregate.Selected | main.py:48-52 | the ranges kept by the currency filter are never more than the records |
| Aggregate.Processed | main.py:54 | the processed count never exceeds the number of ranges it walks |
| Aggregate.SelectedStep | main.py:49-55 | one loop iteration: a rejected record leaves the kept ranges unchanged; a kept one adds its estimate to the total and 1 to the count only when the estimate is non-zero |
| Aggregate.ProcessedCountsContributing | main.py:48-55 | the processed count equals the number of records that pass the filter and have a non-zero estimate |
| Aggregate.IgnoredRecord | main.py:49-55 | a record rejected by the filter, or kept with a zero estimate, inserted anywhere changes neither the total, nor the count, nor the result |
| Aggregate.NoDataIffNothingContributes | main.py:45-56 | the returned count is the number of contributing records, and the result is "no data" exactly when no record contributes |
| Aggregate.CountedIffBoundPresent | main.py:54 | with non-negative bounds a record is counted exactly when one of its bounds is present; any negative estimate is counted, and present bounds summing to 0 (a zero midpoint) are not; for example (−100, null) is counted and (−100, 100) is not |
| Aggregate.SelectedFromInput | main.py:50-52 | every kept range is the range of some input record |
| Aggregate.TotalNonNegative | main.py:55 | ranges with non-negative bounds give a non-negative running total |
| HeadHunter.PredictRubSalaryHh | main.py:45-56 | the loop returns the summary of its input: the count of rouble vacancies with a non-zero estimate (at most the number of vacancies) and the truncated mean of their estimates, or "no data" exactly when that count is 0 |
| HeadHunter.NonRoubleVacancyIgnored | main.py:49-50 | a vacancy with a null salary or a currency other than "RUR", inserted anywhere, changes neither the running total, nor the count, nor the average |
| HeadHunter.ZeroEstimateIgnored | main.py:53-55 | a rouble vacancy with neither bound present, inserted anywhere, changes neither the running total, nor the count, nor the average |
| HeadHunter.NoRoubleSalaries | main.py:45-56 | an empty list, or one with no rouble salary, yields ("no data", 0) |
| HeadHunter.NonNegativeAverage | main.py:45-56 | when every kept ("RUR") salary has non-negative bounds, the average is non-negative; rejected vacancies may carry any bounds |
| HeadHunter.Example | main.py:45-56 | a 100–200 rouble salary and a rouble salary with both bounds 0 yield (150, 1) |
| SuperJob.PredictRubSalarySj | main.py:111-121 | the loop returns the summary of its input: the count of "rub" vacancies with a non-zero estimate (at most the number of vacancies) and the truncated mean of their estimates, or "no data" exactly when that count is 0 |
| SuperJob.NonRoubleVacancyIgnored | main.py:115 | a vacancy in a currency other than "rub", whatever its payment and wherever inserted, changes neither the running total, nor the count, nor the average |
| SuperJob.ZeroEstimateIgnored | main.py:117-120 | a vacancy with neither payment bound present, inserted anywhere, changes neither the running total, nor the count, nor the average |
| SuperJob.NoRoubleSalaries | main.py:111-121 | an empty list, or one with no "rub" vacancy, yields ("no data", 0) |
| SuperJob.NonNegativeAverage | main.py:111-121 | when every kept ("rub") vacancy has non-negative payments, the average is non-negative; other currencies may carry any payments |
| SuperJob.Example | main.py:111-121 | a rouble payment from 100 (estimate 120) and one up to 300 (estimate 240) average to (180, 2) |
| SuperJob.ExampleWithDollars | main.py:115 | adding a vacancy paying 1000000 in dollars between those two leaves (180, 2) unchanged |

## Left out

- `get_hh_responses` and `get_sj_responses` (main.py:10-29, 72-95): HTTP requests, status checks, JSON decoding, pagination on remote answers and the fixed sleep between pages; the aggregators take the list of records as a parameter instead.
- `get_hh_statistics` and `get_sj_statistics` (main.py:32-42, 98-108): they only put the fetchers' `found` totals and the aggregators' results into a dictionary per language.
- `main` (main.py:132-149): environment loading, the language list and the printed table.
- Floating point: 1.2, 0.8, the halving and the division in the average are exact rationals here, so rounding artefacts of binary floats (and `int()` of a huge float) are not modelled.
- Record shapes are reduced to the fields the core reads. A missing key (a `KeyError` in the source) and an empty `salary` object (falsy in Python, so skipped) cannot be expressed; a bound that is a float rather than an integer is not modelled.
- The sentinel "Нет данных" is a string in the source and `Average.NoData` here; the source's estimate is the integer 0 or a float, here always a `real`.
- The count follows the code's truthiness test (an estimate other than 0), not "greater than 0": a negative estimate, which only negative bounds can produce, is counted.
