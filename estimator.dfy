/** The conventional Some/None datatype: a salary bound or a salary object may be null. */
module Wrappers {
  datatype Option<+T> = None | Some(value: T)
}

/**
 * The salary estimator: turns a possibly incomplete salary range of one
 * vacancy into a single point estimate (get_predict_salary in main.py).
 *
 * Arithmetic is exact: the source multiplies by 1.2 and 0.8 and halves in
 * floating point; here those are the rationals 6/5, 4/5 and 1/2 on `real`.
 */
module Estimator {
  import opened Wrappers

  /** A salary bound as a vacancy record carries it: an integer or null. */
  type Bound = Option<int>

  /** The (from, to) pair of one vacancy, as the estimator receives it. */
  datatype Range = Range(from: Bound, to: Bound)

  /** Truthiness of a bound: both null and 0 count as "absent". */
  predicate Present(b: Bound) {
    b.Some? && b.value != 0
  }

  /** A bound that is null or a non-negative integer. */
  predicate NonNegative(b: Bound) {
    b.None? || b.value >= 0
  }

  /**
   * The point estimate of a salary range. Both bounds present: the midpoint;
   * only the lower one: 20% above it; only the upper one: 20% below it;
   * neither: 0, the "no estimate" sentinel.
   */
  function GetPredictSalary(salaryFrom: Bound, salaryTo: Bound): (salary: real)
    // with both bounds present the estimate lies between them
    ensures Present(salaryFrom) && Present(salaryTo) ==>
      (salaryFrom.value as real <= salary <= salaryTo.value as real) ||
      (salaryTo.value as real <= salary <= salaryFrom.value as real)
    // non-negative bounds give a non-negative estimate, which is the
    // sentinel 0 exactly when both bounds are absent
    ensures NonNegative(salaryFrom) && NonNegative(salaryTo) ==>
      0.0 <= salary && (salary == 0.0 <==> !Present(salaryFrom) && !Present(salaryTo))
  {
    if Present(salaryFrom) && Present(salaryTo) then
      (salaryFrom.value + salaryTo.value) as real / 2.0
    else if Present(salaryFrom) && !Present(salaryTo) then
      salaryFrom.value as real * 1.2
    else if !Present(salaryFrom) && Present(salaryTo) then
      salaryTo.value as real * 0.8
    else
      // the fourth branch of the source, `not from and not to`, is the only
      // case left, and it restates the initial value 0
      0.0
  }

  /** The estimate of a range record. */
  function Estimate(r: Range): real {
    GetPredictSalary(r.from, r.to)
  }

  /** The four rules, one per combination of present and absent bounds. */
  lemma EstimateRules(salaryFrom: Bound, salaryTo: Bound)
    ensures Present(salaryFrom) && Present(salaryTo) ==>
      GetPredictSalary(salaryFrom, salaryTo) == (salaryFrom.value + salaryTo.value) as real / 2.0
    ensures Present(salaryFrom) && !Present(salaryTo) ==>
      GetPredictSalary(salaryFrom, salaryTo) == salaryFrom.value as real * 6.0 / 5.0
    ensures !Present(salaryFrom) && Present(salaryTo) ==>
      GetPredictSalary(salaryFrom, salaryTo) == salaryTo.value as real * 4.0 / 5.0
    ensures !Present(salaryFrom) && !Present(salaryTo) ==>
      GetPredictSalary(salaryFrom, salaryTo) == 0.0
  {
  }

  /** A null bound and a zero bound are indistinguishable to the estimator. */
  lemma NullAndZeroAlike(salaryFrom: Bound, salaryTo: Bound)
    ensures GetPredictSalary(None, salaryTo) == GetPredictSalary(Some(0), salaryTo)
    ensures GetPredictSalary(salaryFrom, None) == GetPredictSalary(salaryFrom, Some(0))
  {
  }

  /** Worked values: (100, 200) gives 150, (100, 0) gives 120, (0, 200) gives 160, (0, 0) gives 0. */
  lemma EstimateExamples()
    ensures GetPredictSalary(Some(100), Some(200)) == 150.0
    ensures GetPredictSalary(Some(100), Some(0)) == 120.0
    ensures GetPredictSalary(Some(0), Some(200)) == 160.0
    ensures GetPredictSalary(Some(0), Some(0)) == 0.0
    ensures GetPredictSalary(None, None) == 0.0
  {
  }
}
