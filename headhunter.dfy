/**
 * The HeadHunter aggregator (predict_rub_salary_hh in main.py). A vacancy
 * carries a nullable `salary` object with `from`, `to` and `currency`; only
 * salaries quoted in "RUR" are considered.
 */
module HeadHunter {
  import opened Wrappers
  import opened Estimator
  import opened Average
  import opened Aggregate

  /** The `salary` object of a HeadHunter vacancy. */
  datatype SalaryField = SalaryField(from: Bound, to: Bound, currency: string)

  /** A HeadHunter vacancy, reduced to its salary field, which may be null. */
  datatype Vacancy = Vacancy(salary: Option<SalaryField>)

  /** The currency code HeadHunter uses for roubles. */
  const Rouble: string := "RUR"

  /** The range of a vacancy with a rouble salary; a null salary or another currency is rejected. */
  function Pick(v: Vacancy): Option<Range> {
    if v.salary.Some? && v.salary.value.currency == Rouble then
      Some(Range(v.salary.value.from, v.salary.value.to))
    else
      None
  }

  /**
   * Walks the vacancies once, adding each rouble salary's estimate to the
   * running total and counting those whose estimate is non-zero, then
   * averages. The result is the summary of the input; the count is the
   * number of rouble vacancies with a non-zero estimate, so it never exceeds
   * the number of vacancies, and the average is "no data" exactly when it is 0.
   */
  method PredictRubSalaryHh(response: seq<Vacancy>) returns (average: Average, processed: int)
    ensures (average, processed) == Summary(response, Pick)
    ensures processed == |Contributing(response, Pick)|
    ensures 0 <= processed <= |response|
    ensures average.NoData? <==> processed == 0
  {
    var processedVacancies := 0;
    var predictedSalary := 0.0;
    for i := 0 to |response|
      invariant processedVacancies == Processed(Selected(response[..i], Pick))
      invariant predictedSalary == Total(Selected(response[..i], Pick))
    {
      var salary := response[i].salary;
      if salary.Some? && salary.value.currency == Rouble {
        var calculatedSalary := GetPredictSalary(salary.value.from, salary.value.to);
        processedVacancies := processedVacancies + if calculatedSalary != 0.0 then 1 else 0;
        predictedSalary := predictedSalary + calculatedSalary;
      }
      assert response[..i + 1][..i] == response[..i];
      SelectedStep(response[..i + 1], Pick);
    }
    assert response[..|response|] == response;
    ProcessedCountsContributing(response, Pick);
    average, processed := GetAverageSalary(predictedSalary, processedVacancies).0, processedVacancies;
  }

  /** A vacancy with a null salary or a non-rouble currency changes neither the running total, nor the count, nor the average. */
  lemma NonRoubleVacancyIgnored(before: seq<Vacancy>, v: Vacancy, after: seq<Vacancy>)
    requires v.salary.None? || v.salary.value.currency != Rouble
    ensures Total(Selected(before + [v] + after, Pick)) == Total(Selected(before + after, Pick))
    ensures Processed(Selected(before + [v] + after, Pick)) == Processed(Selected(before + after, Pick))
    ensures Summary(before + [v] + after, Pick) == Summary(before + after, Pick)
  {
    IgnoredRecord(before, v, after, Pick);
  }

  /** A rouble vacancy with no usable bound adds 0 to the total and 0 to the count. */
  lemma ZeroEstimateIgnored(before: seq<Vacancy>, v: Vacancy, after: seq<Vacancy>)
    requires v.salary.Some? && !Present(v.salary.value.from) && !Present(v.salary.value.to)
    ensures Total(Selected(before + [v] + after, Pick)) == Total(Selected(before + after, Pick))
    ensures Processed(Selected(before + [v] + after, Pick)) == Processed(Selected(before + after, Pick))
    ensures Summary(before + [v] + after, Pick) == Summary(before + after, Pick)
  {
    IgnoredRecord(before, v, after, Pick);
  }

  /** No vacancies, or none with a rouble salary: ("no data", 0). */
  lemma NoRoubleSalaries(response: seq<Vacancy>)
    requires forall i :: 0 <= i < |response| ==>
      response[i].salary.None? || response[i].salary.value.currency != Rouble
    ensures Summary(response, Pick) == (NoData, 0)
  {
    NoDataIffNothingContributes(response, Pick);
  }

  /** Rouble salaries with non-negative bounds give a non-negative average; rejected vacancies are unconstrained. */
  lemma NonNegativeAverage(response: seq<Vacancy>)
    requires forall i :: 0 <= i < |response| && Pick(response[i]).Some? ==>
      NonNegative(response[i].salary.value.from) && NonNegative(response[i].salary.value.to)
    ensures Summary(response, Pick).0.Salary? ==> Summary(response, Pick).0.value >= 0
  {
    var rs := Selected(response, Pick);
    forall k | 0 <= k < |rs|
      ensures NonNegative(rs[k].from) && NonNegative(rs[k].to)
    {
      SelectedFromInput(response, Pick, k);
    }
    TotalNonNegative(rs);
  }

  /** A range of 100 to 200 roubles and a rouble vacancy with both bounds 0 average to (150, 1). */
  lemma Example()
    ensures Summary([Vacancy(Some(SalaryField(Some(100), Some(200), Rouble))),
                     Vacancy(Some(SalaryField(Some(0), Some(0), Rouble)))], Pick) == (Salary(150), 1)
  {
    var first := Vacancy(Some(SalaryField(Some(100), Some(200), Rouble)));
    var second := Vacancy(Some(SalaryField(Some(0), Some(0), Rouble)));
    ZeroEstimateIgnored([first], second, []);
    assert [first] + [second] + [] == [first, second];
    assert [first] + [] == [first];
    assert [first][..0] == [];
    assert Selected([first], Pick) == [Range(Some(100), Some(200))];
    assert Total([Range(Some(100), Some(200))]) == 150.0;
    assert Processed([Range(Some(100), Some(200))]) == 1;
    assert Summary([first], Pick) == (Salary(150), 1);
  }
}
