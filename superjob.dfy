/**
 * The SuperJob aggregator (predict_rub_salary_sj in main.py). A vacancy is
 * flat: `payment_from`, `payment_to` and `currency`; only payments quoted in
 * "rub" are considered.
 */
module SuperJob {
  import opened Wrappers
  import opened Estimator
  import opened Average
  import opened Aggregate

  /** A SuperJob vacancy, reduced to its payment fields. */
  datatype Vacancy = Vacancy(paymentFrom: Bound, paymentTo: Bound, currency: string)

  /** The currency code SuperJob uses for roubles. */
  const Rouble: string := "rub"

  /** The range of a vacancy paid in roubles; any other currency is rejected. */
  function Pick(v: Vacancy): Option<Range> {
    if v.currency == Rouble then Some(Range(v.paymentFrom, v.paymentTo)) else None
  }

  /**
   * Walks the vacancies once, adding each rouble payment's estimate to the
   * running total and counting those whose estimate is non-zero, then
   * averages. The result is the summary of the input; the count is the
   * number of rouble vacancies with a non-zero estimate, so it never exceeds
   * the number of vacancies, and the average is "no data" exactly when it is 0.
   */
  method PredictRubSalarySj(response: seq<Vacancy>) returns (average: Average, processed: int)
    ensures (average, processed) == Summary(response, Pick)
    ensures processed == |Contributing(response, Pick)|
    ensures 0 <= processed <= |response|
    ensures average.NoData? <==> processed == 0
  {
    var processedVacancies := 0;
    var predictedSalary := 0.0;
    for i := 0 to |response|
      invariant processedVacancies == Processed(Selected(response[..i], Pick))
      invariant predictedSalary == Total(Selected(response[..i], Pick))
    {
      var vacancy := response[i];
      if vacancy.currency == Rouble {
        var calculatedSalary := GetPredictSalary(vacancy.paymentFrom, vacancy.paymentTo);
        processedVacancies := processedVacancies + if calculatedSalary != 0.0 then 1 else 0;
        predictedSalary := predictedSalary + calculatedSalary;
      }
      assert response[..i + 1][..i] == response[..i];
      SelectedStep(response[..i + 1], Pick);
    }
    assert response[..|response|] == response;
    ProcessedCountsContributing(response, Pick);
    average, processed := GetAverageSalary(predictedSalary, processedVacancies).0, processedVacancies;
  }

  /** A vacancy not paid in roubles changes neither the running total, nor the count, nor the average, however high its payment. */
  lemma NonRoubleVacancyIgnored(before: seq<Vacancy>, v: Vacancy, after: seq<Vacancy>)
    requires v.currency != Rouble
    ensures Total(Selected(before + [v] + after, Pick)) == Total(Selected(before + after, Pick))
    ensures Processed(Selected(before + [v] + after, Pick)) == Processed(Selected(before + after, Pick))
    ensures Summary(before + [v] + after, Pick) == Summary(before + after, Pick)
  {
    IgnoredRecord(before, v, after, Pick);
  }

  /** A rouble vacancy with neither payment bound adds 0 to the total and 0 to the count. */
  lemma ZeroEstimateIgnored(before: seq<Vacancy>, v: Vacancy, after: seq<Vacancy>)
    requires !Present(v.paymentFrom) && !Present(v.paymentTo)
    ensures Total(Selected(before + [v] + after, Pick)) == Total(Selected(before + after, Pick))
    ensures Processed(Selected(before + [v] + after, Pick)) == Processed(Selected(before + after, Pick))
    ensures Summary(before + [v] + after, Pick) == Summary(before + after, Pick)
  {
    IgnoredRecord(before, v, after, Pick);
  }

  /** No vacancies, or none paid in roubles: ("no data", 0). */
  lemma NoRoubleSalaries(response: seq<Vacancy>)
    requires forall i :: 0 <= i < |response| ==> response[i].currency != Rouble
    ensures Summary(response, Pick) == (NoData, 0)
  {
    NoDataIffNothingContributes(response, Pick);
  }

  /** Non-negative rouble payments give a non-negative average; other currencies are unconstrained. */
  lemma NonNegativeAverage(response: seq<Vacancy>)
    requires forall i :: 0 <= i < |response| && response[i].currency == Rouble ==>
      NonNegative(response[i].paymentFrom) && NonNegative(response[i].paymentTo)
    ensures Summary(response, Pick).0.Salary? ==> Summary(response, Pick).0.value >= 0
  {
    var rs := Selected(response, Pick);
    forall k | 0 <= k < |rs|
      ensures NonNegative(rs[k].from) && NonNegative(rs[k].to)
    {
      SelectedFromInput(response, Pick, k);
    }
    TotalNonNegative(rs);
  }

  /**
   * A payment from 100 roubles (estimate 120) and one up to 300 roubles
   * (estimate 240) average to 180 with a count of 2.
   */
  lemma Example()
    ensures Summary([Vacancy(Some(100), None, Rouble), Vacancy(None, Some(300), Rouble)], Pick)
      == (Salary(180), 2)
  {
    var a := Vacancy(Some(100), None, Rouble);
    var b := Vacancy(None, Some(300), Rouble);
    assert [a][..0] == [];
    assert [a, b][..1] == [a];
    assert Selected([a], Pick) == [Range(Some(100), None)];
    var rs := [Range(Some(100), None), Range(None, Some(300))];
    assert Selected([a, b], Pick) == rs;
    assert rs[..1] == [Range(Some(100), None)] && rs[..1][..0] == [];
    assert Total(rs) == 360.0;
    assert Processed(rs) == 2;
    assert Trunc(360.0 / 2.0) == 180;
  }

  /** Adding a vacancy paying 1000000 in dollars between those two leaves (180, 2) unchanged. */
  lemma ExampleWithDollars()
    ensures Summary([Vacancy(Some(100), None, Rouble), Vacancy(Some(1000000), Some(1000000), "usd"),
                     Vacancy(None, Some(300), Rouble)], Pick)
      == (Salary(180), 2)
  {
    var a := Vacancy(Some(100), None, Rouble);
    var b := Vacancy(None, Some(300), Rouble);
    var dollars := Vacancy(Some(1000000), Some(1000000), "usd");
    Example();
    NonRoubleVacancyIgnored([a], dollars, [b]);
    assert [a] + [dollars] + [b] == [a, dollars, b];
    assert [a] + [b] == [a, b];
  }
}
