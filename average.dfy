/**
 * The guarded average (get_average_salary in main.py): the truncated mean of
 * the running total over the processed count, or the "no data" sentinel
 * when nothing was processed.
 */
module Average {

  /**
   * The average reported for one language: a salary, or "no data" (the
   * source's string "Нет данных"), which is kept apart from a zero salary.
   */
  datatype Average = NoData | Salary(value: int)

  /** `int(x)` on a number: truncation toward zero. */
  function Trunc(x: real): (n: int)
    ensures 0.0 <= x ==> 0 <= n && n as real <= x < n as real + 1.0
    ensures x < 0.0 ==> n <= 0 && n as real - 1.0 < x <= n as real
  {
    if 0.0 <= x then x.Floor else -((-x).Floor)
  }

  /** A positive factor keeps a non-strict order. */
  lemma ScaleLe(a: real, b: real, c: real)
    requires a <= b && 0.0 < c
    ensures a * c <= b * c
  {
    assert (b - a) * c == b * c - a * c;
  }

  /** A positive factor keeps a strict order. */
  lemma ScaleLt(a: real, b: real, c: real)
    requires a < b && 0.0 < c
    ensures a * c < b * c
  {
    assert (b - a) * c == b * c - a * c;
  }

  /** For a non-negative total and a positive count, the truncated quotient brackets the total. */
  lemma QuotientBracket(t: real, c: real)
    requires 0.0 <= t && 0.0 < c
    ensures var n := Trunc(t / c);
      0 <= n && n as real * c <= t < (n + 1) as real * c
  {
    var q := t / c;
    assert q * c == t;
    assert 0.0 <= q;
    var n := Trunc(q);
    assert n as real <= q < (n + 1) as real;
    ScaleLe(n as real, q, c);
    var m := (n + 1) as real;
    ScaleLt(q, m, c);
    assert t < m * c;
  }

  /**
   * The average of a running total over a processed count, together with
   * the count itself, unchanged. A zero count gives "no data" and no
   * division is performed; otherwise the result is the quotient truncated
   * toward zero, which for a non-negative total is the largest salary whose
   * multiple by the count does not exceed the total.
   */
  function GetAverageSalary(predictedSalary: real, processedVacancies: int): (r: (Average, int))
    ensures r.1 == processedVacancies
    ensures r.0.NoData? <==> processedVacancies == 0
    ensures processedVacancies != 0 ==>
      r.0.value == Trunc(predictedSalary / processedVacancies as real)
    ensures processedVacancies > 0 && predictedSalary >= 0.0 ==>
      0 <= r.0.value &&
      r.0.value as real * processedVacancies as real <= predictedSalary <
      (r.0.value + 1) as real * processedVacancies as real
  {
    if processedVacancies != 0 then
      var n := Trunc(predictedSalary / processedVacancies as real);
      assert processedVacancies > 0 && predictedSalary >= 0.0 ==>
        0 <= n && n as real * processedVacancies as real <= predictedSalary <
        (n + 1) as real * processedVacancies as real by {
        if processedVacancies > 0 && predictedSalary >= 0.0 {
          QuotientBracket(predictedSalary, processedVacancies as real);
        }
      }
      (Salary(n), processedVacancies)
    else
      (NoData, processedVacancies)
  }

  /** Nothing processed: ("no data", 0). */
  lemma NothingProcessed(predictedSalary: real)
    ensures GetAverageSalary(predictedSalary, 0) == (NoData, 0)
  {
  }
}
