/**
 * What the two per-source aggregators (predict_rub_salary_hh and
 * predict_rub_salary_sj in main.py) compute, stated once for both: a source
 * supplies `pick`, which either reads the salary range of a record or
 * rejects the record; the aggregate sums the estimates of the kept ranges,
 * counts those whose estimate is non-zero, and averages the two.
 */
module Aggregate {
  import opened Wrappers
  import opened Estimator
  import opened Average

  /** A range whose estimate is non-zero: it adds one to the processed count. */
  predicate Counted(r: Range) {
    Estimate(r) != 0.0
  }

  /**
   * With non-negative bounds a range is counted exactly when at least one
   * bound is present; with negative bounds the count follows the estimate
   * instead: a negative estimate is counted, and present bounds whose
   * midpoint is 0 are not.
   */
  lemma CountedIffBoundPresent(r: Range)
    ensures NonNegative(r.from) && NonNegative(r.to) ==>
      (Counted(r) <==> Present(r.from) || Present(r.to))
    ensures Estimate(r) < 0.0 ==> Counted(r)
    ensures Present(r.from) && Present(r.to) && r.from.value + r.to.value == 0 ==> !Counted(r)
    ensures Counted(Range(Some(-100), None)) && Estimate(Range(Some(-100), None)) < 0.0
    ensures !Counted(Range(Some(-100), Some(100)))
  {
  }

  /** A record the source keeps and whose estimate is non-zero. */
  predicate Contributes<V>(v: V, pick: V -> Option<Range>) {
    pick(v).Some? && Counted(pick(v).value)
  }

  /** The positions of the contributing records. */
  function Contributing<V>(vs: seq<V>, pick: V -> Option<Range>): set<nat> {
    set i: nat | i < |vs| && Contributes(vs[i], pick)
  }

  /** The ranges of the records the source keeps, in input order. */
  function Selected<V>(vs: seq<V>, pick: V -> Option<Range>): (rs: seq<Range>)
    ensures |rs| <= |vs|
  {
    if vs == [] then []
    else
      var rest := Selected(vs[..|vs| - 1], pick);
      match pick(vs[|vs| - 1])
      case Some(r) => rest + [r]
      case None => rest
  }

  /** The running total: the sum of the estimates of `rs`, zero estimates included. */
  function Total(rs: seq<Range>): real {
    if rs == [] then 0.0 else Total(rs[..|rs| - 1]) + Estimate(rs[|rs| - 1])
  }

  /** The processed count: how many of `rs` have a non-zero estimate. */
  function Processed(rs: seq<Range>): (n: nat)
    ensures n <= |rs|
  {
    if rs == [] then 0 else Processed(rs[..|rs| - 1]) + (if Counted(rs[|rs| - 1]) then 1 else 0)
  }

  /** The (average, processed count) pair an aggregator returns for `vs`. */
  function Summary<V>(vs: seq<V>, pick: V -> Option<Range>): (Average, int) {
    var rs := Selected(vs, pick);
    GetAverageSalary(Total(rs), Processed(rs))
  }

  lemma {:induction false} SelectedAppend<V>(vs: seq<V>, ws: seq<V>, pick: V -> Option<Range>)
    ensures Selected(vs + ws, pick) == Selected(vs, pick) + Selected(ws, pick)
    decreases |ws|
  {
    if ws == [] {
      assert vs + ws == vs;
    } else {
      var n := |ws| - 1;
      assert (vs + ws)[..|vs + ws| - 1] == vs + ws[..n];
      assert (vs + ws)[|vs + ws| - 1] == ws[n];
      SelectedAppend(vs, ws[..n], pick);
    }
  }

  lemma {:induction false} TotalAppend(rs: seq<Range>, ss: seq<Range>)
    ensures Total(rs + ss) == Total(rs) + Total(ss)
    decreases |ss|
  {
    if ss == [] {
      assert rs + ss == rs;
    } else {
      var n := |ss| - 1;
      assert (rs + ss)[..|rs + ss| - 1] == rs + ss[..n];
      assert (rs + ss)[|rs + ss| - 1] == ss[n];
      TotalAppend(rs, ss[..n]);
    }
  }

  lemma {:induction false} ProcessedAppend(rs: seq<Range>, ss: seq<Range>)
    ensures Processed(rs + ss) == Processed(rs) + Processed(ss)
    decreases |ss|
  {
    if ss == [] {
      assert rs + ss == rs;
    } else {
      var n := |ss| - 1;
      assert (rs + ss)[..|rs + ss| - 1] == rs + ss[..n];
      assert (rs + ss)[|rs + ss| - 1] == ss[n];
      ProcessedAppend(rs, ss[..n]);
    }
  }

  /**
   * One more record: a rejected record leaves the kept ranges as they were;
   * a kept one adds its estimate to the total and, when that estimate is
   * non-zero, one to the count.
   */
  lemma SelectedStep<V>(vs: seq<V>, pick: V -> Option<Range>)
    requires vs != []
    ensures var rest := Selected(vs[..|vs| - 1], pick);
      match pick(vs[|vs| - 1])
      case None => Selected(vs, pick) == rest
      case Some(r) =>
        Total(Selected(vs, pick)) == Total(rest) + Estimate(r) &&
        Processed(Selected(vs, pick)) == Processed(rest) + (if Counted(r) then 1 else 0)
  {
    var rest := Selected(vs[..|vs| - 1], pick);
    if pick(vs[|vs| - 1]).Some? {
      var r := pick(vs[|vs| - 1]).value;
      TotalAppend(rest, [r]);
      ProcessedAppend(rest, [r]);
      assert [r][..0] == [];
    }
  }

  /** Appending one record adds its position to the contributing ones exactly when it contributes. */
  lemma ContributingStep<V>(vs: seq<V>, pick: V -> Option<Range>)
    requires vs != []
    ensures |Contributing(vs, pick)| ==
      |Contributing(vs[..|vs| - 1], pick)| + (if Contributes(vs[|vs| - 1], pick) then 1 else 0)
  {
    var n := |vs| - 1;
    var init := vs[..n];
    var before := Contributing(init, pick);
    forall i: nat | i < n
      ensures i in Contributing(vs, pick) <==> i in before
    {
      assert vs[i] == init[i];
    }
    assert n !in before;
    if Contributes(vs[n], pick) {
      assert Contributing(vs, pick) == before + {n};
    } else {
      assert Contributing(vs, pick) == before;
    }
  }

  /**
   * The processed count is the number of records that pass the source's
   * filter and have a non-zero estimate.
   */
  lemma {:induction false} ProcessedCountsContributing<V>(vs: seq<V>, pick: V -> Option<Range>)
    ensures Processed(Selected(vs, pick)) == |Contributing(vs, pick)|
    decreases |vs|
  {
    if vs != [] {
      ProcessedCountsContributing(vs[..|vs| - 1], pick);
      SelectedStep(vs, pick);
      ContributingStep(vs, pick);
    }
  }

  /**
   * A record that does not contribute (rejected by the filter, or kept with
   * a zero estimate) changes neither the total nor the count, wherever it
   * stands in the input.
   */
  lemma IgnoredRecord<V>(vs: seq<V>, v: V, ws: seq<V>, pick: V -> Option<Range>)
    requires !Contributes(v, pick)
    ensures Total(Selected(vs + [v] + ws, pick)) == Total(Selected(vs + ws, pick))
    ensures Processed(Selected(vs + [v] + ws, pick)) == Processed(Selected(vs + ws, pick))
    ensures Summary(vs + [v] + ws, pick) == Summary(vs + ws, pick)
  {
    SelectedAppend(vs + [v], ws, pick);
    SelectedAppend(vs, [v], pick);
    SelectedAppend(vs, ws, pick);
    var a, b := Selected(vs, pick), Selected(ws, pick);
    var mid := Selected([v], pick);
    assert [v][..0] == [];
    TotalAppend(a + mid, b);
    ProcessedAppend(a + mid, b);
    TotalAppend(a, mid);
    ProcessedAppend(a, mid);
    TotalAppend(a, b);
    ProcessedAppend(a, b);
    if pick(v).Some? {
      assert mid == [pick(v).value];
      assert mid[..0] == [];
    }
  }

  /**
   * The summary carries the processed count unchanged, and it is "no data"
   * exactly when no record contributes.
   */
  lemma NoDataIffNothingContributes<V>(vs: seq<V>, pick: V -> Option<Range>)
    ensures Summary(vs, pick).1 == |Contributing(vs, pick)|
    ensures Summary(vs, pick).0.NoData? <==> forall i :: 0 <= i < |vs| ==> !Contributes(vs[i], pick)
  {
    ProcessedCountsContributing(vs, pick);
    if exists i :: 0 <= i < |vs| && Contributes(vs[i], pick) {
      var i :| 0 <= i < |vs| && Contributes(vs[i], pick);
      assert i in Contributing(vs, pick);
    }
  }

  /** Every selected range is the range `pick` read from some input record. */
  lemma {:induction false} SelectedFromInput<V>(vs: seq<V>, pick: V -> Option<Range>, k: nat)
    requires k < |Selected(vs, pick)|
    ensures exists i :: 0 <= i < |vs| && pick(vs[i]) == Some(Selected(vs, pick)[k])
    decreases |vs|
  {
    var n := |vs| - 1;
    var rest := Selected(vs[..n], pick);
    if k < |rest| {
      SelectedFromInput(vs[..n], pick, k);
      var i :| 0 <= i < n && pick(vs[..n][i]) == Some(rest[k]);
      assert vs[..n][i] == vs[i];
    } else {
      assert pick(vs[n]) == Some(Selected(vs, pick)[k]);
    }
  }

  /** Non-negative bounds give a non-negative total. */
  lemma {:induction false} TotalNonNegative(rs: seq<Range>)
    requires forall i :: 0 <= i < |rs| ==> NonNegative(rs[i].from) && NonNegative(rs[i].to)
    ensures Total(rs) >= 0.0
    decreases |rs|
  {
    if rs != [] {
      TotalNonNegative(rs[..|rs| - 1]);
    }
  }
}
