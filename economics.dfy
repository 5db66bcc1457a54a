/** The economic analysis: how many failures the raw snapshot records, how many a
    predictive-maintenance detector that catches 30% of them would avoid, and what that
    is worth at 1000 euros a failure; reported as a six-row metrics table and the
    two bars of the cost chart. */
module Economics {
  import opened Cells
  import opened Frames
  import opened Features

  /** Euros per failure. */
  const CostPerFailure: real := 1000.0

  /** The share of failures the detector is assumed to avoid. */
  const DetectionRate: real := 0.3

  const MetricNames: seq<string> := [
    "Total Failures",
    "Failures Avoided",
    "Failures Remaining",
    "Cost Before PdM (\U{20ac})",
    "Cost After PdM (\U{20ac})",
    "Estimated Cost Savings (\U{20ac})"]

  // ---------------------------------------------------------------- the failure count

  /** What a cell adds to `Series.sum()`: its number, 1 for `True`, nothing for NaN. */
  function Amount(c: Cell): real
    requires !c.Text?
  {
    match c
    case Num(x) => x
    case Flag(b) => if b then 1.0 else 0.0
    case Missing => 0.0
  }

  /** A column that `sum()` followed by `* 0.3` accepts: no strings. */
  predicate Summable(col: seq<Cell>) {
    forall i :: 0 <= i < |col| ==> !col[i].Text?
  }

  /** `Series.sum()`, skipping NaN. */
  function ColumnSum(col: seq<Cell>): real
    requires Summable(col)
    decreases |col|
  {
    if col == [] then 0.0 else Amount(col[0]) + ColumnSum(col[1..])
  }

  /** `df["Machine failure"].sum()` and the `* 0.3` after it: a `KeyError` when the column
      is absent. A column holding strings fails too: `sum()` raises on strings mixed with
      numbers, and a sum of strings alone is a concatenated string, which `total_failures * 0.3` rejects
      (a string times a float). */
  function TotalFailures(t: Table): (r: Result<real>)
    requires Rectangular(t)
    ensures r.Ok? <==> FailureLabel in t.names && Summable(Lookup(t, FailureLabel).value)
    ensures r.Ok? ==> r.value == ColumnSum(Lookup(t, FailureLabel).value)
    ensures r.Err? ==> r.error == if FailureLabel in t.names then NotNumeric(FailureLabel) else MissingColumn(FailureLabel)
  {
    match Lookup(t, FailureLabel)
    case None => Err(MissingColumn(FailureLabel))
    case Some(col) => if Summable(col) then Ok(ColumnSum(col)) else Err(NotNumeric(FailureLabel))
  }

  /** A failure label as the dataset writes it: the integer 0 or 1. */
  predicate BinaryLabels(col: seq<Cell>) {
    forall i :: 0 <= i < |col| ==> col[i] == Num(0.0) || col[i] == Num(1.0)
  }

  /** Number of rows labelled as a failure. */
  function Failures(col: seq<Cell>): (n: nat)
    ensures n <= |col|
    decreases |col|
  {
    if col == [] then 0 else (if col[0] == Num(1.0) then 1 else 0) + Failures(col[1..])
  }

  /** For a 0/1 label the sum is the number of failure rows. */
  lemma {:induction false} SumCountsFailures(col: seq<Cell>)
    requires BinaryLabels(col)
    ensures Summable(col) && ColumnSum(col) == Failures(col) as real
    decreases |col|
  {
    if col != [] {
      assert BinaryLabels(col[1..]) by {
        forall i | 0 <= i < |col| - 1 ensures col[1..][i] == Num(0.0) || col[1..][i] == Num(1.0) {
          assert col[1..][i] == col[i + 1];
        }
      }
      SumCountsFailures(col[1..]);
    }
  }

  // ---------------------------------------------------------------- the arithmetic

  /** `int(x)`: the integer part, truncating toward zero. */
  function Truncate(x: real): (n: int)
    ensures 0.0 <= x ==> 0 <= n && n as real <= x < n as real + 1.0
    ensures x < 0.0 ==> n <= 0 && n as real - 1.0 < x <= n as real
  {
    if x >= 0.0 then x.Floor else -((-x).Floor)
  }

  /** The figures of the analysis. */
  datatype Outcome = Outcome(total: real, avoided: int, remaining: real,
                             costBefore: real, costAfter: real, saved: real)

  /** Failures avoided and remaining, and the costs before, after and saved. */
  function Assess(total: real): (o: Outcome)
    ensures o.total == total
  {
    var avoided := Truncate(total * DetectionRate);
    var remaining := total - avoided as real;
    var before := total * CostPerFailure;
    var after := remaining * CostPerFailure;
    Outcome(total, avoided, remaining, before, after, before - after)
  }

  /** Every failure is either avoided or remains, and the saving is the cost of the
      avoided failures. */
  lemma Conservation(total: real)
    ensures var o := Assess(total);
      && o.avoided as real + o.remaining == total
      && o.costBefore == CostPerFailure * total
      && o.costAfter == CostPerFailure * o.remaining
      && o.saved == CostPerFailure * o.avoided as real
  {
  }

  /** For a non-negative count the detector avoids between none and all of the failures,
      at most 30% of them and fewer than one short of it, so the cost can only go down. */
  lemma AvoidedBounds(total: real)
    requires total >= 0.0
    ensures var o := Assess(total);
      && 0 <= o.avoided && o.avoided as real <= total
      && o.avoided as real <= DetectionRate * total < o.avoided as real + 1.0
      && 0.0 <= o.remaining <= total
      && 0.0 <= o.costAfter <= o.costBefore
      && o.saved >= 0.0
  {
  }

  /** For a negative sum the integer part still truncates toward zero, and the
      "saving" is a loss. */
  lemma AvoidedNegative(total: real)
    requires total < 0.0
    ensures var o := Assess(total);
      && total <= o.avoided as real <= 0.0
      && o.avoided as real - 1.0 < DetectionRate * total
      && o.saved <= 0.0
  {
  }

  /** On a whole count `n` the number avoided is `3n / 10` rounded down. */
  lemma {:induction false} AvoidedWhole(n: nat)
    ensures Assess(n as real).avoided == (3 * n) / 10
  {
    var q, r := (3 * n) / 10, (3 * n) % 10;
    assert 3 * n == 10 * q + r && 0 <= r < 10;
    assert (n as real) * DetectionRate == q as real + r as real / 10.0;
  }

  // ---------------------------------------------------------------- the reports

  /** The metrics table: column `Metric` names the six figures in a fixed order, column
      `Value` holds them. */
  function MetricsTable(o: Outcome): (t: Table)
    ensures Rectangular(t) && |t.rows| == 6
  {
    var values := [o.total, o.avoided as real, o.remaining, o.costBefore, o.costAfter, o.saved];
    Table(["Metric", "Value"], seq(6, k requires 0 <= k < 6 => [Text(MetricNames[k]), Num(values[k])]))
  }

  /** The data of the bar chart: the cost before and after, one bar each. */
  function CostChart(o: Outcome): (t: Table)
    ensures Rectangular(t) && |t.rows| == 2
  {
    Table(["Scenario", "Cost (\U{20ac})"], [[Text("Before PdM"), Num(o.costBefore)], [Text("After PdM"), Num(o.costAfter)]])
  }

  /** `run_rq5_analysis`: the metrics table and the chart data, or the error reading the
      failure column raises. */
  function Rq5Analysis(t: Table): (r: Result<(Table, Table)>)
    requires Rectangular(t)
    ensures r.Ok? <==> TotalFailures(t).Ok?
    ensures r.Err? ==> r.error == TotalFailures(t).error
  {
    var total :- TotalFailures(t);
    var o := Assess(total);
    Ok((MetricsTable(o), CostChart(o)))
  }

  /** `run_rq5_analysis` on the raw table: it succeeds exactly when there is a
      `Machine failure` column and no row holds a string in it; otherwise the error is the
      `KeyError` of the missing column or the failure of the arithmetic on strings. */
  lemma Rq5Errors(t: Table)
    requires Rectangular(t)
    ensures Rq5Analysis(t).Ok? <==>
      && FailureLabel in t.names
      && forall i :: 0 <= i < |t.rows| ==> !t.rows[i][IndexOf(t.names, FailureLabel).value].Text?
    ensures Rq5Analysis(t).Err? ==>
      Rq5Analysis(t).error == if FailureLabel in t.names then NotNumeric(FailureLabel) else MissingColumn(FailureLabel)
  {
    if FailureLabel in t.names {
      var j := IndexOf(t.names, FailureLabel).value;
      var col := Lookup(t, FailureLabel).value;
      assert col == Column(t, j);
      assert forall i :: 0 <= i < |t.rows| ==> col[i] == t.rows[i][j];
    }
  }

  /** The metrics table pairs each of the six names with its figure: the first is the
      label sum, the next two add up to it, the saving is the difference of the two
      costs and equals 1000 euros per avoided failure. */
  lemma MetricsReport(t: Table)
    requires Rectangular(t) && Rq5Analysis(t).Ok?
    ensures var (metrics, chart) := Rq5Analysis(t).value;
      var total := ColumnSum(Lookup(t, FailureLabel).value);
      var names, v := Lookup(metrics, "Metric"), Lookup(metrics, "Value");
      && names.Some? && v.Some?
      && (forall k :: 0 <= k < 6 ==> names.value[k] == Text(MetricNames[k]) && v.value[k].Num?)
      && v.value[0] == Num(total)
      && v.value[1].x + v.value[2].x == total
      && v.value[5].x == v.value[3].x - v.value[4].x == CostPerFailure * v.value[1].x
      && Lookup(chart, "Cost (\U{20ac})") == Some([v.value[3], v.value[4]])
  {
    var total := TotalFailures(t).value;
    Conservation(total);
    var o := Assess(total);
    var m, c := MetricsTable(o), CostChart(o);
    assert IndexOf(m.names, "Metric") == Some(0);
    assert IndexOf(m.names, "Value") == Some(1);
    assert IndexOf(c.names, "Cost (\U{20ac})") == Some(1);
    assert Lookup(c, "Cost (\U{20ac})").value == Column(c, 1) == [Num(o.costBefore), Num(o.costAfter)];
    var v := Column(m, 1);
    assert v[0] == Num(o.total) && v[1] == Num(o.avoided as real) && v[2] == Num(o.remaining);
    assert v[3] == Num(o.costBefore) && v[4] == Num(o.costAfter) && v[5] == Num(o.saved);
  }

  /** On a 0/1 failure label the avoided count is 30% of the failure rows rounded down,
      and the saving is 1000 euros for each. */
  lemma BinaryReport(t: Table)
    requires Rectangular(t) && FailureLabel in t.names && BinaryLabels(Lookup(t, FailureLabel).value)
    ensures Rq5Analysis(t).Ok?
    ensures var n := Failures(Lookup(t, FailureLabel).value);
      var o := Assess(TotalFailures(t).value);
      && o.total == n as real
      && o.avoided == (3 * n) / 10
      && o.saved == CostPerFailure * ((3 * n) / 10) as real
  {
    var col := Lookup(t, FailureLabel).value;
    SumCountsFailures(col);
    AvoidedWhole(Failures(col));
    Conservation(Failures(col) as real);
  }
}
