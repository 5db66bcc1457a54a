/** Anomaly detection: the isolation forest's verdicts, one `1` (normal) or `-1`
    (anomaly) per row, are written into the frame as `anomaly_score`, translated into
    the labels `Normal` and `Anomaly` as `anomaly_label`, and tallied by label. The
    forest itself is an input: the sequence of its verdicts. */
module Anomalies {
  import opened Cells
  import opened Stats
  import opened Frames
  import opened Ranking
  import Features

  const ScoreLabel: string := "anomaly_score"
  const LabelLabel: string := "anomaly_label"
  const NormalLabel: Cell := Text("Normal")
  const AnomalyLabel: Cell := Text("Anomaly")

  /** The detector's input: every column but the failure label. */
  function DetectorInput(t: Table): (r: Result<Table>)
    requires Rectangular(t)
    ensures r.Ok? <==> Features.FailureLabel in t.names
    ensures r.Ok? ==> Rectangular(r.value) && |r.value.rows| == |t.rows|
    ensures r.Err? ==> r.error == MissingColumn(Features.FailureLabel)
  {
    Drop(t, Features.FailureLabel)
  }

  /** With distinct column labels the detector sees every column but the failure label,
      each as it is in the frame. */
  lemma DetectorInputColumns(t: Table, m: string)
    requires Rectangular(t) && Distinct(t.names) && Features.FailureLabel in t.names
    ensures DetectorInput(t).Ok? && Features.FailureLabel !in DetectorInput(t).value.names
    ensures m != Features.FailureLabel ==> Lookup(DetectorInput(t).value, m) == Lookup(t, m)
  {
    DropRemoves(t, Features.FailureLabel);
    if m != Features.FailureLabel {
      DropLookup(t, Features.FailureLabel, m);
    }
  }

  // ---------------------------------------------------------------- the labels

  /** `map({1: "Normal", -1: "Anomaly"})` on one verdict; any other value maps to NaN. */
  function LabelOf(p: int): Cell {
    if p == 1 then NormalLabel else if p == -1 then AnomalyLabel else Missing
  }

  /** The verdict a label stands for. */
  function VerdictOf(c: Cell): Option<int> {
    if c == NormalLabel then Some(1) else if c == AnomalyLabel then Some(-1) else None
  }

  /** The labels name the two verdicts and nothing else. */
  lemma LabelRoundTrip(p: int)
    ensures VerdictOf(LabelOf(p)) == if p == 1 || p == -1 then Some(p) else None
    ensures p == 1 || p == -1 ==> LabelOf(p) != Missing
  {
  }

  function ScoreColumn(preds: seq<int>): (r: seq<Cell>)
    ensures |r| == |preds| && forall i :: 0 <= i < |preds| ==> r[i] == Num(preds[i] as real)
  {
    seq(|preds|, i requires 0 <= i < |preds| => Num(preds[i] as real))
  }

  function LabelColumn(preds: seq<int>): (r: seq<Cell>)
    ensures |r| == |preds|
  {
    seq(|preds|, i requires 0 <= i < |preds| => LabelOf(preds[i]))
  }

  /** Row by row, the label column says `Normal` for `1` and `Anomaly` for `-1`. */
  lemma LabelColumnRows(preds: seq<int>, i: nat)
    requires i < |preds|
    ensures LabelColumn(preds)[i] == NormalLabel <==> preds[i] == 1
    ensures LabelColumn(preds)[i] == AnomalyLabel <==> preds[i] == -1
    ensures LabelColumn(preds)[i].Missing? <==> preds[i] != 1 && preds[i] != -1
  {
  }

  /** The frame after the two new columns, for verdicts `preds` on its rows. */
  function Annotated(t: Table, preds: seq<int>): (r: Table)
    requires Rectangular(t) && |preds| == |t.rows|
    ensures Rectangular(r) && |r.rows| == |t.rows|
  {
    WithColumn(WithColumn(t, ScoreLabel, ScoreColumn(preds)), LabelLabel, LabelColumn(preds))
  }

  /** The rows are kept, in order; `anomaly_score` holds the verdicts and
      `anomaly_label` their labels, and every other column is as it was. */
  lemma AnnotatedColumns(t: Table, preds: seq<int>, m: string)
    requires Rectangular(t) && |preds| == |t.rows|
    ensures var r := Annotated(t, preds);
      && Lookup(r, ScoreLabel) == Some(ScoreColumn(preds))
      && Lookup(r, LabelLabel) == Some(LabelColumn(preds))
      && (m != ScoreLabel && m != LabelLabel ==> Lookup(r, m) == Lookup(t, m))
  {
    var t1 := WithColumn(t, ScoreLabel, ScoreColumn(preds));
    LookupWithColumn(t, ScoreLabel, ScoreColumn(preds), m);
    LookupWithColumn(t, ScoreLabel, ScoreColumn(preds), ScoreLabel);
    LookupWithColumn(t1, LabelLabel, LabelColumn(preds), m);
    LookupWithColumn(t1, LabelLabel, LabelColumn(preds), ScoreLabel);
    LookupWithColumn(t1, LabelLabel, LabelColumn(preds), LabelLabel);
  }

  /** On a frame without the two columns, they are appended on the right and each row
      is the old row followed by its verdict and its label. */
  lemma AnnotatedRows(t: Table, preds: seq<int>, i: nat)
    requires Rectangular(t) && |preds| == |t.rows| && i < |t.rows|
    requires ScoreLabel !in t.names && LabelLabel !in t.names
    ensures Annotated(t, preds).names == t.names + [ScoreLabel, LabelLabel]
    ensures Annotated(t, preds).rows[i] == t.rows[i] + [Num(preds[i] as real), LabelOf(preds[i])]
  {
    var t1 := WithColumn(t, ScoreLabel, ScoreColumn(preds));
    assert t1.rows[i] == t.rows[i] + [Num(preds[i] as real)];
  }

  // ---------------------------------------------------------------- the step on a frame

  /** `df["anomaly_score"] = ...` then `df["anomaly_label"] = ...` on the frame, after the
      detector's input has been taken from it; the error when it has no failure
      label. */
  method Annotate(df: Frame, preds: seq<int>) returns (failure: Option<Error>)
    requires df.Valid() && |preds| == |df.rows|
    modifies df
    ensures Features.FailureLabel in old(df.names) ==>
      failure.None? && df.Valid() && df.Snapshot() == Annotated(old(df.Snapshot()), preds)
    ensures Features.FailureLabel !in old(df.names) ==>
      failure == Some(MissingColumn(Features.FailureLabel)) && df.Snapshot() == old(df.Snapshot())
  {
    var x := DetectorInput(df.Snapshot());
    if x.Err? {
      return Some(x.error);
    }
    df.SetColumn(ScoreLabel, ScoreColumn(preds));
    df.SetColumn(LabelLabel, LabelColumn(preds));
    failure := None;
  }

  // ---------------------------------------------------------------- value_counts

  /** Number of cells of `s` equal to `v`. */
  function Occurrences(s: seq<Cell>, v: Cell): (n: nat)
    ensures n <= |s|
    decreases |s|
  {
    if s == [] then 0 else Occurrences(s[..|s| - 1], v) + (if s[|s| - 1] == v then 1 else 0)
  }

  /** Number of cells of `s` that are not NaN. */
  function Observed(s: seq<Cell>): (n: nat)
    ensures n <= |s|
    decreases |s|
  {
    if s == [] then 0 else Observed(s[..|s| - 1]) + (if s[|s| - 1].Missing? then 0 else 1)
  }

  /** The values of `s` that are not NaN, each once, in the order they first appear. */
  function DistinctValues(s: seq<Cell>): seq<Cell>
    decreases |s|
  {
    if s == [] then []
    else
      var init, x := s[..|s| - 1], s[|s| - 1];
      DistinctValues(init) + (if x.Missing? || x in init then [] else [x])
  }

  lemma {:induction false} DistinctValuesMembers(s: seq<Cell>, c: Cell)
    ensures c in DistinctValues(s) <==> c in s && !c.Missing?
    decreases |s|
  {
    if s != [] {
      assert s == s[..|s| - 1] + [s[|s| - 1]];
      DistinctValuesMembers(s[..|s| - 1], c);
    }
  }

  lemma {:induction false} DistinctValuesDistinct(s: seq<Cell>)
    ensures Distinct(DistinctValues(s))
    decreases |s|
  {
    if s != [] {
      var init, x := s[..|s| - 1], s[|s| - 1];
      DistinctValuesDistinct(init);
      DistinctValuesMembers(init, x);
      var v := DistinctValues(init);
      if !x.Missing? && x !in init {
        forall i, j | 0 <= i < j < |v| + 1 ensures (v + [x])[i] != (v + [x])[j] {
          if j == |v| {
            assert v[i] in v;
          }
        }
      }
    }
  }

  /** Each value paired with how often it occurs. */
  function Tallies(keys: seq<Cell>, s: seq<Cell>): (r: seq<(Cell, nat)>)
    ensures |r| == |keys| && forall k :: 0 <= k < |keys| ==> r[k] == (keys[k], Occurrences(s, keys[k]))
    decreases |keys|
  {
    if keys == [] then [] else [(keys[0], Occurrences(s, keys[0]))] + Tallies(keys[1..], s)
  }

  function ValueOf(e: (Cell, nat)): Cell {
    e.0
  }

  function Count(e: (Cell, nat)): real {
    e.1 as real
  }

  /** `value_counts()`: each value that is not NaN once, with its number of occurrences,
      from the most frequent down. */
  function ValueCounts(s: seq<Cell>): (r: seq<(Cell, nat)>)
    ensures Descending(r, Count)
  {
    SortDesc(Tallies(DistinctValues(s), s), Count)
  }

  /** `value_counts().reset_index()` with the columns renamed `Label` and `Count`. */
  function CountTable(s: seq<Cell>): (t: Table)
    ensures Rectangular(t) && t.names == ["Label", "Count"] && |t.rows| == |ValueCounts(s)|
  {
    var vc := ValueCounts(s);
    Table(["Label", "Count"], seq(|vc|, k requires 0 <= k < |vc| => [vc[k].0, Num(vc[k].1 as real)]))
  }

  /** Row `k` of the count table is a label of the column with its number of
      occurrences, and the counts do not increase down the table. */
  lemma CountTableRows(s: seq<Cell>, k: nat)
    requires k < |CountTable(s).rows|
    ensures var row := CountTable(s).rows[k];
      && row[0] in s && !row[0].Missing?
      && row[1] == Num(Occurrences(s, row[0]) as real)
      && forall l :: k < l < |CountTable(s).rows| ==> row[1].x >= CountTable(s).rows[l][1].x
  {
    var vc := ValueCounts(s);
    assert vc[k] in vc;
    ValueCountsSound(s, vc[k]);
  }

  lemma TalliesKeys(keys: seq<Cell>, s: seq<Cell>)
    ensures MapSeq(Tallies(keys, s), ValueOf) == keys
  {
    var t := Tallies(keys, s);
    forall k | 0 <= k < |keys| ensures MapSeq(t, ValueOf)[k] == keys[k] {
      MapSeqAt(t, ValueOf, k);
    }
  }

  lemma {:induction false} OccursPositive(s: seq<Cell>, v: Cell)
    requires v in s
    ensures Occurrences(s, v) > 0
    decreases |s|
  {
    if s[|s| - 1] != v {
      assert s == s[..|s| - 1] + [s[|s| - 1]];
      OccursPositive(s[..|s| - 1], v);
    }
  }

  lemma {:induction false} OccursNot(s: seq<Cell>, v: Cell)
    requires v !in s
    ensures Occurrences(s, v) == 0
    decreases |s|
  {
    if s != [] {
      OccursNot(s[..|s| - 1], v);
    }
  }

  /** No value is counted twice. */
  lemma ValueCountsDistinct(s: seq<Cell>)
    ensures Distinct(MapSeq(ValueCounts(s), ValueOf))
  {
    var tallies := Tallies(DistinctValues(s), s);
    DistinctValuesDistinct(s);
    TalliesKeys(DistinctValues(s), s);
    MapPermutation(tallies, ValueCounts(s), ValueOf);
    DistinctPermutation(MapSeq(tallies, ValueOf), MapSeq(ValueCounts(s), ValueOf));
  }

  /** Every entry is a value of `s` that is not NaN, with its number of occurrences. */
  lemma ValueCountsSound(s: seq<Cell>, e: (Cell, nat))
    requires e in ValueCounts(s)
    ensures e.0 in s && !e.0.Missing? && e.1 == Occurrences(s, e.0) && e.1 > 0
  {
    var keys := DistinctValues(s);
    var tallies := Tallies(keys, s);
    assert e in multiset(tallies);
    var k :| 0 <= k < |tallies| && tallies[k] == e;
    DistinctValuesMembers(s, keys[k]);
    OccursPositive(s, keys[k]);
  }

  /** Every value of `s` that is not NaN has its entry. */
  lemma ValueCountsComplete(s: seq<Cell>, c: Cell)
    requires c in s && !c.Missing?
    ensures (c, Occurrences(s, c)) in ValueCounts(s)
  {
    var keys := DistinctValues(s);
    var tallies := Tallies(keys, s);
    DistinctValuesMembers(s, c);
    var k :| 0 <= k < |keys| && keys[k] == c;
    assert tallies[k] == (c, Occurrences(s, c));
    assert tallies[k] in multiset(ValueCounts(s));
  }

  // ---------------------------------------------------------------- the counts add up

  /** Sum of the counts of `keys` in `s`. */
  function CountSum(keys: seq<Cell>, s: seq<Cell>): nat
    decreases |keys|
  {
    if keys == [] then 0 else Occurrences(s, keys[0]) + CountSum(keys[1..], s)
  }

  lemma {:induction false} CountSumAppend(a: seq<Cell>, b: seq<Cell>, s: seq<Cell>)
    ensures CountSum(a + b, s) == CountSum(a, s) + CountSum(b, s)
    decreases |a|
  {
    if a != [] {
      assert (a + b)[0] == a[0] && (a + b)[1..] == a[1..] + b;
      CountSumAppend(a[1..], b, s);
    } else {
      assert a + b == b;
    }
  }

  /** One more cell adds one to the sum exactly when it is one of the keys. */
  lemma {:induction false} CountSumSnoc(keys: seq<Cell>, s: seq<Cell>, x: Cell)
    requires Distinct(keys)
    ensures CountSum(keys, s + [x]) == CountSum(keys, s) + (if x in keys then 1 else 0)
    decreases |keys|
  {
    if keys != [] {
      assert (s + [x])[..|s + [x]| - 1] == s;
      assert Distinct(keys[1..]) by {
        forall i, j | 0 <= i < j < |keys| - 1 ensures keys[1..][i] != keys[1..][j] {
          assert keys[1..][i] == keys[i + 1] && keys[1..][j] == keys[j + 1];
        }
      }
      CountSumSnoc(keys[1..], s, x);
      assert keys == [keys[0]] + keys[1..];
      assert x in keys <==> x == keys[0] || x in keys[1..];
      assert keys[0] !in keys[1..] by {
        forall k | 0 <= k < |keys| - 1 ensures keys[1..][k] != keys[0] {
          assert keys[1..][k] == keys[k + 1];
        }
      }
    }
  }

  /** A cell that is new and not NaN adds one key with a count of one. */
  lemma NewValue(keys: seq<Cell>, s: seq<Cell>, x: Cell)
    requires Distinct(keys) && x !in keys && x !in s
    ensures CountSum(keys + [x], s + [x]) == CountSum(keys, s) + 1
  {
    CountSumAppend(keys, [x], s + [x]);
    CountSumSnoc(keys, s, x);
    OccursNot(s, x);
    assert (s + [x])[..|s|] == s;
    assert CountSum([x], s + [x]) == Occurrences(s + [x], x) + CountSum([], s + [x]);
  }

  /** Over the values present, the counts add up to the number of cells that are not
      NaN. */
  lemma {:induction false} CountsCoverObserved(s: seq<Cell>)
    ensures CountSum(DistinctValues(s), s) == Observed(s)
    decreases |s|
  {
    if s != [] {
      var init, x := s[..|s| - 1], s[|s| - 1];
      assert s == init + [x];
      CountsCoverObserved(init);
      var keys := DistinctValues(init);
      DistinctValuesDistinct(init);
      DistinctValuesMembers(init, x);
      if x.Missing? || x in init {
        assert DistinctValues(s) == keys;
        CountSumSnoc(keys, init, x);
      } else {
        NewValue(keys, init, x);
      }
    }
  }

  lemma {:induction false} TalliesSum(keys: seq<Cell>, s: seq<Cell>)
    ensures Sum(MapSeq(Tallies(keys, s), Count)) == CountSum(keys, s) as real
    decreases |keys|
  {
    if keys != [] {
      assert Tallies(keys, s)[1..] == Tallies(keys[1..], s);
      TalliesSum(keys[1..], s);
    }
  }

  lemma {:induction false} ObservedAll(s: seq<Cell>)
    requires forall i :: 0 <= i < |s| ==> !s[i].Missing?
    ensures Observed(s) == |s|
    decreases |s|
  {
    if s != [] {
      ObservedAll(s[..|s| - 1]);
    }
  }

  /** The counts add up to the number of cells that are not NaN, and so to the number of
      cells when none is NaN. */
  lemma CountsAddUp(s: seq<Cell>)
    ensures Sum(MapSeq(ValueCounts(s), Count)) == Observed(s) as real
    ensures (forall i :: 0 <= i < |s| ==> !s[i].Missing?) ==> Observed(s) == |s|
  {
    var tallies := Tallies(DistinctValues(s), s);
    TalliesSum(DistinctValues(s), s);
    CountsCoverObserved(s);
    MapPermutation(tallies, ValueCounts(s), Count);
    SumPermutation(MapSeq(tallies, Count), MapSeq(ValueCounts(s), Count));
    if forall i :: 0 <= i < |s| ==> !s[i].Missing? {
      ObservedAll(s);
    }
  }

  /** With only the two labels possible the count table has at most two rows. */
  lemma AtMostTwoLabels(preds: seq<int>)
    ensures |ValueCounts(LabelColumn(preds))| <= 2
  {
    var s := LabelColumn(preds);
    var vc := ValueCounts(s);
    var keys := MapSeq(vc, ValueOf);
    ValueCountsDistinct(s);
    forall k | 0 <= k < |keys| ensures keys[k] == NormalLabel || keys[k] == AnomalyLabel {
      MapSeqAt(vc, ValueOf, k);
      ValueCountsSound(s, vc[k]);
    }
    TwoChoices(keys, NormalLabel, AnomalyLabel);
  }

  /** Values without repeats drawn from two choices are at most two. */
  lemma TwoChoices(keys: seq<Cell>, a: Cell, b: Cell)
    requires Distinct(keys) && forall k :: 0 <= k < |keys| ==> keys[k] == a || keys[k] == b
    ensures |keys| <= 2
  {
    var m, both := multiset(keys), multiset{a, b};
    forall x ensures m[x] <= both[x] {
      DistinctOnce(keys, x);
      if x != a && x != b {
        assert x !in keys;
      }
    }
    assert m <= both;
    assert both == m + (both - m);
    assert |both| == |m| + |both - m|;
    assert |both| == 2;
    assert |keys| == |m|;
  }

  /** The count table of `run_anomaly_detection`: at most two rows, distinct labels,
      from the most frequent down, with counts that add up to the number of rows when
      every verdict is `1` or `-1`. */
  lemma AnomalyCounts(preds: seq<int>)
    ensures var vc := ValueCounts(LabelColumn(preds));
      && |vc| <= 2
      && Distinct(MapSeq(vc, ValueOf))
      && Descending(vc, Count)
      && (forall e :: e in vc ==> (e.0 == NormalLabel || e.0 == AnomalyLabel) && e.1 == Occurrences(LabelColumn(preds), e.0))
      && (forall i :: 0 <= i < |preds| && (preds[i] == 1 || preds[i] == -1) ==>
            (LabelOf(preds[i]), Occurrences(LabelColumn(preds), LabelOf(preds[i]))) in vc)
      && ((forall i :: 0 <= i < |preds| ==> preds[i] == 1 || preds[i] == -1) ==>
            Sum(MapSeq(vc, Count)) == |preds| as real)
  {
    var s := LabelColumn(preds);
    AtMostTwoLabels(preds);
    ValueCountsDistinct(s);
    forall e | e in ValueCounts(s)
      ensures (e.0 == NormalLabel || e.0 == AnomalyLabel) && e.1 == Occurrences(s, e.0)
    {
      ValueCountsSound(s, e);
    }
    forall i | 0 <= i < |preds| && (preds[i] == 1 || preds[i] == -1)
      ensures (LabelOf(preds[i]), Occurrences(s, LabelOf(preds[i]))) in ValueCounts(s)
    {
      assert s[i] == LabelOf(preds[i]);
      ValueCountsComplete(s, s[i]);
    }
    CountsAddUp(s);
  }
}
