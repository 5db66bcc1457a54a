/** The deterministic part of model training around the random forest: the split of the
    analysis base table into features and label, the AUC that is reported only when the
    fitted forest has seen both classes, the metrics table, and the ten largest feature
    importances. The fitted forest itself is an input: its number of classes, its
    scores and its importances. */
module Training {
  import opened Cells
  import opened Frames
  import opened Ranking
  import Features

  /** `X = df.drop("Machine failure", axis=1)` and `y = df["Machine failure"]`. */
  function SplitLabel(t: Table): (r: Result<(Table, seq<Cell>)>)
    requires Rectangular(t)
    ensures r.Ok? <==> Features.FailureLabel in t.names
    ensures r.Err? ==> r.error == MissingColumn(Features.FailureLabel)
    ensures r.Ok? ==> Rectangular(r.value.0) && |r.value.0.rows| == |t.rows|
  {
    var x :- Drop(t, Features.FailureLabel);
    Ok((x, Lookup(t, Features.FailureLabel).value))
  }

  /** With distinct column labels the features are every column but the label, unchanged,
      and the target is the label column. */
  lemma SplitLabelColumns(t: Table, m: string)
    requires Rectangular(t) && Distinct(t.names) && Features.FailureLabel in t.names
    ensures SplitLabel(t).Ok?
    ensures var (x, y) := SplitLabel(t).value;
      && Features.FailureLabel !in x.names && Distinct(x.names)
      && |x.names| == |t.names| - 1
      && (m != Features.FailureLabel ==> Lookup(x, m) == Lookup(t, m))
      && Some(y) == Lookup(t, Features.FailureLabel)
  {
    DropRemoves(t, Features.FailureLabel);
    if m != Features.FailureLabel {
      DropLookup(t, Features.FailureLabel, m);
    }
  }

  // ---------------------------------------------------------------- the metrics table

  /** The reported AUC: a score, or the text "Not defined". */
  datatype Auc = Score(value: real) | NotDefined

  /** The AUC is computed only when the fitted forest knows more than one class;
      `rocAuc` is what `roc_auc_score` would return. */
  function ReportedAuc(classes: nat, rocAuc: real): (a: Auc)
    ensures a.Score? <==> classes > 1
    ensures a.Score? ==> a.value == rocAuc
  {
    if classes > 1 then Score(rocAuc) else NotDefined
  }

  function AucCell(a: Auc): Cell {
    match a
    case Score(v) => Num(v)
    case NotDefined => Text("Not defined")
  }

  /** The metrics table: accuracy, F1-score and AUC, in that order. */
  function MetricsTable(accuracy: real, f1: real, auc: Auc): (t: Table)
    ensures Rectangular(t) && |t.rows| == 3
  {
    Table(["Metric", "Value"], [
      [Text("Accuracy"), Num(accuracy)],
      [Text("F1-score"), Num(f1)],
      [Text("AUC"), AucCell(auc)]])
  }

  /** The table names the three metrics in order and pairs each with its value; the
      third is a number exactly when the forest has seen both classes. */
  lemma MetricsRows(accuracy: real, f1: real, classes: nat, rocAuc: real)
    ensures var t := MetricsTable(accuracy, f1, ReportedAuc(classes, rocAuc));
      && Lookup(t, "Metric") == Some([Text("Accuracy"), Text("F1-score"), Text("AUC")])
      && Lookup(t, "Value").Some?
      && var v := Lookup(t, "Value").value;
      && v[0] == Num(accuracy) && v[1] == Num(f1)
      && (v[2].Num? <==> classes > 1)
      && (classes > 1 ==> v[2] == Num(rocAuc))
      && (classes <= 1 ==> v[2] == Text("Not defined"))
  {
    var t := MetricsTable(accuracy, f1, ReportedAuc(classes, rocAuc));
    assert IndexOf(t.names, "Metric") == Some(0);
    assert IndexOf(t.names, "Value") == Some(1);
    assert Column(t, 0) == [Text("Accuracy"), Text("F1-score"), Text("AUC")];
  }

  // ---------------------------------------------------------------- feature importances

  function Importance(e: (string, real)): real {
    e.1
  }

  /** `pd.Series(importances, index=X.columns)`: each importance paired with its feature,
      or a `ValueError` when the lengths differ. */
  function Pair(names: seq<string>, importances: seq<real>): (r: Result<seq<(string, real)>>)
    ensures r.Ok? <==> |names| == |importances|
    ensures r.Ok? ==> |r.value| == |names| && forall i :: 0 <= i < |names| ==> r.value[i] == (names[i], importances[i])
    ensures r.Err? ==> r.error == LengthMismatch
  {
    if |names| != |importances| then Err(LengthMismatch)
    else Ok(seq(|names|, i requires 0 <= i < |names| => (names[i], importances[i])))
  }

  /** `sort_values(ascending=False).head(10)`: the bars of the importance chart. */
  function TopImportances(names: seq<string>, importances: seq<real>): (r: Result<seq<(string, real)>>)
    ensures r.Ok? <==> |names| == |importances|
    ensures r.Err? ==> r.error == LengthMismatch
  {
    var pairs :- Pair(names, importances);
    Ok(Head(SortDesc(pairs, Importance), 10))
  }

  /** The chart shows `min(10, n)` features from the largest importance down; each bar is
      a feature with its own importance, and no feature left out has a larger importance than one shown. */
  lemma TopImportancesChosen(names: seq<string>, importances: seq<real>)
    requires |names| == |importances|
    ensures TopImportances(names, importances).Ok?
    ensures var top := TopImportances(names, importances).value;
      var ranked := SortDesc(Pair(names, importances).value, Importance);
      && |top| == (if |names| < 10 then |names| else 10)
      && Descending(top, Importance)
      && multiset(ranked) == multiset(Pair(names, importances).value)
      && top == ranked[..|top|]
      && (forall e :: e in top ==> exists i :: 0 <= i < |names| && e == (names[i], importances[i]))
      && (forall i, j :: 0 <= i < |top| <= j < |ranked| ==> top[i].1 >= ranked[j].1)
  {
    var pairs := Pair(names, importances).value;
    var ranked := SortDesc(pairs, Importance);
    var top := Head(ranked, 10);
    HeadIsLargest(ranked, Importance, 10);
    forall e | e in top ensures exists i :: 0 <= i < |names| && e == (names[i], importances[i]) {
      assert e in multiset(pairs);
      var i :| 0 <= i < |pairs| && pairs[i] == e;
    }
  }

  /** With distinct feature names no feature is shown twice on the chart. */
  lemma TopImportancesDistinct(names: seq<string>, importances: seq<real>)
    requires |names| == |importances| && Distinct(names)
    ensures TopImportances(names, importances).Ok?
    ensures Distinct(TopImportances(names, importances).value)
  {
    var pairs := Pair(names, importances).value;
    assert Distinct(pairs) by {
      forall i, j | 0 <= i < j < |pairs| ensures pairs[i] != pairs[j] {
        assert pairs[i].0 == names[i] && pairs[j].0 == names[j];
      }
    }
    var ranked := SortDesc(pairs, Importance);
    DistinctPermutation(pairs, ranked);
    var top := Head(ranked, 10);
    assert forall i, j :: 0 <= i < j < |top| ==> top[i] == ranked[i] && top[j] == ranked[j];
  }

  /** The importances of the pairs, in the input order, are the importances. */
  lemma PairKeys(names: seq<string>, importances: seq<real>)
    requires |names| == |importances|
    ensures MapSeq(Pair(names, importances).value, Importance) == importances
  {
    var pairs := Pair(names, importances).value;
    forall k | 0 <= k < |pairs| ensures MapSeq(pairs, Importance)[k] == importances[k] {
      MapSeqAt(pairs, Importance, k);
    }
  }

  /** When no two importances are equal every descending arrangement of the pairs has the
      same first ten, so the order the sort gives to ties does not matter. */
  lemma TopImportancesUnique(names: seq<string>, importances: seq<real>, other: seq<(string, real)>)
    requires |names| == |importances| && Descending(other, Importance)
    requires multiset(other) == multiset(Pair(names, importances).value)
    requires Distinct(importances)
    ensures TopImportances(names, importances) == Ok(Head(other, 10))
  {
    var pairs := Pair(names, importances).value;
    var ranked := SortDesc(pairs, Importance);
    PairKeys(names, importances);
    MapPermutation(pairs, ranked, Importance);
    DistinctPermutation(importances, MapSeq(ranked, Importance));
    DistinctKeysStrict(ranked, Importance);
    DescendingUnique(ranked, other, Importance);
  }

  // ---------------------------------------------------------------- the whole step

  /** The reports of `train_model`: the metrics table and the importance chart, given
      what the fitted forest reports. */
  function TrainReports(t: Table, classes: nat, accuracy: real, f1: real, rocAuc: real,
                        importances: seq<real>): (r: Result<(Table, seq<(string, real)>)>)
    requires Rectangular(t)
    ensures r.Ok? <==> Features.FailureLabel in t.names && |importances| == |t.names| - 1
    ensures r.Err? ==> r.error == if Features.FailureLabel in t.names then LengthMismatch
                                  else MissingColumn(Features.FailureLabel)
  {
    var split :- SplitLabel(t);
    var top :- TopImportances(split.0.names, importances);
    Ok((MetricsTable(accuracy, f1, ReportedAuc(classes, rocAuc)), top))
  }
}
