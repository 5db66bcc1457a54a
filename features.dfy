/** The feature-building stage: order the cleaned rows by `UDI`, add three trailing
    five-row means and three whole-column z-scores of the sensors, drop every row that
    has a NaN, and keep the twelve columns of the analysis base table. */
module Features {
  import opened Cells
  import opened Stats
  import opened Frames

  const UdiLabel: string := "UDI"
  const AirTemp: string := "Air temperature [K]"
  const ProcessTemp: string := "Process temperature [K]"
  const Speed: string := "Rotational speed [rpm]"
  const Torque: string := "Torque [Nm]"
  const ToolWear: string := "Tool wear [min]"
  const TorqueRoll: string := "Torque_roll_mean"
  const SpeedRoll: string := "Speed_roll_mean"
  const TempRoll: string := "Temp_roll_mean"
  const TorqueZ: string := "Torque_z"
  const SpeedZ: string := "Speed_z"
  const TempZ: string := "Temp_z"
  const FailureLabel: string := "Machine failure"

  /** The columns of the analysis base table, in order. */
  const AbtColumns: seq<string> := [AirTemp, ProcessTemp, Speed, Torque, ToolWear,
    TorqueRoll, SpeedRoll, TempRoll, TorqueZ, SpeedZ, TempZ, FailureLabel]

  /** The input columns that the analysis base table copies. */
  const RawColumns: seq<string> := [AirTemp, ProcessTemp, Speed, Torque, ToolWear, FailureLabel]

  /** The sensor columns the new features are computed from. */
  const Sensors: seq<string> := [Torque, Speed, ProcessTemp]

  /** The columns the stage adds. */
  const TargetColumns: seq<string> := [TorqueRoll, SpeedRoll, TempRoll, TorqueZ, SpeedZ, TempZ]

  // ---------------------------------------------------------------- sorting by UDI

  /** The sort key of a row: its cell in column `k`. */
  function Key(row: seq<Cell>, k: nat): Cell {
    if k < |row| then row[k] else Missing
  }

  /** Each row's key is at most the next row's key. */
  predicate KeySorted(rows: seq<seq<Cell>>, k: nat) {
    forall i :: 0 < i < |rows| ==> KeyLe(Key(rows[i - 1], k), Key(rows[i], k))
  }

  predicate DistinctKeys(rows: seq<seq<Cell>>, k: nat) {
    forall i, j :: 0 <= i < j < |rows| ==> Key(rows[i], k) != Key(rows[j], k)
  }

  function InsertRow(x: seq<Cell>, rows: seq<seq<Cell>>, k: nat): (r: seq<seq<Cell>>)
    requires KeySorted(rows, k)
    ensures KeySorted(r, k) && multiset(r) == multiset(rows) + multiset{x}
    ensures |r| == |rows| + 1 && (r[0] == x || (rows != [] && r[0] == rows[0]))
    decreases |rows|
  {
    if rows == [] || KeyLe(Key(x, k), Key(rows[0], k)) then [x] + rows
    else
      var t := InsertRow(x, rows[1..], k);
      KeyLeTotal(Key(x, k), Key(rows[0], k));
      assert rows == [rows[0]] + rows[1..];
      [rows[0]] + t
  }

  /** `sort_values(by=column k)`: the rows in ascending key order. */
  function SortRows(rows: seq<seq<Cell>>, k: nat): (r: seq<seq<Cell>>)
    ensures KeySorted(r, k) && multiset(r) == multiset(rows)
    decreases |rows|
  {
    if rows == [] then []
    else
      assert rows == [rows[0]] + rows[1..];
      InsertRow(rows[0], SortRows(rows[1..], k), k)
  }

  /** `df.sort_values(by="UDI").reset_index(drop=True)` once the key column is found. */
  function SortTable(t: Table, k: nat): (r: Table)
    requires Rectangular(t)
    ensures Rectangular(r) && r.names == t.names && |r.rows| == |t.rows|
    ensures KeySorted(r.rows, k) && multiset(r.rows) == multiset(t.rows)
  {
    var rows := SortRows(t.rows, k);
    assert |rows| == |multiset(rows)| == |multiset(t.rows)| == |t.rows|;
    assert forall i :: 0 <= i < |rows| ==> rows[i] in t.rows by {
      forall i | 0 <= i < |rows| ensures rows[i] in t.rows {
        assert rows[i] in multiset(rows);
      }
    }
    Table(t.names, rows)
  }

  lemma {:induction false} KeySortedPairwise(rows: seq<seq<Cell>>, k: nat, i: nat, j: nat)
    requires KeySorted(rows, k) && i <= j < |rows|
    ensures KeyLe(Key(rows[i], k), Key(rows[j], k))
    decreases j - i
  {
    if i == j {
      KeyLeTotal(Key(rows[i], k), Key(rows[j], k));
    } else {
      KeySortedPairwise(rows, k, i, j - 1);
      KeyLeTransitive(Key(rows[i], k), Key(rows[j - 1], k), Key(rows[j], k));
    }
  }

  /** With distinct keys there is only one ascending arrangement of the rows, so the
      result does not depend on the sorting algorithm (pandas' default is not stable). */
  lemma {:induction false} KeySortedUnique(a: seq<seq<Cell>>, b: seq<seq<Cell>>, k: nat)
    requires KeySorted(a, k) && KeySorted(b, k) && multiset(a) == multiset(b)
    requires DistinctKeys(a, k)
    ensures a == b
    decreases |a|
  {
    assert |a| == |multiset(a)| == |multiset(b)| == |b|;
    if a != [] {
      SortedHeadsEqual(a, b, k);
      SortedTail(a, k);
      SortedTail(b, k);
      KeySortedUnique(a[1..], b[1..], k);
      SameHeadAndTail(a, b);
    }
  }

  lemma SameHeadAndTail<T>(a: seq<T>, b: seq<T>)
    requires a != [] && b != [] && a[0] == b[0] && a[1..] == b[1..]
    ensures a == b
  {
    assert a == [a[0]] + a[1..] && b == [b[0]] + b[1..];
  }

  lemma SortedTail(a: seq<seq<Cell>>, k: nat)
    requires KeySorted(a, k) && a != []
    ensures KeySorted(a[1..], k) && multiset(a[1..]) == multiset(a) - multiset{a[0]}
    ensures DistinctKeys(a, k) ==> DistinctKeys(a[1..], k)
  {
    assert a == [a[0]] + a[1..];
  }

  lemma SortedHeadsEqual(a: seq<seq<Cell>>, b: seq<seq<Cell>>, k: nat)
    requires KeySorted(a, k) && KeySorted(b, k) && multiset(a) == multiset(b)
    requires DistinctKeys(a, k) && a != []
    ensures b != [] && a[0] == b[0]
  {
    assert a[0] in multiset(b);
    var p := FirstPosition(b, a[0]);
    assert b[0] in multiset(a);
    var q := FirstPosition(a, b[0]);
    KeySortedPairwise(a, k, 0, q);
    KeySortedPairwise(b, k, 0, p);
    KeyLeAntisymmetric(Key(a[0], k), Key(b[0], k));
    assert Key(a[q], k) == Key(a[0], k);
  }

  // ---------------------------------------------------------------- rolling means

  /** The number a cell holds, `0` for any other cell. */
  function Val(c: Cell): real {
    if c.Num? then c.x else 0.0
  }

  function Values(cells: seq<Cell>): (v: seq<real>)
    ensures |v| == |cells|
  {
    seq(|cells|, i requires 0 <= i < |cells| => Val(cells[i]))
  }

  predicate AllNum(cells: seq<Cell>) {
    forall i :: 0 <= i < |cells| ==> cells[i].Num?
  }

  /** `rolling(window=5).mean()` at row `i`: the mean of rows `i-4..i`, NaN when fewer
      than five rows precede or any of the five is NaN. */
  function WindowMean(col: seq<Cell>, i: nat): (c: Cell)
    requires i < |col|
  {
    if i >= 4 && AllNum(col[i - 4..i + 1]) then Num(Mean(Values(col[i - 4..i + 1])))
    else Missing
  }

  function RollingColumn(col: seq<Cell>): (r: seq<Cell>)
    ensures |r| == |col|
  {
    seq(|col|, i requires 0 <= i < |col| => WindowMean(col, i))
  }

  /** Number of cells that are not numbers. */
  function Gaps(cells: seq<Cell>): nat
    decreases |cells|
  {
    if cells == [] then 0 else (if cells[0].Num? then 0 else 1) + Gaps(cells[1..])
  }

  lemma {:induction false} GapsZero(cells: seq<Cell>)
    ensures Gaps(cells) == 0 <==> AllNum(cells)
    decreases |cells|
  {
    if cells != [] {
      GapsZero(cells[1..]);
      assert forall i :: 1 <= i < |cells| ==> cells[i] == cells[1..][i - 1];
    }
  }

  lemma {:induction false} GapsSnoc(cells: seq<Cell>, c: Cell)
    ensures Gaps(cells + [c]) == Gaps(cells) + (if c.Num? then 0 else 1)
    decreases |cells|
  {
    if cells == [] {
      assert [] + [c] == [c];
    } else {
      assert (cells + [c])[1..] == cells[1..] + [c];
      GapsSnoc(cells[1..], c);
    }
  }

  lemma ValuesSlice(col: seq<Cell>, lo: nat, hi: nat)
    requires lo <= hi <= |col|
    ensures Values(col[lo..hi]) == Values(col)[lo..hi]
  {
  }

  /** The sliding window of `rolling(5).mean()`: one pass over the column, keeping the
      sum of the last rows and how many of them are NaN. */
  method SlidingMean(col: seq<Cell>) returns (r: seq<Cell>)
    ensures r == RollingColumn(col)
  {
    r := [];
    var acc := 0.0;
    var gaps := 0;
    var i := 0;
    while i < |col|
      invariant i <= |col| && |r| == i
      invariant forall k :: 0 <= k < i ==> r[k] == WindowMean(col, k)
      invariant var lo := if i >= 4 then i - 4 else 0;
        acc == Sum(Values(col[lo..i])) && gaps == Gaps(col[lo..i])
    {
      var lo := if i >= 4 then i - 4 else 0;
      WindowGrow(col, lo, i);
      acc := acc + Val(col[i]);
      gaps := gaps + (if col[i].Num? then 0 else 1);
      var cell := if i >= 4 && gaps == 0 then Num(acc / 5.0) else Missing;
      WindowCell(col, i, acc, gaps);
      if i >= 4 {
        WindowShrink(col, lo, i + 1);
        acc := acc - Val(col[lo]);
        gaps := gaps - (if col[lo].Num? then 0 else 1);
      }
      r := r + [cell];
      i := i + 1;
    }
  }

  /** The rolling mean at row `i` from the sum and the NaN count of its window. */
  lemma WindowCell(col: seq<Cell>, i: nat, acc: real, gaps: nat)
    requires i < |col|
    requires var lo := if i >= 4 then i - 4 else 0;
      acc == Sum(Values(col[lo..i + 1])) && gaps == Gaps(col[lo..i + 1])
    ensures WindowMean(col, i) == if i >= 4 && gaps == 0 then Num(acc / 5.0) else Missing
  {
    if i >= 4 {
      GapsZero(col[i - 4..i + 1]);
    }
  }

  /** A window grows by the row after it. */
  lemma WindowGrow(col: seq<Cell>, lo: nat, hi: nat)
    requires lo <= hi < |col|
    ensures Sum(Values(col[lo..hi + 1])) == Sum(Values(col[lo..hi])) + Val(col[hi])
    ensures Gaps(col[lo..hi + 1]) == Gaps(col[lo..hi]) + (if col[hi].Num? then 0 else 1)
  {
    assert col[lo..hi + 1] == col[lo..hi] + [col[hi]];
    SumAppend(Values(col[lo..hi]), [Val(col[hi])]);
    assert Values(col[lo..hi + 1]) == Values(col[lo..hi]) + [Val(col[hi])];
    GapsSnoc(col[lo..hi], col[hi]);
  }

  /** A window shrinks by its first row. */
  lemma WindowShrink(col: seq<Cell>, lo: nat, hi: nat)
    requires lo < hi <= |col|
    ensures Sum(Values(col[lo + 1..hi])) == Sum(Values(col[lo..hi])) - Val(col[lo])
    ensures Gaps(col[lo + 1..hi]) == Gaps(col[lo..hi]) - (if col[lo].Num? then 0 else 1)
  {
    var w := col[lo..hi];
    assert w[1..] == col[lo + 1..hi];
    assert Values(w)[1..] == Values(col[lo + 1..hi]);
  }

  /** A rolling mean lies between the smallest and the largest reading of its window. */
  lemma WindowMeanBounds(col: seq<Cell>, i: nat)
    requires i < |col| && WindowMean(col, i).Num?
    ensures i >= 4 && AllNum(col[i - 4..i + 1])
    ensures var m := WindowMean(col, i).x; exists a, b :: i - 4 <= a <= i && i - 4 <= b <= i && col[a].x <= m <= col[b].x
  {
    var v := Values(col[i - 4..i + 1]);
    var lo := MinIndex(v);
    var hi := MaxIndex(v);
    SumBounds(v, v[lo], v[hi]);
    var m := Mean(v);
    assert |v| == 5 && m == Sum(v) / 5.0;
    assert v[lo] <= m <= v[hi];
    var a, b := i - 4 + lo, i - 4 + hi;
    assert col[a].x == v[lo] && col[b].x == v[hi];
    assert WindowMean(col, i).x == m;
  }

  function MinIndex(v: seq<real>): (k: nat)
    requires |v| > 0
    ensures k < |v| && forall j :: 0 <= j < |v| ==> v[k] <= v[j]
    decreases |v|
  {
    if |v| == 1 then 0
    else
      var k := MinIndex(v[1..]);
      if v[0] <= v[1..][k] then 0 else k + 1
  }

  function MaxIndex(v: seq<real>): (k: nat)
    requires |v| > 0
    ensures k < |v| && forall j :: 0 <= j < |v| ==> v[j] <= v[k]
    decreases |v|
  {
    if |v| == 1 then 0
    else
      var k := MaxIndex(v[1..]);
      if v[1..][k] <= v[0] then 0 else k + 1
  }

  lemma {:induction false} SumBounds(v: seq<real>, lo: real, hi: real)
    requires forall j :: 0 <= j < |v| ==> lo <= v[j] <= hi
    ensures |v| as real * lo <= Sum(v) <= |v| as real * hi
    decreases |v|
  {
    if v != [] {
      SumBounds(v[1..], lo, hi);
    }
  }

  // ---------------------------------------------------------------- z-scores

  /** `scipy.stats.zscore(col)` given the column's population standard deviation `s`:
      `(x - mean) / s` over the whole column; NaN everywhere when a cell is NaN (NaNs
      propagate into the mean) or when `s` is zero (`0 / 0`). */
  function ZColumn(col: seq<Cell>, s: real): (z: seq<Cell>)
    ensures |z| == |col|
  {
    if |col| > 0 && s != 0.0 && AllNum(col) then
      var v := Values(col);
      var zs := Standardize(v, Mean(v), s);
      seq(|col|, i requires 0 <= i < |col| => Num(zs[i]))
    else
      seq(|col|, i requires 0 <= i < |col| => Missing)
  }

  /** `s` is the population standard deviation of the numbers in `col`, whenever the
      column is all numbers. */
  predicate IsStd(col: seq<Cell>, s: real) {
    s >= 0.0 && (|col| > 0 && AllNum(col) ==> Square(s) == PopVariance(Values(col)))
  }

  /** Every cell of the column equals the first. */
  predicate ConstantCells(col: seq<Cell>) {
    forall i :: 0 <= i < |col| ==> col[i] == col[0]
  }

  /** A column of numbers has population deviation 0 exactly when it is constant. */
  lemma ConstantNoDeviation(col: seq<Cell>, s: real)
    requires IsStd(col, s) && |col| > 0 && AllNum(col)
    ensures s == 0.0 <==> ConstantCells(col)
  {
    var v := Values(col);
    assert Constant(v) <==> ConstantCells(col) by {
      assert forall i :: 0 <= i < |col| ==> col[i] == Num(v[i]);
    }
    ConstantIffNoVariance(v);
    if s != 0.0 {
      PositiveSquare(s);
    }
  }

  /** A z-scored column is all numbers or all NaN, and when it holds numbers they have
      mean 0 and population variance 1. */
  lemma ZColumnMoments(col: seq<Cell>, s: real)
    requires IsStd(col, s)
    ensures AllNum(ZColumn(col, s)) <==> (|col| == 0 || (AllNum(col) && s > 0.0))
    ensures !AllNum(ZColumn(col, s)) ==> forall i :: 0 <= i < |col| ==> ZColumn(col, s)[i].Missing?
    ensures |col| > 0 && AllNum(ZColumn(col, s)) ==>
      Mean(Values(ZColumn(col, s))) == 0.0 && PopVariance(Values(ZColumn(col, s))) == 1.0
  {
    var z := ZColumn(col, s);
    if |col| > 0 && s != 0.0 && AllNum(col) {
      var v := Values(col);
      assert Values(z) == Standardize(v, Mean(v), s);
      StandardizedMoments(v, s);
    } else if |col| > 0 {
      assert !z[0].Num?;
    }
  }

  /** Rearranging a column keeps which kinds of cells it holds. */
  lemma CellsPermutation(a: seq<Cell>, b: seq<Cell>)
    requires multiset(a) == multiset(b)
    ensures |a| == |b| && (NumberCells(a) <==> NumberCells(b)) && (AllNum(a) <==> AllNum(b))
  {
    assert |a| == |multiset(a)| == |multiset(b)| == |b|;
    forall i | 0 <= i < |a| ensures a[i] in b {
      assert a[i] in multiset(b);
    }
    forall i | 0 <= i < |b| ensures b[i] in a {
      assert b[i] in multiset(a);
    }
  }

  /** The z-score of a column does not depend on which order its rows are in: the mean
      and the variance are the same for any rearrangement. */
  lemma ZColumnPermutation(a: seq<Cell>, b: seq<Cell>, s: real)
    requires multiset(a) == multiset(b)
    ensures IsStd(a, s) <==> IsStd(b, s)
    ensures AllNum(a) <==> AllNum(b)
    ensures |a| > 0 && AllNum(a) ==> Mean(Values(a)) == Mean(Values(b))
  {
    CellsPermutation(a, b);
    if |a| > 0 {
      ValuesAsMap(a);
      ValuesAsMap(b);
      MapPermutation(a, b, Val);
      MomentsPermutation(Values(a), Values(b));
    }
  }

  lemma ValuesAsMap(cells: seq<Cell>)
    ensures Values(cells) == MapSeq(cells, Val)
  {
    forall i | 0 <= i < |cells| ensures Values(cells)[i] == MapSeq(cells, Val)[i] {
      MapSeqAt(cells, Val, i);
    }
  }

  /** The first pass of `zscore`: whether every cell is a number, and the sum. */
  method Tally(col: seq<Cell>) returns (complete: bool, total: real)
    ensures complete <==> AllNum(col)
    ensures total == Sum(Values(col))
  {
    complete := true;
    total := 0.0;
    var i := 0;
    while i < |col|
      invariant i <= |col|
      invariant complete <==> AllNum(col[..i])
      invariant total == Sum(Values(col[..i]))
    {
      PrefixGrow(col, i);
      complete := complete && col[i].Num?;
      total := total + Val(col[i]);
      i := i + 1;
    }
    assert col[..i] == col;
  }

  lemma PrefixGrow(col: seq<Cell>, i: nat)
    requires i < |col|
    ensures Sum(Values(col[..i + 1])) == Sum(Values(col[..i])) + Val(col[i])
    ensures AllNum(col[..i + 1]) <==> AllNum(col[..i]) && col[i].Num?
  {
    WindowGrow(col, 0, i);
    assert col[0..i] == col[..i] && col[0..i + 1] == col[..i + 1];
  }

  /** The two passes of `zscore`: first the sum and whether any cell is NaN, then one
      quotient per row. */
  method ZScores(col: seq<Cell>, s: real) returns (z: seq<Cell>)
    ensures z == ZColumn(col, s)
  {
    var complete, total := Tally(col);
    if |col| == 0 || s == 0.0 || !complete {
      z := seq(|col|, k requires 0 <= k < |col| => Missing);
    } else {
      var mean := total / |col| as real;
      ZColumnAt(col, s);
      z := [];
      var i := 0;
      while i < |col|
        invariant i <= |col| && |z| == i
        invariant forall k :: 0 <= k < i ==> z[k] == Num((Val(col[k]) - mean) / s)
      {
        z := z + [Num((Val(col[i]) - mean) / s)];
        i := i + 1;
      }
    }
  }

  lemma ZColumnAt(col: seq<Cell>, s: real)
    requires |col| > 0 && s != 0.0 && AllNum(col)
    ensures forall k :: 0 <= k < |col| ==> ZColumn(col, s)[k] == Num((Val(col[k]) - Mean(Values(col))) / s)
  {
    forall k | 0 <= k < |col|
      ensures ZColumn(col, s)[k] == Num((Val(col[k]) - Mean(Values(col))) / s)
    {
      StandardizeAt(Values(col), Mean(Values(col)), s, k);
    }
  }

  // ---------------------------------------------------------------- the added columns

  datatype Feature = RollingMean | ZScore(std: real)

  /** `df[target] = <feature>(df[source])`. */
  datatype Derivation = Derivation(source: string, target: string, feature: Feature)

  function Derived(col: seq<Cell>, f: Feature): (r: seq<Cell>)
    ensures |r| == |col|
  {
    match f
    case RollingMean => RollingColumn(col)
    case ZScore(s) => ZColumn(col, s)
  }

  /** The six columns the stage adds, in the order it adds them; the z-scores take the
      population standard deviations of torque, speed and process temperature. */
  function Derivations(sTorque: real, sSpeed: real, sTemp: real): seq<Derivation> {
    [Derivation(Torque, TorqueRoll, RollingMean),
     Derivation(Speed, SpeedRoll, RollingMean),
     Derivation(ProcessTemp, TempRoll, RollingMean),
     Derivation(Torque, TorqueZ, ZScore(sTorque)),
     Derivation(Speed, SpeedZ, ZScore(sSpeed)),
     Derivation(ProcessTemp, TempZ, ZScore(sTemp))]
  }

  /** Cells that `rolling().mean()` and `zscore` accept: numbers and NaN. */
  predicate NumberCells(col: seq<Cell>) {
    forall i :: 0 <= i < |col| ==> col[i].Num? || col[i].Missing?
  }

  /** `df[name]` exists and holds numbers and NaN only. */
  predicate Usable(t: Table, name: string)
    requires Rectangular(t)
  {
    name in t.names && NumberCells(ColumnOf(t, name))
  }

  /** `df[name]`; the stage only reads it where the column exists, and it is
      all NaN otherwise. */
  function ColumnOf(t: Table, name: string): (c: seq<Cell>)
    requires Rectangular(t)
    ensures |c| == |t.rows|
    ensures name in t.names ==> Lookup(t, name) == Some(c)
  {
    match Lookup(t, name)
    case Some(c) => c
    case None => seq(|t.rows|, i => Missing)
  }

  /** What reading `df[name]` as a sensor raises: a `KeyError` when it is absent, a type
      error when it holds strings or booleans. */
  function SensorError(t: Table, name: string): Error
    requires Rectangular(t)
  {
    if name in t.names then NotNumeric(name) else MissingColumn(name)
  }

  /** `df[d.target] = <d.feature>(df[d.source])`. */
  function Step(t: Table, d: Derivation): (r: Table)
    requires Rectangular(t)
    ensures Rectangular(r) && |r.rows| == |t.rows|
  {
    WithColumn(t, d.target, Derived(ColumnOf(t, d.source), d.feature))
  }

  /** The derivations one after the other, stopping at the first whose source column is
      absent or not numeric. */
  function ApplyAll(t: Table, ds: seq<Derivation>): (r: Result<Table>)
    requires Rectangular(t)
    ensures r.Ok? ==> Rectangular(r.value) && |r.value.rows| == |t.rows|
    decreases |ds|
  {
    if ds == [] then Ok(t)
    else if Usable(t, ds[0].source) then ApplyAll(Step(t, ds[0]), ds[1..])
    else Err(SensorError(t, ds[0].source))
  }

  /** No derivation reads a column that one of them writes, and no two write the same. */
  predicate Separate(ds: seq<Derivation>) {
    && (forall k, l :: 0 <= k < |ds| && 0 <= l < |ds| ==> ds[k].source != ds[l].target)
    && (forall k, l :: 0 <= k < l < |ds| ==> ds[k].target != ds[l].target)
  }

  /** A step writes its target column and leaves every other column, and so what
      reading it raises, as it was. */
  lemma StepLookup(t: Table, d: Derivation, name: string)
    requires Rectangular(t)
    ensures Lookup(Step(t, d), name) ==
      if name == d.target then Some(Derived(ColumnOf(t, d.source), d.feature)) else Lookup(t, name)
    ensures name != d.target ==> (Usable(Step(t, d), name) <==> Usable(t, name))
    ensures name != d.target ==> SensorError(Step(t, d), name) == SensorError(t, name)
    ensures name != d.target ==> ColumnOf(Step(t, d), name) == ColumnOf(t, name)
  {
    LookupWithColumn(t, d.target, Derived(ColumnOf(t, d.source), d.feature), name);
  }

  /** Derivation `k` is the first whose source is not usable. */
  predicate FirstUnusable(t: Table, ds: seq<Derivation>, k: nat)
    requires Rectangular(t)
  {
    k < |ds| && !Usable(t, ds[k].source) && forall l :: 0 <= l < k ==> Usable(t, ds[l].source)
  }

  /** The steps succeed exactly when every source column is usable, and otherwise fail
      with the error of the first source that is not. */
  lemma {:induction false} ApplyAllOk(t: Table, ds: seq<Derivation>)
    requires Rectangular(t) && Separate(ds)
    ensures ApplyAll(t, ds).Ok? <==> forall k :: 0 <= k < |ds| ==> Usable(t, ds[k].source)
    ensures ApplyAll(t, ds).Err? ==> exists k: nat :: FirstUnusable(t, ds, k) && ApplyAll(t, ds).error == SensorError(t, ds[k].source)
    decreases |ds|
  {
    if ds != [] && Usable(t, ds[0].source) {
      var t1 := Step(t, ds[0]);
      var rest := ds[1..];
      RestSeparate(ds);
      StepKeepsSources(t, ds);
      ApplyAllOk(t1, rest);
      if ApplyAll(t, ds).Err? {
        var k: nat :| FirstUnusable(t1, rest, k) && ApplyAll(t1, rest).error == SensorError(t1, rest[k].source);
        FirstUnusableShift(t, t1, ds, k);
      }
    }
  }

  /** The first step leaves what reading each later source gives as it was. */
  lemma StepKeepsSources(t: Table, ds: seq<Derivation>)
    requires Rectangular(t) && Separate(ds) && ds != []
    ensures forall k :: 0 <= k < |ds| - 1 ==>
      && (Usable(Step(t, ds[0]), ds[1..][k].source) <==> Usable(t, ds[1..][k].source))
      && SensorError(Step(t, ds[0]), ds[1..][k].source) == SensorError(t, ds[1..][k].source)
  {
    forall k | 0 <= k < |ds| - 1
      ensures Usable(Step(t, ds[0]), ds[1..][k].source) <==> Usable(t, ds[1..][k].source)
      ensures SensorError(Step(t, ds[0]), ds[1..][k].source) == SensorError(t, ds[1..][k].source)
    {
      StepLookup(t, ds[0], ds[1..][k].source);
    }
  }

  /** The first unusable source after a usable first one is the next one of the whole. */
  lemma FirstUnusableShift(t: Table, t1: Table, ds: seq<Derivation>, k: nat)
    requires Rectangular(t) && Rectangular(t1) && ds != [] && Usable(t, ds[0].source)
    requires FirstUnusable(t1, ds[1..], k)
    requires forall l :: 0 <= l < |ds| - 1 ==> (Usable(t1, ds[1..][l].source) <==> Usable(t, ds[1..][l].source))
    ensures FirstUnusable(t, ds, k + 1) && ds[1..][k] == ds[k + 1]
  {
    forall l | 0 < l <= k ensures Usable(t, ds[l].source) {
      assert ds[l] == ds[1..][l - 1];
    }
  }

  lemma RestSeparate(ds: seq<Derivation>)
    requires Separate(ds) && ds != []
    ensures Separate(ds[1..])
    ensures forall k :: 0 <= k < |ds| - 1 ==> ds[1..][k].source != ds[0].target && ds[1..][k].target != ds[0].target
  {
  }

  /** After the steps, each written column holds its feature of the source column as it
      was before the steps, and every other column reads as before. */
  lemma {:induction false} ApplyAllLookup(t: Table, ds: seq<Derivation>, m: string)
    requires Rectangular(t) && Separate(ds) && forall k :: 0 <= k < |ds| ==> Usable(t, ds[k].source)
    ensures ApplyAll(t, ds).Ok?
    ensures (forall k :: 0 <= k < |ds| ==> ds[k].target != m) ==> Lookup(ApplyAll(t, ds).value, m) == Lookup(t, m)
    ensures forall k :: 0 <= k < |ds| && ds[k].target == m ==>
      Lookup(ApplyAll(t, ds).value, m) == Some(Derived(ColumnOf(t, ds[k].source), ds[k].feature))
    decreases |ds|
  {
    ApplyAllOk(t, ds);
    if ds != [] {
      var t1 := Step(t, ds[0]);
      var rest := ds[1..];
      RestSeparate(ds);
      forall k | 0 <= k < |rest| ensures Lookup(t1, rest[k].source) == Lookup(t, rest[k].source) && Usable(t1, rest[k].source) {
        assert rest[k] == ds[k + 1];
        StepLookup(t, ds[0], rest[k].source);
      }
      ApplyAllLookup(t1, rest, m);
      StepLookup(t, ds[0], m);
      forall k | 0 < k < |ds| && ds[k].target == m
        ensures Lookup(ApplyAll(t, ds).value, m) == Some(Derived(ColumnOf(t, ds[k].source), ds[k].feature))
      {
        assert ds[k] == rest[k - 1];
      }
    }
  }

  /** No cell of the row is NaN. */
  predicate NoMissing(row: seq<Cell>) {
    forall j :: 0 <= j < |row| ==> !row[j].Missing?
  }

  lemma WithColumnRow(t: Table, name: string, cells: seq<Cell>, i: nat)
    requires Rectangular(t) && |cells| == |t.rows| && i < |t.rows|
    requires NoMissing(t.rows[i]) && !cells[i].Missing?
    ensures NoMissing(WithColumn(t, name, cells).rows[i])
  {
  }

  /** A row none of whose cells and none of whose added cells is NaN keeps no NaN. */
  lemma {:induction false} ApplyAllRow(t: Table, ds: seq<Derivation>, i: nat)
    requires Rectangular(t) && Separate(ds) && forall k :: 0 <= k < |ds| ==> Usable(t, ds[k].source)
    requires i < |t.rows| && NoMissing(t.rows[i])
    requires forall k :: 0 <= k < |ds| ==> !Derived(ColumnOf(t, ds[k].source), ds[k].feature)[i].Missing?
    ensures ApplyAll(t, ds).Ok? && NoMissing(ApplyAll(t, ds).value.rows[i])
    decreases |ds|
  {
    ApplyAllOk(t, ds);
    if ds != [] {
      var t1 := Step(t, ds[0]);
      var rest := ds[1..];
      RestSeparate(ds);
      forall k | 0 <= k < |rest| ensures Lookup(t1, rest[k].source) == Lookup(t, rest[k].source) && Usable(t1, rest[k].source) {
        assert rest[k] == ds[k + 1];
        StepLookup(t, ds[0], rest[k].source);
      }
      WithColumnRow(t, ds[0].target, Derived(ColumnOf(t, ds[0].source), ds[0].feature), i);
      ApplyAllRow(t1, rest, i);
    }
  }

  /** The derivations write six new columns and read only the three sensors. */
  lemma DerivationsSeparate(sTorque: real, sSpeed: real, sTemp: real)
    ensures Separate(Derivations(sTorque, sSpeed, sTemp))
    ensures forall k :: 0 <= k < 6 ==> Derivations(sTorque, sSpeed, sTemp)[k].target !in RawColumns + [UdiLabel]
    ensures Distinct(AbtColumns)
  {
    SourcesNotWritten(sTorque, sSpeed, sTemp);
    TargetsDistinct(sTorque, sSpeed, sTemp);
    TargetsNew(sTorque, sSpeed, sTemp);
    AbtDistinct();
  }

  lemma SourcesNotWritten(sTorque: real, sSpeed: real, sTemp: real)
    ensures var ds := Derivations(sTorque, sSpeed, sTemp);
      forall k, l :: 0 <= k < |ds| && 0 <= l < |ds| ==> ds[k].source != ds[l].target
  {
  }

  lemma TargetsDistinct(sTorque: real, sSpeed: real, sTemp: real)
    ensures var ds := Derivations(sTorque, sSpeed, sTemp);
      forall k, l :: 0 <= k < l < |ds| ==> ds[k].target != ds[l].target
  {
  }

  lemma TargetsNew(sTorque: real, sSpeed: real, sTemp: real)
    ensures forall k :: 0 <= k < 6 ==> Derivations(sTorque, sSpeed, sTemp)[k].target !in RawColumns + [UdiLabel]
  {
  }

  lemma AbtDistinct()
    ensures Distinct(AbtColumns)
  {
  }

  // ---------------------------------------------------------------- the whole stage

  /** The frame just before `dropna`: sorted by `UDI`, with the six columns added. */
  function Extended(t: Table, sTorque: real, sSpeed: real, sTemp: real): (r: Result<Table>)
    requires Rectangular(t)
    ensures r.Ok? ==> Rectangular(r.value) && |r.value.rows| == |t.rows|
  {
    match IndexOf(t.names, UdiLabel)
    case None => Err(MissingColumn(UdiLabel))
    case Some(u) => ApplyAll(SortTable(t, u), Derivations(sTorque, sSpeed, sTemp))
  }

  function CompleteMask(t: Table): (mask: seq<bool>)
    ensures |mask| == |t.rows|
    ensures forall i :: 0 <= i < |t.rows| ==> (mask[i] <==> NoMissing(t.rows[i]))
  {
    seq(|t.rows|, i requires 0 <= i < |t.rows| => NoMissing(t.rows[i]))
  }

  /** `df.dropna().reset_index(drop=True)`: the rows without a NaN, in their order. */
  function DropNa(t: Table): (r: Table)
    requires Rectangular(t)
    ensures Rectangular(r) && r.names == t.names
    ensures forall i :: 0 <= i < |r.rows| ==> NoMissing(r.rows[i])
    ensures forall row :: row in r.rows <==> row in t.rows && NoMissing(row)
  {
    var mask := CompleteMask(t);
    var r := SelectRows(t, mask);
    assert forall row :: row in r.rows <==> row in t.rows && NoMissing(row) by {
      forall row ensures row in r.rows <==> row in t.rows && NoMissing(row) {
        SelectMembers(t.rows, mask, row);
      }
    }
    r
  }

  /** `build_features`: the analysis base table, or the error the stage raises. */
  function BuildFeatures(t: Table, sTorque: real, sSpeed: real, sTemp: real): (r: Result<Table>)
    requires Rectangular(t)
    ensures r.Ok? ==> Rectangular(r.value) && r.value.names == AbtColumns
    ensures r.Ok? ==> forall i :: 0 <= i < |r.value.rows| ==> NoMissing(r.value.rows[i])
  {
    var e :- Extended(t, sTorque, sSpeed, sTemp);
    var d := DropNa(e);
    var abt := Project(d, AbtColumns);
    assert abt.Ok? ==> forall i :: 0 <= i < |abt.value.rows| ==> NoMissing(abt.value.rows[i]) by {
      if abt.Ok? {
        forall i | 0 <= i < |abt.value.rows| ensures NoMissing(abt.value.rows[i]) {
          assert NoMissing(d.rows[i]);
        }
      }
    }
    abt
  }

  /** The cell of column `j`, as a function of the row. */
  function KeyOf(j: nat): seq<Cell> -> Cell {
    (row: seq<Cell>) => Key(row, j)
  }

  lemma ColumnAsMap(t: Table, j: nat)
    requires Rectangular(t) && j < |t.names|
    ensures Column(t, j) == MapSeq(t.rows, KeyOf(j))
  {
    forall i | 0 <= i < |t.rows| ensures Column(t, j)[i] == MapSeq(t.rows, KeyOf(j))[i] {
      MapSeqAt(t.rows, KeyOf(j), i);
    }
  }

  /** Sorting moves whole rows: every column of the sorted frame is a rearrangement of
      the same column before, so whether it can be read as a sensor does not change. */
  lemma SortedColumn(t: Table, u: nat, name: string)
    requires Rectangular(t)
    ensures multiset(ColumnOf(SortTable(t, u), name)) == multiset(ColumnOf(t, name))
    ensures Usable(SortTable(t, u), name) <==> Usable(t, name)
    ensures SensorError(SortTable(t, u), name) == SensorError(t, name)
  {
    var r := SortTable(t, u);
    if name in t.names {
      var j := IndexOf(t.names, name).value;
      ColumnAsMap(t, j);
      ColumnAsMap(r, j);
      MapPermutation(t.rows, r.rows, KeyOf(j));
      CellsPermutation(ColumnOf(r, name), ColumnOf(t, name));
    } else {
      assert ColumnOf(r, name) == ColumnOf(t, name);
    }
  }

  /** The error `build_features` raises, in the order its lines raise them. */
  function StageError(t: Table): Error
    requires Rectangular(t)
  {
    if UdiLabel !in t.names then MissingColumn(UdiLabel)
    else if !Usable(t, Torque) then SensorError(t, Torque)
    else if !Usable(t, Speed) then SensorError(t, Speed)
    else if !Usable(t, ProcessTemp) then SensorError(t, ProcessTemp)
    else if AirTemp !in t.names then MissingColumn(AirTemp)
    else if ToolWear !in t.names then MissingColumn(ToolWear)
    else MissingColumn(FailureLabel)
  }

  /** Six derivations reading sensors `a`, `b`, `c`, `a`, `b`, `c` succeed exactly when
      the three sensors are usable, and otherwise fail on the first that is not. */
  lemma ApplyAllThree(t: Table, ds: seq<Derivation>, a: string, b: string, c: string)
    requires Rectangular(t) && Separate(ds) && |ds| == 6
    requires ds[0].source == a && ds[1].source == b && ds[2].source == c
    requires ds[3].source == a && ds[4].source == b && ds[5].source == c
    ensures ApplyAll(t, ds).Ok? <==> Usable(t, a) && Usable(t, b) && Usable(t, c)
    ensures ApplyAll(t, ds).Err? ==>
      ApplyAll(t, ds).error == if !Usable(t, a) then SensorError(t, a) else if !Usable(t, b) then SensorError(t, b) else SensorError(t, c)
  {
    ApplyAllOk(t, ds);
    if ApplyAll(t, ds).Err? {
      var k: nat :| FirstUnusable(t, ds, k) && ApplyAll(t, ds).error == SensorError(t, ds[k].source);
      assert k == 0 || k == 1 || k == 2;
    }
  }

  /** The sort and the six new columns succeed exactly when `UDI` exists and the three
      sensors exist and hold numbers and NaN only. */
  lemma ExtendedOk(t: Table, sTorque: real, sSpeed: real, sTemp: real)
    requires Rectangular(t)
    ensures Extended(t, sTorque, sSpeed, sTemp).Ok? <==>
      UdiLabel in t.names && Usable(t, Torque) && Usable(t, Speed) && Usable(t, ProcessTemp)
    ensures Extended(t, sTorque, sSpeed, sTemp).Err? ==> Extended(t, sTorque, sSpeed, sTemp).error == StageError(t)
  {
    if UdiLabel in t.names {
      var u := IndexOf(t.names, UdiLabel).value;
      var sorted := SortTable(t, u);
      var ds := Derivations(sTorque, sSpeed, sTemp);
      assert Extended(t, sTorque, sSpeed, sTemp) == ApplyAll(sorted, ds);
      SourcesNotWritten(sTorque, sSpeed, sTemp);
      TargetsDistinct(sTorque, sSpeed, sTemp);
      SortedSensors(t, u);
      ApplyAllThree(sorted, ds, Torque, Speed, ProcessTemp);
    }
  }

  /** Sorting keeps whether each sensor is usable and what reading it raises. */
  lemma SortedSensors(t: Table, u: nat)
    requires Rectangular(t)
    ensures forall name :: name in Sensors ==>
      && (Usable(SortTable(t, u), name) <==> Usable(t, name))
      && SensorError(SortTable(t, u), name) == SensorError(t, name)
  {
    SortedColumn(t, u, Torque);
    SortedColumn(t, u, Speed);
    SortedColumn(t, u, ProcessTemp);
  }

  /** Every target column holds its feature of its source. */
  lemma ApplyAllTargets(t: Table, ds: seq<Derivation>)
    requires Rectangular(t) && Separate(ds) && forall k :: 0 <= k < |ds| ==> Usable(t, ds[k].source)
    ensures ApplyAll(t, ds).Ok?
    ensures forall k :: 0 <= k < |ds| ==>
      Lookup(ApplyAll(t, ds).value, ds[k].target) == Some(Derived(ColumnOf(t, ds[k].source), ds[k].feature))
  {
    ApplyAllOk(t, ds);
    forall k | 0 <= k < |ds|
      ensures Lookup(ApplyAll(t, ds).value, ds[k].target) == Some(Derived(ColumnOf(t, ds[k].source), ds[k].feature))
    {
      ApplyAllLookup(t, ds, ds[k].target);
    }
  }

  /** `df` once sorted by `UDI`. */
  function SortedByUdi(t: Table): (r: Table)
    requires Rectangular(t) && UdiLabel in t.names
    ensures Rectangular(r) && r.names == t.names && |r.rows| == |t.rows|
  {
    SortTable(t, IndexOf(t.names, UdiLabel).value)
  }

  lemma ExtendedSorted(t: Table, sTorque: real, sSpeed: real, sTemp: real)
    requires Rectangular(t) && Extended(t, sTorque, sSpeed, sTemp).Ok?
    ensures UdiLabel in t.names
    ensures Extended(t, sTorque, sSpeed, sTemp) == ApplyAll(SortedByUdi(t), Derivations(sTorque, sSpeed, sTemp))
    ensures var ds := Derivations(sTorque, sSpeed, sTemp);
      Separate(ds) && forall k :: 0 <= k < |ds| ==> Usable(SortedByUdi(t), ds[k].source)
  {
    ExtendedOk(t, sTorque, sSpeed, sTemp);
    var u := IndexOf(t.names, UdiLabel).value;
    SourcesNotWritten(sTorque, sSpeed, sTemp);
    TargetsDistinct(sTorque, sSpeed, sTemp);
    SortedSensors(t, u);
    var ds := Derivations(sTorque, sSpeed, sTemp);
    SourcesListed(sTorque, sSpeed, sTemp);
    forall k | 0 <= k < |ds| ensures Usable(SortedByUdi(t), ds[k].source) {
      var name := ds[k].source;
      assert name in Sensors;
      assert Usable(t, name);
    }
  }

  /** The sources of the derivations are the three sensors. */
  lemma SourcesListed(sTorque: real, sSpeed: real, sTemp: real)
    ensures |Derivations(sTorque, sSpeed, sTemp)| == 6
    ensures forall k :: 0 <= k < 6 ==> Derivations(sTorque, sSpeed, sTemp)[k].source in Sensors
  {
  }

  /** The six new columns of the frame before `dropna` hold the features of the sorted
      sensor columns. */
  lemma ExtendedTargets(t: Table, sTorque: real, sSpeed: real, sTemp: real)
    requires Rectangular(t) && Extended(t, sTorque, sSpeed, sTemp).Ok?
    ensures UdiLabel in t.names
    ensures var s, e := SortedByUdi(t), Extended(t, sTorque, sSpeed, sTemp).value;
      && Lookup(e, TorqueRoll) == Some(RollingColumn(ColumnOf(s, Torque)))
      && Lookup(e, SpeedRoll) == Some(RollingColumn(ColumnOf(s, Speed)))
      && Lookup(e, TempRoll) == Some(RollingColumn(ColumnOf(s, ProcessTemp)))
      && Lookup(e, TorqueZ) == Some(ZColumn(ColumnOf(s, Torque), sTorque))
      && Lookup(e, SpeedZ) == Some(ZColumn(ColumnOf(s, Speed), sSpeed))
      && Lookup(e, TempZ) == Some(ZColumn(ColumnOf(s, ProcessTemp), sTemp))
  {
    ExtendedSorted(t, sTorque, sSpeed, sTemp);
    var ds := Derivations(sTorque, sSpeed, sTemp);
    ApplyAllTargets(SortedByUdi(t), ds);
    assert ds[0].target == TorqueRoll && ds[1].target == SpeedRoll && ds[2].target == TempRoll;
    assert ds[3].target == TorqueZ && ds[4].target == SpeedZ && ds[5].target == TempZ;
  }

  /** Every column of the frame before `dropna` other than the six new ones is the
      sorted input column. */
  lemma ExtendedOthers(t: Table, sTorque: real, sSpeed: real, sTemp: real, m: string)
    requires Rectangular(t) && Extended(t, sTorque, sSpeed, sTemp).Ok?
    requires m !in TargetColumns
    ensures UdiLabel in t.names
    ensures Lookup(Extended(t, sTorque, sSpeed, sTemp).value, m) == Lookup(SortedByUdi(t), m)
  {
    ExtendedSorted(t, sTorque, sSpeed, sTemp);
    var ds := Derivations(sTorque, sSpeed, sTemp);
    TargetsListed(sTorque, sSpeed, sTemp);
    ApplyAllLookup(SortedByUdi(t), ds, m);
  }

  /** The targets of the derivations are the columns the stage adds. */
  lemma TargetsListed(sTorque: real, sSpeed: real, sTemp: real)
    ensures |Derivations(sTorque, sSpeed, sTemp)| == 6
    ensures forall k :: 0 <= k < 6 ==> Derivations(sTorque, sSpeed, sTemp)[k].target == TargetColumns[k]
  {
  }

  /** No copied column is one the stage adds. */
  lemma RawNotTarget()
    ensures forall c :: c in RawColumns ==> c !in TargetColumns
  {
  }

  /** Which columns the frame before `dropna` has: the six new ones, and the input's. */
  lemma ExtendedNames(t: Table, sTorque: real, sSpeed: real, sTemp: real)
    requires Rectangular(t) && Extended(t, sTorque, sSpeed, sTemp).Ok?
    ensures var e := Extended(t, sTorque, sSpeed, sTemp).value;
      && TorqueRoll in e.names && SpeedRoll in e.names && TempRoll in e.names
      && TorqueZ in e.names && SpeedZ in e.names && TempZ in e.names
      && forall c :: c in RawColumns ==> (c in e.names <==> c in t.names)
  {
    ExtendedTargets(t, sTorque, sSpeed, sTemp);
    RawNotTarget();
    forall c | c in RawColumns
      ensures c in Extended(t, sTorque, sSpeed, sTemp).value.names <==> c in t.names
    {
      ExtendedOthers(t, sTorque, sSpeed, sTemp, c);
    }
  }

  /** The projection on the analysis base table columns, once the sensors and the new
      columns are present: it fails on the first absent of the other three. */
  lemma ProjectAbt(d: Table)
    requires Rectangular(d)
    requires ProcessTemp in d.names && Speed in d.names && Torque in d.names
    requires TorqueRoll in d.names && SpeedRoll in d.names && TempRoll in d.names
    requires TorqueZ in d.names && SpeedZ in d.names && TempZ in d.names
    ensures Project(d, AbtColumns).Ok? <==> AirTemp in d.names && ToolWear in d.names && FailureLabel in d.names
    ensures Project(d, AbtColumns).Err? ==>
      Project(d, AbtColumns).error ==
        if AirTemp !in d.names then MissingColumn(AirTemp)
        else if ToolWear !in d.names then MissingColumn(ToolWear)
        else MissingColumn(FailureLabel)
  {
    if AirTemp !in d.names {
      FirstAbsentIs(AbtColumns, d.names, 0);
    } else if ToolWear !in d.names {
      FirstAbsentIs(AbtColumns, d.names, 4);
    } else if FailureLabel !in d.names {
      FirstAbsentIs(AbtColumns, d.names, 11);
    }
  }

  /** `build_features` returns a table exactly when `UDI` and the three sensors are there
      and readable and the other three copied columns are there; otherwise it raises the
      first error its lines meet. */
  lemma BuildFeaturesOk(t: Table, sTorque: real, sSpeed: real, sTemp: real)
    requires Rectangular(t)
    ensures BuildFeatures(t, sTorque, sSpeed, sTemp).Ok? <==>
      && UdiLabel in t.names && Usable(t, Torque) && Usable(t, Speed) && Usable(t, ProcessTemp)
      && AirTemp in t.names && ToolWear in t.names && FailureLabel in t.names
    ensures BuildFeatures(t, sTorque, sSpeed, sTemp).Err? ==>
      BuildFeatures(t, sTorque, sSpeed, sTemp).error == StageError(t)
  {
    ExtendedOk(t, sTorque, sSpeed, sTemp);
    if Extended(t, sTorque, sSpeed, sTemp).Ok? {
      var e := Extended(t, sTorque, sSpeed, sTemp).value;
      ExtendedNames(t, sTorque, sSpeed, sTemp);
      var d := DropNa(e);
      assert BuildFeatures(t, sTorque, sSpeed, sTemp) == Project(d, AbtColumns);
      assert ProcessTemp in e.names && Speed in e.names && Torque in e.names;
      ProjectAbt(d);
    }
  }

  /** The rows `dropna` keeps when exactly the first `m` have a NaN. */
  lemma DropNaSuffix(e: Table, m: nat)
    requires Rectangular(e) && m <= |e.rows|
    requires forall i :: 0 <= i < |e.rows| ==> (NoMissing(e.rows[i]) <==> i >= m)
    ensures DropNa(e) == Table(e.names, e.rows[m..])
  {
    SelectFrom(e.rows, CompleteMask(e), m);
  }

  /** A feature of an all-number column has a number at every row from the fifth on
      (for a z-score, when the deviation is not zero). */
  lemma DerivedNum(col: seq<Cell>, f: Feature, i: nat)
    requires AllNum(col) && 4 <= i < |col| && (f.ZScore? ==> f.std != 0.0)
    ensures !Derived(col, f)[i].Missing?
  {
    if f.RollingMean? {
      assert AllNum(col[i - 4..i + 1]);
    }
  }

  /** With every source column all numbers and no z-score over a zero deviation, a row
      from the fifth on that had no NaN gets none from the new columns. */
  lemma ApplyAllComplete(t: Table, ds: seq<Derivation>, i: nat)
    requires Rectangular(t) && Separate(ds)
    requires forall k :: 0 <= k < |ds| ==> ds[k].source in t.names && AllNum(ColumnOf(t, ds[k].source))
    requires forall k :: 0 <= k < |ds| ==> ds[k].feature.ZScore? ==> ds[k].feature.std != 0.0
    requires 4 <= i < |t.rows| && NoMissing(t.rows[i])
    ensures ApplyAll(t, ds).Ok? && NoMissing(ApplyAll(t, ds).value.rows[i])
  {
    forall k | 0 <= k < |ds| ensures !Derived(ColumnOf(t, ds[k].source), ds[k].feature)[i].Missing? {
      DerivedNum(ColumnOf(t, ds[k].source), ds[k].feature, i);
    }
    ApplyAllRow(t, ds, i);
  }

  /** The input holds no NaN, the three sensors hold numbers only and none has a zero
      deviation. */
  predicate CompleteInput(t: Table, sTorque: real, sSpeed: real, sTemp: real)
    requires Rectangular(t)
  {
    && UdiLabel in t.names && Torque in t.names && Speed in t.names && ProcessTemp in t.names
    && AllNum(ColumnOf(t, Torque)) && AllNum(ColumnOf(t, Speed)) && AllNum(ColumnOf(t, ProcessTemp))
    && sTorque != 0.0 && sSpeed != 0.0 && sTemp != 0.0
    && forall i :: 0 <= i < |t.rows| ==> NoMissing(t.rows[i])
  }

  /** Sorting a complete input keeps it complete. */
  lemma SortedComplete(t: Table, sTorque: real, sSpeed: real, sTemp: real)
    requires Rectangular(t) && CompleteInput(t, sTorque, sSpeed, sTemp)
    ensures CompleteInput(SortedByUdi(t), sTorque, sSpeed, sTemp)
  {
    var u := IndexOf(t.names, UdiLabel).value;
    var s := SortedByUdi(t);
    SortedColumn(t, u, Torque);
    SortedColumn(t, u, Speed);
    SortedColumn(t, u, ProcessTemp);
    CellsPermutation(ColumnOf(s, Torque), ColumnOf(t, Torque));
    CellsPermutation(ColumnOf(s, Speed), ColumnOf(t, Speed));
    CellsPermutation(ColumnOf(s, ProcessTemp), ColumnOf(t, ProcessTemp));
    forall i | 0 <= i < |s.rows| ensures NoMissing(s.rows[i]) {
      assert s.rows[i] in multiset(t.rows);
    }
  }

  /** On a complete input, every row from the fifth on has no NaN before `dropna`. */
  lemma ExtendedLateRow(t: Table, sTorque: real, sSpeed: real, sTemp: real, i: nat)
    requires Rectangular(t) && CompleteInput(t, sTorque, sSpeed, sTemp) && 4 <= i < |t.rows|
    ensures Extended(t, sTorque, sSpeed, sTemp).Ok?
    ensures NoMissing(Extended(t, sTorque, sSpeed, sTemp).value.rows[i])
  {
    var s := SortedByUdi(t);
    var ds := Derivations(sTorque, sSpeed, sTemp);
    SortedComplete(t, sTorque, sSpeed, sTemp);
    DerivationsSeparate(sTorque, sSpeed, sTemp);
    forall k | 0 <= k < |ds| ensures ds[k].source in s.names && AllNum(ColumnOf(s, ds[k].source)) {
      assert k < 3 || k == 3 || k == 4 || k == 5;
    }
    forall k | 0 <= k < |ds| ensures ds[k].feature.ZScore? ==> ds[k].feature.std != 0.0 {
      assert k < 3 || k == 3 || k == 4 || k == 5;
    }
    ApplyAllComplete(s, ds, i);
  }

  /** The first four rows have a NaN before `dropna`: their torque trailing mean. */
  lemma ExtendedEarlyRow(t: Table, sTorque: real, sSpeed: real, sTemp: real, i: nat)
    requires Rectangular(t) && Extended(t, sTorque, sSpeed, sTemp).Ok? && i < 4 && i < |t.rows|
    ensures !NoMissing(Extended(t, sTorque, sSpeed, sTemp).value.rows[i])
  {
    ExtendedTargets(t, sTorque, sSpeed, sTemp);
    var e := Extended(t, sTorque, sSpeed, sTemp).value;
    var j := IndexOf(e.names, TorqueRoll).value;
    assert e.rows[i][j] == Column(e, j)[i] == RollingColumn(ColumnOf(SortedByUdi(t), Torque))[i];
  }

  /** On a complete input the rows before `dropna` that have a NaN are exactly the first
      four, whose trailing means lack a full window. */
  lemma ExtendedRows(t: Table, sTorque: real, sSpeed: real, sTemp: real)
    requires Rectangular(t) && CompleteInput(t, sTorque, sSpeed, sTemp)
    ensures Extended(t, sTorque, sSpeed, sTemp).Ok?
    ensures var e := Extended(t, sTorque, sSpeed, sTemp).value;
      forall i :: 0 <= i < |e.rows| ==> (NoMissing(e.rows[i]) <==> i >= 4)
  {
    ExtendedOk(t, sTorque, sSpeed, sTemp);
    SortedComplete(t, sTorque, sSpeed, sTemp);
    var e := Extended(t, sTorque, sSpeed, sTemp).value;
    forall i | 0 <= i < |e.rows| ensures NoMissing(e.rows[i]) <==> i >= 4 {
      if i >= 4 {
        ExtendedLateRow(t, sTorque, sSpeed, sTemp, i);
      } else {
        ExtendedEarlyRow(t, sTorque, sSpeed, sTemp, i);
      }
    }
  }

  /** The input holds all six copied columns and is complete. */
  predicate FullInput(t: Table, sTorque: real, sSpeed: real, sTemp: real)
    requires Rectangular(t)
  {
    CompleteInput(t, sTorque, sSpeed, sTemp) && AirTemp in t.names && ToolWear in t.names && FailureLabel in t.names
  }

  /** Rows dropped from a full input: the first four, or all of them when there are fewer. */
  function Dropped(t: Table): nat {
    if |t.rows| >= 4 then 4 else |t.rows|
  }

  /** On a full input the analysis base table projects the rows before `dropna` from
      the fifth on. */
  lemma BuildFeaturesSuffix(t: Table, sTorque: real, sSpeed: real, sTemp: real)
    requires Rectangular(t) && FullInput(t, sTorque, sSpeed, sTemp)
    ensures Extended(t, sTorque, sSpeed, sTemp).Ok? && BuildFeatures(t, sTorque, sSpeed, sTemp).Ok?
    ensures var e := Extended(t, sTorque, sSpeed, sTemp).value;
      && Rectangular(Table(e.names, e.rows[Dropped(t)..]))
      && BuildFeatures(t, sTorque, sSpeed, sTemp) == Project(Table(e.names, e.rows[Dropped(t)..]), AbtColumns)
  {
    ExtendedRows(t, sTorque, sSpeed, sTemp);
    BuildFeaturesOk(t, sTorque, sSpeed, sTemp);
    var e := Extended(t, sTorque, sSpeed, sTemp).value;
    DropNaSuffix(e, Dropped(t));
  }

  /** On a full input every column of the analysis base table is the same column before
      `dropna` without its first four rows. */
  lemma BuildFeaturesColumn(t: Table, sTorque: real, sSpeed: real, sTemp: real, c: string)
    requires Rectangular(t) && FullInput(t, sTorque, sSpeed, sTemp) && c in AbtColumns
    ensures Extended(t, sTorque, sSpeed, sTemp).Ok? && BuildFeatures(t, sTorque, sSpeed, sTemp).Ok?
    ensures var e := Extended(t, sTorque, sSpeed, sTemp).value;
      && c in e.names
      && |BuildFeatures(t, sTorque, sSpeed, sTemp).value.rows| == |t.rows| - Dropped(t)
      && Lookup(BuildFeatures(t, sTorque, sSpeed, sTemp).value, c) == Some(Lookup(e, c).value[Dropped(t)..])
  {
    BuildFeaturesSuffix(t, sTorque, sSpeed, sTemp);
    ExtendedNames(t, sTorque, sSpeed, sTemp);
    DerivationsSeparate(sTorque, sSpeed, sTemp);
    var e := Extended(t, sTorque, sSpeed, sTemp).value;
    var d := Table(e.names, e.rows[Dropped(t)..]);
    ProjectLookup(d, AbtColumns, c);
    LookupSuffix(e, Dropped(t), c);
  }

  /** On a full input the copied columns of the analysis base table are the input's,
      ordered by `UDI`, without the first four rows. */
  lemma BuildFeaturesCopied(t: Table, sTorque: real, sSpeed: real, sTemp: real)
    requires Rectangular(t) && FullInput(t, sTorque, sSpeed, sTemp)
    ensures BuildFeatures(t, sTorque, sSpeed, sTemp).Ok?
    ensures var out := BuildFeatures(t, sTorque, sSpeed, sTemp).value;
      && |out.rows| == |t.rows| - Dropped(t)
      && forall c :: c in RawColumns ==> Lookup(out, c) == Some(ColumnOf(SortedByUdi(t), c)[Dropped(t)..])
  {
    BuildFeaturesColumn(t, sTorque, sSpeed, sTemp, AirTemp);
    RawNotTarget();
    forall c | c in RawColumns
      ensures Lookup(BuildFeatures(t, sTorque, sSpeed, sTemp).value, c) == Some(ColumnOf(SortedByUdi(t), c)[Dropped(t)..])
    {
      BuildFeaturesColumn(t, sTorque, sSpeed, sTemp, c);
      ExtendedOthers(t, sTorque, sSpeed, sTemp, c);
    }
  }

  /** On a full input the trailing means of the analysis base table are those of the
      sensors ordered by `UDI`, without the first four rows. */
  lemma BuildFeaturesRolling(t: Table, sTorque: real, sSpeed: real, sTemp: real)
    requires Rectangular(t) && FullInput(t, sTorque, sSpeed, sTemp)
    ensures BuildFeatures(t, sTorque, sSpeed, sTemp).Ok?
    ensures var out, s, m := BuildFeatures(t, sTorque, sSpeed, sTemp).value, SortedByUdi(t), Dropped(t);
      && Lookup(out, TorqueRoll) == Some(RollingColumn(ColumnOf(s, Torque))[m..])
      && Lookup(out, SpeedRoll) == Some(RollingColumn(ColumnOf(s, Speed))[m..])
      && Lookup(out, TempRoll) == Some(RollingColumn(ColumnOf(s, ProcessTemp))[m..])
  {
    BuildFeaturesColumn(t, sTorque, sSpeed, sTemp, TorqueRoll);
    var e := Extended(t, sTorque, sSpeed, sTemp).value;
    var m := Dropped(t);
    assert Lookup(BuildFeatures(t, sTorque, sSpeed, sTemp).value, TorqueRoll) == Some(Lookup(e, TorqueRoll).value[m..]);
    BuildFeaturesColumn(t, sTorque, sSpeed, sTemp, SpeedRoll);
    assert Lookup(BuildFeatures(t, sTorque, sSpeed, sTemp).value, SpeedRoll) == Some(Lookup(e, SpeedRoll).value[m..]);
    BuildFeaturesColumn(t, sTorque, sSpeed, sTemp, TempRoll);
    assert Lookup(BuildFeatures(t, sTorque, sSpeed, sTemp).value, TempRoll) == Some(Lookup(e, TempRoll).value[m..]);
    ExtendedTargets(t, sTorque, sSpeed, sTemp);
  }

  /** On a full input the z-scores of the analysis base table are those of the sensors
      ordered by `UDI`, without the first four rows. */
  lemma BuildFeaturesZ(t: Table, sTorque: real, sSpeed: real, sTemp: real)
    requires Rectangular(t) && FullInput(t, sTorque, sSpeed, sTemp)
    ensures BuildFeatures(t, sTorque, sSpeed, sTemp).Ok?
    ensures var out, s, m := BuildFeatures(t, sTorque, sSpeed, sTemp).value, SortedByUdi(t), Dropped(t);
      && Lookup(out, TorqueZ) == Some(ZColumn(ColumnOf(s, Torque), sTorque)[m..])
      && Lookup(out, SpeedZ) == Some(ZColumn(ColumnOf(s, Speed), sSpeed)[m..])
      && Lookup(out, TempZ) == Some(ZColumn(ColumnOf(s, ProcessTemp), sTemp)[m..])
  {
    BuildFeaturesColumn(t, sTorque, sSpeed, sTemp, TorqueZ);
    var e := Extended(t, sTorque, sSpeed, sTemp).value;
    var m := Dropped(t);
    assert Lookup(BuildFeatures(t, sTorque, sSpeed, sTemp).value, TorqueZ) == Some(Lookup(e, TorqueZ).value[m..]);
    BuildFeaturesColumn(t, sTorque, sSpeed, sTemp, SpeedZ);
    assert Lookup(BuildFeatures(t, sTorque, sSpeed, sTemp).value, SpeedZ) == Some(Lookup(e, SpeedZ).value[m..]);
    BuildFeaturesColumn(t, sTorque, sSpeed, sTemp, TempZ);
    assert Lookup(BuildFeatures(t, sTorque, sSpeed, sTemp).value, TempZ) == Some(Lookup(e, TempZ).value[m..]);
    ExtendedTargets(t, sTorque, sSpeed, sTemp);
  }

  /** A column that is NaN throughout puts a NaN in every row. */
  lemma AllMissingColumn(e: Table, c: string)
    requires Rectangular(e) && Lookup(e, c).Some?
    requires forall i :: 0 <= i < |e.rows| ==> Lookup(e, c).value[i].Missing?
    ensures forall i :: 0 <= i < |e.rows| ==> !NoMissing(e.rows[i])
  {
    var j := IndexOf(e.names, c).value;
    forall i | 0 <= i < |e.rows| ensures !NoMissing(e.rows[i]) {
      assert e.rows[i][j] == Column(e, j)[i];
    }
  }

  /** A z-score over a column holding a NaN, or over a zero deviation, is NaN throughout. */
  lemma ZColumnVoid(col: seq<Cell>, s: real)
    requires !AllNum(col) || s == 0.0
    ensures forall i :: 0 <= i < |col| ==> ZColumn(col, s)[i].Missing?
  {
  }

  /** One z-scored sensor that holds a NaN or has a zero deviation makes `dropna`
      remove every row. */
  lemma ExtendedVoid(t: Table, sTorque: real, sSpeed: real, sTemp: real)
    requires Rectangular(t) && Extended(t, sTorque, sSpeed, sTemp).Ok?
    requires || !AllNum(ColumnOf(t, Torque)) || sTorque == 0.0
             || !AllNum(ColumnOf(t, Speed)) || sSpeed == 0.0
             || !AllNum(ColumnOf(t, ProcessTemp)) || sTemp == 0.0
    ensures forall i :: 0 <= i < |t.rows| ==> !NoMissing(Extended(t, sTorque, sSpeed, sTemp).value.rows[i])
  {
    ExtendedSorted(t, sTorque, sSpeed, sTemp);
    var u := IndexOf(t.names, UdiLabel).value;
    var s := SortedByUdi(t);
    ExtendedTargets(t, sTorque, sSpeed, sTemp);
    var e := Extended(t, sTorque, sSpeed, sTemp).value;
    if !AllNum(ColumnOf(t, Torque)) || sTorque == 0.0 {
      SortedColumn(t, u, Torque);
      CellsPermutation(ColumnOf(s, Torque), ColumnOf(t, Torque));
      ZColumnVoid(ColumnOf(s, Torque), sTorque);
      AllMissingColumn(e, TorqueZ);
    } else if !AllNum(ColumnOf(t, Speed)) || sSpeed == 0.0 {
      SortedColumn(t, u, Speed);
      CellsPermutation(ColumnOf(s, Speed), ColumnOf(t, Speed));
      ZColumnVoid(ColumnOf(s, Speed), sSpeed);
      AllMissingColumn(e, SpeedZ);
    } else {
      SortedColumn(t, u, ProcessTemp);
      CellsPermutation(ColumnOf(s, ProcessTemp), ColumnOf(t, ProcessTemp));
      ZColumnVoid(ColumnOf(s, ProcessTemp), sTemp);
      AllMissingColumn(e, TempZ);
    }
  }

  /** Because the z-scores propagate NaN, one NaN left in a sensor column, or a zero
      standard deviation for a sensor, leaves the analysis base table with no rows. */
  lemma BuildFeaturesVoid(t: Table, sTorque: real, sSpeed: real, sTemp: real)
    requires Rectangular(t) && BuildFeatures(t, sTorque, sSpeed, sTemp).Ok?
    requires || !AllNum(ColumnOf(t, Torque)) || sTorque == 0.0
             || !AllNum(ColumnOf(t, Speed)) || sSpeed == 0.0
             || !AllNum(ColumnOf(t, ProcessTemp)) || sTemp == 0.0
    ensures BuildFeatures(t, sTorque, sSpeed, sTemp).value.rows == []
  {
    var e := Extended(t, sTorque, sSpeed, sTemp).value;
    ExtendedVoid(t, sTorque, sSpeed, sTemp);
    DropNaSuffix(e, |e.rows|);
    assert BuildFeatures(t, sTorque, sSpeed, sTemp) == Project(DropNa(e), AbtColumns);
  }

  /** With the deviations the population standard deviations of the input sensors, a
      constant sensor column (a column of NaN included) leaves the analysis base table
      with no rows: its z-scores are `0 / 0`. */
  lemma BuildFeaturesConstantSensor(t: Table, sTorque: real, sSpeed: real, sTemp: real)
    requires Rectangular(t) && BuildFeatures(t, sTorque, sSpeed, sTemp).Ok?
    requires IsStd(ColumnOf(t, Torque), sTorque) && IsStd(ColumnOf(t, Speed), sSpeed)
    requires IsStd(ColumnOf(t, ProcessTemp), sTemp)
    requires || ConstantCells(ColumnOf(t, Torque)) || ConstantCells(ColumnOf(t, Speed))
             || ConstantCells(ColumnOf(t, ProcessTemp))
    ensures BuildFeatures(t, sTorque, sSpeed, sTemp).value.rows == []
  {
    if |t.rows| == 0 {
      var e := Extended(t, sTorque, sSpeed, sTemp).value;
      DropNaSuffix(e, 0);
      assert BuildFeatures(t, sTorque, sSpeed, sTemp) == Project(DropNa(e), AbtColumns);
    } else {
      if AllNum(ColumnOf(t, Torque)) {
        ConstantNoDeviation(ColumnOf(t, Torque), sTorque);
      }
      if AllNum(ColumnOf(t, Speed)) {
        ConstantNoDeviation(ColumnOf(t, Speed), sSpeed);
      }
      if AllNum(ColumnOf(t, ProcessTemp)) {
        ConstantNoDeviation(ColumnOf(t, ProcessTemp), sTemp);
      }
      BuildFeaturesVoid(t, sTorque, sSpeed, sTemp);
    }
  }

  /** `z` is a z-scored column of a non-empty table: numbers of mean 0 and variance 1
      when `ok`, NaN throughout otherwise. */
  predicate Standardized(z: seq<Cell>, ok: bool) {
    && |z| > 0
    && (ok ==> AllNum(z) && Mean(Values(z)) == 0.0 && PopVariance(Values(z)) == 1.0)
    && (!ok ==> forall i :: 0 <= i < |z| ==> z[i].Missing?)
  }

  /** A z-score of the sorted column `name` is standardized exactly when the input
      column is all numbers with a non-zero deviation. */
  lemma SortedStandardized(t: Table, name: string, s: real)
    requires Rectangular(t) && UdiLabel in t.names && |t.rows| > 0 && IsStd(ColumnOf(t, name), s)
    ensures Standardized(ZColumn(ColumnOf(SortedByUdi(t), name), s), AllNum(ColumnOf(t, name)) && s > 0.0)
  {
    var u := IndexOf(t.names, UdiLabel).value;
    var col := ColumnOf(SortedByUdi(t), name);
    SortedColumn(t, u, name);
    ZColumnPermutation(col, ColumnOf(t, name), s);
    ZColumnMoments(col, s);
  }

  /** With the deviations the population standard deviations of the input sensors, each
      z-score column before `dropna` has mean 0 and variance 1, or is NaN throughout when
      its sensor holds a NaN or has deviation 0, as a constant sensor has
      (`ConstantNoDeviation`). */
  lemma ExtendedZMoments(t: Table, sTorque: real, sSpeed: real, sTemp: real)
    requires Rectangular(t) && Extended(t, sTorque, sSpeed, sTemp).Ok? && |t.rows| > 0
    requires IsStd(ColumnOf(t, Torque), sTorque) && IsStd(ColumnOf(t, Speed), sSpeed)
    requires IsStd(ColumnOf(t, ProcessTemp), sTemp)
    ensures var e := Extended(t, sTorque, sSpeed, sTemp).value;
      && TorqueZ in e.names && SpeedZ in e.names && TempZ in e.names
      && Standardized(Lookup(e, TorqueZ).value, AllNum(ColumnOf(t, Torque)) && sTorque > 0.0)
      && Standardized(Lookup(e, SpeedZ).value, AllNum(ColumnOf(t, Speed)) && sSpeed > 0.0)
      && Standardized(Lookup(e, TempZ).value, AllNum(ColumnOf(t, ProcessTemp)) && sTemp > 0.0)
  {
    ExtendedTargets(t, sTorque, sSpeed, sTemp);
    SortedStandardized(t, Torque, sTorque);
    SortedStandardized(t, Speed, sSpeed);
    SortedStandardized(t, ProcessTemp, sTemp);
  }

  // ---------------------------------------------------------------- the stage, step by step

  /** The right-hand side of one of the six assignments. */
  method Derive(col: seq<Cell>, f: Feature) returns (r: seq<Cell>)
    ensures r == Derived(col, f)
  {
    match f
    case RollingMean =>
      r := SlidingMean(col);
    case ZScore(s) =>
      r := ZScores(col, s);
  }

  /** `build_features`, line by line, on a frame read from `t`: the analysis base table
      it returns, or the error it raises. */
  method BuildFeaturesRun(t: Table, sTorque: real, sSpeed: real, sTemp: real) returns (abt: Result<Table>)
    requires Rectangular(t)
    ensures abt == BuildFeatures(t, sTorque, sSpeed, sTemp)
  {
    var df := new Frame(t);
    if UdiLabel !in df.names {
      return Err(MissingColumn(UdiLabel));
    }
    df.Rebind(SortTable(df.Snapshot(), IndexOf(df.names, UdiLabel).value));
    ghost var sorted := df.Snapshot();
    var ds := Derivations(sTorque, sSpeed, sTemp);
    for k := 0 to |ds|
      invariant df.Valid() && ApplyAll(df.Snapshot(), ds[k..]) == ApplyAll(sorted, ds)
    {
      var d := ds[k];
      assert ds[k..] == [d] + ds[k + 1..];
      if !Usable(df.Snapshot(), d.source) {
        return Err(SensorError(df.Snapshot(), d.source));
      }
      var cells := Derive(ColumnOf(df.Snapshot(), d.source), d.feature);
      df.SetColumn(d.target, cells);
    }
    assert ds[|ds|..] == [];
    df.Rebind(DropNa(df.Snapshot()));
    abt := Project(df.Snapshot(), AbtColumns);
  }
}
