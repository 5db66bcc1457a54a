/** The cleaning stage `clean_data`: trim the column labels, fill missing numeric
    cells with the column median, drop repeated rows, one-hot encode `Type`
    without its first level, and drop every row that has a numeric cell outside
    Tukey's fences. */
module Cleaning {
  import opened Cells
  import opened Stats
  import opened Frames

  // ---------------------------------------------------------------- labels

  /** `df.columns.str.strip()`. */
  function StripAll(names: seq<string>): (r: seq<string>)
    ensures |r| == |names|
    ensures forall j :: 0 <= j < |r| ==> r[j] == Strip(names[j])
  {
    seq(|names|, j requires 0 <= j < |names| => Strip(names[j]))
  }

  /** Trimmed labels have no surrounding whitespace, and trimming them again changes nothing. */
  lemma StripAllTrimmed(names: seq<string>)
    ensures forall j :: 0 <= j < |names| ==> Trimmed(StripAll(names)[j])
    ensures StripAll(StripAll(names)) == StripAll(names)
  {
    forall j | 0 <= j < |names| ensures StripAll(StripAll(names))[j] == StripAll(names)[j] {
      StripIdempotent(names[j]);
    }
  }

  // ---------------------------------------------------------------- column types

  predicate SameKind(a: Cell, b: Cell) {
    a.Missing? || b.Missing? || KindRank(a) == KindRank(b)
  }

  /** A table as `read_csv` types it: within a column, all present cells are numbers,
      or all are strings, or all are booleans. */
  predicate Typed(t: Table)
    requires Rectangular(t)
  {
    forall i, k, j :: 0 <= i < |t.rows| && 0 <= k < |t.rows| && 0 <= j < |t.names| ==>
      SameKind(t.rows[i][j], t.rows[k][j])
  }

  /** Column `j` has an `int64` or `float64` dtype: the table has rows and every cell is
      a number or NaN (a column of NaN only is `float64`; a header-only file gives
      `object` columns). */
  predicate IsNumeric(t: Table, j: nat)
    requires Rectangular(t) && j < |t.names|
  {
    |t.rows| > 0 && forall i :: 0 <= i < |t.rows| ==> t.rows[i][j].Num? || t.rows[i][j].Missing?
  }

  function NumericMask(t: Table): (mask: seq<bool>)
    requires Rectangular(t)
    ensures |mask| == |t.names|
    ensures forall j :: 0 <= j < |t.names| ==> mask[j] == IsNumeric(t, j)
  {
    seq(|t.names|, j requires 0 <= j < |t.names| => IsNumeric(t, j))
  }

  /** `select_dtypes(include=["int64", "float64"]).columns`, in column order. */
  function NumericColumns(t: Table): (cols: seq<string>)
    requires Rectangular(t)
  {
    Select(t.names, NumericMask(t))
  }

  /** With distinct labels, a label is among the numeric columns iff its column is numeric. */
  lemma NumericColumnsMembers(t: Table, j: nat)
    requires Rectangular(t) && Distinct(t.names) && j < |t.names|
    ensures t.names[j] in NumericColumns(t) <==> IsNumeric(t, j)
  {
    SelectMembers(t.names, NumericMask(t), t.names[j]);
    if t.names[j] in NumericColumns(t) {
      var i :| 0 <= i < |t.names| && NumericMask(t)[i] && t.names[i] == t.names[j];
      assert i == j;
    }
  }

  lemma NumericColumnsAreNames(t: Table, n: string)
    requires Rectangular(t)
    ensures n in NumericColumns(t) ==> n in t.names
  {
    SelectMembers(t.names, NumericMask(t), n);
  }

  /** In a typed table a column that is not numeric holds no number. */
  lemma NotNumericHoldsNoNumber(t: Table, j: nat)
    requires Rectangular(t) && Typed(t) && j < |t.names| && !IsNumeric(t, j)
    ensures forall i :: 0 <= i < |t.rows| ==> !t.rows[i][j].Num?
  {
    if |t.rows| > 0 {
      var k :| 0 <= k < |t.rows| && !t.rows[k][j].Num? && !t.rows[k][j].Missing?;
      forall i | 0 <= i < |t.rows| ensures !t.rows[i][j].Num? {
        assert SameKind(t.rows[i][j], t.rows[k][j]);
      }
    }
  }

  // ---------------------------------------------------------------- median imputation

  /** The numbers of a column, in order, skipping NaN. */
  function NumValues(col: seq<Cell>): (v: seq<real>)
    ensures |v| <= |col|
    ensures forall x :: x in v <==> Num(x) in col
  {
    if col == [] then []
    else
      assert col == [col[0]] + col[1..];
      (if col[0].Num? then [col[0].x] else []) + NumValues(col[1..])
  }

  predicate HasNumber(col: seq<Cell>) {
    exists i :: 0 <= i < |col| && col[i].Num?
  }

  /** `Series.median()`: the median of the numbers of the column, or NaN when there are none. */
  function ColumnMedian(col: seq<Cell>): (m: Option<real>)
    ensures m.None? <==> !HasNumber(col)
    ensures m.Some? ==> exists a, b :: Num(a) in col && Num(b) in col && a <= m.value <= b
  {
    var v := NumValues(col);
    if v == [] then
      NoNumbers(col);
      None
    else
      MedianWithin(col);
      Some(Median(SortReals(v)))
  }

  /** A column without numbers yields no numbers to take the median of. */
  lemma NoNumbers(col: seq<Cell>)
    requires NumValues(col) == []
    ensures !HasNumber(col)
  {
    assert forall i :: 0 <= i < |col| && col[i].Num? ==> col[i].x in NumValues(col);
  }

  /** The median of the numbers of a column lies between two of its numbers. */
  lemma MedianWithin(col: seq<Cell>)
    requires NumValues(col) != []
    ensures exists a, b :: Num(a) in col && Num(b) in col && a <= Median(SortReals(NumValues(col))) <= b
  {
    var v := NumValues(col);
    var s := SortReals(v);
    assert |s| == |multiset(s)| == |multiset(v)| == |v|;
    assert s[0] in multiset(v) && s[|s| - 1] in multiset(v);
    var lo, hi := s[0], s[|s| - 1];
    assert Num(lo) in col && Num(hi) in col && lo <= Median(s) <= hi;
  }

  /** `fillna(median)` on one cell. */
  function Fill(c: Cell, med: Option<real>): Cell {
    if c.Missing? && med.Some? then Num(med.value) else c
  }

  /** The fill value of each column: its median when it is one of `cols`. */
  function Medians(t: Table, cols: seq<string>): (m: seq<Option<real>>)
    requires Rectangular(t)
    ensures |m| == |t.names|
  {
    seq(|t.names|, j requires 0 <= j < |t.names| =>
      if t.names[j] in cols then ColumnMedian(Column(t, j)) else None)
  }

  /** `df[cols] = df[cols].fillna(df[cols].median())`. */
  function Impute(t: Table, cols: seq<string>): (r: Table)
    requires Rectangular(t)
    ensures Rectangular(r) && r.names == t.names && |r.rows| == |t.rows|
  {
    var m := Medians(t, cols);
    Table(t.names, seq(|t.rows|, i requires 0 <= i < |t.rows| =>
      seq(|t.names|, j requires 0 <= j < |t.names| => Fill(t.rows[i][j], m[j]))))
  }

  /** Imputation only touches missing cells of the listed columns: a present cell, or a
      cell of another column, is unchanged, and a missing cell of a listed column becomes
      its column's median (it stays NaN when the column has no number at all). */
  lemma ImputeCell(t: Table, cols: seq<string>, i: nat, j: nat)
    requires Rectangular(t) && i < |t.rows| && j < |t.names|
    ensures !t.rows[i][j].Missing? ==> Impute(t, cols).rows[i][j] == t.rows[i][j]
    ensures t.names[j] !in cols ==> Impute(t, cols).rows[i][j] == t.rows[i][j]
    ensures t.rows[i][j].Missing? && t.names[j] in cols ==>
      Impute(t, cols).rows[i][j] ==
        match ColumnMedian(Column(t, j))
        case Some(m) => Num(m)
        case None => Missing
  {
  }

  /** After imputation a listed column that had at least one number has no NaN left,
      and a numeric column is still numeric. */
  lemma ImputeNoMissing(t: Table, cols: seq<string>, j: nat)
    requires Rectangular(t) && j < |t.names|
    ensures t.names[j] in cols && HasNumber(Column(t, j)) ==>
      forall i :: 0 <= i < |t.rows| ==> !Impute(t, cols).rows[i][j].Missing?
    ensures IsNumeric(t, j) ==> IsNumeric(Impute(t, cols), j)
  {
  }

  /** A column that is not listed reads the same after imputation. */
  lemma ImputeKeepsColumn(t: Table, cols: seq<string>, j: nat)
    requires Rectangular(t) && j < |t.names| && t.names[j] !in cols
    ensures Column(Impute(t, cols), j) == Column(t, j)
  {
  }

  // ---------------------------------------------------------------- categories

  predicate KeyLt(a: Cell, b: Cell) {
    KeyLe(a, b) && a != b
  }

  /** Strictly ascending in the order `sort_values` and categorical sorting use. */
  predicate Increasing(s: seq<Cell>) {
    forall i, j :: 0 <= i < j < |s| ==> KeyLt(s[i], s[j])
  }

  function InsertLevel(x: Cell, s: seq<Cell>): (r: seq<Cell>)
    requires Increasing(s)
    ensures Increasing(r)
    ensures forall y :: y in r <==> y == x || y in s
    decreases |s|
  {
    if s == [] then [x]
    else if x == s[0] then s
    else if KeyLe(x, s[0]) then
      forall k | 0 < k < |s| ensures KeyLt(x, s[k]) {
        KeyLeTransitive(x, s[0], s[k]);
        if x == s[k] {
          KeyLeAntisymmetric(s[0], s[k]);
        }
      }
      [x] + s
    else
      var rest := InsertLevel(x, s[1..]);
      KeyLeTotal(x, s[0]);
      assert forall y :: y in rest ==> KeyLt(s[0], y) by {
        forall y | y in rest ensures KeyLt(s[0], y) {
          if y != x {
            var k :| 0 <= k < |s[1..]| && s[1..][k] == y;
            assert s[k + 1] == y;
          }
        }
      }
      assert s == [s[0]] + s[1..];
      [s[0]] + rest
  }

  /** `astype("category").cat.categories`: the distinct present values of a column, ascending. */
  function Levels(col: seq<Cell>): (r: seq<Cell>)
    ensures Increasing(r)
    ensures forall y :: y in r <==> y in col && !y.Missing?
  {
    if col == [] then []
    else
      assert col == [col[0]] + col[1..];
      var rest := Levels(col[1..]);
      if col[0].Missing? then rest else InsertLevel(col[0], rest)
  }

  lemma IncreasingDistinct(s: seq<Cell>)
    requires Increasing(s)
    ensures Distinct(s)
  {
  }

  // ---------------------------------------------------------------- one-hot encoding

  /** Category values as `get_dummies` can name them: strings and booleans. */
  predicate Categorical(levels: seq<Cell>) {
    forall k :: 0 <= k < |levels| ==> levels[k].Text? || levels[k].Flag?
  }

  /** `str(value)` for a category value. */
  function LevelText(c: Cell): string
    requires c.Text? || c.Flag?
  {
    if c.Text? then c.s else if c.b then "True" else "False"
  }

  /** The levels that get an indicator column (`drop_first=True`). */
  function Kept(levels: seq<Cell>): seq<Cell> {
    if levels == [] then [] else levels[1..]
  }

  function DummyNames(levels: seq<Cell>): (ns: seq<string>)
    requires Categorical(levels)
    ensures |ns| == |Kept(levels)|
    ensures forall k :: 0 <= k < |ns| ==> ns[k] == "Type_" + LevelText(Kept(levels)[k])
  {
    seq(|Kept(levels)|, k requires 0 <= k < |Kept(levels)| => "Type_" + LevelText(Kept(levels)[k]))
  }

  /** The indicator cells of one row whose category is `c`. */
  function Indicators(c: Cell, levels: seq<Cell>): (r: seq<Cell>)
    ensures |r| == |Kept(levels)|
    ensures forall k :: 0 <= k < |r| ==> r[k] == Flag(c == Kept(levels)[k])
  {
    seq(|Kept(levels)|, k requires 0 <= k < |Kept(levels)| => Flag(c == Kept(levels)[k]))
  }

  /** One-hot indicators: at most one is true; all are false exactly when the category
      is the first level or NaN; a value other than the first level sets its own. */
  lemma IndicatorsOneHot(c: Cell, levels: seq<Cell>)
    requires Increasing(levels) && Categorical(levels)
    ensures forall k, l :: 0 <= k < l < |Kept(levels)| ==>
      !(Indicators(c, levels)[k] == Flag(true) && Indicators(c, levels)[l] == Flag(true))
    ensures (c in levels || c.Missing?) ==>
      ((forall k :: 0 <= k < |Kept(levels)| ==> Indicators(c, levels)[k] == Flag(false)) <==>
       (c.Missing? || c == levels[0]))
    ensures forall k :: 0 <= k < |Kept(levels)| ==>
      (Indicators(c, levels)[k] == Flag(true) <==> c == levels[k + 1])
  {
    IncreasingDistinct(levels);
    if c in levels && c != levels[0] {
      var p :| 0 <= p < |levels| && levels[p] == c;
      assert Indicators(c, levels)[p - 1] == Flag(true);
    }
    if c.Missing? {
      forall k | 0 <= k < |Kept(levels)| ensures Indicators(c, levels)[k] == Flag(false) {
        assert levels[k + 1] in levels;
      }
    }
  }

  function EncodeRow(row: seq<Cell>, ti: nat, levels: seq<Cell>): (r: seq<Cell>)
    requires ti < |row|
    ensures |r| == |row| - 1 + |Kept(levels)|
  {
    RemoveAt(row, ti) + Indicators(row[ti], levels)
  }

  /** `pd.get_dummies(df, columns=["Type"], drop_first=True)`: column `ti` is removed and
      one boolean column per kept level is appended on the right. */
  function Encode(t: Table, ti: nat, levels: seq<Cell>): (r: Table)
    requires Rectangular(t) && ti < |t.names| && Categorical(levels)
    ensures Rectangular(r) && |r.rows| == |t.rows|
    ensures r.names == RemoveAt(t.names, ti) + DummyNames(levels)
  {
    Table(RemoveAt(t.names, ti) + DummyNames(levels),
      seq(|t.rows|, i requires 0 <= i < |t.rows| => EncodeRow(t.rows[i], ti, levels)))
  }

  lemma RemoveAtSame<T>(a: seq<T>, b: seq<T>, k: nat)
    requires k < |a| == |b| && a[k] == b[k] && RemoveAt(a, k) == RemoveAt(b, k)
    ensures a == b
  {
    forall i | 0 <= i < |a| ensures a[i] == b[i] {
      if i < k {
        assert RemoveAt(a, k)[i] == RemoveAt(b, k)[i];
      } else if i > k {
        assert RemoveAt(a, k)[i - 1] == RemoveAt(b, k)[i - 1];
      }
    }
  }

  /** Two rows whose categories are both levels encode equally only if they are equal. */
  lemma EncodeRowInjective(a: seq<Cell>, b: seq<Cell>, ti: nat, levels: seq<Cell>)
    requires ti < |a| == |b| && Increasing(levels) && Categorical(levels)
    requires a[ti] in levels && b[ti] in levels
    requires EncodeRow(a, ti, levels) == EncodeRow(b, ti, levels)
    ensures a == b
  {
    var n := |a| - 1;
    assert RemoveAt(a, ti) == EncodeRow(a, ti, levels)[..n];
    assert RemoveAt(b, ti) == EncodeRow(b, ti, levels)[..n];
    assert Indicators(a[ti], levels) == EncodeRow(a, ti, levels)[n..];
    assert Indicators(b[ti], levels) == EncodeRow(b, ti, levels)[n..];
    IndicatorsOneHot(a[ti], levels);
    IndicatorsOneHot(b[ti], levels);
    if a[ti] == levels[0] {
      assert forall k :: 0 <= k < |Kept(levels)| ==> Indicators(b[ti], levels)[k] == Flag(false);
    } else {
      var p :| 0 <= p < |levels| && levels[p] == a[ti];
      assert Indicators(b[ti], levels)[p - 1] == Flag(true);
    }
    RemoveAtSame(a, b, ti);
  }

  /** Encoding keeps rows apart when no row has a NaN category. */
  lemma EncodeDistinct(t: Table, ti: nat, levels: seq<Cell>)
    requires Rectangular(t) && ti < |t.names| && Categorical(levels) && Increasing(levels)
    requires Distinct(t.rows)
    requires forall i :: 0 <= i < |t.rows| ==> t.rows[i][ti] in levels
    ensures Distinct(Encode(t, ti, levels).rows)
  {
    var r := Encode(t, ti, levels);
    forall a, b | 0 <= a < b < |r.rows| ensures r.rows[a] != r.rows[b] {
      if r.rows[a] == r.rows[b] {
        EncodeRowInjective(t.rows[a], t.rows[b], ti, levels);
      }
    }
  }

  // ---------------------------------------------------------------- Tukey fences

  datatype Fence = Fence(lo: real, hi: real)

  /** Q1 and Q3 of a column's numbers (`quantile(0.25)`, `quantile(0.75)`). */
  function Quartiles(v: seq<real>): (q: (real, real))
    requires |v| > 0
    ensures q.0 <= q.1
  {
    var s := SortReals(v);
    QuantileMonotone(s, 0.25, 0.75);
    (Quantile(s, 0.25), Quantile(s, 0.75))
  }

  /** `[Q1 - 1.5 * IQR, Q3 + 1.5 * IQR]`, or NaN bounds for a column without numbers. */
  function TukeyFence(col: seq<Cell>): (f: Option<Fence>)
    ensures f.None? <==> NumValues(col) == []
  {
    var v := NumValues(col);
    if v == [] then None
    else
      var (q1, q3) := Quartiles(v);
      Some(Fence(q1 - 1.5 * (q3 - q1), q3 + 1.5 * (q3 - q1)))
  }

  /** The fences enclose the interquartile range, and so the median and every value
      between the quartiles: IQR is never negative. */
  lemma TukeyFenceOrder(col: seq<Cell>)
    requires HasNumber(col)
    ensures TukeyFence(col).Some?
    ensures var f := TukeyFence(col).value; var (q1, q3) := Quartiles(NumValues(col));
      f.lo <= q1 <= q3 <= f.hi
    ensures var f := TukeyFence(col).value; var s := SortReals(NumValues(col));
      f.lo <= Median(s) <= f.hi
  {
    var i :| 0 <= i < |col| && col[i].Num?;
    assert Num(col[i].x) in col;
    var v := NumValues(col);
    var s := SortReals(v);
    assert |s| == |multiset(s)| == |multiset(v)| == |v|;
    MedianIsMiddleQuantile(s);
    QuantileMonotone(s, 0.25, 0.5);
    QuantileMonotone(s, 0.5, 0.75);
  }

  /** A cell passes the fence unless it is a number strictly outside it: NaN compares
      false both ways, and both bounds are inclusive. */
  predicate Inside(c: Cell, f: Option<Fence>) {
    match (c, f)
    case (Num(x), Some(b)) => b.lo <= x <= b.hi
    case _ => true
  }

  /** The fence of each listed column; other columns are never checked. */
  function Fences(t: Table, cols: seq<string>): (fs: seq<Option<Fence>>)
    requires Rectangular(t)
    ensures |fs| == |t.names|
    ensures forall j :: 0 <= j < |t.names| && t.names[j] !in cols ==> fs[j].None?
  {
    seq(|t.names|, j requires 0 <= j < |t.names| =>
      if t.names[j] in cols then TukeyFence(Column(t, j)) else None)
  }

  predicate WithinFences(row: seq<Cell>, fs: seq<Option<Fence>>) {
    forall j :: 0 <= j < |row| && j < |fs| ==> Inside(row[j], fs[j])
  }

  function FenceMask(t: Table, fs: seq<Option<Fence>>): (mask: seq<bool>)
    ensures |mask| == |t.rows|
    ensures forall i :: 0 <= i < |t.rows| ==> mask[i] == WithinFences(t.rows[i], fs)
  {
    seq(|t.rows|, i requires 0 <= i < |t.rows| => WithinFences(t.rows[i], fs))
  }

  /** `df[~((df[cols] < lo) | (df[cols] > hi)).any(axis=1)]`. */
  function FilterOutliers(t: Table, cols: seq<string>): (r: Table)
    requires Rectangular(t)
    ensures Rectangular(r) && r.names == t.names
  {
    SelectRows(t, FenceMask(t, Fences(t, cols)))
  }

  /** A row survives the filter iff each of its numbers in a listed column lies within
      that column's fences; one cell out of range removes the row. */
  lemma FilterSurvivors(t: Table, cols: seq<string>, x: seq<Cell>)
    requires Rectangular(t)
    ensures x in FilterOutliers(t, cols).rows <==> x in t.rows && WithinFences(x, Fences(t, cols))
  {
    SelectMembers(t.rows, FenceMask(t, Fences(t, cols)), x);
  }

  /** The survivors are an order-preserving subsequence of the input, rows unchanged. */
  lemma FilterSubsequence(t: Table, cols: seq<string>)
    requires Rectangular(t)
    ensures var ix := TrueIndices(FenceMask(t, Fences(t, cols)));
      && |FilterOutliers(t, cols).rows| == |ix|
      && (forall k :: 0 <= k < |ix| ==> FilterOutliers(t, cols).rows[k] == t.rows[ix[k]])
      && (forall k, l :: 0 <= k < l < |ix| ==> ix[k] < ix[l])
  {
    SelectAt(t.rows, FenceMask(t, Fences(t, cols)));
  }

  // ---------------------------------------------------------------- the stage

  const TypeLabel: string := "Type"

  /** The input with trimmed labels. */
  function Relabel(raw: Table): (t: Table)
    requires Rectangular(raw)
    ensures Rectangular(t) && t.names == StripAll(raw.names) && t.rows == raw.rows
  {
    Table(StripAll(raw.names), raw.rows)
  }

  /** The categories of `Type` are the distinct strings (or booleans) of that column. */
  lemma CategoriesAreCategorical(t0: Table, cols: seq<string>, ti: nat)
    requires Rectangular(t0) && Typed(t0) && Distinct(t0.names) && ti < |t0.names|
    requires cols == NumericColumns(t0) && t0.names[ti] !in cols
    ensures Categorical(Levels(Column(Impute(t0, cols), ti)))
    ensures Column(Impute(t0, cols), ti) == Column(t0, ti)
  {
    ImputeKeepsColumn(t0, cols, ti);
    NumericColumnsMembers(t0, ti);
    NotNumericHoldsNoNumber(t0, ti);
    var col := Column(t0, ti);
    var levels := Levels(col);
    forall k | 0 <= k < |levels| ensures levels[k].Text? || levels[k].Flag? {
      assert levels[k] in col;
    }
  }

  /** `clean_data` on the table `read_csv` produced. Labels that clash once trimmed or
      once encoded are reported as `RepeatedColumns`; a missing `Type` raises at the
      category cast, and a numeric `Type` raises when it is looked up among the numeric
      columns after encoding has removed it. */
  function Clean(raw: Table): (r: Result<Table>)
    requires Rectangular(raw) && Typed(raw)
    ensures r.Err? ==> r.error == RepeatedColumns || r.error == MissingColumn(TypeLabel)
    ensures r.Ok? ==> Rectangular(r.value) && Distinct(r.value.names)
  {
    var t0 := Relabel(raw);
    if !Distinct(t0.names) then Err(RepeatedColumns)
    else
      var cols := NumericColumns(t0);
      var t1 := Impute(t0, cols);
      if TypeLabel !in t1.names || TypeLabel in cols then Err(MissingColumn(TypeLabel))
      else
        var ti := IndexOf(t1.names, TypeLabel).value;
        CategoriesAreCategorical(t0, cols, ti);
        var levels := Levels(Column(t1, ti));
        var t3 := Encode(DropDuplicateRows(t1), ti, levels);
        if !Distinct(t3.names) then Err(RepeatedColumns)
        else Ok(FilterOutliers(t3, cols))
  }

  /** `clean_data` step by step, on the frame variable `df`. */
  method CleanData(f: Frame) returns (failure: Option<Error>)
    requires f.Valid() && Typed(f.Snapshot())
    modifies f
    ensures Clean(old(f.Snapshot())).Ok? ==>
      failure.None? && f.Valid() && f.Snapshot() == Clean(old(f.Snapshot())).value
    ensures Clean(old(f.Snapshot())).Err? ==> failure == Some(Clean(old(f.Snapshot())).error)
  {
    f.SetNames(StripAll(f.names));
    if !Distinct(f.names) {
      return Some(RepeatedColumns);
    }
    var cols := NumericColumns(f.Snapshot());
    ghost var t0 := f.Snapshot();
    f.Rebind(Impute(f.Snapshot(), cols));
    if TypeLabel !in f.names {
      return Some(MissingColumn(TypeLabel));
    }
    var ti := IndexOf(f.names, TypeLabel).value;
    if TypeLabel in cols {
      // `Type` is numeric: it is encoded like any other category, but it is still
      // listed among the numeric columns, so the quartile lookup raises KeyError.
      return Some(MissingColumn(TypeLabel));
    }
    CategoriesAreCategorical(t0, cols, ti);
    var levels := Levels(Column(f.Snapshot(), ti));
    f.DropDuplicates();
    f.Rebind(Encode(f.Snapshot(), ti, levels));
    if !Distinct(f.names) {
      return Some(RepeatedColumns);
    }
    f.Rebind(FilterOutliers(f.Snapshot(), cols));
    failure := None;
  }

  lemma CleanUnfold(raw: Table)
    requires Rectangular(raw) && Typed(raw) && Clean(raw).Ok?
    ensures var t0 := Relabel(raw); var cols := NumericColumns(t0); var t1 := Impute(t0, cols);
      && TypeLabel in t0.names
      && var ti := IndexOf(t0.names, TypeLabel).value;
      && var levels := Levels(Column(t1, ti));
      && Staging(t0, cols, t1, ti, levels)
      && Clean(raw).value == FilterOutliers(Encode(DropDuplicateRows(t1), ti, levels), cols)
  {
    var t0 := Relabel(raw);
    var cols := NumericColumns(t0);
    var ti := IndexOf(t0.names, TypeLabel).value;
    CategoriesAreCategorical(t0, cols, ti);
  }

  /** Labels after encoding: the labels before it with `Type` removed, then `Type_` labels. */
  lemma EncodedLabels(names: seq<string>, ti: nat, levels: seq<Cell>)
    requires Distinct(names) && ti < |names| && names[ti] == TypeLabel && Categorical(levels)
    ensures var out := RemoveAt(names, ti) + DummyNames(levels);
      && out[..|names| - 1] == RemoveAt(names, ti)
      && (forall k :: |names| - 1 <= k < |out| ==> "Type_" <= out[k])
      && TypeLabel !in out
  {
    var out := RemoveAt(names, ti) + DummyNames(levels);
    forall k | 0 <= k < |out| ensures out[k] != TypeLabel {
      if k < |names| - 1 {
        var k' := if k < ti then k else k + 1;
        assert out[k] == names[k'];
        assert names[k'] != names[ti];
      } else {
        assert |out[k]| > |TypeLabel|;
      }
    }
  }

  /** The output labels are the trimmed input labels in their order with `Type` removed,
      followed by one `Type_<level>` label per kept level; `Type` itself is gone. */
  lemma CleanLabels(raw: Table)
    requires Rectangular(raw) && Typed(raw) && Clean(raw).Ok?
    ensures var names := StripAll(raw.names); var out := Clean(raw).value.names;
      && TypeLabel in names
      && |out| >= |names| - 1
      && out[..|names| - 1] == RemoveAt(names, IndexOf(names, TypeLabel).value)
      && (forall k :: |names| - 1 <= k < |out| ==> "Type_" <= out[k])
      && TypeLabel !in out
  {
    CleanUnfold(raw);
    var t0 := Relabel(raw);
    var t1 := Impute(t0, NumericColumns(t0));
    var ti := IndexOf(t0.names, TypeLabel).value;
    EncodedLabels(t0.names, ti, Levels(Column(t1, ti)));
  }

  /** In the encoded labels, a label other than `Type` sits where the labels before
      encoding had it, shifted left past `Type`. */
  lemma EncodedPosition(names: seq<string>, ti: nat, levels: seq<Cell>, k: nat, j: nat)
    requires Distinct(names) && ti < |names| && Categorical(levels)
    requires Distinct(RemoveAt(names, ti) + DummyNames(levels))
    requires j < |names| && j != ti && k < |RemoveAt(names, ti) + DummyNames(levels)|
    requires (RemoveAt(names, ti) + DummyNames(levels))[k] == names[j]
    ensures k == if j < ti then j else j - 1
  {
    var out := RemoveAt(names, ti) + DummyNames(levels);
    var k' := if j < ti then j else j - 1;
    assert out[k'] == names[j];
    IndexOfDistinct(out, k);
    IndexOfDistinct(out, k');
  }

  /** Each row after duplicate removal, encoding and filtering carries, outside the
      indicator columns, the cells of some imputed row. */
  lemma RowProvenance(t1: Table, ti: nat, levels: seq<Cell>, cols: seq<string>, i: nat)
    requires Rectangular(t1) && ti < |t1.names| && Categorical(levels)
    requires i < |FilterOutliers(Encode(DropDuplicateRows(t1), ti, levels), cols).rows|
    ensures var out := FilterOutliers(Encode(DropDuplicateRows(t1), ti, levels), cols);
      exists i1 :: 0 <= i1 < |t1.rows| && out.rows[i] == EncodeRow(t1.rows[i1], ti, levels)
  {
    var t2 := DropDuplicateRows(t1);
    var t3 := Encode(t2, ti, levels);
    var out := FilterOutliers(t3, cols);
    FilterSurvivors(t3, cols, out.rows[i]);
    var i3 :| 0 <= i3 < |t3.rows| && t3.rows[i3] == out.rows[i];
    DedupMembers(t1.rows, t2.rows[i3]);
    var i1 :| 0 <= i1 < |t1.rows| && t1.rows[i1] == t2.rows[i3];
    assert out.rows[i] == EncodeRow(t1.rows[i1], ti, levels);
  }

  /** An imputed cell of a numeric column is a number unless its column had none. */
  lemma ImputedNumericCell(t0: Table, cols: seq<string>, i1: nat, j: nat)
    requires Rectangular(t0) && cols == NumericColumns(t0) && Distinct(t0.names)
    requires i1 < |t0.rows| && j < |t0.names| && t0.names[j] in cols
    ensures Impute(t0, cols).rows[i1][j].Num? || forall r :: 0 <= r < |t0.rows| ==> t0.rows[r][j].Missing?
  {
    NumericColumnsMembers(t0, j);
    ImputeNoMissing(t0, cols, j);
    if !HasNumber(Column(t0, j)) {
      forall r | 0 <= r < |t0.rows| ensures t0.rows[r][j].Missing? {
        assert Column(t0, j)[r] == t0.rows[r][j];
      }
    }
  }

  lemma EncodeRowAt(row: seq<Cell>, ti: nat, levels: seq<Cell>, k: nat)
    requires ti < |row| && k < |row| - 1
    ensures EncodeRow(row, ti, levels)[k] == row[if k < ti then k else k + 1]
  {
  }

  /** The stages of `clean_data` between the relabelled table `t0` and the encoding: the
      numeric columns `cols`, the imputed table `t1`, the position `ti` of `Type` and its
      categories `levels`. */
  predicate Staging(t0: Table, cols: seq<string>, t1: Table, ti: nat, levels: seq<Cell>) {
    && Rectangular(t0) && Distinct(t0.names) && cols == NumericColumns(t0)
    && t1 == Impute(t0, cols) && ti < |t0.names| && t0.names[ti] == TypeLabel && TypeLabel !in cols
    && Categorical(levels) && Distinct(RemoveAt(t0.names, ti) + DummyNames(levels))
  }

  /** The staged form of `CleanNumericCells`. */
  lemma StagedNumericCells(t0: Table, cols: seq<string>, t1: Table, ti: nat, levels: seq<Cell>,
                           out: Table, i: nat, k: nat)
    requires Staging(t0, cols, t1, ti, levels)
    requires out == FilterOutliers(Encode(DropDuplicateRows(t1), ti, levels), cols)
    requires i < |out.rows| && k < |out.names| && out.names[k] in cols
    ensures out.names[k] in t0.names
    ensures out.rows[i][k].Num? ||
      forall r :: 0 <= r < |t0.rows| ==> t0.rows[r][IndexOf(t0.names, out.names[k]).value].Missing?
  {
    var j := StagedPosition(t0, cols, t1, ti, levels, out, k);
    var i1 := StagedRow(t1, ti, levels, cols, out, i);
    StagedCell(t0, cols, t1, ti, levels, i1, j, k);
  }

  /** An encoded imputed cell of a numeric column is a number unless that column held
      none. */
  lemma StagedCell(t0: Table, cols: seq<string>, t1: Table, ti: nat, levels: seq<Cell>,
                   i1: nat, j: nat, k: nat)
    requires Rectangular(t0) && Distinct(t0.names) && cols == NumericColumns(t0) && t1 == Impute(t0, cols)
    requires i1 < |t1.rows| && ti < |t0.names|
    requires j < |t0.names| && j != ti && t0.names[j] in cols && k == if j < ti then j else j - 1
    ensures |t1.rows[i1]| == |t0.names| && k < |t0.names| - 1
    ensures EncodeRow(t1.rows[i1], ti, levels)[k].Num? || forall r :: 0 <= r < |t0.rows| ==> t0.rows[r][j].Missing?
  {
    var row := t1.rows[i1];
    assert |row| == |t0.names|;
    EncodeRowAt(row, ti, levels, k);
    if j < ti {
      assert k == j;
    } else {
      assert !(k < ti) && k + 1 == j;
    }
    ImputedNumericCell(t0, cols, i1, j);
  }

  /** Where a numeric column of the raw table sits among the staged columns. */
  lemma StagedPosition(t0: Table, cols: seq<string>, t1: Table, ti: nat, levels: seq<Cell>,
                       out: Table, k: nat) returns (j: nat)
    requires Staging(t0, cols, t1, ti, levels)
    requires out == FilterOutliers(Encode(DropDuplicateRows(t1), ti, levels), cols)
    requires k < |out.names| && out.names[k] in cols
    ensures out.names[k] in t0.names && IndexOf(t0.names, out.names[k]) == Some(j)
    ensures j < |t0.names| && j != ti && k == if j < ti then j else j - 1
  {
    NumericColumnsAreNames(t0, out.names[k]);
    j := IndexOf(t0.names, out.names[k]).value;
    assert out.names == RemoveAt(t0.names, ti) + DummyNames(levels);
    EncodedPosition(t0.names, ti, levels, k, j);
  }

  /** The imputed row a staged row comes from. */
  lemma StagedRow(t1: Table, ti: nat, levels: seq<Cell>, cols: seq<string>, out: Table, i: nat)
      returns (i1: nat)
    requires Rectangular(t1) && ti < |t1.names| && Categorical(levels)
    requires out == FilterOutliers(Encode(DropDuplicateRows(t1), ti, levels), cols)
    requires i < |out.rows|
    ensures i1 < |t1.rows| && out.rows[i] == EncodeRow(t1.rows[i1], ti, levels)
  {
    RowProvenance(t1, ti, levels, cols, i);
    i1 :| 0 <= i1 < |t1.rows| && out.rows[i] == EncodeRow(t1.rows[i1], ti, levels);
  }

  /** Any cell of the output in a numeric column is a number, unless that column held no
      number at all in the input (its median is NaN, so it stays NaN). */
  lemma CleanNumericCells(raw: Table, i: nat, k: nat)
    requires Rectangular(raw) && Typed(raw) && Clean(raw).Ok?
    requires i < |Clean(raw).value.rows| && k < |Clean(raw).value.names|
    requires Clean(raw).value.names[k] in NumericColumns(Relabel(raw))
    ensures Clean(raw).value.names[k] in StripAll(raw.names)
    ensures var j := IndexOf(StripAll(raw.names), Clean(raw).value.names[k]).value;
      || Clean(raw).value.rows[i][k].Num?
      || forall r :: 0 <= r < |raw.rows| ==> raw.rows[r][j].Missing?
  {
    CleanUnfold(raw);
    var t0 := Relabel(raw);
    var cols := NumericColumns(t0);
    var t1 := Impute(t0, cols);
    var ti := IndexOf(t0.names, TypeLabel).value;
    StagedNumericCells(t0, cols, t1, ti, Levels(Column(t1, ti)), Clean(raw).value, i, k);
  }

  /** No indicator column is one of the numeric columns: they are neither imputed nor fenced. */
  lemma IndicatorsNotListed(t0: Table, cols: seq<string>, ti: nat, levels: seq<Cell>, j: nat)
    requires Rectangular(t0) && Distinct(t0.names) && cols == NumericColumns(t0)
    requires ti < |t0.names| && t0.names[ti] == TypeLabel && TypeLabel !in cols
    requires Categorical(levels) && Distinct(RemoveAt(t0.names, ti) + DummyNames(levels))
    requires |t0.names| - 1 <= j < |t0.names| - 1 + |Kept(levels)|
    ensures (RemoveAt(t0.names, ti) + DummyNames(levels))[j] !in cols
  {
    var n := (RemoveAt(t0.names, ti) + DummyNames(levels))[j];
    if n in cols {
      NumericColumnsAreNames(t0, n);
      EncodedPosition(t0.names, ti, levels, j, IndexOf(t0.names, n).value);
    }
  }

  /** A row is in the output iff it is an encoded row within every fence of the numeric
      columns, and the fences of the indicator columns are absent. */
  lemma CleanFilter(raw: Table, x: seq<Cell>)
    requires Rectangular(raw) && Typed(raw) && Clean(raw).Ok?
    ensures var t0 := Relabel(raw); var cols := NumericColumns(t0); var t1 := Impute(t0, cols);
      var ti := IndexOf(t0.names, TypeLabel).value;
      Categorical(Levels(Column(t1, ti))) &&
      var t3 := Encode(DropDuplicateRows(t1), ti, Levels(Column(t1, ti)));
      var fs := Fences(t3, cols);
      && (x in Clean(raw).value.rows <==> x in t3.rows && WithinFences(x, fs))
      && forall j :: |t0.names| - 1 <= j < |fs| ==> fs[j].None?
  {
    CleanUnfold(raw);
    var t0 := Relabel(raw);
    var cols := NumericColumns(t0);
    var t1 := Impute(t0, cols);
    var ti := IndexOf(t0.names, TypeLabel).value;
    var levels := Levels(Column(t1, ti));
    var t3 := Encode(DropDuplicateRows(t1), ti, levels);
    FilterSurvivors(t3, cols, x);
    forall j | |t0.names| - 1 <= j < |t3.names| ensures Fences(t3, cols)[j].None? {
      IndicatorsNotListed(t0, cols, ti, levels, j);
    }
  }

  /** The staged form of `CleanDistinctRows`. */
  lemma StagedDistinct(t0: Table, cols: seq<string>, t1: Table, ti: nat, levels: seq<Cell>)
    requires Staging(t0, cols, t1, ti, levels) && Typed(t0) && levels == Levels(Column(t1, ti))
    requires forall r :: 0 <= r < |t0.rows| ==> !t0.rows[r][ti].Missing?
    ensures Distinct(FilterOutliers(Encode(DropDuplicateRows(t1), ti, levels), cols).rows)
  {
    CategoriesAreCategorical(t0, cols, ti);
    var t2 := DropDuplicateRows(t1);
    DedupDistinct(t1.rows);
    forall i2 | 0 <= i2 < |t2.rows| ensures t2.rows[i2][ti] in levels {
      DedupMembers(t1.rows, t2.rows[i2]);
      var i1 :| 0 <= i1 < |t1.rows| && t1.rows[i1] == t2.rows[i2];
      assert Column(t1, ti)[i1] == t0.rows[i1][ti];
    }
    EncodeDistinct(t2, ti, levels);
    var t3 := Encode(t2, ti, levels);
    SelectDistinct(t3.rows, FenceMask(t3, Fences(t3, cols)));
  }

  /** When no input row has a NaN `Type`, the output has no two equal rows. */
  lemma CleanDistinctRows(raw: Table)
    requires Rectangular(raw) && Typed(raw) && Clean(raw).Ok?
    requires forall r, j :: 0 <= r < |raw.rows| && 0 <= j < |raw.names| && Strip(raw.names[j]) == TypeLabel ==>
      !raw.rows[r][j].Missing?
    ensures Distinct(Clean(raw).value.rows)
  {
    var t0, cols, t1, ti, levels := CleanStages(raw);
    TypeColumnFilled(raw, t0, ti);
    StagedDistinct(t0, cols, t1, ti, levels);
  }

  /** The intermediate tables of a successful `Clean`. */
  lemma CleanStages(raw: Table) returns (t0: Table, cols: seq<string>, t1: Table, ti: nat, levels: seq<Cell>)
    requires Rectangular(raw) && Typed(raw) && Clean(raw).Ok?
    ensures t0 == Relabel(raw) && Staging(t0, cols, t1, ti, levels) && Typed(t0)
    ensures levels == Levels(Column(t1, ti))
    ensures Clean(raw).value == FilterOutliers(Encode(DropDuplicateRows(t1), ti, levels), cols)
  {
    CleanUnfold(raw);
    t0 := Relabel(raw);
    cols := NumericColumns(t0);
    t1 := Impute(t0, cols);
    ti := IndexOf(t0.names, TypeLabel).value;
    levels := Levels(Column(t1, ti));
  }

  /** Trimming the labels keeps the cells, so a `Type` column without NaN stays so. */
  lemma TypeColumnFilled(raw: Table, t0: Table, ti: nat)
    requires Rectangular(raw) && t0 == Relabel(raw) && ti < |t0.names| && t0.names[ti] == TypeLabel
    requires forall r, j :: 0 <= r < |raw.rows| && 0 <= j < |raw.names| && Strip(raw.names[j]) == TypeLabel ==>
      !raw.rows[r][j].Missing?
    ensures forall r :: 0 <= r < |t0.rows| ==> !t0.rows[r][ti].Missing?
  {
    assert Strip(raw.names[ti]) == TypeLabel;
  }

  /** The conditions under which `Clean` succeeds, and what it then returns. */
  lemma CleanOk(raw: Table, t0: Table, cols: seq<string>, t1: Table, ti: nat, levels: seq<Cell>, t3: Table)
    requires Rectangular(raw) && Typed(raw) && t0 == Relabel(raw) && Distinct(t0.names)
    requires cols == NumericColumns(t0) && t1 == Impute(t0, cols)
    requires TypeLabel !in cols && IndexOf(t0.names, TypeLabel) == Some(ti)
    requires levels == Levels(Column(t1, ti)) && Categorical(levels)
    requires t3 == Encode(DropDuplicateRows(t1), ti, levels) && Distinct(t3.names)
    ensures Clean(raw) == Ok(FilterOutliers(t3, cols))
  {
  }

  /** Each error of `Clean` tied to its cause in the raw table: labels that clash once
      trimmed, a `Type` column that is absent or numeric, and dummy labels that clash with
      the remaining ones; with none of these, `Clean` succeeds. */
  lemma CleanErrors(raw: Table)
    requires Rectangular(raw) && Typed(raw)
    ensures var names := StripAll(raw.names);
      !Distinct(names) ==> Clean(raw) == Err(RepeatedColumns)
    ensures var names := StripAll(raw.names);
      Distinct(names) ==>
        (Clean(raw) == Err(MissingColumn(TypeLabel)) <==>
          TypeLabel !in names || TypeLabel in NumericColumns(Relabel(raw)))
    ensures var names := StripAll(raw.names);
      Distinct(names) && TypeLabel in names && TypeLabel !in NumericColumns(Relabel(raw)) ==>
        var ti := IndexOf(names, TypeLabel).value;
        var levels := Levels(Column(Relabel(raw), ti));
        && Categorical(levels)
        && (Clean(raw).Ok? <==> Distinct(RemoveAt(names, ti) + DummyNames(levels)))
        && (Clean(raw).Err? ==> Clean(raw).error == RepeatedColumns)
  {
    var t0 := Relabel(raw);
    if Distinct(t0.names) && TypeLabel in t0.names {
      var cols := NumericColumns(t0);
      if TypeLabel !in cols {
        var ti := IndexOf(t0.names, TypeLabel).value;
        CategoriesAreCategorical(t0, cols, ti);
      }
    }
  }

  /** Two rows that differ only in `Type`: NaN in one, the only level in the other. */
  function TwinRows(x: real): Table {
    Table(["Type", "x"], [[Missing, Num(x)], [Text("L"), Num(x)]])
  }

  function EncodedTwins(x: real): Table {
    Table(["x"], [[Num(x)], [Num(x)]])
  }

  lemma TwinRowsTyped(x: real)
    ensures Rectangular(TwinRows(x)) && Typed(TwinRows(x))
  {
  }

  lemma TrimmedStripsToItself(s: string)
    requires Trimmed(s)
    ensures Strip(s) == s
  {
    assert [] + s + [] == s;
    StripUnique([], s, []);
  }

  lemma TwinRowsLabels(x: real)
    ensures Relabel(TwinRows(x)) == TwinRows(x)
  {
    var t := TwinRows(x);
    assert Trimmed(t.names[0]) && Trimmed(t.names[1]);
    RelabelTrimmed(t);
  }

  /** Labels that are already trimmed are kept as they are. */
  lemma RelabelTrimmed(raw: Table)
    requires Rectangular(raw) && forall j :: 0 <= j < |raw.names| ==> Trimmed(raw.names[j])
    ensures Relabel(raw) == raw
  {
    forall j | 0 <= j < |raw.names| ensures StripAll(raw.names)[j] == raw.names[j] {
      TrimmedStripsToItself(raw.names[j]);
    }
  }

  lemma TwinLabelsDistinct(x: real)
    ensures Distinct(TwinRows(x).names) && IndexOf(TwinRows(x).names, TypeLabel) == Some(0)
    ensures Distinct(EncodedTwins(x).names) && !Distinct(EncodedTwins(x).rows)
    ensures TypeLabel !in ["x"] && Categorical([Text("L")])
  {
    assert EncodedTwins(x).rows[0] == EncodedTwins(x).rows[1];
  }

  lemma TwinRowsNumeric(x: real)
    ensures NumericColumns(TwinRows(x)) == ["x"]
  {
    var t := TwinRows(x);
    assert t.rows[1][0] == Text("L") && t.rows[0][1] == Num(x) && t.rows[1][1] == Num(x);
    assert !IsNumeric(t, 0) && IsNumeric(t, 1);
    assert NumericMask(TwinRows(x)) == [false, true];
  }

  /** A table whose only NaN cells lie in columns without a number is left as it is. */
  lemma ImputeNothingToFill(t: Table, cols: seq<string>)
    requires Rectangular(t)
    requires forall i, j :: 0 <= i < |t.rows| && 0 <= j < |t.names| && t.rows[i][j].Missing? ==>
      !HasNumber(Column(t, j))
    ensures Impute(t, cols) == t
  {
    var r := Impute(t, cols);
    forall i | 0 <= i < |t.rows| ensures r.rows[i] == t.rows[i] {
      forall j | 0 <= j < |t.names| ensures r.rows[i][j] == t.rows[i][j] {
        ImputeCell(t, cols, i, j);
      }
    }
  }

  lemma TwinRowsImpute(x: real)
    ensures Impute(TwinRows(x), ["x"]) == TwinRows(x)
  {
    var t := TwinRows(x);
    var c0 := Column(t, 0);
    assert c0 == [Missing, Text("L")];
    assert !c0[0].Num? && !c0[1].Num?;
    assert forall i, j :: 0 <= i < |t.rows| && 0 <= j < |t.names| && t.rows[i][j].Missing? ==> i == 0 && j == 0;
    ImputeNothingToFill(t, ["x"]);
  }

  lemma TwinRowsEncode(x: real)
    ensures Levels(Column(TwinRows(x), 0)) == [Text("L")]
    ensures Encode(DropDuplicateRows(TwinRows(x)), 0, [Text("L")]) == EncodedTwins(x)
  {
    assert Column(TwinRows(x), 0) == [Missing, Text("L")];
    assert TwinRows(x).rows[1] !in TwinRows(x).rows[..1];
    assert FirstMask(TwinRows(x).rows) == [true, true];
    SelectAll(TwinRows(x).rows, [true, true]);
    var levels := [Text("L")];
    assert Kept(levels) == [];
    assert EncodeRow(TwinRows(x).rows[0], 0, levels) == [Num(x)];
    assert EncodeRow(TwinRows(x).rows[1], 0, levels) == [Num(x)];
    assert DummyNames(levels) == [];
    assert RemoveAt(TwinRows(x).names, 0) == ["x"];
  }

  lemma TwinQuartiles(x: real)
    ensures Quartiles([x, x]) == (x, x)
  {
    assert SortReals([x]) == [x];
    assert SortReals([x, x]) == [x, x];
    assert Rank(2, 0.25) == 0.25 && Rank(2, 0.75) == 0.75;
    assert (0.25).Floor == 0 && (0.75).Floor == 0;
  }

  lemma TwinFences(x: real)
    ensures Fences(EncodedTwins(x), ["x"]) == [Some(Fence(x, x))]
  {
    var col := Column(EncodedTwins(x), 0);
    assert col == [Num(x), Num(x)];
    assert NumValues(col) == [x, x];
    TwinQuartiles(x);
    assert TukeyFence(col) == Some(Fence(x, x));
  }

  lemma TwinRowsFilter(x: real)
    ensures FilterOutliers(EncodedTwins(x), ["x"]) == EncodedTwins(x)
  {
    TwinFences(x);
    var fs := Fences(EncodedTwins(x), ["x"]);
    assert WithinFences(EncodedTwins(x).rows[0], fs) && WithinFences(EncodedTwins(x).rows[1], fs);
    var mask := FenceMask(EncodedTwins(x), fs);
    SelectAll(EncodedTwins(x).rows, mask);
  }

  /** Duplicates are dropped before encoding, so a row with a NaN `Type` and a row of the
      first level that agree elsewhere both survive and encode to the same row. */
  lemma CleanMayRepeatRows(x: real)
    ensures Rectangular(TwinRows(x)) && Typed(TwinRows(x))
    ensures Clean(TwinRows(x)) == Ok(EncodedTwins(x)) && !Distinct(EncodedTwins(x).rows)
  {
    TwinRowsTyped(x);
    TwinRowsLabels(x);
    TwinLabelsDistinct(x);
    TwinRowsNumeric(x);
    TwinRowsImpute(x);
    TwinRowsEncode(x);
    TwinRowsFilter(x);
    CleanOk(TwinRows(x), TwinRows(x), ["x"], TwinRows(x), 0, [Text("L")], EncodedTwins(x));
  }
}
