/** A pandas data frame as a header of column names over rows of cells, the
    operations on it that the pipeline stages use (column lookup, assignment,
    projection, dropping a column, row selection by a boolean mask, duplicate
    removal), and a `Frame` object whose fields the stages update in place. */
module Frames {
  import opened Cells

  datatype Table = Table(names: seq<string>, rows: seq<seq<Cell>>)

  /** The failures the stages raise: a `KeyError` for an absent column, column
      labels that clash, a column that cannot be summed, and two sequences that
      should be paired but differ in length. */
  datatype Error =
    | MissingColumn(name: string)
    | RepeatedColumns
    | NotNumeric(name: string)
    | LengthMismatch

  datatype Result<T> = Ok(value: T) | Err(error: Error) {
    predicate IsFailure() {
      Err?
    }

    function PropagateFailure<U>(): Result<U>
      requires Err?
    {
      Err(error)
    }

    function Extract(): T
      requires Ok?
    {
      value
    }
  }

  /** Every row has one cell per column. */
  predicate Rectangular(t: Table) {
    forall i :: 0 <= i < |t.rows| ==> |t.rows[i]| == |t.names|
  }

  predicate Distinct<T(==)>(s: seq<T>) {
    forall i, j :: 0 <= i < j < |s| ==> s[i] != s[j]
  }

  /** Position of the first column called `n`. */
  function IndexOf(names: seq<string>, n: string): (r: Option<nat>)
    ensures r.None? <==> n !in names
    ensures r.Some? ==> r.value < |names| && names[r.value] == n && n !in names[..r.value]
  {
    if names == [] then None
    else if names[0] == n then Some(0)
    else
      match IndexOf(names[1..], n)
      case None => None
      case Some(j) =>
        assert names[..j + 1] == [names[0]] + names[1..][..j];
        Some(j + 1)
  }

  lemma {:induction false} IndexOfDistinct(names: seq<string>, j: nat)
    requires Distinct(names) && j < |names|
    ensures IndexOf(names, names[j]) == Some(j)
  {
    if j > 0 {
      assert names[0] != names[j];
      assert names[1..][j - 1] == names[j];
      IndexOfDistinct(names[1..], j - 1);
    }
  }

  lemma {:induction false} IndexOfAppend(names: seq<string>, n: string, m: string)
    ensures IndexOf(names + [n], m) ==
      if m in names then IndexOf(names, m) else if m == n then Some(|names|) else None
  {
    if names == [] {
      assert names + [n] == [n];
    } else {
      assert (names + [n])[1..] == names[1..] + [n];
      if names[0] != m {
        IndexOfAppend(names[1..], n, m);
      }
    }
  }

  /** The cells of column `j`, top to bottom. */
  function Column(t: Table, j: nat): (c: seq<Cell>)
    requires Rectangular(t) && j < |t.names|
    ensures |c| == |t.rows|
  {
    seq(|t.rows|, i requires 0 <= i < |t.rows| => t.rows[i][j])
  }

  /** `df[name]`: the column, or nothing when there is no such column. */
  function Lookup(t: Table, name: string): (r: Option<seq<Cell>>)
    requires Rectangular(t)
    ensures r.None? <==> name !in t.names
    ensures r.Some? ==> |r.value| == |t.rows|
  {
    match IndexOf(t.names, name)
    case None => None
    case Some(j) => Some(Column(t, j))
  }

  /** `df[name] = cells`: overwrites the column if it exists, else appends it on the right. */
  function WithColumn(t: Table, name: string, cells: seq<Cell>): (r: Table)
    requires Rectangular(t) && |cells| == |t.rows|
    ensures Rectangular(r) && |r.rows| == |t.rows|
    ensures name in t.names ==> r.names == t.names
    ensures name !in t.names ==> r.names == t.names + [name]
  {
    match IndexOf(t.names, name)
    case Some(j) =>
      Table(t.names, seq(|t.rows|, i requires 0 <= i < |t.rows| => t.rows[i][j := cells[i]]))
    case None =>
      Table(t.names + [name], seq(|t.rows|, i requires 0 <= i < |t.rows| => t.rows[i] + [cells[i]]))
  }

  /** After `df[name] = cells`, `df[name]` is `cells` and every other column reads as before. */
  lemma LookupWithColumn(t: Table, name: string, cells: seq<Cell>, m: string)
    requires Rectangular(t) && |cells| == |t.rows|
    ensures Lookup(WithColumn(t, name, cells), m) == if m == name then Some(cells) else Lookup(t, m)
  {
    var r := WithColumn(t, name, cells);
    if name in t.names {
      var j := IndexOf(t.names, name).value;
      if m == name {
        assert Column(r, j) == cells;
      } else if m in t.names {
        var jm := IndexOf(t.names, m).value;
        assert Column(r, jm) == Column(t, jm);
      }
    } else {
      IndexOfAppend(t.names, name, m);
      if m == name {
        assert Column(r, |t.names|) == cells;
      } else if m in t.names {
        var jm := IndexOf(t.names, m).value;
        assert Column(r, jm) == Column(t, jm);
      }
    }
  }

  function RemoveAt<T>(s: seq<T>, k: nat): (r: seq<T>)
    requires k < |s|
    ensures |r| == |s| - 1
    ensures forall i :: 0 <= i < k ==> r[i] == s[i]
    ensures forall i :: k <= i < |r| ==> r[i] == s[i + 1]
  {
    s[..k] + s[k + 1..]
  }

  /** `df.drop(name, axis=1)`: a `KeyError` when there is no such column. */
  function Drop(t: Table, name: string): (r: Result<Table>)
    requires Rectangular(t)
    ensures r.Ok? <==> name in t.names
    ensures r.Ok? ==> Rectangular(r.value) && |r.value.rows| == |t.rows|
    ensures r.Err? ==> r.error == MissingColumn(name)
  {
    match IndexOf(t.names, name)
    case None => Err(MissingColumn(name))
    case Some(j) =>
      Ok(Table(RemoveAt(t.names, j), seq(|t.rows|, i requires 0 <= i < |t.rows| => RemoveAt(t.rows[i], j))))
  }

  /** With distinct labels, dropping a column removes exactly that column. */
  lemma DropRemoves(t: Table, name: string)
    requires Rectangular(t) && Distinct(t.names) && name in t.names
    ensures Drop(t, name).Ok? && name !in Drop(t, name).value.names
    ensures Distinct(Drop(t, name).value.names)
  {
    var j := IndexOf(t.names, name).value;
    var r := Drop(t, name).value.names;
    forall k | 0 <= k < |r| ensures r[k] != name {
      var k' := if k < j then k else k + 1;
      assert t.names[k'] != t.names[j];
    }
    forall a, b | 0 <= a < b < |r| ensures r[a] != r[b] {
      var a' := if a < j then a else a + 1;
      var b' := if b < j then b else b + 1;
      assert t.names[a'] != t.names[b'];
    }
  }

  /** Dropping a column leaves every other column as it was. */
  lemma DropLookup(t: Table, name: string, m: string)
    requires Rectangular(t) && Distinct(t.names) && name in t.names && m != name
    ensures Drop(t, name).Ok? && Lookup(Drop(t, name).value, m) == Lookup(t, m)
  {
    var j := IndexOf(t.names, name).value;
    var r := Drop(t, name).value;
    DropRemoves(t, name);
    if m in t.names {
      var jm := IndexOf(t.names, m).value;
      IndexOfDistinct(t.names, jm);
      var km := if jm < j then jm else jm - 1;
      assert r.names[km] == m;
      IndexOfDistinct(r.names, km);
      assert Column(r, km) == Column(t, jm);
    } else {
      forall k | 0 <= k < |r.names| ensures r.names[k] != m {
        assert r.names[k] == t.names[if k < j then k else k + 1];
      }
    }
  }

  /** The first of `cols` that is not a column of `names`. */
  function FirstAbsent(cols: seq<string>, names: seq<string>): (c: string)
    requires exists c :: c in cols && c !in names
    ensures c in cols && c !in names
  {
    if cols[0] !in names then cols[0] else FirstAbsent(cols[1..], names)
  }

  /** Keeping the rows from `m` on keeps every column from `m` on. */
  lemma LookupSuffix(t: Table, m: nat, c: string)
    requires Rectangular(t) && m <= |t.rows|
    ensures Rectangular(Table(t.names, t.rows[m..]))
    ensures Lookup(Table(t.names, t.rows[m..]), c) ==
      if c in t.names then Some(Lookup(t, c).value[m..]) else None
  {
    if c in t.names {
      var j := IndexOf(t.names, c).value;
      assert Column(Table(t.names, t.rows[m..]), j) == Column(t, j)[m..];
    }
  }

  /** The first absent column is the one every column before it is present for. */
  lemma {:induction false} FirstAbsentIs(cols: seq<string>, names: seq<string>, k: nat)
    requires k < |cols| && cols[k] !in names && forall j :: 0 <= j < k ==> cols[j] in names
    ensures FirstAbsent(cols, names) == cols[k]
    decreases k
  {
    if k > 0 {
      assert cols[0] in names;
      FirstAbsentIs(cols[1..], names, k - 1);
    }
  }

  /** `df[cols]`: the named columns in the listed order, or a `KeyError`. */
  function Project(t: Table, cols: seq<string>): (r: Result<Table>)
    requires Rectangular(t)
    ensures r.Ok? <==> forall c :: c in cols ==> c in t.names
    ensures r.Ok? ==> r.value.names == cols && Rectangular(r.value) && |r.value.rows| == |t.rows|
    ensures r.Ok? ==> forall i, k :: 0 <= i < |t.rows| && 0 <= k < |cols| ==>
      r.value.rows[i][k] == t.rows[i][IndexOf(t.names, cols[k]).value]
    ensures r.Err? ==> r.error.MissingColumn? && r.error.name in cols && r.error.name !in t.names
  {
    if forall c :: c in cols ==> c in t.names then
      Ok(Table(cols, seq(|t.rows|, i requires 0 <= i < |t.rows| =>
        seq(|cols|, k requires 0 <= k < |cols| => t.rows[i][IndexOf(t.names, cols[k]).value]))))
    else
      Err(MissingColumn(FirstAbsent(cols, t.names)))
  }

  /** Each projected column reads as the same column of the input. */
  lemma ProjectLookup(t: Table, cols: seq<string>, m: string)
    requires Rectangular(t) && Distinct(cols) && m in cols && Project(t, cols).Ok?
    ensures Lookup(Project(t, cols).value, m) == Lookup(t, m)
  {
    var r := Project(t, cols).value;
    var k := IndexOf(cols, m).value;
    IndexOfDistinct(cols, k);
    assert Lookup(r, m).value == Lookup(t, m).value;
  }

  /** The elements of `s` where `mask` is true, in order (boolean indexing `df[mask]`). */
  function Select<T>(s: seq<T>, mask: seq<bool>): (r: seq<T>)
    requires |mask| == |s|
    ensures |r| <= |s|
    decreases |s|
  {
    if s == [] then []
    else
      var n := |s| - 1;
      Select(s[..n], mask[..n]) + (if mask[n] then [s[n]] else [])
  }

  /** The positions where `mask` is true, increasing. */
  function TrueIndices(mask: seq<bool>): (r: seq<nat>)
    ensures forall k :: 0 <= k < |r| ==> r[k] < |mask| && mask[r[k]]
    ensures forall k, l :: 0 <= k < l < |r| ==> r[k] < r[l]
    ensures forall i :: 0 <= i < |mask| && mask[i] ==> i in r
    decreases |mask|
  {
    if mask == [] then []
    else
      var n := |mask| - 1;
      TrueIndices(mask[..n]) + (if mask[n] then [n] else [])
  }

  /** Selection keeps exactly the masked elements, unchanged and in their order: the
      `k`-th kept element is the element at the `k`-th true position. */
  lemma {:induction false} SelectAt<T>(s: seq<T>, mask: seq<bool>)
    requires |mask| == |s|
    ensures |Select(s, mask)| == |TrueIndices(mask)|
    ensures forall k :: 0 <= k < |TrueIndices(mask)| ==> Select(s, mask)[k] == s[TrueIndices(mask)[k]]
    decreases |s|
  {
    if s != [] {
      var n := |s| - 1;
      SelectAt(s[..n], mask[..n]);
    }
  }

  /** An element is kept iff it occurs at some masked position. */
  lemma SelectMembers<T>(s: seq<T>, mask: seq<bool>, x: T)
    requires |mask| == |s|
    ensures x in Select(s, mask) <==> exists i :: 0 <= i < |s| && mask[i] && s[i] == x
  {
    SelectAt(s, mask);
    var r, ix := Select(s, mask), TrueIndices(mask);
    if x in r {
      var k :| 0 <= k < |r| && r[k] == x;
      assert mask[ix[k]] && s[ix[k]] == x;
    }
    if exists i :: 0 <= i < |s| && mask[i] && s[i] == x {
      var i :| 0 <= i < |s| && mask[i] && s[i] == x;
      var k :| 0 <= k < |ix| && ix[k] == i;
      assert r[k] == x;
    }
  }

  /** Selecting with all-true mask changes nothing. */
  lemma {:induction false} SelectAll<T>(s: seq<T>, mask: seq<bool>)
    requires |mask| == |s| && forall i :: 0 <= i < |mask| ==> mask[i]
    ensures Select(s, mask) == s
    decreases |s|
  {
    if s != [] {
      var n := |s| - 1;
      SelectAll(s[..n], mask[..n]);
      assert s == s[..n] + [s[n]];
    }
  }

  /** Filtering rows by a mask computed from the rows. */
  function SelectRows(t: Table, mask: seq<bool>): (r: Table)
    requires |mask| == |t.rows|
    ensures r.names == t.names
    ensures Rectangular(t) ==> Rectangular(r)
  {
    var rows := Select(t.rows, mask);
    SelectAt(t.rows, mask);
    Table(t.names, rows)
  }

  /** A column of the selected rows is the selection of that column. */
  lemma {:induction false} SelectColumn(t: Table, mask: seq<bool>, j: nat)
    requires Rectangular(t) && |mask| == |t.rows| && j < |t.names|
    ensures Column(SelectRows(t, mask), j) == Select(Column(t, j), mask)
    decreases |t.rows|
  {
    if t.rows != [] {
      var n := |t.rows| - 1;
      var p := Table(t.names, t.rows[..n]);
      SelectColumn(p, mask[..n], j);
      assert Column(t, j)[..n] == Column(p, j);
    }
  }

  /** With a mask that is false before position `m` and true from there on, selection
      is the suffix from `m`. */
  lemma {:induction false} SelectFrom<T>(s: seq<T>, mask: seq<bool>, m: nat)
    requires |mask| == |s| && m <= |s|
    requires forall i :: 0 <= i < |s| ==> (mask[i] <==> i >= m)
    ensures Select(s, mask) == s[m..]
    decreases |s|
  {
    if s != [] {
      var n := |s| - 1;
      if n < m {
        SelectNone(s, mask);
      } else {
        SelectFrom(s[..n], mask[..n], m);
        assert s[m..] == s[..n][m..] + [s[n]];
      }
    }
  }

  lemma {:induction false} SelectNone<T>(s: seq<T>, mask: seq<bool>)
    requires |mask| == |s| && forall i :: 0 <= i < |s| ==> !mask[i]
    ensures Select(s, mask) == []
    decreases |s|
  {
    if s != [] {
      SelectNone(s[..|s| - 1], mask[..|s| - 1]);
    }
  }

  /** `mask[i]` holds when row `i` does not repeat an earlier row (`duplicated()` negated). */
  function FirstMask<T(==)>(rows: seq<T>): (mask: seq<bool>)
    ensures |mask| == |rows|
    ensures forall i :: 0 <= i < |rows| ==> (mask[i] <==> rows[i] !in rows[..i])
  {
    seq(|rows|, i requires 0 <= i < |rows| => rows[i] !in rows[..i])
  }

  /** `drop_duplicates()`: the first occurrence of each distinct row, in order. */
  function Dedup<T(==)>(rows: seq<T>): seq<T> {
    Select(rows, FirstMask(rows))
  }

  lemma DedupSnoc<T>(rows: seq<T>, x: T)
    ensures Dedup(rows + [x]) == Dedup(rows) + (if x in rows then [] else [x])
  {
    var s := rows + [x];
    assert s[..|rows|] == rows;
    assert FirstMask(s)[..|rows|] == FirstMask(rows);
  }

  /** Duplicate removal keeps every distinct row: a row is in the result iff it is in the input. */
  lemma DedupMembers<T>(rows: seq<T>, x: T)
    ensures x in Dedup(rows) <==> x in rows
  {
    SelectMembers(rows, FirstMask(rows), x);
    if x in rows {
      var i := FirstPosition(rows, x);
      assert FirstMask(rows)[i];
    }
  }

  function FirstPosition<T(==)>(s: seq<T>, x: T): (i: nat)
    requires x in s
    ensures i < |s| && s[i] == x && x !in s[..i]
  {
    if s[0] == x then 0
    else
      var j := FirstPosition(s[1..], x);
      assert s[..j + 1] == [s[0]] + s[1..][..j];
      j + 1
  }

  /** Duplicate removal leaves no two equal rows. */
  lemma DedupDistinct<T>(rows: seq<T>)
    ensures Distinct(Dedup(rows))
  {
    var mask := FirstMask(rows);
    SelectAt(rows, mask);
    var r, ix := Dedup(rows), TrueIndices(mask);
    forall a, b | 0 <= a < b < |r| ensures r[a] != r[b] {
      assert ix[a] < ix[b];
      assert rows[ix[a]] in rows[..ix[b]];
    }
  }

  /** Each kept row is the first occurrence of its value, and kept rows keep their input order. */
  lemma DedupKeepsFirstOccurrences<T>(rows: seq<T>)
    ensures |Dedup(rows)| == |TrueIndices(FirstMask(rows))|
    ensures forall k :: 0 <= k < |Dedup(rows)| ==>
      var i := TrueIndices(FirstMask(rows))[k];
      Dedup(rows)[k] == rows[i] && rows[i] !in rows[..i]
    ensures forall k, l :: 0 <= k < l < |Dedup(rows)| ==>
      TrueIndices(FirstMask(rows))[k] < TrueIndices(FirstMask(rows))[l]
  {
    SelectAt(rows, FirstMask(rows));
  }

  /** Selecting from distinct elements gives distinct elements. */
  lemma SelectDistinct<T>(s: seq<T>, mask: seq<bool>)
    requires |mask| == |s| && Distinct(s)
    ensures Distinct(Select(s, mask))
  {
    SelectAt(s, mask);
    var r, ix := Select(s, mask), TrueIndices(mask);
    forall a, b | 0 <= a < b < |r| ensures r[a] != r[b] {
      assert ix[a] < ix[b];
    }
  }

  /** `f` applied to each element. */
  function MapSeq<A, B>(s: seq<A>, f: A -> B): (r: seq<B>)
    ensures |r| == |s|
    decreases |s|
  {
    if s == [] then [] else [f(s[0])] + MapSeq(s[1..], f)
  }

  lemma {:induction false} MapSeqAt<A, B>(s: seq<A>, f: A -> B, i: nat)
    requires i < |s|
    ensures MapSeq(s, f)[i] == f(s[i])
    decreases i
  {
    if i > 0 {
      MapSeqAt(s[1..], f, i - 1);
    }
  }

  lemma {:induction false} MapConcat<A, B>(x: seq<A>, y: seq<A>, f: A -> B)
    ensures MapSeq(x + y, f) == MapSeq(x, f) + MapSeq(y, f)
    decreases |x|
  {
    if x == [] {
      assert x + y == y;
    } else {
      assert (x + y)[1..] == x[1..] + y;
      MapConcat(x[1..], y, f);
    }
  }

  /** Taking the head of `a` out of `b` leaves a rearrangement of the tail of `a`. */
  lemma PermutationTail<T>(a: seq<T>, b: seq<T>, p: nat)
    requires multiset(a) == multiset(b) && a != [] && p < |b| && b[p] == a[0]
    ensures multiset(a[1..]) == multiset(b[..p] + b[p + 1..])
  {
    assert b == b[..p] + [b[p]] + b[p + 1..];
    assert multiset(b[..p] + b[p + 1..]) == multiset(b) - multiset{b[p]};
    assert a == [a[0]] + a[1..];
    assert multiset(a[1..]) == multiset(a) - multiset{a[0]};
  }

  lemma MapRemoveAt<A, B>(b: seq<A>, p: nat, f: A -> B)
    requires p < |b|
    ensures multiset(MapSeq(b, f)) == multiset{f(b[p])} + multiset(MapSeq(b[..p] + b[p + 1..], f))
  {
    var x, y := b[..p], b[p + 1..];
    var z := [b[p]] + y;
    assert x + z == b;
    MapConcat(x, z, f);
    MapCons(b[p], y, f);
    MapConcat(x, y, f);
    SpliceCount(MapSeq(x, f), f(b[p]), MapSeq(y, f));
  }

  lemma MapCons<A, B>(v: A, y: seq<A>, f: A -> B)
    ensures MapSeq([v] + y, f) == [f(v)] + MapSeq(y, f)
  {
    assert ([v] + y)[1..] == y;
  }

  lemma SpliceCount<T>(x: seq<T>, v: T, y: seq<T>)
    ensures multiset(x + ([v] + y)) == multiset{v} + multiset(x + y)
  {
  }

  /** Mapping commutes with reordering: rearranged inputs give rearranged outputs. */
  lemma {:induction false} MapPermutation<A, B>(a: seq<A>, b: seq<A>, f: A -> B)
    requires multiset(a) == multiset(b)
    ensures multiset(MapSeq(a, f)) == multiset(MapSeq(b, f))
    decreases |a|
  {
    if a == [] {
      assert |b| == |multiset(b)| == 0;
    } else {
      assert a[0] in multiset(b);
      var p := FirstPosition(b, a[0]);
      PermutationTail(a, b, p);
      MapPermutation(a[1..], b[..p] + b[p + 1..], f);
      MapRemoveAt(b, p, f);
    }
  }

  /** An element of a sequence without repeats occurs in it at most once. */
  lemma {:induction false} DistinctOnce<T>(a: seq<T>, x: T)
    requires Distinct(a)
    ensures multiset(a)[x] <= 1
    decreases |a|
  {
    if a != [] {
      assert a == [a[0]] + a[1..];
      assert Distinct(a[1..]) by {
        forall i, j | 0 <= i < j < |a| - 1 ensures a[1..][i] != a[1..][j] {
          assert a[1..][i] == a[i + 1] && a[1..][j] == a[j + 1];
        }
      }
      DistinctOnce(a[1..], x);
      assert a[0] !in a[1..] by {
        forall k | 0 <= k < |a| - 1 ensures a[1..][k] != a[0] {
          assert a[1..][k] == a[k + 1];
        }
      }
    }
  }

  /** The element at `i` is counted once more for every later position holding it. */
  lemma TwoPositions<T>(b: seq<T>, i: nat, j: nat)
    requires i < j < |b|
    ensures multiset(b)[b[i]] >= if b[i] == b[j] then 2 else 1
  {
    assert b == b[..j] + b[j..];
    assert b[i] in b[..j] && b[j] in b[j..];
  }

  /** A rearrangement of a sequence without repeats has none. */
  lemma DistinctPermutation<T>(a: seq<T>, b: seq<T>)
    requires Distinct(a) && multiset(a) == multiset(b)
    ensures Distinct(b)
  {
    forall i, j | 0 <= i < j < |b| ensures b[i] != b[j] {
      DistinctOnce(a, b[i]);
      TwoPositions(b, i, j);
    }
  }

  /** `df.drop_duplicates()` on a whole table. */
  function DropDuplicateRows(t: Table): (r: Table)
    requires Rectangular(t)
    ensures Rectangular(r) && r.names == t.names && r.rows == Dedup(t.rows)
  {
    var rows := Dedup(t.rows);
    assert forall i :: 0 <= i < |rows| ==> rows[i] in t.rows by {
      forall i | 0 <= i < |rows| ensures rows[i] in t.rows {
        DedupMembers(t.rows, rows[i]);
      }
    }
    Table(t.names, rows)
  }

  /** The first-seen scan behind `drop_duplicates`: walk the rows once, keeping a row when
      it has not been kept before. */
  method FirstOccurrences<T(==)>(rows: seq<T>) returns (kept: seq<T>)
    ensures kept == Dedup(rows)
  {
    kept := [];
    var i := 0;
    while i < |rows|
      invariant i <= |rows|
      invariant kept == Dedup(rows[..i])
    {
      DedupMembers(rows[..i], rows[i]);
      DedupSnoc(rows[..i], rows[i]);
      if rows[i] !in kept {
        kept := kept + [rows[i]];
      }
      assert rows[..i + 1] == rows[..i] + [rows[i]];
      i := i + 1;
    }
    assert rows[..i] == rows;
  }

  /** A data frame variable `df`: its column labels and its rows, both reassigned by the stages. */
  class Frame {
    var names: seq<string>
    var rows: seq<seq<Cell>>

    function Snapshot(): Table
      reads this
    {
      Table(names, rows)
    }

    predicate Valid()
      reads this
    {
      Rectangular(Snapshot())
    }

    /** `df = pd.read_csv(...)`: the frame starts out holding `t`. */
    constructor (t: Table)
      requires Rectangular(t)
      ensures Valid() && Snapshot() == t
    {
      names := t.names;
      rows := t.rows;
    }

    /** `df.columns = labels`: relabels the columns, rows untouched. */
    method SetNames(labels: seq<string>)
      requires Valid() && |labels| == |names|
      modifies this
      ensures Valid() && names == labels && rows == old(rows)
    {
      names := labels;
    }

    /** `df[name] = cells`. */
    method SetColumn(name: string, cells: seq<Cell>)
      requires Valid() && |cells| == |rows|
      modifies this
      ensures Valid() && Snapshot() == WithColumn(old(Snapshot()), name, cells)
    {
      var t := WithColumn(Snapshot(), name, cells);
      names, rows := t.names, t.rows;
    }

    /** `df.drop_duplicates(inplace=True)`. */
    method DropDuplicates()
      requires Valid()
      modifies this
      ensures Valid() && Snapshot() == DropDuplicateRows(old(Snapshot()))
    {
      rows := FirstOccurrences(rows);
      assert Snapshot() == DropDuplicateRows(old(Snapshot()));
    }

    /** `df = <expression>`: the variable now holds another table. */
    method Rebind(t: Table)
      requires Rectangular(t)
      modifies this
      ensures Valid() && Snapshot() == t
    {
      names, rows := t.names, t.rows;
    }
  }
}
