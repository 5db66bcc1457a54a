/** Column statistics over exact reals: sums, the mean and population variance that
    `scipy.stats.zscore` uses, and the median and linear-interpolation quantiles that
    pandas computes over a column's non-missing values. */
module Stats {

  function Sum(s: seq<real>): real
    decreases |s|
  {
    if s == [] then 0.0 else s[0] + Sum(s[1..])
  }

  function Mean(s: seq<real>): real
    requires |s| > 0
  {
    Sum(s) / |s| as real
  }

  function Square(d: real): real {
    d * d
  }

  /** `z` multiplied by `s` twice, the inverse of dividing by `s` twice. */
  function TimesSquare(z: real, s: real): real {
    z * s * s
  }

  /** `(d / s)^2 * s * s == d^2`. */
  lemma SquareOfQuotient(d: real, s: real)
    requires s != 0.0
    ensures Square(d / s) * s * s == Square(d)
  {
    var z := d / s;
    assert z * s == d;
    assert (z * z) * s * s == (z * s) * (z * s);
  }

  lemma DivTimes(x: real, n: real)
    requires n != 0.0
    ensures (x / n) * n == x
  {
  }

  /** The fractional part of `h`. */
  lemma FloorFraction(h: real)
    ensures 0.0 <= h - h.Floor as real < 1.0
  {
  }

  /** A non-zero factor cancels. */
  lemma CancelFactor(x: real, y: real, c: real)
    requires c != 0.0 && x * c == y * c
    ensures x == y
  {
    assert (x - y) * c == 0.0;
  }

  /** Scaling commutes with dividing by a count. */
  lemma DivScale(x: real, s: real, y: real, n: real)
    requires n != 0.0 && (x * s) * s == y
    ensures ((x / n) * s) * s == y / n
  {
  }

  lemma SquareAssoc(s: real)
    ensures Square(s) == (1.0 * s) * s
  {
  }

  /** A factor `v` with `v * s * s == s^2`, `s` non-zero, is one. */
  lemma UnitFactor(v: real, s: real)
    requires s != 0.0 && (v * s) * s == Square(s)
    ensures v == 1.0
  {
    SquareAssoc(s);
    CancelFactor(v * s, 1.0 * s, s);
    CancelFactor(v, 1.0, s);
  }

  lemma {:induction false} MeanTimesCount(xs: seq<real>)
    requires |xs| > 0
    ensures |xs| as real * Mean(xs) == Sum(xs)
  {
  }

  /** Sum of the squared deviations of `s` from `m`. */
  function SquaredDeviations(s: seq<real>, m: real): real
    decreases |s|
  {
    if s == [] then 0.0 else Square(s[0] - m) + SquaredDeviations(s[1..], m)
  }

  /** Population variance (`ddof=0`, as `scipy.stats.zscore` uses it). */
  function PopVariance(s: seq<real>): real
    requires |s| > 0
  {
    SquaredDeviations(s, Mean(s)) / |s| as real
  }

  /** Every value is the first one. */
  predicate Constant(s: seq<real>) {
    forall i :: 0 <= i < |s| ==> s[i] == s[0]
  }

  lemma {:induction false} SumConstant(s: seq<real>, c: real)
    requires forall i :: 0 <= i < |s| ==> s[i] == c
    ensures Sum(s) == |s| as real * c
    decreases |s|
  {
    if s != [] {
      assert forall i :: 0 <= i < |s| - 1 ==> s[1..][i] == s[i + 1];
      SumConstant(s[1..], c);
    }
  }

  lemma {:induction false} SquaredDeviationsNonNegative(s: seq<real>, m: real)
    ensures SquaredDeviations(s, m) >= 0.0
    decreases |s|
  {
    if s != [] {
      SquaredDeviationsNonNegative(s[1..], m);
      NonNegSquare(s[0] - m);
    }
  }

  lemma NonNegSquare(d: real)
    ensures Square(d) >= 0.0
  {
    if d < 0.0 {
      NonNegProduct(-d, -d);
    } else {
      NonNegProduct(d, d);
    }
  }

  lemma PositiveSquare(d: real)
    requires d != 0.0
    ensures Square(d) > 0.0
  {
    if d > 0.0 {
      calc { Square(d); == d * d; > 0.0; }
    } else {
      calc { Square(d); == d * d; == (-d) * (-d); > 0.0; }
    }
  }

  /** The squared deviations from `m` vanish exactly when every value is `m`. */
  lemma {:induction false} NoDeviationsConstant(s: seq<real>, m: real)
    ensures SquaredDeviations(s, m) == 0.0 <==> forall i :: 0 <= i < |s| ==> s[i] == m
    decreases |s|
  {
    if s != [] {
      NoDeviationsConstant(s[1..], m);
      SquaredDeviationsNonNegative(s[1..], m);
      NonNegSquare(s[0] - m);
      assert (forall i :: 0 <= i < |s| ==> s[i] == m) <==>
        s[0] == m && forall i :: 0 <= i < |s| - 1 ==> s[1..][i] == m;
      if s[0] != m {
        PositiveSquare(s[0] - m);
      }
    }
  }

  /** A population variance of 0 is a constant sequence, and a constant sequence has
      population variance 0. */
  lemma ConstantIffNoVariance(s: seq<real>)
    requires |s| > 0
    ensures PopVariance(s) == 0.0 <==> Constant(s)
  {
    var m := Mean(s);
    NoDeviationsConstant(s, m);
    if Constant(s) {
      SumConstant(s, s[0]);
      assert m == s[0];
    } else {
      var i :| 0 <= i < |s| && s[i] != s[0];
      assert s[i] != m || s[0] != m;
    }
  }

  lemma {:induction false} SumAppend(a: seq<real>, b: seq<real>)
    ensures Sum(a + b) == Sum(a) + Sum(b)
    decreases |a|
  {
    if a == [] {
      assert a + b == b;
    } else {
      assert (a + b)[1..] == a[1..] + b;
      SumAppend(a[1..], b);
    }
  }

  lemma {:induction false} SquaredDeviationsAppend(a: seq<real>, b: seq<real>, m: real)
    ensures SquaredDeviations(a + b, m) == SquaredDeviations(a, m) + SquaredDeviations(b, m)
    decreases |a|
  {
    if a == [] {
      assert a + b == b;
    } else {
      assert (a + b)[1..] == a[1..] + b;
      SquaredDeviationsAppend(a[1..], b, m);
    }
  }

  /** Removing the element at `k` takes exactly that element out of the sum. */
  lemma {:induction false} SumRemove(s: seq<real>, k: nat)
    requires k < |s|
    ensures Sum(s) == s[k] + Sum(s[..k] + s[k + 1..])
  {
    assert s == s[..k] + ([s[k]] + s[k + 1..]);
    SumAppend(s[..k], [s[k]] + s[k + 1..]);
    SumAppend(s[..k], s[k + 1..]);
  }

  lemma {:induction false} SquaredDeviationsRemove(s: seq<real>, k: nat, m: real)
    requires k < |s|
    ensures SquaredDeviations(s, m)
         == Square(s[k] - m) + SquaredDeviations(s[..k] + s[k + 1..], m)
  {
    assert s == s[..k] + ([s[k]] + s[k + 1..]);
    SquaredDeviationsAppend(s[..k], [s[k]] + s[k + 1..], m);
    SquaredDeviationsAppend(s[..k], s[k + 1..], m);
  }

  /** The position of an element known to occur in `s`. */
  function PositionOf(s: seq<real>, x: real): (k: nat)
    requires x in s
    ensures k < |s| && s[k] == x
  {
    if s[0] == x then 0 else 1 + PositionOf(s[1..], x)
  }

  lemma MultisetRemove(s: seq<real>, k: nat)
    requires k < |s|
    ensures multiset(s[..k] + s[k + 1..]) == multiset(s) - multiset{s[k]}
  {
    assert s == s[..k] + [s[k]] + s[k + 1..];
  }

  /** Taking the head of `a` out of a rearrangement `b` leaves a rearrangement of the
      tail of `a`. */
  lemma HeadRemoved(a: seq<real>, b: seq<real>, k: nat)
    requires multiset(a) == multiset(b) && a != [] && k < |b| && b[k] == a[0]
    ensures multiset(a[1..]) == multiset(b[..k] + b[k + 1..])
  {
    MultisetRemove(b, k);
    assert a == [a[0]] + a[1..];
    assert multiset(a[1..]) == multiset(a) - multiset{a[0]};
  }

  /** The sum of a column does not depend on the order of its rows. */
  lemma {:induction false} SumPermutation(a: seq<real>, b: seq<real>)
    requires multiset(a) == multiset(b)
    ensures Sum(a) == Sum(b)
    decreases |a|
  {
    if a != [] {
      assert a[0] in multiset(b);
      var k := PositionOf(b, a[0]);
      SumRemove(b, k);
      HeadRemoved(a, b, k);
      SumPermutation(a[1..], b[..k] + b[k + 1..]);
    } else {
      assert |b| == |multiset(b)| == 0;
    }
  }

  lemma {:induction false} SquaredDeviationsPermutation(a: seq<real>, b: seq<real>, m: real)
    requires multiset(a) == multiset(b)
    ensures SquaredDeviations(a, m) == SquaredDeviations(b, m)
    decreases |a|
  {
    if a != [] {
      assert a[0] in multiset(b);
      var k := PositionOf(b, a[0]);
      SquaredDeviationsRemove(b, k, m);
      HeadRemoved(a, b, k);
      SquaredDeviationsPermutation(a[1..], b[..k] + b[k + 1..], m);
    } else {
      assert |b| == |multiset(b)| == 0;
    }
  }

  /** Mean and population variance are statistics of the multiset of values. */
  lemma MomentsPermutation(a: seq<real>, b: seq<real>)
    requires |a| > 0 && multiset(a) == multiset(b)
    ensures |b| == |a| && Mean(a) == Mean(b) && PopVariance(a) == PopVariance(b)
  {
    assert |a| == |multiset(a)| == |multiset(b)| == |b|;
    SumPermutation(a, b);
    SquaredDeviationsPermutation(a, b, Mean(a));
  }

  /** Each value minus `m`, divided by `s`. */
  function Standardize(xs: seq<real>, m: real, s: real): (zs: seq<real>)
    requires s != 0.0
    ensures |zs| == |xs|
    decreases |xs|
  {
    if xs == [] then [] else [(xs[0] - m) / s] + Standardize(xs[1..], m, s)
  }

  /** Each standardized value is its own value minus `m`, divided by `s`. */
  lemma {:induction false} StandardizeAt(xs: seq<real>, m: real, s: real, i: nat)
    requires s != 0.0 && i < |xs|
    ensures Standardize(xs, m, s)[i] == (xs[i] - m) / s
    decreases i
  {
    StandardizeCons(xs, m, s);
    if i > 0 {
      StandardizeAt(xs[1..], m, s, i - 1);
    }
  }

  lemma {:induction false} SumStandardize(xs: seq<real>, m: real, s: real)
    requires s != 0.0
    ensures Sum(Standardize(xs, m, s)) == (Sum(xs) - |xs| as real * m) / s
    decreases |xs|
  {
    if xs != [] {
      StandardizeCons(xs, m, s);
      SumCons(Standardize(xs, m, s));
      SumCons(xs);
      SumStandardize(xs[1..], m, s);
      var x, rest, total, n, k := xs[0], Sum(xs[1..]), Sum(xs), |xs[1..]| as real, |xs| as real;
      SumStep(x, rest, total, n, k, m, s);
    }
  }

  /** The first standardized value, then the standardized rest. */
  lemma StandardizeCons(xs: seq<real>, m: real, s: real)
    requires s != 0.0 && xs != []
    ensures Standardize(xs, m, s)[0] == (xs[0] - m) / s
    ensures Standardize(xs, m, s)[1..] == Standardize(xs[1..], m, s)
  {
    assert Standardize(xs, m, s) == [(xs[0] - m) / s] + Standardize(xs[1..], m, s);
  }

  lemma SumCons(s: seq<real>)
    requires s != []
    ensures Sum(s) == s[0] + Sum(s[1..])
  {
  }

  lemma SquaredDeviationsCons(s: seq<real>, m: real)
    requires s != []
    ensures SquaredDeviations(s, m) == Square(s[0] - m) + SquaredDeviations(s[1..], m)
  {
  }

  /** One more standardized value: the quotients over `s` add up. */
  lemma SumStep(x: real, rest: real, total: real, n: real, k: real, m: real, s: real)
    requires s != 0.0 && total == x + rest && k == n + 1.0
    ensures (x - m) / s + (rest - n * m) / s == (total - k * m) / s
  {
    assert k * m == n * m + m;
    assert (x - m) / s + (rest - n * m) / s == ((x - m) + (rest - n * m)) / s;
  }

  lemma {:induction false} SquaredDeviationsStandardize(xs: seq<real>, m: real, s: real)
    requires s != 0.0
    ensures TimesSquare(SquaredDeviations(Standardize(xs, m, s), 0.0), s) == SquaredDeviations(xs, m)
    decreases |xs|
  {
    if xs != [] {
      SquaredDeviationsStandardize(xs[1..], m, s);
      var d, rest, restX, z, x := SquaredDeviationsSplit(xs, m, s);
      SquaresStep(d, s, rest, restX, z, x);
    }
  }

  /** Both sums of squares split into their first term and the rest. */
  lemma SquaredDeviationsSplit(xs: seq<real>, m: real, s: real)
      returns (d: real, rest: real, restX: real, z: real, x: real)
    requires s != 0.0 && xs != []
    ensures z == SquaredDeviations(Standardize(xs, m, s), 0.0) && x == SquaredDeviations(xs, m)
    ensures rest == SquaredDeviations(Standardize(xs[1..], m, s), 0.0) && restX == SquaredDeviations(xs[1..], m)
    ensures z == Square(d / s - 0.0) + rest && x == Square(d) + restX
  {
    StandardizeCons(xs, m, s);
    SquaredDeviationsCons(Standardize(xs, m, s), 0.0);
    SquaredDeviationsCons(xs, m);
    d, rest, restX := xs[0] - m, SquaredDeviations(Standardize(xs[1..], m, s), 0.0), SquaredDeviations(xs[1..], m);
    z, x := SquaredDeviations(Standardize(xs, m, s), 0.0), SquaredDeviations(xs, m);
  }

  /** One more standardized value: its square, scaled back by `s * s`, is the square of
      its deviation. */
  lemma SquaresStep(d: real, s: real, rest: real, restX: real, z: real, x: real)
    requires s != 0.0 && TimesSquare(rest, s) == restX
    requires z == Square(d / s - 0.0) + rest && x == Square(d) + restX
    ensures TimesSquare(z, s) == x
  {
    SquareOfQuotient(d, s);
    assert d / s - 0.0 == d / s;
    assert (Square(d / s) + rest) * s * s == Square(d / s) * s * s + rest * s * s;
  }

  /** A z-scored column has mean 0 and, when `s` is the population standard deviation
      and is not zero, population variance 1. */
  lemma StandardizedMoments(xs: seq<real>, s: real)
    requires |xs| > 0 && s > 0.0 && Square(s) == PopVariance(xs)
    ensures Mean(Standardize(xs, Mean(xs), s)) == 0.0
    ensures PopVariance(Standardize(xs, Mean(xs), s)) == 1.0
  {
    StandardizedMean(xs, s);
    StandardizedVariance(xs, s);
  }

  lemma StandardizedMean(xs: seq<real>, s: real)
    requires |xs| > 0 && s != 0.0
    ensures Mean(Standardize(xs, Mean(xs), s)) == 0.0
  {
    SumStandardize(xs, Mean(xs), s);
    MeanTimesCount(xs);
    assert Sum(Standardize(xs, Mean(xs), s)) == 0.0 / s;
  }

  lemma StandardizedVariance(xs: seq<real>, s: real)
    requires |xs| > 0 && s > 0.0 && Square(s) == PopVariance(xs)
    ensures PopVariance(Standardize(xs, Mean(xs), s)) == 1.0
  {
    var m := Mean(xs);
    StandardizedMean(xs, s);
    SquaredDeviationsStandardize(xs, m, s);
    PopVarianceAbout(Standardize(xs, m, s), 0.0);
    PopVarianceAbout(xs, m);
    VarianceOne(xs, m, s);
  }

  /** The population variance spelled out around a given mean. */
  lemma PopVarianceAbout(xs: seq<real>, m: real)
    requires |xs| > 0 && Mean(xs) == m
    ensures PopVariance(xs) == SquaredDeviations(xs, m) / |xs| as real
  {
  }

  /** Sums of squares related by `s * s`, with `s * s` the variance of the original
      values, give the standardized values variance 1. */
  lemma VarianceOne(xs: seq<real>, m: real, s: real)
    requires |xs| > 0 && s != 0.0
    requires TimesSquare(SquaredDeviations(Standardize(xs, m, s), 0.0), s) == SquaredDeviations(xs, m)
    requires Square(s) == SquaredDeviations(xs, m) / |xs| as real
    ensures SquaredDeviations(Standardize(xs, m, s), 0.0) / |xs| as real == 1.0
  {
    var dz, dx, n := SquaredDeviations(Standardize(xs, m, s), 0.0), SquaredDeviations(xs, m), |xs| as real;
    Ratio(dz, dx, n, s);
  }

  /** The arithmetic step of the above, on plain numbers. */
  lemma Ratio(dz: real, dx: real, n: real, s: real)
    requires n > 0.0 && s != 0.0 && TimesSquare(dz, s) == dx && Square(s) == dx / n
    ensures dz / n == 1.0
  {
    DivScale(dz, s, dx, n);
    UnitFactor(dz / n, s);
  }

  predicate Sorted(s: seq<real>) {
    forall i, j :: 0 <= i < j < |s| ==> s[i] <= s[j]
  }

  function Insert(x: real, s: seq<real>): (r: seq<real>)
    requires Sorted(s)
    ensures Sorted(r) && multiset(r) == multiset(s) + multiset{x}
    ensures |r| == |s| + 1 && (r[0] == x || (s != [] && r[0] == s[0]))
    decreases |s|
  {
    if s == [] || x <= s[0] then
      SortedCons(x, s);
      [x] + s
    else
      var t := Insert(x, s[1..]);
      assert s == [s[0]] + s[1..];
      SortedCons(s[0], t);
      [s[0]] + t
  }

  lemma SortedCons(x: real, s: seq<real>)
    requires Sorted(s) && (s == [] || x <= s[0])
    ensures Sorted([x] + s)
  {
    forall i, j | 0 <= i < j < |s| + 1 ensures ([x] + s)[i] <= ([x] + s)[j] {
      if i > 0 {
        assert ([x] + s)[i] == s[i - 1];
      }
    }
  }

  /** The values of `s` in ascending order. */
  function SortReals(s: seq<real>): (r: seq<real>)
    ensures Sorted(r) && multiset(r) == multiset(s)
    decreases |s|
  {
    if s == [] then []
    else
      assert s == [s[0]] + s[1..];
      Insert(s[0], SortReals(s[1..]))
  }

  /** `a + t * (b - a)`: the point a fraction `t` of the way from `a` to `b`. */
  function Lerp(a: real, b: real, t: real): (r: real)
    requires a <= b && 0.0 <= t <= 1.0
    ensures a <= r <= b
  {
    var r := a + t * (b - a);
    LerpBounds(a, b, t, r);
    r
  }

  lemma LerpBounds(a: real, b: real, t: real, r: real)
    requires a <= b && 0.0 <= t <= 1.0 && r == a + t * (b - a)
    ensures a <= r <= b
  {
    NonNegProduct(t, b - a);
    NonNegProduct(1.0 - t, b - a);
    assert b - r == (1.0 - t) * (b - a);
  }

  /** The fractional rank `(n - 1) * q` of the `q`-quantile among `n` values. */
  function Rank(n: nat, q: real): (h: real)
    requires n > 0 && 0.0 <= q <= 1.0
    ensures 0.0 <= h <= (n - 1) as real
  {
    var h := (n - 1) as real * q;
    RankBounds(n, q, h);
    h
  }

  lemma RankBounds(n: nat, q: real, h: real)
    requires n > 0 && 0.0 <= q <= 1.0 && h == (n - 1) as real * q
    ensures 0.0 <= h <= (n - 1) as real
  {
    var m := (n - 1) as real;
    NonNegProduct(m, q);
    NonNegProduct(m, 1.0 - q);
    assert m - h == m * (1.0 - q);
  }

  lemma RankMonotone(n: nat, p: real, q: real)
    requires n > 0 && 0.0 <= p <= q <= 1.0
    ensures Rank(n, p) <= Rank(n, q)
  {
    var m := (n - 1) as real;
    NonNegProduct(m, q - p);
    assert m * q - m * p == m * (q - p);
  }

  /** The `q`-quantile of ascending values by linear interpolation (pandas' default):
      with h = (n - 1) * q, the value at floor(h) plus the fractional part of h times
      the gap to the next value. */
  function Quantile(v: seq<real>, q: real): (r: real)
    requires Sorted(v) && |v| > 0 && 0.0 <= q <= 1.0
    ensures v[0] <= r <= v[|v| - 1]
  {
    var h := Rank(|v|, q);
    var lo := h.Floor;
    if lo + 1 < |v| then Lerp(v[lo], v[lo + 1], h - lo as real) else v[lo]
  }

  lemma NonNegProduct(x: real, y: real)
    requires x >= 0.0 && y >= 0.0
    ensures x * y >= 0.0
  {
  }

  lemma LerpMonotone(a: real, b: real, t: real, u: real)
    requires a <= b && 0.0 <= t <= u <= 1.0
    ensures Lerp(a, b, t) <= Lerp(a, b, u)
  {
    NonNegProduct(u - t, b - a);
    assert u * (b - a) - t * (b - a) == (u - t) * (b - a);
  }

  /** A larger `q` never gives a smaller quantile; in particular Q1 <= Q3. */
  lemma QuantileMonotone(v: seq<real>, p: real, q: real)
    requires Sorted(v) && |v| > 0 && 0.0 <= p <= q <= 1.0
    ensures Quantile(v, p) <= Quantile(v, q)
  {
    RankMonotone(|v|, p, q);
    var hp, hq := Rank(|v|, p), Rank(|v|, q);
    var lp, lq := hp.Floor, hq.Floor;
    assert lp <= lq;
    FloorFraction(hp);
    FloorFraction(hq);
    if lp == lq && lp + 1 < |v| {
      assert hp - lp as real <= hq - lq as real;
      LerpMonotone(v[lp], v[lp + 1], hp - lp as real, hq - lq as real);
    } else if lp < lq {
      assert Quantile(v, p) <= v[lp + 1];
      assert v[lp + 1] <= v[lq];
    }
  }

  /** The median of ascending values: the middle value, or the mean of the two middle
      values when there is an even number of them. */
  function Median(v: seq<real>): (r: real)
    requires Sorted(v) && |v| > 0
    ensures v[0] <= r <= v[|v| - 1]
  {
    var k := |v| / 2;
    if |v| % 2 == 1 then v[k] else (v[k - 1] + v[k]) / 2.0
  }

  /** The median is the 0.5-quantile. */
  lemma MedianIsMiddleQuantile(v: seq<real>)
    requires Sorted(v) && |v| > 0
    ensures Median(v) == Quantile(v, 0.5)
  {
    var k := |v| / 2;
    var h := (|v| - 1) as real * 0.5;
    if |v| % 2 == 1 {
      assert h == k as real;
      assert h.Floor == k;
    } else {
      assert h == k as real - 0.5;
      assert h.Floor == k - 1;
    }
  }

  /** Sorting the same multiset twice gives the same sequence, so quantiles and
      medians of a column do not depend on the order of its rows. */
  lemma {:induction false} SortedUnique(a: seq<real>, b: seq<real>)
    requires Sorted(a) && Sorted(b) && multiset(a) == multiset(b)
    ensures a == b
    decreases |a|
  {
    assert |a| == |multiset(a)| == |multiset(b)| == |b|;
    if a != [] {
      SortedHeads(a, b);
      HeadRemoved(a, b, 0);
      assert b[..0] + b[1..] == b[1..];
      SortedTail(a);
      SortedTail(b);
      SortedUnique(a[1..], b[1..]);
      assert a == [a[0]] + a[1..] && b == [b[0]] + b[1..];
    }
  }

  lemma SortedTail(a: seq<real>)
    requires Sorted(a) && a != []
    ensures Sorted(a[1..])
  {
    forall i, j | 0 <= i < j < |a| - 1 ensures a[1..][i] <= a[1..][j] {
      assert a[1..][i] == a[i + 1] && a[1..][j] == a[j + 1];
    }
  }

  /** Two ascending arrangements of the same values start with the same value. */
  lemma SortedHeads(a: seq<real>, b: seq<real>)
    requires Sorted(a) && Sorted(b) && multiset(a) == multiset(b) && a != []
    ensures b != [] && a[0] == b[0]
  {
    assert a[0] in multiset(b) && a[0] in b;
    var i := PositionOf(b, a[0]);
    assert b[0] in multiset(a) && b[0] in a;
    var j := PositionOf(a, b[0]);
    assert a[0] <= a[j] && b[0] <= b[i];
  }
}
