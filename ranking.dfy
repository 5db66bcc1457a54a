/** `sort_values(ascending=False)` followed by `head(k)`: entries in non-increasing
    order of a numeric key, and the first few of them. */
module Ranking {
  import opened Frames

  /** Every entry's key is at least that of every entry after it. */
  predicate Descending<T>(s: seq<T>, key: T -> real) {
    forall i, j :: 0 <= i < j < |s| ==> key(s[i]) >= key(s[j])
  }

  /** Puts `x` in front of the first entry whose key is not larger than its own. */
  function InsertDesc<T>(x: T, s: seq<T>, key: T -> real): (r: seq<T>)
    requires Descending(s, key)
    ensures Descending(r, key) && multiset(r) == multiset(s) + multiset{x}
    ensures |r| == |s| + 1 && (r[0] == x || (s != [] && r[0] == s[0]))
    decreases |s|
  {
    if s == [] || key(x) >= key(s[0]) then [x] + s
    else
      var t := InsertDesc(x, s[1..], key);
      assert s == [s[0]] + s[1..];
      assert key(s[0]) >= key(t[0]);
      [s[0]] + t
  }

  /** The entries of `s` from the largest key down. */
  function SortDesc<T>(s: seq<T>, key: T -> real): (r: seq<T>)
    ensures Descending(r, key) && multiset(r) == multiset(s)
    decreases |s|
  {
    if s == [] then []
    else
      assert s == [s[0]] + s[1..];
      InsertDesc(s[0], SortDesc(s[1..], key), key)
  }

  /** `head(k)`: the first `k` entries, or all of them when there are fewer. */
  function Head<T>(s: seq<T>, k: nat): (r: seq<T>)
    ensures |r| == if |s| < k then |s| else k
    ensures forall i :: 0 <= i < |r| ==> r[i] == s[i]
  {
    if |s| <= k then s else s[..k]
  }

  /** The first `k` of a descending sequence are the largest: none of the others has a
      larger key than any of them. */
  lemma HeadIsLargest<T>(s: seq<T>, key: T -> real, k: nat)
    requires Descending(s, key)
    ensures var h := Head(s, k);
      forall i, j :: 0 <= i < |h| <= j < |s| ==> key(h[i]) >= key(s[j])
  {
  }

  /** Entries whose keys all differ, in descending order. */
  predicate StrictlyDescending<T>(s: seq<T>, key: T -> real) {
    forall i, j :: 0 <= i < j < |s| ==> key(s[i]) > key(s[j])
  }

  /** A descending sequence whose keys do not repeat is strictly descending. */
  lemma DistinctKeysStrict<T>(s: seq<T>, key: T -> real)
    requires Descending(s, key) && Distinct(MapSeq(s, key))
    ensures StrictlyDescending(s, key)
  {
    forall i, j | 0 <= i < j < |s| ensures key(s[i]) > key(s[j]) {
      MapSeqAt(s, key, i);
      MapSeqAt(s, key, j);
    }
  }

  lemma HeadsAgree<T>(a: seq<T>, b: seq<T>, key: T -> real)
    requires StrictlyDescending(a, key) && Descending(b, key) && multiset(a) == multiset(b) && a != []
    ensures b != [] && a[0] == b[0]
  {
    assert a[0] in multiset(b);
    var p :| 0 <= p < |b| && b[p] == a[0];
    assert b[0] in multiset(a);
    var q :| 0 <= q < |a| && a[q] == b[0];
    assert key(a[q]) == key(b[0]) >= key(b[p]) == key(a[0]);
  }

  lemma RestAgree<T>(a: seq<T>, b: seq<T>)
    requires multiset(a) == multiset(b) && a != [] && b != [] && a[0] == b[0]
    ensures multiset(a[1..]) == multiset(b[1..])
  {
    assert a == [a[0]] + a[1..] && b == [b[0]] + b[1..];
    assert multiset(a[1..]) == multiset(a) - multiset{a[0]};
    assert multiset(b[1..]) == multiset(b) - multiset{b[0]};
  }

  /** Sorting the same entries in different orders gives the same sequence when no two
      keys are equal, so for distinct keys the order ties would take does not matter. */
  lemma {:induction false} DescendingUnique<T>(a: seq<T>, b: seq<T>, key: T -> real)
    requires StrictlyDescending(a, key) && Descending(b, key) && multiset(a) == multiset(b)
    ensures a == b
    decreases |a|
  {
    assert |a| == |multiset(a)| == |multiset(b)| == |b|;
    if a != [] {
      HeadsAgree(a, b, key);
      RestAgree(a, b);
      DescendingUnique(a[1..], b[1..], key);
      assert a == [a[0]] + a[1..] && b == [b[0]] + b[1..];
    }
  }
}
