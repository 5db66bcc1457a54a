/** Table cells as a pandas frame loaded from CSV holds them, Python's `str.strip`,
    Python's string order, and the order `sort_values` puts cells in. */
module Cells {

  datatype Option<T> = None | Some(value: T)

  /** One cell: NaN, a number (int64 and float64 alike, as an exact real), a string,
      or a boolean (the indicator columns that one-hot encoding adds). */
  datatype Cell = Missing | Num(x: real) | Text(s: string) | Flag(b: bool)

  /** The characters for which Python's `str.isspace()` holds; `str.strip()` removes them. */
  predicate IsSpace(c: char) {
    || '\t' <= c <= '\r'
    || '\U{1c}' <= c <= ' '
    || c == '\U{85}' || c == '\U{a0}' || c == '\U{1680}'
    || '\U{2000}' <= c <= '\U{200a}'
    || c == '\U{2028}' || c == '\U{2029}' || c == '\U{202f}' || c == '\U{205f}'
    || c == '\U{3000}'
  }

  predicate AllSpace(s: string) {
    forall i :: 0 <= i < |s| ==> IsSpace(s[i])
  }

  /** Neither end of `s` is whitespace. */
  predicate Trimmed(s: string) {
    s == [] || (!IsSpace(s[0]) && !IsSpace(s[|s| - 1]))
  }

  /** Python's `s.lstrip()`: drops the whitespace at the front. */
  function StripStart(s: string): (r: string)
    ensures |r| <= |s|
  {
    if s != [] && IsSpace(s[0]) then StripStart(s[1..]) else s
  }

  /** `StripStart(s)` is a suffix of `s`, after only whitespace. */
  lemma {:induction false} StripStartShape(s: string)
    ensures var r := StripStart(s);
      && r == s[|s| - |r|..] && AllSpace(s[..|s| - |r|]) && (r == [] || !IsSpace(r[0]))
    decreases |s|
  {
    if s != [] && IsSpace(s[0]) {
      StripStartShape(s[1..]);
      var r := StripStart(s[1..]);
      assert s[..|s| - |r|] == [s[0]] + s[1..][..|s| - 1 - |r|];
    }
  }

  /** Python's `s.rstrip()`: drops the whitespace at the back. */
  function StripEnd(s: string): (r: string)
    ensures |r| <= |s|
  {
    if s != [] && IsSpace(s[|s| - 1]) then StripEnd(s[..|s| - 1]) else s
  }

  /** `StripEnd(s)` is a prefix of `s`, before only whitespace. */
  lemma {:induction false} StripEndShape(s: string)
    ensures var r := StripEnd(s);
      && r == s[..|r|] && AllSpace(s[|r|..]) && (r == [] || !IsSpace(r[|r| - 1]))
    decreases |s|
  {
    if s != [] && IsSpace(s[|s| - 1]) {
      StripEndShape(s[..|s| - 1]);
      var r := StripEnd(s[..|s| - 1]);
      assert s[|r|..] == s[..|s| - 1][|r|..] + [s[|s| - 1]];
    }
  }

  /** Python's `s.strip()`. */
  function Strip(s: string): (r: string)
    ensures Trimmed(r) && |r| <= |s|
  {
    var w := StripStart(s);
    StripStartShape(s);
    StripEndShape(w);
    assert StripEnd(w) != [] ==> StripEnd(w)[0] == w[0];
    StripEnd(w)
  }

  /** `Strip(s)` is what is left of `s` once a whitespace prefix and a whitespace suffix
      are cut off. */
  lemma StripCutsWhitespace(s: string)
    ensures var k := |s| - |StripStart(s)|;
      && k + |Strip(s)| <= |s|
      && s == s[..k] + Strip(s) + s[k + |Strip(s)|..]
      && AllSpace(s[..k]) && AllSpace(s[k + |Strip(s)|..])
  {
    var w := StripStart(s);
    var r := StripEnd(w);
    StripStartShape(s);
    StripEndShape(w);
    SplitAround(s, |s| - |w|, w, r);
  }

  /** A piece `r` at the front of the suffix `w` of `s` splits `s` into three parts. */
  lemma SplitAround(s: string, k: nat, w: string, r: string)
    requires k <= |s| && w == s[k..] && |r| <= |w| && r == w[..|r|]
    ensures s == s[..k] + r + s[k + |r|..] && s[k + |r|..] == w[|r|..]
  {
    assert s == s[..k] + w;
    assert w == r + w[|r|..];
  }

  lemma {:induction false} StripStartOverSpaces(p: string, w: string)
    requires AllSpace(p) && (w == [] || !IsSpace(w[0]))
    ensures StripStart(p + w) == w
    decreases |p|
  {
    if p == [] {
      assert p + w == w;
    } else {
      assert (p + w)[1..] == p[1..] + w;
      StripStartOverSpaces(p[1..], w);
    }
  }

  lemma {:induction false} StripEndOverSpaces(w: string, q: string)
    requires AllSpace(q) && (w == [] || !IsSpace(w[|w| - 1]))
    ensures StripEnd(w + q) == w
    decreases |q|
  {
    if q == [] {
      assert w + q == w;
    } else {
      assert (w + q)[..|w + q| - 1] == w + q[..|q| - 1];
      StripEndOverSpaces(w, q[..|q| - 1]);
    }
  }

  /** Strip is determined by its meaning: whatever whitespace surrounds a trimmed
      string, stripping gives back exactly that string. */
  lemma StripUnique(p: string, r: string, q: string)
    requires AllSpace(p) && AllSpace(q) && Trimmed(r)
    ensures Strip(p + r + q) == r
  {
    if r == [] {
      assert p + r + q == (p + q) + [];
      StripStartOverSpaces(p + q, []);
    } else {
      assert p + r + q == p + (r + q);
      StripStartOverSpaces(p, r + q);
      StripEndOverSpaces(r, q);
    }
  }

  /** Stripping twice is stripping once. */
  lemma StripIdempotent(s: string)
    ensures Strip(Strip(s)) == Strip(s)
  {
    var r := Strip(s);
    assert [] + r + [] == r;
    StripUnique([], r, []);
  }

  /** Python's `a < b` on strings: code-point lexicographic order. */
  predicate StrLess(a: string, b: string)
    decreases |a|
  {
    if a == [] then b != []
    else if b == [] then false
    else if a[0] != b[0] then a[0] < b[0]
    else StrLess(a[1..], b[1..])
  }

  lemma StrLessIrreflexive(a: string)
    ensures !StrLess(a, a)
  {
  }

  lemma StrLessTransitive(a: string, b: string, c: string)
    requires StrLess(a, b) && StrLess(b, c)
    ensures StrLess(a, c)
    decreases |a|
  {
    if a != [] && b != [] && c != [] && a[0] == b[0] && b[0] == c[0] {
      StrLessTransitive(a[1..], b[1..], c[1..]);
    }
  }

  lemma StrLessAsymmetric(a: string, b: string)
    ensures !(StrLess(a, b) && StrLess(b, a))
  {
    if StrLess(a, b) && StrLess(b, a) {
      StrLessTransitive(a, b, a);
      StrLessIrreflexive(a);
    }
  }

  lemma StrLessTotal(a: string, b: string)
    ensures a == b || StrLess(a, b) || StrLess(b, a)
    decreases |a|
  {
    if a != [] && b != [] && a[0] == b[0] {
      StrLessTotal(a[1..], b[1..]);
      if a[1..] == b[1..] {
        assert a == [a[0]] + a[1..] && b == [b[0]] + b[1..];
      }
    }
  }

  /** Rank of a cell's kind in the key order; NaN sorts last (`na_position="last"`). */
  function KindRank(c: Cell): nat {
    match c
    case Num(_) => 0
    case Text(_) => 1
    case Flag(_) => 2
    case Missing => 3
  }

  /** The ascending order `sort_values` uses on a key column: numbers by value, strings
      by code point, False before True, NaN last. Cells of different kinds (a mixed
      column, on which pandas raises) are ordered by kind. */
  predicate KeyLe(a: Cell, b: Cell) {
    if KindRank(a) != KindRank(b) then KindRank(a) < KindRank(b)
    else match (a, b)
      case (Num(x), Num(y)) => x <= y
      case (Text(s), Text(t)) => !StrLess(t, s)
      case (Flag(x), Flag(y)) => !x || y
      case _ => true
  }

  lemma KeyLeTotal(a: Cell, b: Cell)
    ensures KeyLe(a, b) || KeyLe(b, a)
  {
    if a.Text? && b.Text? {
      StrLessAsymmetric(a.s, b.s);
    }
  }

  lemma KeyLeAntisymmetric(a: Cell, b: Cell)
    requires KeyLe(a, b) && KeyLe(b, a)
    ensures a == b
  {
    if a.Text? && b.Text? {
      StrLessTotal(a.s, b.s);
    }
  }

  lemma KeyLeTransitive(a: Cell, b: Cell, c: Cell)
    requires KeyLe(a, b) && KeyLe(b, c)
    ensures KeyLe(a, c)
  {
    if a.Text? && b.Text? && c.Text? {
      if StrLess(c.s, a.s) {
        StrLessTotal(a.s, b.s);
        if StrLess(a.s, b.s) {
          StrLessTransitive(c.s, a.s, b.s);
        }
      }
    }
  }
}
