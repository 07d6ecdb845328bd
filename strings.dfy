/** Prefixes, suffixes, infixes and delimiter scanning over sequences. */
module Strings {

  predicate IsPrefix<T(==)>(p: seq<T>, s: seq<T>) {
    |p| <= |s| && s[..|p|] == p
  }

  predicate IsSuffix<T(==)>(p: seq<T>, s: seq<T>) {
    |p| <= |s| && s[|s| - |p|..] == p
  }

  /** `t` occurs somewhere in `s` as a contiguous block. */
  predicate IsInfix<T(==)>(t: seq<T>, s: seq<T>) {
    exists i | 0 <= i <= |s| - |t| :: OccursAt(t, s, i)
  }

  /** `t` occurs in `s` starting at index `i`. */
  predicate OccursAt<T(==)>(t: seq<T>, s: seq<T>, i: int)
    requires 0 <= i <= |s| - |t|
  {
    s[i..i + |t|] == t
  }

  /** The longest prefix of `s` that does not contain the delimiter `d`. */
  function TakeUntil<T(==)>(s: seq<T>, d: T): (r: seq<T>)
    ensures IsPrefix(r, s)
    ensures d !in r
    ensures |r| < |s| ==> s[|r|] == d
  {
    if s == [] || s[0] == d then [] else [s[0]] + TakeUntil(s[1..], d)
  }

  /** Scanning `a + b` stops exactly at the end of `a` when `a` is free of the
      delimiter and `b` starts with it. */
  lemma {:induction false} TakeUntilStopsAt<T>(a: seq<T>, b: seq<T>, d: T)
    requires d !in a
    requires |b| > 0 && b[0] == d
    ensures TakeUntil(a + b, d) == a
  {
    if a != [] {
      assert (a + b)[1..] == a[1..] + b;
      TakeUntilStopsAt(a[1..], b, d);
    }
  }

  lemma PrefixInfix<T>(p: seq<T>, s: seq<T>)
    requires IsPrefix(p, s)
    ensures IsInfix(p, s)
  {
    assert OccursAt(p, s, 0);
  }

  lemma SuffixInfix<T>(p: seq<T>, s: seq<T>)
    requires IsSuffix(p, s)
    ensures IsInfix(p, s)
  {
    var i := |s| - |p|;
    assert OccursAt(p, s, i);
  }

  lemma InfixOfConcat<T>(a: seq<T>, t: seq<T>, b: seq<T>)
    ensures IsInfix(t, a + t + b)
  {
    assert (a + t + b)[|a|..|a| + |t|] == t;
    assert OccursAt(t, a + t + b, |a|);
  }

  /** An occurrence of an occurrence is an occurrence. */
  lemma InfixTransitive<T>(a: seq<T>, b: seq<T>, c: seq<T>)
    requires IsInfix(a, b) && IsInfix(b, c)
    ensures IsInfix(a, c)
  {
    var i :| 0 <= i <= |b| - |a| && OccursAt(a, b, i);
    var j :| 0 <= j <= |c| - |b| && OccursAt(b, c, j);
    forall k | 0 <= k < |a|
      ensures c[j + i..j + i + |a|][k] == a[k]
    {
      assert a[k] == b[i + k] == c[j + i + k];
    }
    assert OccursAt(a, c, j + i);
  }

  /** If `x + t + y` occurs in `s`, where `x` ends with `open` and `y` starts
      with `close`, then so does `open + t + close`. */
  lemma InfixNarrow<T>(x: seq<T>, open: seq<T>, t: seq<T>, close: seq<T>, y: seq<T>, s: seq<T>)
    requires IsInfix(x + t + y, s)
    requires IsSuffix(open, x) && IsPrefix(close, y)
    ensures IsInfix(open + t + close, s)
  {
    var w := x + t + y;
    var k := |x| - |open|;
    assert w[k..k + |open + t + close|] == open + t + close;
    assert OccursAt(open + t + close, w, k);
    InfixTransitive(open + t + close, w, s);
  }

}
