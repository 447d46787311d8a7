// Small helpers shared by every module of the model.
module Util {

  /** The usual optional value; stands for nullable pointers and Python's None. */
  datatype Option<+T> = None | Some(value: T)

  function Min(a: int, b: int): (r: int)
    ensures r <= a && r <= b && (r == a || r == b)
  {
    if a <= b then a else b
  }

  function Max(a: int, b: int): (r: int)
    ensures r >= a && r >= b && (r == a || r == b)
  {
    if a >= b then a else b
  }

  /** ASCII letters and digits (the `isalnum` of the C and Python runtimes on ASCII input). */
  predicate IsAlpha(c: char) { 'a' <= c <= 'z' || 'A' <= c <= 'Z' }
  predicate IsDigit(c: char) { '0' <= c <= '9' }
  predicate IsAlnum(c: char) { IsAlpha(c) || IsDigit(c) }

  /** C `isspace` in the "C" locale. */
  predicate IsSpace(c: char) {
    c == ' ' || c == '\t' || c == '\n' || c == '\r' || c == '\U{b}' || c == '\U{c}'
  }

  function ToLower(c: char): (r: char)
    ensures IsAlnum(c) <==> IsAlnum(r)
  {
    if 'A' <= c <= 'Z' then (c as int + 32) as char else c
  }

  function ToUpper(c: char): (r: char)
    ensures IsAlnum(c) <==> IsAlnum(r)
  {
    if 'a' <= c <= 'z' then (c as int - 32) as char else c
  }

  /** Number of elements of `s` satisfying `p`. */
  function Count<T>(s: seq<T>, p: T -> bool): (n: nat)
    ensures n <= |s|
  {
    if s == [] then 0 else Count(s[..|s| - 1], p) + (if p(s[|s| - 1]) then 1 else 0)
  }

  /** One more element adds one to the count exactly when it satisfies the predicate. */
  lemma CountSnoc<T>(s: seq<T>, i: nat, p: T -> bool)
    requires i < |s|
    ensures Count(s[..i + 1], p) == Count(s[..i], p) + (if p(s[i]) then 1 else 0)
  {
    assert s[..i + 1][..i] == s[..i];
  }

  /** Counting over a longer prefix never gives less. */
  lemma {:induction false} CountPrefixMonotone<T>(s: seq<T>, i: nat, j: nat, p: T -> bool)
    requires i <= j <= |s|
    ensures Count(s[..i], p) <= Count(s[..j], p)
    decreases j - i
  {
    if i < j {
      CountPrefixMonotone(s, i, j - 1, p);
      CountSnoc(s, j - 1, p);
    }
  }

  /** Nothing satisfies `p` exactly when the count is zero. */
  lemma {:induction false} CountZero<T>(s: seq<T>, p: T -> bool)
    ensures Count(s, p) == 0 <==> forall i :: 0 <= i < |s| ==> !p(s[i])
  {
    if s != [] {
      var t := s[..|s| - 1];
      CountZero(t, p);
      assert forall i :: 0 <= i < |t| ==> t[i] == s[i];
    }
  }

  /** The elements of `s` satisfying `p`, in order. */
  function Filter<T>(s: seq<T>, p: T -> bool): (r: seq<T>)
    ensures |r| == Count(s, p)
  {
    if s == [] then [] else Filter(s[..|s| - 1], p) + (if p(s[|s| - 1]) then [s[|s| - 1]] else [])
  }

  lemma FilterSnoc<T>(s: seq<T>, i: nat, p: T -> bool)
    requires i < |s|
    ensures Filter(s[..i + 1], p) == Filter(s[..i], p) + (if p(s[i]) then [s[i]] else [])
  {
    assert s[..i + 1][..i] == s[..i];
  }

  /** Filtering a shorter prefix gives a prefix of the result. */
  lemma {:induction false} FilterPrefix<T>(s: seq<T>, i: nat, j: nat, p: T -> bool)
    requires i <= j <= |s|
    ensures Filter(s[..i], p) <= Filter(s[..j], p)
    decreases j - i
  {
    if i < j {
      FilterPrefix(s, i, j - 1, p);
      FilterSnoc(s, j - 1, p);
    }
  }

  /** Every element kept satisfies the predicate and comes from `s`. */
  lemma {:induction false} FilterElements<T>(s: seq<T>, p: T -> bool)
    ensures forall k :: 0 <= k < |Filter(s, p)| ==> p(Filter(s, p)[k]) && Filter(s, p)[k] in s
  {
    if s != [] {
      var t := s[..|s| - 1];
      FilterElements(t, p);
      assert forall x :: x in t ==> x in s;
    }
  }

  /** Index of the element of `s` that is the n-th (counting from 0) to satisfy `p`, or -1 when
      fewer than n + 1 elements do: what a scan with a countdown `if (p(s[i]) && pick-- == 0)`
      finds. */
  function NthIndex<T>(s: seq<T>, p: T -> bool, n: nat): (r: int)
    ensures -1 <= r < |s|
    ensures r >= 0 ==> p(s[r]) && Count(s[..r], p) == n
  {
    if s == [] then -1
    else
      var t := s[..|s| - 1];
      if n < Count(t, p) then
        var r := NthIndex(t, p, n);
        assert r >= 0 ==> t[..r] == s[..r];
        r
      else if p(s[|s| - 1]) && n == Count(t, p) then |s| - 1
      else -1
  }

  /** The n-th match exists exactly when more than n elements match. */
  lemma {:induction false} NthIndexFound<T>(s: seq<T>, p: T -> bool, n: nat)
    ensures NthIndex(s, p, n) >= 0 <==> n < Count(s, p)
  {
    if s != [] {
      NthIndexFound(s[..|s| - 1], p, n);
    }
  }

  /** A matching element with exactly n matches before it is the n-th match. */
  lemma {:induction false} NthIndexUnique<T>(s: seq<T>, p: T -> bool, n: nat, i: nat)
    requires i < |s| && p(s[i]) && Count(s[..i], p) == n
    ensures NthIndex(s, p, n) == i
  {
    var t := s[..|s| - 1];
    if i < |s| - 1 {
      assert t[..i] == s[..i];
      CountSnoc(t, i, p);
      CountPrefixMonotone(t, i + 1, |t|, p);
      assert t[..|t|] == t;
      NthIndexUnique(t, p, n, i);
    } else {
      assert s[..i] == t;
    }
  }

  /** `0, 1, ..., n - 1`: the identity permutation, as the loops `for (i=0; i<n; ++i) v.push_back(i)`
      build it. */
  function Range(n: nat): (r: seq<int>)
    ensures |r| == n
  {
    seq(n, k => k)
  }

  /** `p` holds each of `0 .. |p| - 1` exactly once. */
  ghost predicate IsRangePerm(p: seq<int>) {
    multiset(p) == multiset(Range(|p|))
  }

  lemma {:induction false} RangeCounts(n: nat, x: int)
    ensures multiset(Range(n))[x] == if 0 <= x < n then 1 else 0
  {
    if n > 0 {
      RangeCounts(n - 1, x);
      assert Range(n) == Range(n - 1) + [n - 1];
    }
  }

  /** Every entry of such a permutation lies in `0 .. |p| - 1`. */
  lemma RangePermBounds(p: seq<int>, j: nat)
    requires IsRangePerm(p) && j < |p|
    ensures 0 <= p[j] < |p|
  {
    assert p[j] in multiset(p);
    RangeCounts(|p|, p[j]);
  }

  /** No entry of such a permutation occurs twice. */
  lemma RangePermDistinct(p: seq<int>, j1: nat, j2: nat)
    requires IsRangePerm(p) && j1 < j2 < |p|
    ensures p[j1] != p[j2]
  {
    if p[j1] == p[j2] {
      var x := p[j1];
      assert p == p[..j2] + p[j2..];
      assert x in p[..j2] && x in p[j2..];
      assert multiset(p)[x] == multiset(p[..j2])[x] + multiset(p[j2..])[x];
      RangeCounts(|p|, x);
    }
  }

  /** Multiplying by the same positive number keeps a strict order, so it can be cancelled. */
  lemma MulCancel(a: int, b: int, n: int)
    requires n > 0 && a * n < b * n
    ensures a < b
  {
    assert (b - a) * n > 0;
  }

  /** Dividing by the same positive number keeps the order. */
  lemma DivMonotone(x: int, y: int, n: int)
    requires 0 <= x <= y && n > 0
    ensures x / n <= y / n
  {
    assert (x / n) * n <= x;
    assert y < (y / n + 1) * n;
    MulCancel(x / n, y / n + 1, n);
  }

  /** At most `k` times `n`, divided by `n`, is at most `k`. */
  lemma DivAtMost(m: int, n: int, k: int)
    requires 0 <= m && n > 0 && m <= k * n
    ensures 0 <= m / n <= k
  {
    assert (m / n) * n <= m;
    MulCancel(m / n, k + 1, n);
  }

  /** Decimal rendering of an integer, as Python's `str` and C's `%d` print it. */
  function NatToString(n: nat): (s: string)
    ensures |s| >= 1
    ensures forall i :: 0 <= i < |s| ==> IsDigit(s[i])
    decreases n
  {
    if n < 10 then [('0' as int + n) as char]
    else NatToString(n / 10) + [('0' as int + n % 10) as char]
  }

  function IntToString(n: int): (s: string)
    ensures |s| >= 1
  {
    if n < 0 then "-" + NatToString(-n) else NatToString(n)
  }
}
