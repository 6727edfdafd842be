/** Sequence combinators in the shape JavaScript's array methods and the record
    store's cursors have: `filter`, `slice`, `skip`/`limit`, counting and sums. */
module Seqs {

  /** `s.filter(p)`. */
  function Filter<T>(s: seq<T>, p: T -> bool): seq<T> {
    if s == [] then []
    else (if p(s[0]) then [s[0]] else []) + Filter(s[1..], p)
  }

  /** `a` is `b` with some elements left out, the rest kept in order. */
  predicate IsSubsequence<T(==)>(a: seq<T>, b: seq<T>) {
    a == [] || (b != [] && if a[0] == b[0] then IsSubsequence(a[1..], b[1..]) else IsSubsequence(a, b[1..]))
  }

  /** An element survives `filter` exactly when it is in the input and passes the test. */
  lemma {:induction false} FilterMembers<T>(s: seq<T>, p: T -> bool)
    ensures forall x :: x in Filter(s, p) <==> x in s && p(x)
    ensures |Filter(s, p)| <= |s|
  {
    if s != [] {
      FilterMembers(s[1..], p);
      assert s == [s[0]] + s[1..];
    }
  }

  /** Every element `filter` returns passes the test. */
  lemma {:induction false} FilterPasses<T>(s: seq<T>, p: T -> bool)
    ensures forall i :: 0 <= i < |Filter(s, p)| ==> p(Filter(s, p)[i])
  {
    if s != [] {
      FilterPasses(s[1..], p);
      var head := if p(s[0]) then [s[0]] else [];
      assert Filter(s, p) == head + Filter(s[1..], p);
    }
  }

  /** `filter` keeps the surviving elements in their original order. */
  lemma {:induction false} FilterIsSubsequence<T>(s: seq<T>, p: T -> bool)
    ensures IsSubsequence(Filter(s, p), s)
  {
    if s != [] {
      FilterIsSubsequence(s[1..], p);
      var rest := Filter(s[1..], p);
      if p(s[0]) {
        assert Filter(s, p) == [s[0]] + rest;
        assert Filter(s, p)[1..] == rest;
      } else {
        assert Filter(s, p) == rest;
        if rest != [] {
          FilterPasses(s[1..], p);
          assert p(rest[0]);
        }
      }
    }
  }

  /** When every element passes, `filter` returns its input unchanged. */
  lemma {:induction false} FilterAll<T>(s: seq<T>, p: T -> bool)
    requires forall i :: 0 <= i < |s| ==> p(s[i])
    ensures Filter(s, p) == s
  {
    if s != [] {
      FilterAll(s[1..], p);
    }
  }

  /** Filtering never invents elements: the result's multiset is part of the input's. */
  lemma {:induction false} FilterMultiset<T>(s: seq<T>, p: T -> bool)
    ensures multiset(Filter(s, p)) <= multiset(s)
  {
    if s != [] {
      FilterMultiset(s[1..], p);
      assert s == [s[0]] + s[1..];
    }
  }

  lemma {:induction false} FilterAppend<T>(a: seq<T>, b: seq<T>, p: T -> bool)
    ensures Filter(a + b, p) == Filter(a, p) + Filter(b, p)
  {
    if a != [] {
      FilterAppend(a[1..], b, p);
      assert (a + b)[1..] == a[1..] + b;
    } else {
      assert a + b == b;
    }
  }

  /** Number of elements passing `p`. */
  function Count<T>(s: seq<T>, p: T -> bool): nat {
    |Filter(s, p)|
  }

  /** `s.reduce((sum, x) => sum + f(x), 0)` over the elements that pass `p`. */
  function SumWhere<T>(s: seq<T>, p: T -> bool, f: T -> real): real {
    if s == [] then 0.0
    else (if p(s[0]) then f(s[0]) else 0.0) + SumWhere(s[1..], p, f)
  }

  lemma {:induction false} SumWhereAppend<T>(a: seq<T>, b: seq<T>, p: T -> bool, f: T -> real)
    ensures SumWhere(a + b, p, f) == SumWhere(a, p, f) + SumWhere(b, p, f)
  {
    if a != [] {
      SumWhereAppend(a[1..], b, p, f);
      assert (a + b)[1..] == a[1..] + b;
    } else {
      assert a + b == b;
    }
  }

  /** Summing over the elements that pass `p` is summing over what `filter` keeps. */
  lemma {:induction false} SumWhereIsSumOfFilter<T>(s: seq<T>, p: T -> bool, f: T -> real)
    ensures SumWhere(s, p, f) == Sum(Filter(s, p), f)
  {
    if s != [] {
      SumWhereIsSumOfFilter(s[1..], p, f);
      if p(s[0]) {
        assert ([s[0]] + Filter(s[1..], p))[1..] == Filter(s[1..], p);
      } else {
        assert [] + Filter(s[1..], p) == Filter(s[1..], p);
      }
    }
  }

  /** Cursor `.skip(n)`. */
  function Drop<T>(s: seq<T>, n: nat): seq<T> {
    if n <= |s| then s[n..] else []
  }

  /** Cursor `.limit(n)` for a positive `n`, and `slice(0, n)`. */
  function Take<T>(s: seq<T>, n: nat): seq<T> {
    if n <= |s| then s[..n] else s
  }

  /** A window taken with `Take` is a prefix of no more than `n` elements. */
  lemma TakeIsPrefix<T>(s: seq<T>, n: nat)
    ensures |Take(s, n)| == if n <= |s| then n else |s|
    ensures Take(s, n) <= s
  {
  }

  /** A cursor's `.skip(skip).limit(limit)` (the store applies the skip first,
      whatever order the calls were written in): `limit` 0 means no limit and a
      negative limit means its absolute value. */
  function Window<T>(s: seq<T>, skip: nat, limit: int): seq<T> {
    var rest := Drop(s, skip);
    if limit == 0 then rest else Take(rest, if limit < 0 then -limit else limit)
  }

  /** How many rows a window holds: what is left after the skip, capped by the limit. */
  function WindowSize(n: nat, skip: nat, limit: int): nat {
    var left := if skip <= n then n - skip else 0;
    if limit == 0 then left
    else
      var cap := if limit < 0 then -limit else limit;
      if cap < left then cap else left
  }

  /** A window is the run of `s` starting at position `skip`, `WindowSize` rows long. */
  lemma WindowIsSlice<T>(s: seq<T>, skip: nat, limit: int)
    ensures |Window(s, skip, limit)| == WindowSize(|s|, skip, limit)
    ensures skip <= |s| ==> Window(s, skip, limit) == s[skip..skip + WindowSize(|s|, skip, limit)]
  {
  }

  lemma SliceMultiset<T>(s: seq<T>, i: nat, j: nat)
    requires i <= j <= |s|
    ensures multiset(s[i..j]) <= multiset(s)
  {
    assert s == s[..i] + s[i..j] + s[j..];
  }

  /** A window never holds a row its source does not. */
  lemma WindowMultiset<T>(s: seq<T>, skip: nat, limit: int)
    ensures multiset(Window(s, skip, limit)) <= multiset(s)
  {
    WindowIsSlice(s, skip, limit);
    if skip <= |s| {
      SliceMultiset(s, skip, skip + WindowSize(|s|, skip, limit));
    }
  }

  /** Each element of `s` occurs once. */
  predicate Distinct<T(==)>(s: seq<T>) {
    forall i, j :: 0 <= i < j < |s| ==> s[i] != s[j]
  }

  /** A sequence without repeats holds each value at most once. */
  lemma {:induction false} DistinctAtMostOnce<T>(s: seq<T>, x: T)
    requires Distinct(s)
    ensures multiset(s)[x] <= 1
  {
    if s != [] {
      assert s == [s[0]] + s[1..];
      DistinctAtMostOnce(s[1..], x);
      if x == s[0] {
        assert x !in s[1..];
      }
    }
  }

  /** A value at two positions is held twice. */
  lemma Repeated<T>(s: seq<T>, i: nat, j: nat)
    requires i < j < |s| && s[i] == s[j]
    ensures multiset(s)[s[i]] >= 2
  {
    assert s == s[..j] + [s[j]] + s[j + 1..];
    assert s[i] in s[..j];
  }

  /** Whether a sequence repeats a value depends only on its multiset. */
  lemma PermutationDistinct<T>(s: seq<T>, t: seq<T>)
    requires Distinct(s) && multiset(t) <= multiset(s)
    ensures Distinct(t)
  {
    forall i, j | 0 <= i < j < |t|
      ensures t[i] != t[j]
    {
      if t[i] == t[j] {
        Repeated(t, i, j);
        DistinctAtMostOnce(s, t[i]);
        assert false;
      }
    }
  }

  /** The sum of `f` over all of `s`. */
  function Sum<T>(s: seq<T>, f: T -> real): real {
    if s == [] then 0.0 else f(s[0]) + Sum(s[1..], f)
  }

  /** When `p` and `q` pick out complementary parts, their sums make up the whole. */
  lemma {:induction false} SumWhereSplit<T>(s: seq<T>, p: T -> bool, q: T -> bool, f: T -> real)
    requires forall x :: p(x) != q(x)
    ensures SumWhere(s, p, f) + SumWhere(s, q, f) == Sum(s, f)
  {
    if s != [] {
      SumWhereSplit(s[1..], p, q, f);
    }
  }

  /** An element of a rearrangement of `Filter(s, p)` is an element of `s` that passes `p`. */
  lemma FilteredFrom<T>(s: seq<T>, p: T -> bool, r: seq<T>, i: nat) returns (b: nat)
    requires multiset(r) == multiset(Filter(s, p)) && i < |r|
    ensures b < |s| && s[b] == r[i] && p(r[i])
  {
    FilterMembers(s, p);
    assert r[i] in multiset(Filter(s, p));
    assert r[i] in Filter(s, p);
    assert r[i] in s;
    b :| 0 <= b < |s| && s[b] == r[i];
  }

  /** An element of `s` that passes `p` is in any rearrangement of `Filter(s, p)`. */
  lemma KeptBy<T>(s: seq<T>, p: T -> bool, r: seq<T>, b: nat) returns (i: nat)
    requires multiset(r) == multiset(Filter(s, p)) && b < |s| && p(s[b])
    ensures i < |r| && r[i] == s[b]
  {
    FilterMembers(s, p);
    assert s[b] in multiset(r);
    i :| 0 <= i < |r| && r[i] == s[b];
  }
}
