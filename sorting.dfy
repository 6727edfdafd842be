/** Ordering by a caller-supplied comparison, as in `Array.prototype.sort(cmp)`
    and the record store's `.sort({...})`. The sort is an insertion sort that
    keeps equivalent elements in their input order (a stable sort). */
module Sorting {
  import opened Seqs

  /** `le(a, b)`: `a` may come before `b`. A total preorder compares every pair
      and is transitive; distinct elements may compare equivalent (ties). */
  ghost predicate IsTotalPreorder<T(!new)>(le: (T, T) -> bool) {
    && (forall a, b :: le(a, b) || le(b, a))
    && (forall a, b, c :: le(a, b) && le(b, c) ==> le(a, c))
  }

  predicate SortedBy<T>(s: seq<T>, le: (T, T) -> bool) {
    forall i, j :: 0 <= i < j < |s| ==> le(s[i], s[j])
  }

  /** `s` holds the elements of `rows`, rearranged into an order legal for `le`.
      Ties may come in any order: a store's sort promises nothing about them. */
  ghost predicate ArrangedBy<T>(s: seq<T>, rows: seq<T>, le: (T, T) -> bool) {
    SortedBy(s, le) && multiset(s) == multiset(rows)
  }

  /** Two elements that tie under `le`. */
  predicate Equivalent<T>(a: T, b: T, le: (T, T) -> bool) {
    le(a, b) && le(b, a)
  }

  /** Places `x` after every element of sorted `s` that may precede it. */
  function Insert<T>(x: T, s: seq<T>, le: (T, T) -> bool): seq<T> {
    if s == [] then [x]
    else if le(s[0], x) then [s[0]] + Insert(x, s[1..], le)
    else [x] + s
  }

  /** The stable sort of `s` under `le`. */
  function SortBy<T>(s: seq<T>, le: (T, T) -> bool): seq<T> {
    if s == [] then [] else Insert(s[|s| - 1], SortBy(s[..|s| - 1], le), le)
  }

  lemma {:induction false} InsertPermutes<T>(x: T, s: seq<T>, le: (T, T) -> bool)
    ensures multiset(Insert(x, s, le)) == multiset(s) + multiset{x}
  {
    if s != [] && le(s[0], x) {
      InsertPermutes(x, s[1..], le);
      assert s == [s[0]] + s[1..];
    }
  }

  lemma {:induction false} InsertSorted<T(!new)>(x: T, s: seq<T>, le: (T, T) -> bool)
    requires IsTotalPreorder(le) && SortedBy(s, le)
    ensures SortedBy(Insert(x, s, le), le)
  {
    if s != [] && le(s[0], x) {
      InsertSorted(x, s[1..], le);
      InsertPermutes(x, s[1..], le);
      var rest := Insert(x, s[1..], le);
      forall k | 0 <= k < |rest|
        ensures le(s[0], rest[k])
      {
        assert rest[k] in multiset(rest);
        if rest[k] != x {
          assert rest[k] in multiset(s[1..]);
          var m :| 0 <= m < |s[1..]| && s[1..][m] == rest[k];
          assert s[m + 1] == rest[k];
        }
      }
    }
  }

  /** The sort returns its input rearranged and in ascending order. */
  lemma {:induction false} SortByCorrect<T(!new)>(s: seq<T>, le: (T, T) -> bool)
    requires IsTotalPreorder(le)
    ensures SortedBy(SortBy(s, le), le)
    ensures multiset(SortBy(s, le)) == multiset(s)
    ensures |SortBy(s, le)| == |s|
  {
    if s != [] {
      var init := s[..|s| - 1];
      SortByCorrect(init, le);
      InsertSorted(s[|s| - 1], SortBy(init, le), le);
      InsertPermutes(s[|s| - 1], SortBy(init, le), le);
      assert s == init + [s[|s| - 1]];
    }
    assert |SortBy(s, le)| == |multiset(SortBy(s, le))|;
  }

  /** The elements of `s` that tie with `k`, in their order in `s`. */
  function ClassOf<T>(s: seq<T>, k: T, le: (T, T) -> bool): seq<T> {
    Filter(s, y => Equivalent(y, k, le))
  }

  /** Inserting `x` into a sorted run leaves every other class untouched and
      puts `x` at the end of its own class. */
  lemma {:induction false} InsertClass<T(!new)>(x: T, s: seq<T>, k: T, le: (T, T) -> bool)
    requires IsTotalPreorder(le) && SortedBy(s, le)
    ensures ClassOf(Insert(x, s, le), k, le) == ClassOf(s + [x], k, le)
  {
    if s == [] {
      assert s + [x] == [x] == Insert(x, s, le);
    } else if le(s[0], x) {
      InsertClass(x, s[1..], k, le);
      assert s + [x] == [s[0]] + (s[1..] + [x]);
      assert ([s[0]] + Insert(x, s[1..], le))[1..] == Insert(x, s[1..], le);
      assert (s + [x])[1..] == s[1..] + [x];
    } else {
      // x comes strictly before s[0], hence before all of s: none of s ties with x
      FilterAppend(s, [x], y => Equivalent(y, k, le));
      assert ([x] + s)[1..] == s;
      if Equivalent(x, k, le) {
        forall i | 0 <= i < |s|
          ensures !Equivalent(s[i], k, le)
        {
          assert le(s[0], s[i]) || i == 0;
        }
        FilterNone(s, y => Equivalent(y, k, le));
      }
    }
  }

  lemma {:induction false} FilterNone<T>(s: seq<T>, p: T -> bool)
    requires forall i :: 0 <= i < |s| ==> !p(s[i])
    ensures Filter(s, p) == []
  {
    if s != [] {
      FilterNone(s[1..], p);
    }
  }

  /** Stability: within each group of tying elements the sort keeps the input order. */
  lemma {:induction false} SortByStable<T(!new)>(s: seq<T>, k: T, le: (T, T) -> bool)
    requires IsTotalPreorder(le)
    ensures ClassOf(SortBy(s, le), k, le) == ClassOf(s, k, le)
  {
    if s != [] {
      var init := s[..|s| - 1];
      var x := s[|s| - 1];
      SortByStable(init, k, le);
      SortByCorrect(init, le);
      InsertClass(x, SortBy(init, le), k, le);
      FilterAppend(SortBy(init, le), [x], y => Equivalent(y, k, le));
      FilterAppend(init, [x], y => Equivalent(y, k, le));
      assert s == init + [x];
    }
  }

  /** Cutting a sequence short keeps, of each class, a leading part in the same order. */
  lemma TakeClass<T>(s: seq<T>, n: nat, k: T, le: (T, T) -> bool)
    ensures ClassOf(Take(s, n), k, le) <= ClassOf(s, k, le)
  {
    if n < |s| {
      var p := y => Equivalent(y, k, le);
      assert s == s[..n] + s[n..];
      FilterAppend(s[..n], s[n..], p);
      assert ClassOf(s, k, le) == Filter(s[..n], p) + Filter(s[n..], p);
      assert ClassOf(Take(s, n), k, le) == Filter(s[..n], p);
      var front, back := Filter(s[..n], p), Filter(s[n..], p);
      assert (front + back)[..|front|] == front;
    } else {
      assert Take(s, n) == s;
    }
  }
}
