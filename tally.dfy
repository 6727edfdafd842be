/** Counting dictionaries as the rollup builds them: a plain object used as
    `counts[key] = (counts[key] || 0) + 1`. Its entries come out in the order
    their keys were first added, so it is held as a list of (key, count)
    pairs in that order. */
module Tally {
  import opened Seqs

  type Counts<K> = seq<(K, nat)>

  function Keys<K>(c: Counts<K>): (r: seq<K>)
    ensures |r| == |c| && forall i :: 0 <= i < |c| ==> r[i] == c[i].0
  {
    if c == [] then [] else [c[0].0] + Keys(c[1..])
  }

  /** `counts[k] = (counts[k] || 0) + 1`. */
  function Bump<K(==)>(c: Counts<K>, k: K): Counts<K> {
    if c == [] then [(k, 1)]
    else if c[0].0 == k then [(k, c[0].1 + 1)] + c[1..]
    else [c[0]] + Bump(c[1..], k)
  }

  /** The dictionary after counting every key of `ks`, in order. */
  function TallyOf<K(==)>(ks: seq<K>): Counts<K> {
    if ks == [] then [] else Bump(TallyOf(ks[..|ks| - 1]), ks[|ks| - 1])
  }

  /** The count recorded for `k` (0 when it has no entry). */
  function CountOf<K(==)>(c: Counts<K>, k: K): nat {
    if c == [] then 0 else (if c[0].0 == k then c[0].1 else 0) + CountOf(c[1..], k)
  }

  /** The sum of all counts. */
  function Total<K>(c: Counts<K>): nat {
    if c == [] then 0 else c[0].1 + Total(c[1..])
  }

  lemma {:induction false} BumpCount<K>(c: Counts<K>, k: K, j: K)
    ensures CountOf(Bump(c, k), j) == CountOf(c, j) + (if j == k then 1 else 0)
  {
    if c != [] && c[0].0 != k {
      BumpCount(c[1..], k, j);
      assert Bump(c, k)[1..] == Bump(c[1..], k);
    } else if c != [] {
      assert Bump(c, k)[1..] == c[1..];
    }
  }

  lemma {:induction false} BumpTotal<K>(c: Counts<K>, k: K)
    ensures Total(Bump(c, k)) == Total(c) + 1
  {
    if c != [] && c[0].0 != k {
      BumpTotal(c[1..], k);
      assert Bump(c, k)[1..] == Bump(c[1..], k);
    } else if c != [] {
      assert Bump(c, k)[1..] == c[1..];
    }
  }

  lemma {:induction false} BumpKeys<K>(c: Counts<K>, k: K, j: K)
    ensures j in Keys(Bump(c, k)) <==> j in Keys(c) || j == k
  {
    if c != [] && c[0].0 != k {
      BumpKeys(c[1..], k, j);
      assert Keys(Bump(c, k)) == [c[0].0] + Keys(Bump(c[1..], k));
      assert Keys(c) == [c[0].0] + Keys(c[1..]);
    } else if c != [] {
      assert Keys(Bump(c, k)) == Keys(c);
    }
  }

  lemma {:induction false} BumpDistinct<K>(c: Counts<K>, k: K)
    requires Distinct(Keys(c))
    ensures Distinct(Keys(Bump(c, k)))
  {
    if c != [] && c[0].0 != k {
      var rest := Keys(Bump(c[1..], k));
      assert Keys(c[1..]) == Keys(c)[1..];
      BumpDistinct(c[1..], k);
      assert c[0].0 !in rest by {
        BumpKeys(c[1..], k, c[0].0);
      }
      assert Keys(Bump(c, k)) == [c[0].0] + rest;
    } else if c != [] {
      assert Keys(Bump(c, k)) == Keys(c);
    }
  }

  lemma {:induction false} BumpPositive<K>(c: Counts<K>, k: K)
    requires forall i :: 0 <= i < |c| ==> c[i].1 > 0
    ensures forall i :: 0 <= i < |Bump(c, k)| ==> Bump(c, k)[i].1 > 0
  {
    if c != [] && c[0].0 != k {
      BumpPositive(c[1..], k);
      assert Bump(c, k) == [c[0]] + Bump(c[1..], k);
    }
  }

  /** The dictionary after a run of keys: each key's count is the number of
      times it occurs, the counts add up to the number of keys, the entries
      are exactly the keys that occur, each once, and no count is zero. */
  lemma {:induction false} TallyFacts<K>(ks: seq<K>)
    ensures forall k :: CountOf(TallyOf(ks), k) == multiset(ks)[k]
    ensures Total(TallyOf(ks)) == |ks|
    ensures forall k :: k in Keys(TallyOf(ks)) <==> k in ks
    ensures Distinct(Keys(TallyOf(ks)))
    ensures forall i :: 0 <= i < |TallyOf(ks)| ==> TallyOf(ks)[i].1 > 0
  {
    if ks != [] {
      var init := ks[..|ks| - 1];
      TallyFacts(init);
      var last := ks[|ks| - 1];
      assert ks == init + [last];
      forall k
        ensures CountOf(TallyOf(ks), k) == multiset(ks)[k]
      {
        BumpCount(TallyOf(init), last, k);
      }
      BumpTotal(TallyOf(init), last);
      forall k
        ensures k in Keys(TallyOf(ks)) <==> k in ks
      {
        BumpKeys(TallyOf(init), last, k);
      }
      BumpDistinct(TallyOf(init), last);
      BumpPositive(TallyOf(init), last);
    }
  }

  /** With distinct keys, an entry's count is what `CountOf` reports for its key. */
  lemma {:induction false} EntryCount<K>(c: Counts<K>, i: nat)
    requires Distinct(Keys(c)) && i < |c|
    ensures CountOf(c, c[i].0) == c[i].1
  {
    if i == 0 {
      ZeroCount(c[1..], c[0].0);
    } else {
      assert Keys(c[1..]) == Keys(c)[1..];
      EntryCount(c[1..], i - 1);
      assert c[0].0 != c[i].0 by { assert Keys(c)[0] != Keys(c)[i]; }
    }
  }

  lemma {:induction false} ZeroCount<K>(c: Counts<K>, k: K)
    requires k !in Keys(c)
    ensures CountOf(c, k) == 0
  {
    if c != [] {
      assert Keys(c) == [c[0].0] + Keys(c[1..]);
      ZeroCount(c[1..], k);
    }
  }

  /** A bump either raises the count of an existing key in place or adds the
      new key at the end. */
  lemma {:induction false} BumpShape<K>(c: Counts<K>, k: K)
    ensures Keys(Bump(c, k)) == if k in Keys(c) then Keys(c) else Keys(c) + [k]
  {
    if c != [] && c[0].0 != k {
      BumpShape(c[1..], k);
      assert Keys(Bump(c, k)) == [c[0].0] + Keys(Bump(c[1..], k));
      assert Keys(c) == [c[0].0] + Keys(c[1..]);
    } else if c != [] {
      assert Keys(Bump(c, k)) == Keys(c);
    }
  }

  /** `x` occurs in `ks` at a position up to which `y` has not occurred. */
  predicate MetBefore<K(==)>(ks: seq<K>, x: K, y: K) {
    exists a :: 0 <= a < |ks| && ks[a] == x && y !in ks[..a + 1]
  }

  /** Meeting `x` before `y` stays true as the input grows. */
  lemma MetBeforeExtends<K>(init: seq<K>, last: K, x: K, y: K)
    requires MetBefore(init, x, y)
    ensures MetBefore(init + [last], x, y)
  {
    var a :| 0 <= a < |init| && init[a] == x && y !in init[..a + 1];
    var ks := init + [last];
    assert ks[..a + 1] == init[..a + 1];
    assert ks[a] == x;
  }

  /** A key new at the end of the input is met after every earlier key. */
  lemma MetBeforeNew<K>(init: seq<K>, last: K, x: K)
    requires x in init && last !in init
    ensures MetBefore(init + [last], x, last)
  {
    var a :| 0 <= a < |init| && init[a] == x;
    var ks := init + [last];
    assert ks[..a + 1] == init[..a + 1];
    assert ks[a] == x;
    assert forall z :: z in init[..a + 1] ==> z in init;
  }

  /** One step of the order argument: after the last key is counted, two
      entries are still in first-met order. */
  lemma OrderStep<K>(init: seq<K>, last: K, i: nat, j: nat)
    requires forall i, j :: 0 <= i < j < |Keys(TallyOf(init))| ==> MetBefore(init, Keys(TallyOf(init))[i], Keys(TallyOf(init))[j])
    requires forall k :: k in Keys(TallyOf(init)) <==> k in init
    requires Keys(Bump(TallyOf(init), last)) == if last in Keys(TallyOf(init)) then Keys(TallyOf(init)) else Keys(TallyOf(init)) + [last]
    requires i < j < |Keys(Bump(TallyOf(init), last))|
    ensures MetBefore(init + [last], Keys(Bump(TallyOf(init), last))[i], Keys(Bump(TallyOf(init), last))[j])
  {
    var before := Keys(TallyOf(init));
    var keys := Keys(Bump(TallyOf(init), last));
    if j < |before| {
      assert keys[i] == before[i] && keys[j] == before[j];
      MetBeforeExtends(init, last, before[i], before[j]);
    } else {
      assert keys[j] == last && last !in before;
      assert keys[i] == before[i];
      MetBeforeNew(init, last, before[i]);
    }
  }

  /** Entries come in the order their keys were first met: for two entries, the
      earlier one's key occurs in the input at some position before which (and
      at which) the later one's key has not yet occurred. */
  lemma {:induction false} TallyInFirstSeenOrder<K>(ks: seq<K>)
    ensures forall i, j :: 0 <= i < j < |Keys(TallyOf(ks))| ==> MetBefore(ks, Keys(TallyOf(ks))[i], Keys(TallyOf(ks))[j])
  {
    if ks != [] {
      var init := ks[..|ks| - 1];
      var last := ks[|ks| - 1];
      TallyInFirstSeenOrder(init);
      BumpShape(TallyOf(init), last);
      TallyFacts(init);
      assert ks == init + [last];
      assert TallyOf(ks) == Bump(TallyOf(init), last);
      forall i, j | 0 <= i < j < |Keys(TallyOf(ks))|
        ensures MetBefore(ks, Keys(TallyOf(ks))[i], Keys(TallyOf(ks))[j])
      {
        OrderStep(init, last, i, j);
      }
    }
  }

  /** Distinct keys make distinct entries. */
  lemma DistinctEntries<K>(c: Counts<K>)
    requires Distinct(Keys(c))
    ensures Distinct(c)
  {
    forall i, j | 0 <= i < j < |c|
      ensures c[i] != c[j]
    {
      assert Keys(c)[i] != Keys(c)[j];
    }
  }

  /** The index of the entry holding key `k`. */
  lemma EntryOf<K>(c: Counts<K>, k: K) returns (i: nat)
    requires k in Keys(c)
    ensures i < |c| && c[i].0 == k
  {
    i :| 0 <= i < |Keys(c)| && Keys(c)[i] == k;
  }

  /** Where an entry of a rearranged part of `c` sits in `c`. */
  lemma EntryIn<K>(c: Counts<K>, r: Counts<K>, i: nat) returns (b: nat)
    requires multiset(r) <= multiset(c) && i < |r|
    ensures b < |c| && c[b] == r[i]
  {
    assert r[i] in multiset(r);
    b :| 0 <= b < |c| && c[b] == r[i];
  }

  /** Entries taken from a dictionary, in any order, still have distinct keys
      and still carry the dictionary's count for their key. */
  lemma SubEntries<K>(c: Counts<K>, r: Counts<K>)
    requires Distinct(Keys(c)) && multiset(r) <= multiset(c)
    ensures Distinct(Keys(r))
    ensures forall i :: 0 <= i < |r| ==> r[i].0 in Keys(c) && r[i].1 == CountOf(c, r[i].0)
  {
    DistinctEntries(c);
    PermutationDistinct(c, r);
    forall i, j | 0 <= i < j < |r|
      ensures Keys(r)[i] != Keys(r)[j]
    {
      var b := EntryIn(c, r, i);
      var b' := EntryIn(c, r, j);
      assert Keys(c)[b] == r[i].0 && Keys(c)[b'] == r[j].0;
    }
    forall i | 0 <= i < |r|
      ensures r[i].0 in Keys(c) && r[i].1 == CountOf(c, r[i].0)
    {
      var b := EntryIn(c, r, i);
      assert Keys(c)[b] == r[i].0;
      EntryCount(c, b);
    }
  }

  /** `Array.from(new Set(ks))`: each value once, in the order first met. */
  function Dedupe<K(==)>(ks: seq<K>): seq<K> {
    if ks == [] then []
    else
      var seen := Dedupe(ks[..|ks| - 1]);
      if ks[|ks| - 1] in seen then seen else seen + [ks[|ks| - 1]]
  }

  /** A set and a counting dictionary fed the same values hold the same keys in the same order. */
  lemma {:induction false} DedupeIsKeys<K>(ks: seq<K>)
    ensures Dedupe(ks) == Keys(TallyOf(ks))
  {
    if ks != [] {
      DedupeIsKeys(ks[..|ks| - 1]);
      BumpShape(TallyOf(ks[..|ks| - 1]), ks[|ks| - 1]);
    }
  }

  /** The de-duplicated list holds every value of `ks` exactly once, in the
      order the values were first met. */
  lemma DedupeFacts<K>(ks: seq<K>)
    ensures forall k :: k in Dedupe(ks) <==> k in ks
    ensures Distinct(Dedupe(ks))
    ensures forall i, j :: 0 <= i < j < |Dedupe(ks)| ==> MetBefore(ks, Dedupe(ks)[i], Dedupe(ks)[j])
  {
    DedupeIsKeys(ks);
    TallyFacts(ks);
    TallyInFirstSeenOrder(ks);
  }

  /** For two values of the de-duplicated list, a position of `ks` where the
      earlier value occurs and before which the later one never did. */
  lemma DedupeOrder<K>(ks: seq<K>, i: nat, j: nat) returns (a: nat)
    requires i < j < |Dedupe(ks)|
    ensures a < |ks| && ks[a] == Dedupe(ks)[i] && Dedupe(ks)[j] !in ks[..a + 1]
  {
    DedupeFacts(ks);
    var d := Dedupe(ks);
    assert MetBefore(ks, d[i], d[j]);
    a :| 0 <= a < |ks| && ks[a] == d[i] && d[j] !in ks[..a + 1];
  }
}
