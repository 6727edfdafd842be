/** The record store: three collections (transactions, contacts, purchases),
    each held as partitions keyed by the owning wallet's address, with the
    document-store rules the route handlers rely on. Rows keep insertion
    (natural) order; `updateOne` and `deleteOne` act on the first row, in that
    order, that matches the filter. */
module Store {
  import opened Wrappers
  import opened Records
  import opened Seqs

  /** The rows of partition `w`: `find({ walletAddress: w })` before sorting. */
  function Rows<T>(m: map<string, seq<T>>, w: string): seq<T> {
    if w in m then m[w] else []
  }

  /** Every row of `s` is owned by `w`. */
  predicate OwnedBy<T>(s: seq<T>, owner: T -> string, w: string) {
    forall i :: 0 <= i < |s| ==> owner(s[i]) == w
  }

  /** Every row sits in the partition named by its owner field. */
  predicate Partitioned<T>(m: map<string, seq<T>>, owner: T -> string) {
    forall w :: w in m ==> OwnedBy(m[w], owner, w)
  }

  /** Every row of `s` carries a key the store issued before `next`. */
  predicate KeysBelow<T>(s: seq<T>, id: T -> Option<nat>, next: nat) {
    forall i :: 0 <= i < |s| ==> id(s[i]).Some? && id(s[i]).value < next
  }

  /** No two rows of `s` agree on `key`. */
  predicate DistinctBy<T, K(==)>(s: seq<T>, key: T -> K) {
    forall i, j :: 0 <= i < j < |s| ==> key(s[i]) != key(s[j])
  }

  /** Every row carries an issued key, and keys within a partition differ. */
  predicate IdsIssued<T>(m: map<string, seq<T>>, id: T -> Option<nat>, next: nat) {
    forall w :: w in m ==> KeysBelow(m[w], id, next) && DistinctBy(m[w], id)
  }

  /** In a partitioned store, every row of partition `w` is owned by `w`. */
  lemma RowsOwned<T>(m: map<string, seq<T>>, owner: T -> string, w: string)
    ensures Partitioned(m, owner) ==> forall x :: x in Rows(m, w) ==> owner(x) == w
  {
    if Partitioned(m, owner) {
      forall x | x in Rows(m, w)
        ensures owner(x) == w
      {
        var i :| 0 <= i < |Rows(m, w)| && Rows(m, w)[i] == x;
      }
    }
  }

  /** `insertOne`: the row goes last in partition `w`. */
  function Append<T>(m: map<string, seq<T>>, w: string, x: T): map<string, seq<T>> {
    m[w := Rows(m, w) + [x]]
  }

  /** Position of the first row passing `p`, in natural order. */
  function FirstMatch<T>(s: seq<T>, p: T -> bool): (r: Option<nat>)
    ensures r.Some? ==> r.value < |s| && p(s[r.value]) && forall j :: 0 <= j < r.value ==> !p(s[j])
    ensures r.None? <==> forall j :: 0 <= j < |s| ==> !p(s[j])
  {
    if s == [] then None
    else if p(s[0]) then Some(0)
    else match FirstMatch(s[1..], p)
      case None => None
      case Some(k) => Some(k + 1)
  }

  /** `updateOne(filter, { $set })`: rewrites the first row passing `p` with `f`. */
  function UpdateFirst<T>(s: seq<T>, p: T -> bool, f: T -> T): (r: seq<T>)
    ensures |r| == |s|
    ensures forall i :: 0 <= i < |s| ==> r[i] == if FirstMatch(s, p) == Some(i) then f(s[i]) else s[i]
  {
    if s == [] then []
    else if p(s[0]) then [f(s[0])] + s[1..]
    else [s[0]] + UpdateFirst(s[1..], p, f)
  }

  /** `deleteOne(filter)`: removes the first row passing `p`. */
  function DeleteFirst<T>(s: seq<T>, p: T -> bool): seq<T> {
    if s == [] then []
    else if p(s[0]) then s[1..]
    else [s[0]] + DeleteFirst(s[1..], p)
  }

  /** An update that keeps the filter's verdict and is idempotent on one row
      is idempotent on the collection: sending the same update twice changes
      nothing the first one did not. */
  lemma {:induction false} UpdateFirstIdempotent<T>(s: seq<T>, p: T -> bool, f: T -> T)
    requires forall x :: p(f(x)) == p(x)
    requires forall x :: f(f(x)) == f(x)
    ensures UpdateFirst(UpdateFirst(s, p, f), p, f) == UpdateFirst(s, p, f)
  {
    if s != [] && !p(s[0]) {
      UpdateFirstIdempotent(s[1..], p, f);
      assert UpdateFirst(s, p, f)[1..] == UpdateFirst(s[1..], p, f);
    }
  }

  /** The filter `{ _id: key }`. */
  function KeyIs<T>(id: T -> Option<nat>, key: nat): T -> bool {
    x => id(x) == Some(key)
  }

  /** Rows without key `key`. */
  function KeyIsNot<T>(id: T -> Option<nat>, key: nat): T -> bool {
    x => id(x) != Some(key)
  }

  /** With keys unique, the first row with a key is the only one. */
  lemma OnlyKeyMatch<T>(s: seq<T>, id: T -> Option<nat>, key: nat, i: nat)
    requires DistinctBy(s, id) && i < |s| && id(s[i]) == Some(key)
    ensures FirstMatch(s, KeyIs(id, key)) == Some(i)
  {
    assert KeyIs(id, key)(s[i]);
  }

  /** With keys unique, `updateOne({ _id: key })` rewrites exactly the row with that key. */
  lemma UpdateByKey<T>(s: seq<T>, id: T -> Option<nat>, key: nat, f: T -> T)
    requires DistinctBy(s, id)
    ensures forall i :: 0 <= i < |s| ==>
              UpdateFirst(s, KeyIs(id, key), f)[i] == if id(s[i]) == Some(key) then f(s[i]) else s[i]
  {
    forall i | 0 <= i < |s|
      ensures UpdateFirst(s, KeyIs(id, key), f)[i] == if id(s[i]) == Some(key) then f(s[i]) else s[i]
    {
      if id(s[i]) == Some(key) {
        OnlyKeyMatch(s, id, key, i);
      } else {
        assert !KeyIs(id, key)(s[i]);
      }
    }
  }

  /** With keys unique, `deleteOne({ _id: key })` drops exactly the rows with
      that key (at most one) and keeps the rest in order. */
  lemma DeleteByKey<T>(s: seq<T>, id: T -> Option<nat>, key: nat)
    requires DistinctBy(s, id)
    ensures DeleteFirst(s, KeyIs(id, key)) == Filter(s, KeyIsNot(id, key))
  {
    var keep := KeyIsNot(id, key);
    DeleteSplices(s, KeyIs(id, key));
    match FirstMatch(s, KeyIs(id, key)) {
      case None =>
        forall i | 0 <= i < |s|
          ensures keep(s[i])
        {
          assert !KeyIs(id, key)(s[i]);
        }
        FilterAll(s, keep);
      case Some(k) =>
        forall i | 0 <= i < |s[..k]|
          ensures keep(s[..k][i])
        {
          assert !KeyIs(id, key)(s[i]);
        }
        var after := s[k + 1..];
        forall i | 0 <= i < |after|
          ensures keep(after[i])
        {
          assert after[i] == s[k + 1 + i];
          assert id(s[k]) != id(s[k + 1 + i]);
        }
        assert s == s[..k] + [s[k]] + s[k + 1..];
        FilterAppend(s[..k] + [s[k]], s[k + 1..], keep);
        FilterAppend(s[..k], [s[k]], keep);
        FilterAll(s[..k], keep);
        FilterAll(s[k + 1..], keep);
    }
  }

  /** An update that keeps each row's owner, key and `key2` keeps a partition
      owned, keyed and distinct. */
  lemma UpdateKeeps<T, K>(s: seq<T>, p: T -> bool, f: T -> T, owner: T -> string, w: string,
                              id: T -> Option<nat>, next: nat, key2: T -> K)
    requires forall x :: owner(f(x)) == owner(x) && id(f(x)) == id(x) && key2(f(x)) == key2(x)
    ensures OwnedBy(s, owner, w) ==> OwnedBy(UpdateFirst(s, p, f), owner, w)
    ensures KeysBelow(s, id, next) ==> KeysBelow(UpdateFirst(s, p, f), id, next)
    ensures DistinctBy(s, id) ==> DistinctBy(UpdateFirst(s, p, f), id)
    ensures DistinctBy(s, key2) ==> DistinctBy(UpdateFirst(s, p, f), key2)
  {
    var r := UpdateFirst(s, p, f);
    assert forall i :: 0 <= i < |s| ==> owner(r[i]) == owner(s[i]) && id(r[i]) == id(s[i]) && key2(r[i]) == key2(s[i]);
  }

  /** Rewriting a row of one partition with an update that keeps each row's
      owner keeps the store partitioned. */
  lemma UpdateKeepsPartition<T>(m: map<string, seq<T>>, p: T -> bool, f: T -> T, owner: T -> string, w: string)
    requires Partitioned(m, owner) && w in m
    requires forall x :: owner(f(x)) == owner(x)
    ensures Partitioned(m[w := UpdateFirst(m[w], p, f)], owner)
  {
    var r := UpdateFirst(m[w], p, f);
    assert forall i :: 0 <= i < |r| ==> owner(r[i]) == owner(m[w][i]);
  }

  /** Replacing one partition by rows that again carry distinct issued keys
      keeps every key of the store issued. */
  lemma ReplaceKeepsIds<T>(m: map<string, seq<T>>, w: string, rows: seq<T>, id: T -> Option<nat>, next: nat)
    requires IdsIssued(m, id, next)
    requires KeysBelow(rows, id, next) && DistinctBy(rows, id)
    ensures IdsIssued(m[w := rows], id, next)
  {
  }

  /** `deleteOne` keeps the other rows in order: the row at `i` of the result
      is the row at `i` or `i + 1` of the input. */
  lemma {:induction false} DeleteAt<T>(s: seq<T>, p: T -> bool, k: nat)
    requires k < |s| && p(s[k]) && forall j :: 0 <= j < k ==> !p(s[j])
    ensures DeleteFirst(s, p) == s[..k] + s[k + 1..]
  {
    if k > 0 {
      DeleteAt(s[1..], p, k - 1);
      assert s[1..][..k - 1] == s[1..k];
      assert s[1..][k..] == s[k + 1..];
      assert s[..k] == [s[0]] + s[1..k];
    }
  }

  lemma {:induction false} DeleteNone<T>(s: seq<T>, p: T -> bool)
    requires forall j :: 0 <= j < |s| ==> !p(s[j])
    ensures DeleteFirst(s, p) == s
  {
    if s != [] {
      DeleteNone(s[1..], p);
    }
  }

  /** `deleteOne(filter)` splices the first matching row out, and changes
      nothing when no row matches. */
  lemma DeleteSplices<T>(s: seq<T>, p: T -> bool)
    ensures FirstMatch(s, p).None? ==> DeleteFirst(s, p) == s
    ensures FirstMatch(s, p).Some? ==>
      DeleteFirst(s, p) == s[..FirstMatch(s, p).value] + s[FirstMatch(s, p).value + 1..]
  {
    match FirstMatch(s, p) {
      case None => DeleteNone(s, p);
      case Some(k) => DeleteAt(s, p, k);
    }
  }

  /** Removing one row keeps a partition owned, keyed and distinct. */
  lemma DeleteKeeps<T, K>(s: seq<T>, p: T -> bool, owner: T -> string, w: string,
                          id: T -> Option<nat>, next: nat, key2: T -> K)
    ensures OwnedBy(s, owner, w) ==> OwnedBy(DeleteFirst(s, p), owner, w)
    ensures KeysBelow(s, id, next) ==> KeysBelow(DeleteFirst(s, p), id, next)
    ensures DistinctBy(s, id) ==> DistinctBy(DeleteFirst(s, p), id)
    ensures DistinctBy(s, key2) ==> DistinctBy(DeleteFirst(s, p), key2)
  {
    DeleteSplices(s, p);
    DeleteKeepsDistinct(s, p, id);
    DeleteKeepsDistinct(s, p, key2);
  }

  /** Cutting one row out of a sequence with distinct keys leaves distinct keys. */
  lemma SpliceKeepsDistinct<T, K>(s: seq<T>, k: nat, key: T -> K)
    requires k < |s| && DistinctBy(s, key)
    ensures DistinctBy(s[..k] + s[k + 1..], key)
  {
    var r := s[..k] + s[k + 1..];
    forall i, j | 0 <= i < j < |r|
      ensures key(r[i]) != key(r[j])
    {
      var i' := if i < k then i else i + 1;
      var j' := if j < k then j else j + 1;
      assert r[i] == s[i'];
      assert r[j] == s[j'];
    }
  }

  lemma DeleteKeepsDistinct<T, K>(s: seq<T>, p: T -> bool, key: T -> K)
    ensures DistinctBy(s, key) ==> DistinctBy(DeleteFirst(s, p), key)
  {
    DeleteSplices(s, p);
    if DistinctBy(s, key) && FirstMatch(s, p).Some? {
      SpliceKeepsDistinct(s, FirstMatch(s, p).value, key);
    }
  }

  /** Appending a row owned by `w` with a fresh key keeps a partition owned,
      keyed and distinct, and raises the key bound by one. */
  lemma AppendKeeps<T>(s: seq<T>, x: T, owner: T -> string, w: string, id: T -> Option<nat>, next: nat)
    requires owner(x) == w && id(x) == Some(next)
    ensures OwnedBy(s, owner, w) ==> OwnedBy(s + [x], owner, w)
    ensures KeysBelow(s, id, next) ==> KeysBelow(s + [x], id, next + 1)
    ensures KeysBelow(s, id, next) && DistinctBy(s, id) ==> DistinctBy(s + [x], id)
  {
  }

  /** Appending a row whose key differs from every other row's keeps the keys distinct. */
  lemma AppendKeepsDistinct<T, K>(s: seq<T>, x: T, key: T -> K)
    requires DistinctBy(s, key)
    requires forall i :: 0 <= i < |s| ==> key(s[i]) != key(x)
    ensures DistinctBy(s + [x], key)
  {
  }

  /** Issued keys stay issued when the bound rises. */
  /** Filtering keeps keys distinct. */
  lemma {:induction false} FilterKeepsDistinct<T, K>(s: seq<T>, p: T -> bool, key: T -> K)
    requires DistinctBy(s, key)
    ensures DistinctBy(Filter(s, p), key)
  {
    if s != [] {
      var rest := Filter(s[1..], p);
      FilterKeepsDistinct(s[1..], p, key);
      if p(s[0]) {
        FilterMultiset(s[1..], p);
        forall j | 0 <= j < |rest|
          ensures key(s[0]) != key(rest[j])
        {
          assert rest[j] in multiset(rest);
          assert rest[j] in multiset(s[1..]);
          var k :| 0 <= k < |s[1..]| && s[1..][k] == rest[j];
          assert s[k + 1] == rest[j];
        }
        assert Filter(s, p) == [s[0]] + rest;
      }
    }
  }

  lemma IdsIssuedMonotone<T>(m: map<string, seq<T>>, id: T -> Option<nat>, next: nat)
    requires IdsIssued(m, id, next)
    ensures IdsIssued(m, id, next + 1)
  {
    forall w | w in m
      ensures KeysBelow(m[w], id, next + 1)
    {
      assert KeysBelow(m[w], id, next);
    }
  }

  /** The partitioned collections of the wallet's database. */
  class Db {
    var transactions: map<string, seq<Transaction>>
    var contacts: map<string, seq<Contact>>
    var purchases: map<string, seq<Purchase>>
    /** The next key the store hands out on insert. */
    var nextId: nat

    ghost predicate Valid()
      reads this
    {
      && Partitioned(transactions, TxOwner)
      && Partitioned(contacts, ContactOwner)
      && Partitioned(purchases, PurchaseOwner)
      && IdsIssued(contacts, ContactId, nextId)
      && IdsIssued(purchases, PurchaseId, nextId)
    }

    constructor()
      ensures Valid()
      ensures transactions == map[] && contacts == map[] && purchases == map[] && nextId == 0
    {
      transactions := map[];
      contacts := map[];
      purchases := map[];
      nextId := 0;
    }
  }
}
