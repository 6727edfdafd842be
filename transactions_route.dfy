/** The `/api/transactions` handlers: POST stores a transaction, GET pages
    through one wallet's transactions newest first, PUT overwrites the status
    (and optionally the confirmation count) of one of them. */
module TransactionsRoute {
  import opened Wrappers
  import opened Records
  import opened Seqs
  import opened Sorting
  import opened Store

  /** `.sort({ timestamp: -1 })`: `a` may come before `b` when it is no older. */
  function NewestFirst(a: Transaction, b: Transaction): bool {
    a.timestamp >= b.timestamp
  }

  lemma NewestFirstIsTotalPreorder()
    ensures IsTotalPreorder(NewestFirst)
  {
  }

  /** POST: the body is stored as sent, in the partition its own `walletAddress`
      names, with no check for a transaction already stored under the same hash. */
  method Post(db: Db, body: Transaction) returns (r: Reply<Transaction>)
    requires db.Valid()
    modifies db
    ensures db.Valid()
    ensures r == Ok(body)
    ensures db.transactions == Append(old(db.transactions), body.walletAddress, body)
    ensures db.contacts == old(db.contacts) && db.purchases == old(db.purchases) && db.nextId == old(db.nextId)
  {
    assert OwnedBy(Rows(db.transactions, body.walletAddress), TxOwner, body.walletAddress);
    db.transactions := Append(db.transactions, body.walletAddress, body);
    r := Ok(body);
  }

  /** GET `?walletAddress&limit&offset`, with the two numbers already read by
      `parseInt` (`None` when absent). A missing or empty wallet is refused with
      400 before the store is read; a negative offset makes the store fail (500).
      Otherwise the answer is the page of the wallet's rows, newest first, that
      starts `offset` rows in and holds at most `limit` rows (50 by default). */
  function Get(m: map<string, seq<Transaction>>, walletAddress: Option<string>, limit: Option<int>, offset: Option<int>)
    : (r: Reply<seq<Transaction>>)
    ensures (walletAddress.None? || walletAddress == Some("")) <==> r == Refused(400, "Wallet address required")
    ensures r == Refused(500, "Failed to fetch transactions") <==>
              walletAddress.Some? && walletAddress.value != "" && offset.GetOr(0) < 0
    ensures r.Ok? ==> walletAddress.Some? && offset.GetOr(0) >= 0
    ensures r.Ok? ==> exists order :: ArrangedBy(order, Rows(m, walletAddress.value), NewestFirst)
                                      && r.body == Window(order, offset.GetOr(0), limit.GetOr(50))
    ensures r.Ok? ==> SortedBy(r.body, NewestFirst)
    ensures r.Ok? ==> |r.body| == WindowSize(|Rows(m, walletAddress.value)|, offset.GetOr(0), limit.GetOr(50))
    ensures r.Ok? ==> multiset(r.body) <= multiset(Rows(m, walletAddress.value))
    ensures r.Ok? && Partitioned(m, TxOwner) ==> forall t :: t in r.body ==> t.walletAddress == walletAddress.value
  {
    if walletAddress.None? || walletAddress.value == "" then Refused(400, "Wallet address required")
    else if offset.GetOr(0) < 0 then Refused(500, "Failed to fetch transactions")
    else
      var rows := Rows(m, walletAddress.value);
      var order := SortBy(rows, NewestFirst);
      NewestFirstIsTotalPreorder();
      SortByCorrect(rows, NewestFirst);
      WindowIsSlice(order, offset.GetOr(0), limit.GetOr(50));
      WindowMultiset(order, offset.GetOr(0), limit.GetOr(50));
      assert ArrangedBy(order, rows, NewestFirst);
      var page := Window(order, offset.GetOr(0), limit.GetOr(50));
      assert forall t :: t in page ==> t in multiset(rows);
      Ok(page)
  }

  function HashIs(hash: string): Transaction -> bool {
    (t: Transaction) => t.hash == hash
  }

  /** The `$set` of a status update: the status always, the confirmation count
      only when one was supplied. */
  function StatusPatch(status: TxStatus, confirmations: Option<int>): Transaction -> Transaction {
    (t: Transaction) => t.(status := status, confirmations := if confirmations.Some? then confirmations else t.confirmations)
  }

  /** The store after `updateOne({ hash, walletAddress }, { $set })`. */
  function SetStatus(m: map<string, seq<Transaction>>, hash: string, status: TxStatus, confirmations: Option<int>, w: string)
    : map<string, seq<Transaction>>
  {
    if w in m then m[w := UpdateFirst(m[w], HashIs(hash), StatusPatch(status, confirmations))] else m
  }

  /** PUT: writes `status` (and `confirmations` when given) into the first row
      of partition `walletAddress` with that hash, whatever its current status,
      and answers success whether or not a row matched. */
  method Put(db: Db, hash: string, status: TxStatus, confirmations: Option<int>, walletAddress: string) returns (r: Reply<bool>)
    requires db.Valid()
    modifies db
    ensures db.Valid()
    ensures r == Ok(true)
    ensures db.transactions == SetStatus(old(db.transactions), hash, status, confirmations, walletAddress)
    ensures db.contacts == old(db.contacts) && db.purchases == old(db.purchases) && db.nextId == old(db.nextId)
  {
    if walletAddress in db.transactions {
      UpdateKeepsPartition(db.transactions, HashIs(hash), StatusPatch(status, confirmations), TxOwner, walletAddress);
      db.transactions := db.transactions[walletAddress := UpdateFirst(db.transactions[walletAddress], HashIs(hash), StatusPatch(status, confirmations))];
    }
    r := Ok(true);
  }

  /** A status update touches one row at most: the first row of partition `w`
      with the hash. That row gets the new status, and the new confirmation
      count if one was given; every other field of it, every other row and
      every other partition stay as they were. */
  lemma SetStatusTouchesOneRow(m: map<string, seq<Transaction>>, hash: string, status: TxStatus, confirmations: Option<int>, w: string)
    ensures var m' := SetStatus(m, hash, status, confirmations, w);
      && (forall v :: v != w ==> Rows(m', v) == Rows(m, v))
      && |Rows(m', w)| == |Rows(m, w)|
      && (forall i :: 0 <= i < |Rows(m, w)| && Rows(m, w)[i].hash != hash ==> Rows(m', w)[i] == Rows(m, w)[i])
      && (forall i :: 0 <= i < |Rows(m, w)| ==>
            var old_ := Rows(m, w)[i];
            Rows(m', w)[i] == if FirstMatch(Rows(m, w), HashIs(hash)) == Some(i)
                              then old_.(status := status, confirmations := if confirmations.Some? then confirmations else old_.confirmations)
                              else old_)
  {
    var m' := SetStatus(m, hash, status, confirmations, w);
    forall v | v != w
      ensures Rows(m', v) == Rows(m, v)
    {
    }
    forall i | 0 <= i < |Rows(m, w)| && Rows(m, w)[i].hash != hash
      ensures Rows(m', w)[i] == Rows(m, w)[i]
    {
      assert !HashIs(hash)(Rows(m, w)[i]);
    }
  }

  /** With no row of that hash in the partition, a status update changes nothing. */
  lemma SetStatusWithoutMatch(m: map<string, seq<Transaction>>, hash: string, status: TxStatus, confirmations: Option<int>, w: string)
    requires forall i :: 0 <= i < |Rows(m, w)| ==> Rows(m, w)[i].hash != hash
    ensures SetStatus(m, hash, status, confirmations, w) == m
  {
    if w in m {
      var rows := UpdateFirst(m[w], HashIs(hash), StatusPatch(status, confirmations));
      forall j | 0 <= j < |m[w]|
        ensures !HashIs(hash)(m[w][j])
      {
        assert Rows(m, w)[j].hash != hash;
      }
      assert FirstMatch(m[w], HashIs(hash)) == None;
      assert forall i :: 0 <= i < |rows| ==> rows[i] == m[w][i];
      assert rows == m[w];
      assert m[w := rows] == m;
    }
  }

  /** Sending the same status update twice leaves the store as one update left it. */
  lemma SetStatusIdempotent(m: map<string, seq<Transaction>>, hash: string, status: TxStatus, confirmations: Option<int>, w: string)
    ensures var once := SetStatus(m, hash, status, confirmations, w);
      SetStatus(once, hash, status, confirmations, w) == once
  {
    if w in m {
      UpdateFirstIdempotent(m[w], HashIs(hash), StatusPatch(status, confirmations));
    }
  }
}
