/** The `/api/purchases` handlers: POST records a purchase, GET lists a
    wallet's purchases newest first, PUT moves one purchase to a new status. */
module PurchasesRoute {
  import opened Wrappers
  import opened Records
  import opened Seqs
  import opened Sorting
  import opened Store

  /** POST: the body is stored last in its wallet's partition under a fresh key. */
  method Post(db: Db, body: Purchase) returns (r: Reply<Purchase>)
    requires db.Valid()
    modifies db
    ensures db.Valid()
    ensures r == Ok(body.(id := Some(old(db.nextId))))
    ensures db.purchases == Append(old(db.purchases), body.walletAddress, r.body)
    ensures db.nextId == old(db.nextId) + 1
    ensures db.transactions == old(db.transactions) && db.contacts == old(db.contacts)
  {
    var w := body.walletAddress;
    var stored := body.(id := Some(db.nextId));
    AppendKeeps(Rows(db.purchases, w), stored, PurchaseOwner, w, PurchaseId, db.nextId);
    IdsIssuedMonotone(db.contacts, ContactId, db.nextId);
    IdsIssuedMonotone(db.purchases, PurchaseId, db.nextId);
    db.purchases := Append(db.purchases, w, stored);
    db.nextId := db.nextId + 1;
    r := Ok(stored);
  }

  /** `.sort({ timestamp: -1 })`. */
  function NewestPurchaseFirst(a: Purchase, b: Purchase): bool {
    a.timestamp >= b.timestamp
  }

  lemma NewestPurchaseFirstIsTotalPreorder()
    ensures IsTotalPreorder(NewestPurchaseFirst)
  {
  }

  /** GET `?walletAddress`: 400 when it is missing or empty; otherwise all of
      the wallet's purchases, newest first. */
  function Get(m: map<string, seq<Purchase>>, walletAddress: Option<string>): (r: Reply<seq<Purchase>>)
    ensures (walletAddress.None? || walletAddress == Some("")) <==> r == Refused(400, "Wallet address required")
    ensures r.Refused? || r.Ok?
    ensures r.Ok? ==> walletAddress.Some? && ArrangedBy(r.body, Rows(m, walletAddress.value), NewestPurchaseFirst)
  {
    if walletAddress.None? || walletAddress.value == "" then Refused(400, "Wallet address required")
    else
      NewestPurchaseFirstIsTotalPreorder();
      SortByCorrect(Rows(m, walletAddress.value), NewestPurchaseFirst);
      Ok(SortBy(Rows(m, walletAddress.value), NewestPurchaseFirst))
  }

  /** The `$set` of a purchase update: the status always, the transaction hash
      only when it is a non-empty string. */
  function StatusPatch(status: PurchaseStatus, transactionHash: Option<string>): Purchase -> Purchase {
    (p: Purchase) => p.(status := status,
                        transactionHash := if transactionHash.Some? && transactionHash.value != "" then transactionHash
                                           else p.transactionHash)
  }

  /** The store after `updateOne({ _id: id, walletAddress: w }, { $set })`. */
  function SetStatus(m: map<string, seq<Purchase>>, id: nat, status: PurchaseStatus, transactionHash: Option<string>, w: string)
    : map<string, seq<Purchase>>
  {
    if w in m then m[w := UpdateFirst(m[w], KeyIs(PurchaseId, id), StatusPatch(status, transactionHash))] else m
  }

  /** PUT: updates the purchase with that key in partition `walletAddress`, if
      there is one, and answers success either way. */
  method Put(db: Db, id: nat, status: PurchaseStatus, transactionHash: Option<string>, walletAddress: string)
    returns (r: Reply<bool>)
    requires db.Valid()
    modifies db
    ensures db.Valid()
    ensures r == Ok(true)
    ensures db.purchases == SetStatus(old(db.purchases), id, status, transactionHash, walletAddress)
    ensures db.transactions == old(db.transactions) && db.contacts == old(db.contacts) && db.nextId == old(db.nextId)
  {
    var w := walletAddress;
    if w in db.purchases {
      var rows := UpdateFirst(db.purchases[w], KeyIs(PurchaseId, id), StatusPatch(status, transactionHash));
      UpdateKeeps(db.purchases[w], KeyIs(PurchaseId, id), StatusPatch(status, transactionHash),
                  PurchaseOwner, w, PurchaseId, db.nextId, PurchaseId);
      db.purchases := db.purchases[w := rows];
    }
    r := Ok(true);
  }

  /** Keys are unique within a wallet, so PUT changes exactly the purchase with
      that key: its status becomes `status`, its transaction hash is replaced
      only by a non-empty one, and nothing else in the store changes. */
  lemma SetStatusTouchesOnlyThatPurchase(m: map<string, seq<Purchase>>, next: nat, id: nat, status: PurchaseStatus,
                                         transactionHash: Option<string>, w: string)
    requires IdsIssued(m, PurchaseId, next)
    ensures var m' := SetStatus(m, id, status, transactionHash, w);
      && (forall v :: v != w ==> Rows(m', v) == Rows(m, v))
      && |Rows(m', w)| == |Rows(m, w)|
      && forall i :: 0 <= i < |Rows(m, w)| ==>
           var p := Rows(m, w)[i];
           Rows(m', w)[i] == if p.id == Some(id)
                             then p.(status := status,
                                     transactionHash := if transactionHash.Some? && transactionHash.value != ""
                                                        then transactionHash else p.transactionHash)
                             else p
  {
    if w in m {
      UpdateByKey(m[w], PurchaseId, id, StatusPatch(status, transactionHash));
    }
  }
}
