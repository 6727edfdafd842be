/** The client-side sync service: every transfer a wallet records is written
    twice, once in the acting wallet's partition and once, with its direction
    flipped, in the counterparty's, so both sides see it. Writes go through the
    record store's transaction handlers; `DatabaseService(w)` stamps `w` into each
    row it sends. Whether a request reaches the server is a parameter. */
module TransactionSync {
  import opened Wrappers
  import opened Records
  import opened Seqs
  import opened Store
  import TransactionsRoute
  import ByAddressRoute

  /** `Down`: the request never reaches the server and `fetch` rejects. */
  datatype Link = Up | Down

  const FetchFailed := "Failed to fetch"

  /** The row `DatabaseService(w)` sends: the record with `walletAddress` set to `w`. */
  function Stamped(t: Transaction, w: string): Transaction {
    t.(walletAddress := w)
  }

  /** The counterparty's copy: `{ ...transaction, type: <the other direction> }`. */
  function Mirror(t: Transaction): (r: Transaction)
    ensures r.txType == Flip(t.txType) && r.txType != t.txType
    ensures r.(txType := t.txType) == t
  {
    t.(txType := Flip(t.txType))
  }

  /** `addTransaction`: a reachable server stores the stamped row in partition `w`. */
  method AddTransaction(db: Db, w: string, t: Transaction, link: Link) returns (r: Outcome<string>)
    requires db.Valid()
    modifies db
    ensures db.Valid()
    ensures r == if link == Up then Pass else Fail(FetchFailed)
    ensures db.transactions == if link == Up then Append(old(db.transactions), w, Stamped(t, w)) else old(db.transactions)
    ensures db.contacts == old(db.contacts) && db.purchases == old(db.purchases) && db.nextId == old(db.nextId)
  {
    if link == Down {
      return Fail(FetchFailed);
    }
    var _ := TransactionsRoute.Post(db, Stamped(t, w));
    r := Pass;
  }

  /** The transaction store after a sync by wallet `w` whose first insert met
      `first` and whose second met `second`. The second is not attempted when
      the first fails, and a failed second does not undo the first. */
  function Synced(m: map<string, seq<Transaction>>, w: string, t: Transaction, first: Link, second: Link)
    : map<string, seq<Transaction>>
  {
    if first == Down then m
    else
      var m1 := Append(m, w, Stamped(t, w));
      if second == Down then m1 else Append(m1, Counterparty(t), Stamped(Mirror(t), Counterparty(t)))
  }

  class TransactionSyncService {
    const walletAddress: string
    const db: Db

    constructor(walletAddress: string, db: Db)
      ensures this.walletAddress == walletAddress && this.db == db
    {
      this.walletAddress := walletAddress;
      this.db := db;
    }

    /** `syncBidirectionalTransaction`: the record goes into this wallet's
        partition; then its mirror goes into the partition of the recipient (for
        a send) or of the sender (for a receive). A failed insert is rethrown. */
    method SyncBidirectional(t: Transaction, first: Link, second: Link) returns (r: Outcome<string>)
      requires db.Valid()
      modifies db
      ensures db.Valid()
      ensures r == if first == Up && second == Up then Pass else Fail(FetchFailed)
      ensures db.transactions == Synced(old(db.transactions), walletAddress, t, first, second)
      ensures db.contacts == old(db.contacts) && db.purchases == old(db.purchases) && db.nextId == old(db.nextId)
    {
      r := AddTransaction(db, walletAddress, t, first);
      if r.Fail? {
        return;
      }
      if t.txType == Send {
        var receiverTransaction := t.(txType := Receive);
        r := AddTransaction(db, t.to, receiverTransaction, second);
      }
      if t.txType == Receive {
        var senderTransaction := t.(txType := Send);
        r := AddTransaction(db, t.from, senderTransaction, second);
      }
    }

    /** `getTransactionsWithAddress`: the by-address query for this wallet; an
        unreachable server gives the empty list. A refusal from the server is
        passed on as it came. */
    method TransactionsWithAddress(address: string, link: Link) returns (r: Reply<seq<Transaction>>)
      ensures link == Down ==> r == Ok([])
      ensures link == Up ==> r == ByAddressRoute.Get(db.transactions, Some(walletAddress), Some(address))
      ensures link == Up && r.Ok? ==> forall t :: t in r.body <==>
                t in Rows(db.transactions, walletAddress) && (t.from == address || t.to == address)
    {
      if link == Down {
        return Ok([]);
      }
      r := ByAddressRoute.Get(db.transactions, Some(walletAddress), Some(address));
    }

    /** `updateTransactionStatusGlobally`: the status update is sent for this
        wallet's partition only, and a failure is swallowed. */
    method UpdateStatusGlobally(hash: string, status: TxStatus, confirmations: Option<int>, link: Link)
      requires db.Valid()
      modifies db
      ensures db.Valid()
      ensures db.transactions == if link == Up then TransactionsRoute.SetStatus(old(db.transactions), hash, status, confirmations, walletAddress)
                                 else old(db.transactions)
      ensures db.contacts == old(db.contacts) && db.purchases == old(db.purchases) && db.nextId == old(db.nextId)
    {
      if link == Up {
        var _ := TransactionsRoute.Put(db, hash, status, confirmations, walletAddress);
      }
    }
  }

  /** A completed sync writes exactly two rows and nothing else: the record in
      the acting partition and its mirror in the counterparty's, both with the
      same hash and differing only in direction and owner. When the counterparty
      is the acting wallet itself, both rows land in that one partition. */
  lemma SyncWritesTwoRows(m: map<string, seq<Transaction>>, w: string, t: Transaction)
    ensures var m' := Synced(m, w, t, Up, Up);
      var cp := Counterparty(t);
      var mine, theirs := Stamped(t, w), Stamped(Mirror(t), cp);
      && (t.txType == Send ==> cp == t.to)
      && (t.txType == Receive ==> cp == t.from)
      && mine.hash == theirs.hash && mine.txType != theirs.txType
      && theirs.(txType := t.txType, walletAddress := w) == mine
      && (w != cp ==> Rows(m', w) == Rows(m, w) + [mine] && Rows(m', cp) == Rows(m, cp) + [theirs])
      && (w == cp ==> Rows(m', w) == Rows(m, w) + [mine, theirs])
      && (forall v :: v != w && v != cp ==> Rows(m', v) == Rows(m, v))
  {
    var cp := Counterparty(t);
    var m1 := Append(m, w, Stamped(t, w));
    if w == cp {
      assert Rows(m1, w) == Rows(m, w) + [Stamped(t, w)];
      assert Rows(m, w) + [Stamped(t, w)] + [Stamped(Mirror(t), cp)] == Rows(m, w) + [Stamped(t, w), Stamped(Mirror(t), cp)];
    }
  }

  /** Nothing is de-duplicated: repeating a sync (for a counterparty other than
      the acting wallet) adds the same row to the acting partition once more,
      whatever was already stored under that hash. */
  lemma SyncTwiceStoresTwice(m: map<string, seq<Transaction>>, w: string, t: Transaction)
    requires Counterparty(t) != w
    ensures var twice := Synced(Synced(m, w, t, Up, Up), w, t, Up, Up);
      var cp := Counterparty(t);
      && Rows(twice, w) == Rows(m, w) + [Stamped(t, w), Stamped(t, w)]
      && Rows(twice, cp) == Rows(m, cp) + [Stamped(Mirror(t), cp), Stamped(Mirror(t), cp)]
      && Count(Rows(twice, w), TransactionsRoute.HashIs(t.hash)) == Count(Rows(m, w), TransactionsRoute.HashIs(t.hash)) + 2
  {
    var once := Synced(m, w, t, Up, Up);
    var cp := Counterparty(t);
    SyncWritesTwoRows(m, w, t);
    SyncWritesTwoRows(once, w, t);
    assert Rows(m, w) + [Stamped(t, w)] + [Stamped(t, w)] == Rows(m, w) + [Stamped(t, w), Stamped(t, w)];
    assert Rows(m, cp) + [Stamped(Mirror(t), cp)] + [Stamped(Mirror(t), cp)]
        == Rows(m, cp) + [Stamped(Mirror(t), cp), Stamped(Mirror(t), cp)];
    var p := TransactionsRoute.HashIs(t.hash);
    FilterAppend(Rows(m, w), [Stamped(t, w), Stamped(t, w)], p);
    assert p(Stamped(t, w));
    FilterAll([Stamped(t, w), Stamped(t, w)], p);
  }

  /** No rollback: when the mirror's insert fails, the acting wallet's row stays
      stored and no other partition changes. */
  lemma FailedMirrorKeepsFirstRow(m: map<string, seq<Transaction>>, w: string, t: Transaction)
    ensures var m' := Synced(m, w, t, Up, Down);
      && Rows(m', w) == Rows(m, w) + [Stamped(t, w)]
      && forall v :: v != w ==> Rows(m', v) == Rows(m, v)
  {
  }

  /** A failed first insert leaves the store as it was. */
  lemma FailedFirstWritesNothing(m: map<string, seq<Transaction>>, w: string, t: Transaction, second: Link)
    ensures Synced(m, w, t, Down, second) == m
  {
  }

  /** The counterparty's copy is never confirmed by the acting wallet: after a
      sync and the acting wallet's status update (for a counterparty other than
      itself), the counterparty's partition still holds the mirror with the
      status it was synced with. */
  lemma MirrorKeepsItsStatus(m: map<string, seq<Transaction>>, w: string, t: Transaction,
                             status: TxStatus, confirmations: Option<int>)
    requires Counterparty(t) != w
    ensures var m' := TransactionsRoute.SetStatus(Synced(m, w, t, Up, Up), t.hash, status, confirmations, w);
      var cp := Counterparty(t);
      && Rows(m', cp) == Rows(m, cp) + [Stamped(Mirror(t), cp)]
      && Rows(m', cp)[|Rows(m, cp)|].status == t.status
  {
    var m1 := Synced(m, w, t, Up, Up);
    SyncWritesTwoRows(m, w, t);
    TransactionsRoute.SetStatusTouchesOneRow(m1, t.hash, status, confirmations, w);
  }
}
