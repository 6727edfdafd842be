/** The `/api/contacts/frequent` handler: a wallet's contacts ranked by how
    many transactions they took part in. */
module FrequentContactsRoute {
  import opened Wrappers
  import opened Records
  import opened Seqs
  import opened Sorting
  import opened Store
  import opened ContactsRoute

  /** `.sort({ totalTransactions: -1, lastTransactionDate: -1 })`. */
  function MostFrequentFirst(a: Contact, b: Contact): bool {
    || a.totalTransactions > b.totalTransactions
    || (a.totalTransactions == b.totalTransactions && !LaterDate(b.lastTransactionDate, a.lastTransactionDate))
  }

  lemma MostFrequentFirstIsTotalPreorder()
    ensures IsTotalPreorder(MostFrequentFirst)
  {
  }

  /** GET `?walletAddress&limit`, with `limit` already read by `parseInt`
      (`None` when absent, then 10): 400 when the wallet is missing or empty;
      otherwise the first `limit` of the wallet's contacts in ranking order. */
  function Get(m: map<string, seq<Contact>>, walletAddress: Option<string>, limit: Option<int>): (r: Reply<seq<Contact>>)
    ensures (walletAddress.None? || walletAddress == Some("")) <==> r == Refused(400, "Wallet address required")
    ensures r.Refused? || r.Ok?
    ensures r.Ok? ==> walletAddress.Some?
    ensures r.Ok? ==> exists order :: ArrangedBy(order, Rows(m, walletAddress.value), MostFrequentFirst)
                                      && r.body == Window(order, 0, limit.GetOr(10))
    ensures r.Ok? ==> SortedBy(r.body, MostFrequentFirst)
    ensures r.Ok? ==> |r.body| == WindowSize(|Rows(m, walletAddress.value)|, 0, limit.GetOr(10))
    ensures r.Ok? ==> multiset(r.body) <= multiset(Rows(m, walletAddress.value))
    ensures r.Ok? && Partitioned(m, ContactOwner) ==> forall c :: c in r.body ==> c.walletAddress == walletAddress.value
  {
    if walletAddress.None? || walletAddress.value == "" then Refused(400, "Wallet address required")
    else
      var rows := Rows(m, walletAddress.value);
      var order := SortBy(rows, MostFrequentFirst);
      MostFrequentFirstIsTotalPreorder();
      SortByCorrect(rows, MostFrequentFirst);
      WindowIsSlice(order, 0, limit.GetOr(10));
      WindowMultiset(order, 0, limit.GetOr(10));
      RowsOwned(m, ContactOwner, walletAddress.value);
      assert ArrangedBy(order, rows, MostFrequentFirst);
      var page := Window(order, 0, limit.GetOr(10));
      assert forall c :: c in page ==> c in multiset(rows);
      Ok(page)
  }
}
