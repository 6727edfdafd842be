/** The `/api/transactions/by-address` handler: one wallet's transactions with
    a given counterparty address on either side, newest first. */
module ByAddressRoute {
  import opened Wrappers
  import opened Records
  import opened Seqs
  import opened Sorting
  import opened Store
  import opened TransactionsRoute

  /** The filter `$or: [{ from: address }, { to: address }]`: exact, case-sensitive. */
  function Involves(address: string): Transaction -> bool {
    (t: Transaction) => t.from == address || t.to == address
  }

  /** GET `?walletAddress&address`: 400 unless both are present and non-empty;
      otherwise every row of the wallet's partition that has `address` as its
      sender or its recipient, with no limit, ordered newest first. */
  function Get(m: map<string, seq<Transaction>>, walletAddress: Option<string>, address: Option<string>)
    : (r: Reply<seq<Transaction>>)
    ensures (walletAddress.None? || walletAddress == Some("") || address.None? || address == Some(""))
            <==> r == Refused(400, "Wallet address and target address required")
    ensures r.Refused? || r.Ok?
    ensures r.Ok? ==> walletAddress.Some? && address.Some?
    ensures r.Ok? ==> ArrangedBy(r.body, Filter(Rows(m, walletAddress.value), Involves(address.value)), NewestFirst)
    ensures r.Ok? ==> forall t :: t in r.body <==>
                        t in Rows(m, walletAddress.value) && (t.from == address.value || t.to == address.value)
    ensures r.Ok? && Partitioned(m, TxOwner) ==> forall t :: t in r.body ==> t.walletAddress == walletAddress.value
  {
    if walletAddress.None? || walletAddress.value == "" || address.None? || address.value == "" then
      Refused(400, "Wallet address and target address required")
    else
      var rows := Rows(m, walletAddress.value);
      MatchingRows(rows, address.value);
      RowsOwned(m, TxOwner, walletAddress.value);
      Ok(SortBy(Filter(rows, Involves(address.value)), NewestFirst))
  }

  /** The answer is the matching rows, sorted: exactly the rows naming `address` on either side. */
  lemma MatchingRows(rows: seq<Transaction>, address: string)
    ensures var answer := SortBy(Filter(rows, Involves(address)), NewestFirst);
      && ArrangedBy(answer, Filter(rows, Involves(address)), NewestFirst)
      && forall t :: t in answer <==> t in rows && (t.from == address || t.to == address)
  {
    var matching := Filter(rows, Involves(address));
    NewestFirstIsTotalPreorder();
    SortByCorrect(matching, NewestFirst);
    FilterMembers(rows, Involves(address));
    var answer := SortBy(matching, NewestFirst);
    forall t
      ensures t in answer <==> t in matching
    {
      assert t in answer <==> t in multiset(answer);
      assert t in matching <==> t in multiset(matching);
    }
  }
}
