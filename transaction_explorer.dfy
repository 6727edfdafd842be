/** The explorer: every transaction of the wallet that involves a searched
    address, with the sent and received totals and the number of distinct
    addresses among them. What the by-address query returned is a parameter. */
module TransactionExplorer {
  import opened Wrappers
  import opened Records
  import opened Seqs
  import opened Text

  /** A send from the own address, compared ignoring case. */
  predicate SentBy(tx: Transaction, own: string) {
    tx.txType == Send && EqualsIgnoreCase(tx.from, own)
  }

  /** A receipt at the own address, compared ignoring case. */
  predicate ReceivedBy(tx: Transaction, own: string) {
    tx.txType == Receive && EqualsIgnoreCase(tx.to, own)
  }

  function SentFilter(own: string): Transaction -> bool { (tx: Transaction) => SentBy(tx, own) }

  function ReceivedFilter(own: string): Transaction -> bool { (tx: Transaction) => ReceivedBy(tx, own) }

  /** Every sender and recipient text among the rows, compared exactly. */
  function AddressesOf(rows: seq<Transaction>): (r: set<string>)
    ensures forall a :: a in r <==> exists i :: 0 <= i < |rows| && (rows[i].from == a || rows[i].to == a)
  {
    (set i | 0 <= i < |rows| :: rows[i].from) + (set i | 0 <= i < |rows| :: rows[i].to)
  }

  /** No more distinct addresses than two per row. */
  lemma {:induction false} AddressesBound(rows: seq<Transaction>)
    ensures |AddressesOf(rows)| <= 2 * |rows|
  {
    if rows != [] {
      var last := rows[|rows| - 1];
      AddressesBound(rows[..|rows| - 1]);
      assert AddressesOf(rows) == AddressesOf(rows[..|rows| - 1]) + {last.from, last.to} by {
        forall a | a in AddressesOf(rows)
          ensures a in AddressesOf(rows[..|rows| - 1]) + {last.from, last.to}
        {
          var i :| 0 <= i < |rows| && (rows[i].from == a || rows[i].to == a);
          if i < |rows| - 1 {
            assert rows[..|rows| - 1][i] == rows[i];
          }
        }
        forall a | a in AddressesOf(rows[..|rows| - 1])
          ensures a in AddressesOf(rows)
        {
          var i :| 0 <= i < |rows| - 1 && (rows[..|rows| - 1][i].from == a || rows[..|rows| - 1][i].to == a);
          assert rows[..|rows| - 1][i] == rows[i];
        }
      }
    }
  }

  datatype ExplorerStats = ExplorerStats(totalSent: real, totalReceived: real, uniqueAddresses: nat, mostActiveAddress: string)

  /** What one search leaves on screen: the result rows and their statistics. */
  datatype SearchResult = SearchResult(results: seq<Transaction>, stats: ExplorerStats)

  /** `handleSearch` for the term `term`, wallet `own`, and `found`, what the
      query returned: a blank or all-white-space term does nothing; otherwise
      the rows are shown with the sums of the Sent and the Received tab, the
      number of distinct addresses, and the term itself as "most active". */
  function Search(term: string, own: string, found: seq<Transaction>): (r: Option<SearchResult>)
    ensures r.None? <==> Trim(term) == ""
    ensures r.Some? ==> r.value.results == found && r.value.stats.mostActiveAddress == term
  {
    if Trim(term) == "" then None
    else Some(SearchResult(found, ExplorerStats(SumWhere(found, SentFilter(own), TxValue),
                                                SumWhere(found, ReceivedFilter(own), TxValue),
                                                |AddressesOf(found)|, term)))
  }

  /** The totals add up exactly the rows the Sent and Received tabs count; the
      address count is bounded by the rows and counts each exact text once. */
  lemma SearchStats(term: string, own: string, found: seq<Transaction>)
    requires Trim(term) != ""
    ensures var s := Search(term, own, found).value.stats;
      && s.totalSent == Sum(Filter(found, SentFilter(own)), TxValue)
      && s.totalReceived == Sum(Filter(found, ReceivedFilter(own)), TxValue)
      && (forall tx :: tx in Filter(found, SentFilter(own)) <==> tx in found && SentBy(tx, own))
      && (forall tx :: tx in Filter(found, ReceivedFilter(own)) <==> tx in found && ReceivedBy(tx, own))
      && s.uniqueAddresses <= 2 * |found|
  {
    SumWhereIsSumOfFilter(found, SentFilter(own), TxValue);
    SumWhereIsSumOfFilter(found, ReceivedFilter(own), TxValue);
    FilterMembers(found, SentFilter(own));
    FilterMembers(found, ReceivedFilter(own));
    AddressesBound(found);
  }

  /** No row is counted in both tabs. */
  lemma TabsAreDisjoint(tx: Transaction, own: string)
    ensures !(SentBy(tx, own) && ReceivedBy(tx, own))
  {
  }

  /** A row is drawn as outgoing when its sender is the own address, ignoring case. */
  predicate Outgoing(tx: Transaction, own: string) {
    EqualsIgnoreCase(tx.from, own)
  }

  /** The address a result row is shown against: the recipient of an outgoing
      row, the sender otherwise. */
  function OtherParty(tx: Transaction, own: string): (r: string)
    ensures Outgoing(tx, own) ==> r == tx.to
    ensures !Outgoing(tx, own) ==> r == tx.from
  {
    if Outgoing(tx, own) then tx.to else tx.from
  }

  /** Every row of the Sent tab is drawn as outgoing, against its recipient. A
      receipt is drawn against its sender, unless the sender is the own address
      itself, as with the mirror a self-transfer leaves. */
  lemma OtherPartyAgreesWithTabs(tx: Transaction, own: string)
    ensures SentBy(tx, own) ==> Outgoing(tx, own) && OtherParty(tx, own) == tx.to == Counterparty(tx)
    ensures tx.txType == Receive && !EqualsIgnoreCase(tx.from, own) ==> OtherParty(tx, own) == Counterparty(tx)
    ensures tx.txType == Receive && EqualsIgnoreCase(tx.from, own) ==> OtherParty(tx, own) == tx.to
  {
  }
}
