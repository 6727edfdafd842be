/** The transaction list: a search box and two drop-down filters over the
    session's cached transactions, and the address each row is shown against. */
module TransactionHistory {
  import opened Wrappers
  import opened Records
  import opened Seqs
  import opened Text

  /** The text a status or type filter compares with (`tx.status`, `tx.type`). */
  function StatusName(s: TxStatus): string {
    match s
    case Pending => "pending"
    case Confirmed => "confirmed"
    case Failed => "failed"
  }

  function TypeName(t: TxType): string {
    match t
    case Send => "send"
    case Receive => "receive"
  }

  /** `x.toLowerCase().includes(term.toLowerCase())`. */
  predicate MatchesIgnoringCase(x: string, term: string) {
    Includes(Lower(x), Lower(term))
  }

  /** The search term occurs, ignoring case, in the hash, the sender, the
      recipient or a non-empty memo. */
  predicate MatchesSearch(tx: Transaction, term: string) {
    || MatchesIgnoringCase(tx.hash, term)
    || MatchesIgnoringCase(tx.from, term)
    || MatchesIgnoringCase(tx.to, term)
    || (tx.memo.Some? && tx.memo.value != "" && MatchesIgnoringCase(tx.memo.value, term))
  }

  /** A transaction is listed when it matches the search and both filters;
      a filter set to "all" lets everything through. */
  predicate Listed(tx: Transaction, term: string, statusFilter: string, typeFilter: string) {
    && MatchesSearch(tx, term)
    && (statusFilter == "all" || StatusName(tx.status) == statusFilter)
    && (typeFilter == "all" || TypeName(tx.txType) == typeFilter)
  }

  function ListedBy(term: string, statusFilter: string, typeFilter: string): Transaction -> bool {
    (tx: Transaction) => Listed(tx, term, statusFilter, typeFilter)
  }

  /** `filteredTransactions`: the listed transactions, in their cached order. */
  function FilteredTransactions(txs: seq<Transaction>, term: string, statusFilter: string, typeFilter: string)
    : (r: seq<Transaction>)
    ensures IsSubsequence(r, txs)
    ensures forall tx :: tx in r <==> tx in txs && Listed(tx, term, statusFilter, typeFilter)
    ensures term == "" && statusFilter == "all" && typeFilter == "all" ==> r == txs
  {
    var p := ListedBy(term, statusFilter, typeFilter);
    FilterIsSubsequence(txs, p);
    FilterMembers(txs, p);
    if term == "" && statusFilter == "all" && typeFilter == "all" then
      EmptySearchListsAll(txs);
      Filter(txs, p)
    else Filter(txs, p)
  }

  /** With no search term and both filters on "all", every transaction is listed. */
  lemma EmptySearchListsAll(txs: seq<Transaction>)
    ensures Filter(txs, ListedBy("", "all", "all")) == txs
  {
    forall i | 0 <= i < |txs|
      ensures Listed(txs[i], "", "all", "all")
    {
      IncludesEmpty(Lower(txs[i].hash));
      assert Lower("") == "";
    }
    FilterAll(txs, ListedBy("", "all", "all"));
  }

  /** The search ignores the case the term is typed in. */
  lemma SearchIgnoresCase(tx: Transaction, term: string, statusFilter: string, typeFilter: string)
    ensures Listed(tx, Upper(term), statusFilter, typeFilter) == Listed(tx, term, statusFilter, typeFilter)
    ensures Listed(tx, Lower(term), statusFilter, typeFilter) == Listed(tx, term, statusFilter, typeFilter)
  {
    LowerForgetsCase(term);
  }

  /** The address a row is shown against: the recipient of a send, the sender otherwise. */
  function OtherAddress(tx: Transaction): (r: string)
    ensures tx.txType == Send ==> r == tx.to
    ensures tx.txType == Receive ==> r == tx.from
  {
    if tx.txType == Send then tx.to else tx.from
  }

  /** The row shows the same party the sync service mirrors the transfer to. */
  lemma OtherAddressIsCounterparty(tx: Transaction)
    ensures OtherAddress(tx) == Counterparty(tx)
  {
  }
}
