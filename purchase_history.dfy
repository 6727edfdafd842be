/** The purchase history screen: a search box and status and provider filters
    over the wallet's fiat purchases, and the provider menu built from them. */
module PurchaseHistory {
  import opened Records
  import opened Seqs
  import opened Text
  import opened Tally

  /** The text the status filter compares with (`purchase.status`). */
  function StatusName(s: PurchaseStatus): string {
    match s
    case PurchasePending => "pending"
    case PurchaseCompleted => "completed"
    case PurchaseFailed => "failed"
    case PurchaseProcessing => "processing"
  }

  /** A purchase is listed when the term occurs, ignoring case, in its provider
      or its crypto currency, and both filters let it through; a filter set to
      "all" lets everything through, the provider filter otherwise compares exactly. */
  predicate Listed(p: Purchase, term: string, statusFilter: string, providerFilter: string) {
    && (Includes(Lower(p.provider), Lower(term)) || Includes(Lower(p.cryptoCurrency), Lower(term)))
    && (statusFilter == "all" || StatusName(p.status) == statusFilter)
    && (providerFilter == "all" || p.provider == providerFilter)
  }

  function ListedBy(term: string, statusFilter: string, providerFilter: string): Purchase -> bool {
    (p: Purchase) => Listed(p, term, statusFilter, providerFilter)
  }

  /** `filteredPurchases`: the listed purchases in their original order. */
  function FilteredPurchases(purchases: seq<Purchase>, term: string, statusFilter: string, providerFilter: string)
    : (r: seq<Purchase>)
    ensures IsSubsequence(r, purchases)
    ensures forall p :: p in r <==> p in purchases && Listed(p, term, statusFilter, providerFilter)
    ensures term == "" && statusFilter == "all" && providerFilter == "all" ==> r == purchases
  {
    var keep := ListedBy(term, statusFilter, providerFilter);
    FilterIsSubsequence(purchases, keep);
    FilterMembers(purchases, keep);
    if term == "" && statusFilter == "all" && providerFilter == "all" then
      EmptySearchListsAll(purchases);
      Filter(purchases, keep)
    else Filter(purchases, keep)
  }

  lemma EmptySearchListsAll(purchases: seq<Purchase>)
    ensures Filter(purchases, ListedBy("", "all", "all")) == purchases
  {
    forall i | 0 <= i < |purchases|
      ensures Listed(purchases[i], "", "all", "all")
    {
      IncludesEmpty(Lower(purchases[i].provider));
      assert Lower("") == "";
    }
    FilterAll(purchases, ListedBy("", "all", "all"));
  }

  function Providers(purchases: seq<Purchase>): (r: seq<string>)
    ensures |r| == |purchases| && forall i :: 0 <= i < |r| ==> r[i] == purchases[i].provider
  {
    seq(|purchases|, i requires 0 <= i < |purchases| => purchases[i].provider)
  }

  /** `uniqueProviders`: every provider name once, as first met in the list. */
  function UniqueProviders(purchases: seq<Purchase>): seq<string> {
    Dedupe(Providers(purchases))
  }

  /** Some purchase with provider `x` comes before every purchase with provider `y`. */
  predicate ComesFirst(purchases: seq<Purchase>, x: string, y: string) {
    exists a :: 0 <= a < |purchases| && purchases[a].provider == x
                && forall b :: 0 <= b <= a ==> purchases[b].provider != y
  }

  /** The provider menu names exactly the providers that occur, each once, in
      the order their first purchase appears. */
  lemma UniqueProvidersFacts(purchases: seq<Purchase>)
    ensures Distinct(UniqueProviders(purchases))
    ensures forall name :: name in UniqueProviders(purchases) <==>
              exists i :: 0 <= i < |purchases| && purchases[i].provider == name
    ensures forall i, j :: 0 <= i < j < |UniqueProviders(purchases)| ==>
              ComesFirst(purchases, UniqueProviders(purchases)[i], UniqueProviders(purchases)[j])
  {
    var names := Providers(purchases);
    var u := UniqueProviders(purchases);
    DedupeFacts(names);
    forall name
      ensures name in u <==> exists i :: 0 <= i < |purchases| && purchases[i].provider == name
    {
      if name in u {
        var i :| 0 <= i < |names| && names[i] == name;
        assert purchases[i].provider == name;
      }
    }
    forall i, j | 0 <= i < j < |u|
      ensures ComesFirst(purchases, u[i], u[j])
    {
      var a := DedupeOrder(names, i, j);
      forall b | 0 <= b <= a
        ensures purchases[b].provider != u[j]
      {
        assert names[..a + 1][b] == names[b];
      }
      assert a < |purchases| && purchases[a].provider == u[i];
    }
  }
}
