/** The dApp browser: the featured catalogue filtered by category, the address
    bar's navigation history and the favourites list. Page loading is a flag a
    timer clears; nothing is fetched. */
module DappBrowser {
  import opened Wrappers
  import opened Seqs
  import opened Store
  import Text

  /** A featured dApp; its icon is display-only and not modelled. */
  datatype DApp = DApp(name: string, description: string, url: string, category: string, verified: bool)

  const FeaturedDapps: seq<DApp> := [
    DApp("Uniswap", "Decentralized exchange protocol", "https://app.uniswap.org", "DeFi", true),
    DApp("Aave", "Decentralized lending protocol", "https://app.aave.com", "DeFi", true),
    DApp("OpenSea", "NFT marketplace", "https://opensea.io", "NFT", true),
    DApp("Compound", "Algorithmic money markets", "https://app.compound.finance", "DeFi", true),
    DApp("1inch", "DEX aggregator", "https://app.1inch.io", "DeFi", true),
    DApp("Lido", "Liquid staking solution", "https://lido.fi", "Staking", true)
  ]

  datatype Icon = Globe | Coins | Star | Zap

  datatype Category = Category(id: string, name: string, icon: Icon)

  const Categories: seq<Category> := [
    Category("all", "All", Globe),
    Category("defi", "DeFi", Coins),
    Category("nft", "NFT", Star),
    Category("staking", "Staking", Zap)
  ]

  // ---------------------------------------------------------------- catalogue

  /** A dApp is shown under the tab `active` when that is "all" or its
      lower-cased category. */
  predicate Shown(active: string, d: DApp) {
    active == "all" || Text.Lower(d.category) == active
  }

  function ShownIn(active: string): DApp -> bool {
    (d: DApp) => Shown(active, d)
  }

  /** `filteredDApps` over a catalogue (the featured one in the browser): the
      entries shown under `active`, in catalogue order. */
  function FilteredDapps(dapps: seq<DApp>, active: string): (r: seq<DApp>)
    ensures IsSubsequence(r, dapps)
    ensures forall d :: d in r <==> d in dapps && Shown(active, d)
    ensures active == "all" ==> r == dapps
  {
    FilterIsSubsequence(dapps, ShownIn(active));
    FilterMembers(dapps, ShownIn(active));
    if active == "all" then FilterAll(dapps, ShownIn(active)); Filter(dapps, ShownIn(active))
    else Filter(dapps, ShownIn(active))
  }

  /** The tab a featured dApp's category names. */
  function TabOf(d: DApp): nat {
    if d.category == "DeFi" then 1 else if d.category == "NFT" then 2 else 3
  }

  /** Each featured dApp is shown under exactly one tab besides "all", and
      that tab is the lower-cased form of its category. */
  lemma EveryDappHasOneTab(d: DApp)
    requires d in FeaturedDapps
    ensures exists i :: 1 <= i < |Categories| && Shown(Categories[i].id, d)
    ensures forall i :: 1 <= i < |Categories| ==> (Shown(Categories[i].id, d) <==> i == TabOf(d))
  {
    assert Text.Lower("DeFi") == "defi";
    assert Text.Lower("NFT") == "nft";
    assert Text.Lower("Staking") == "staking";
    assert d.category in {"DeFi", "NFT", "Staking"};
    assert Shown(Categories[TabOf(d)].id, d);
  }

  function IdIs(id: string): Category -> bool {
    (c: Category) => c.id == id
  }

  /** `getCategoryIcon`: the icon of the category with exactly that id, and
      the globe for an id no category has. */
  function CategoryIcon(id: string): (r: Icon)
    ensures forall i :: 0 <= i < |Categories| && Categories[i].id == id ==> r == Categories[i].icon
    ensures (forall i :: 0 <= i < |Categories| ==> Categories[i].id != id) ==> r == Globe
  {
    match FirstMatch(Categories, IdIs(id))
    case None => Globe
    case Some(i) => Categories[i].icon
  }

  // ---------------------------------------------------------------- history and favourites

  /** The history after visiting `target`: a URL seen before leaves it as it
      is (it does not move to the front); a new one goes in front of the nine
      most recent others. */
  function Visited(history: seq<string>, target: string): (r: seq<string>)
    ensures target in r
    ensures target in history ==> r == history
    ensures target !in history ==> r[0] == target && r[1..] <= history && |r| <= 10
    ensures forall u :: u in r ==> u == target || u in history
  {
    if target in history then history
    else
      TakeIsPrefix(history, 9);
      var r := [target] + Take(history, 9);
      assert r[1..] == Take(history, 9);
      assert forall u :: u in r[1..] ==> u in history;
      r
  }

  /** Visiting keeps the history free of repeats and within ten entries. */
  lemma VisitedKeepsHistoryShape(history: seq<string>, target: string)
    requires Distinct(history) && |history| <= 10
    ensures Distinct(Visited(history, target)) && |Visited(history, target)| <= 10
  {
    var r := Visited(history, target);
    if target !in history {
      forall i, j | 0 <= i < j < |r|
        ensures r[i] != r[j]
      {
        assert r[j] == r[1..][j - 1];
        assert r[1..][j - 1] in history;
        if i > 0 {
          assert r[i] == r[1..][i - 1];
          assert r[1..] == history[..|r| - 1];
        }
      }
    }
  }

  /** The favourites after toggling `u`: without it when it was there (every
      copy is removed), and with it appended when it was not. */
  function Toggled(favorites: seq<string>, u: string): (r: seq<string>)
    ensures u in favorites ==> u !in r && forall x :: x in r <==> x in favorites && x != u
    ensures u in favorites ==> IsSubsequence(r, favorites)
    ensures u !in favorites ==> r == favorites + [u]
  {
    var keep := (x: string) => x != u;
    FilterMembers(favorites, keep);
    FilterIsSubsequence(favorites, keep);
    if u in favorites then Filter(favorites, keep) else favorites + [u]
  }

  /** Toggling twice gives back a list without `u` unchanged, and a list with
      `u` the same members (with `u` moved to the end). */
  lemma ToggleTwice(favorites: seq<string>, u: string)
    ensures u !in favorites ==> Toggled(Toggled(favorites, u), u) == favorites
    ensures forall x :: x in Toggled(Toggled(favorites, u), u) <==> x in favorites
    ensures u in favorites ==> Toggled(Toggled(favorites, u), u)[|Toggled(Toggled(favorites, u), u)| - 1] == u
  {
    var once := Toggled(favorites, u);
    if u !in favorites {
      assert u in once;
      var keep := (x: string) => x != u;
      FilterAppend(favorites, [u], keep);
      FilterAll(favorites, keep);
      assert Filter([u], keep) == [];
      assert Toggled(once, u) == Filter(once, keep);
    }
  }

  /** Toggling never repeats a URL. */
  lemma ToggledDistinct(favorites: seq<string>, u: string)
    requires Distinct(favorites)
    ensures Distinct(Toggled(favorites, u))
  {
    var r := Toggled(favorites, u);
    if u in favorites {
      FilterMultiset(favorites, (x: string) => x != u);
      PermutationDistinct(favorites, r);
    }
  }

  class DappBrowserView {
    var url: string
    var currentUrl: string
    var isLoading: bool
    var activeCategory: string
    var favorites: seq<string>
    var history: seq<string>

    ghost predicate Valid()
      reads this
    {
      Distinct(history) && |history| <= 10 && Distinct(favorites)
    }

    constructor()
      ensures Valid()
      ensures url == "" && currentUrl == "" && !isLoading && activeCategory == "all"
      ensures favorites == [] && history == []
    {
      url, currentUrl := "", "";
      isLoading := false;
      activeCategory := "all";
      favorites, history := [], [];
    }

    /** `handleNavigate`: the address bar and the page both show the target,
        the page is loading, and the target is recorded in the history. */
    method Navigate(target: string)
      requires Valid()
      modifies this
      ensures Valid()
      ensures url == target && currentUrl == target && isLoading
      ensures history == Visited(old(history), target)
      ensures favorites == old(favorites) && activeCategory == old(activeCategory)
    {
      isLoading := true;
      currentUrl := target;
      url := target;
      VisitedKeepsHistoryShape(history, target);
      history := Visited(history, target);
    }

    /** The address bar's Enter key and search button: nothing happens while
        the bar is empty. */
    method Go()
      requires Valid()
      modifies this
      ensures Valid()
      ensures old(url) == "" ==> unchanged(this)
      ensures old(url) != "" ==> currentUrl == old(url) && isLoading && history == Visited(old(history), old(url))
      ensures url == old(url) && favorites == old(favorites) && activeCategory == old(activeCategory)
    {
      if url != "" {
        Navigate(url);
      }
    }

    /** The simulated load finishing. */
    method FinishLoading()
      modifies this
      ensures !isLoading
      ensures url == old(url) && currentUrl == old(currentUrl) && activeCategory == old(activeCategory)
      ensures favorites == old(favorites) && history == old(history)
    {
      isLoading := false;
    }

    method ToggleFavorite(dappUrl: string)
      requires Valid()
      modifies this
      ensures Valid()
      ensures favorites == Toggled(old(favorites), dappUrl)
      ensures url == old(url) && currentUrl == old(currentUrl) && isLoading == old(isLoading)
      ensures activeCategory == old(activeCategory) && history == old(history)
    {
      ToggledDistinct(favorites, dappUrl);
      favorites := Toggled(favorites, dappUrl);
    }

    method SelectCategory(id: string)
      requires Valid()
      modifies this
      ensures Valid()
      ensures activeCategory == id
      ensures url == old(url) && currentUrl == old(currentUrl) && isLoading == old(isLoading)
      ensures favorites == old(favorites) && history == old(history)
    {
      activeCategory := id;
    }
  }
}
