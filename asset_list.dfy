/** The asset list: adding a custom token through a form, and how balances are
    abbreviated. Readings of text as numbers are parameters. */
module AssetList {
  import opened Wrappers
  import opened WalletContext

  /** How `formatBalance` shows a balance that reads as `num` (`None`: NaN):
      zero as "0", anything below a hundredth (negatives included) as "< 0.01",
      everything else through the locale's number format. */
  datatype BalanceText = Exact(text: string) | Localized(value: real) | NotANumber

  function FormatBalance(num: Option<real>): (r: BalanceText)
    ensures num == Some(0.0) <==> r == Exact("0")
    ensures (num.Some? && num.value != 0.0 && num.value < 0.01) <==> r == Exact("< 0.01")
    ensures r.Localized? <==> num.Some? && num.value >= 0.01
    ensures r.Localized? ==> r.value == num.value
    ensures r == NotANumber <==> num.None?
  {
    if num.None? then NotANumber
    else if num.value == 0.0 then Exact("0")
    else if num.value < 0.01 then Exact("< 0.01")
    else Localized(num.value)
  }

  /** The token the form adds: what was entered, with no balance yet. */
  function NewToken(address: string, symbol: string, name: string, decimals: Option<int>): (r: Token)
    ensures r.address == address && r.symbol == symbol && r.name == name && r.decimals == decimals && r.balance == "0"
  {
    Token(address, symbol, name, decimals, "0")
  }

  /** The form needs an address, a symbol and a name; the decimals may be anything. */
  predicate Filled(address: string, symbol: string, name: string) {
    address != "" && symbol != "" && name != ""
  }

  class AssetListView {
    var showAddToken: bool
    var tokenAddress: string
    var tokenSymbol: string
    var tokenName: string
    var tokenDecimals: string
    const session: WalletSession

    constructor(session: WalletSession)
      ensures this.session == session && !showAddToken
      ensures tokenAddress == "" && tokenSymbol == "" && tokenName == "" && tokenDecimals == "18"
    {
      this.session := session;
      showAddToken := false;
      tokenAddress, tokenSymbol, tokenName, tokenDecimals := "", "", "", "18";
    }

    /** `handleAddToken`, with `parseInt` reading the decimals (`None`: NaN).
        Without an address, a symbol and a name nothing changes. Otherwise the
        token replaces any listed token with that address, at the end of the
        list, and the form is cleared with decimals back at "18". */
    method HandleAddToken(parseInt: string -> Option<int>) returns (r: Outcome<string>)
      requires session.Valid()
      modifies this, session
      ensures session.Valid()
      ensures r == if Filled(old(tokenAddress), old(tokenSymbol), old(tokenName)) then Pass
                   else Fail("Please fill in all token details")
      ensures session.tokens == if r.Fail? then old(session.tokens)
                                else WithToken(old(session.tokens), NewToken(old(tokenAddress), old(tokenSymbol), old(tokenName), parseInt(old(tokenDecimals))))
      ensures session.State() == old(session.State()).(tokens := session.tokens)
      ensures r.Fail? ==> unchanged(this)
      ensures r.Pass? ==> !showAddToken && tokenAddress == "" && tokenSymbol == "" && tokenName == "" && tokenDecimals == "18"
    {
      if !Filled(tokenAddress, tokenSymbol, tokenName) {
        return Fail("Please fill in all token details");
      }
      var token := NewToken(tokenAddress, tokenSymbol, tokenName, parseInt(tokenDecimals));
      showAddToken := false;
      tokenAddress, tokenSymbol, tokenName, tokenDecimals := "", "", "", "18";
      session.AddCustomToken(token);
      r := Pass;
    }
  }
}
