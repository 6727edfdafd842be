/** The catalogue of test tokens per network and their mock balances, with the
    two lookups the wallet uses to fill its token list. */
module TestTokens {
  import opened Wrappers

  datatype TestToken = TestToken(
    address: string,
    symbol: string,
    name: string,
    decimals: nat,
    icon: string,
    faucetUrl: Option<string>,
    description: string,
    network: string)

  const Networks: seq<string> := ["ethereum", "bsc", "polygon", "arbitrum"]

  const EthereumTokens: seq<TestToken> := [
    TestToken("0x326C977E6efc84E512bB9C30f76E30c160eD06FB", "LINK", "Chainlink Token", 18, "🔗",
              Some("https://faucets.chain.link/"), "Chainlink test token for Ethereum testnet", "ethereum"),
    TestToken("0x07865c6E87B9F70255377e024ace6630C1Eaa37F", "USDC", "USD Coin (Test)", 6, "💵",
              Some("https://faucet.circle.com/"), "Test USDC token for development", "ethereum"),
    TestToken("0xaFF4481D10270F50f203E0763e2597776068CBc5", "WEENUS", "Weenus Token", 18, "🌭",
              Some("https://github.com/bokkypoobah/WeenusTokenFaucet"), "Free test token for Ethereum development", "ethereum"),
    TestToken("0xf4B146FbA71F41E0592668ffbF264F1D186b2Ca8", "XEENUS", "Xeenus Token", 18, "❌",
              Some("https://github.com/bokkypoobah/WeenusTokenFaucet"), "Another free test token for development", "ethereum")]

  const BscTokens: seq<TestToken> := [
    TestToken("0x78867BbEeF44f2326bF8DDd1941a4439382EF2A7", "BUSD", "Binance USD (Test)", 18, "💰",
              Some("https://testnet.binance.org/faucet-smart"), "Test BUSD token for BSC testnet", "bsc"),
    TestToken("0x337610d27c682E347C9cD60BD4b3b107C9d34dDd", "USDT", "Tether USD (Test)", 18, "🟢",
              Some("https://testnet.binance.org/faucet-smart"), "Test USDT token for BSC development", "bsc")]

  const PolygonTokens: seq<TestToken> := [
    TestToken("0x2d7882beDcbfDDce29Ba99965dd3cdF7fcB10A1e", "TST", "Test Token", 18, "🧪",
              Some("https://faucet.polygon.technology/"), "Generic test token for Polygon", "polygon"),
    TestToken("0x0FA8781a83E46826621b3BC094Ea2A0212e71B23", "USDC", "USD Coin (Test)", 6, "💵",
              Some("https://faucet.polygon.technology/"), "Test USDC for Polygon Mumbai", "polygon")]

  const ArbitrumTokens: seq<TestToken> := [
    TestToken("0x179522635726710Dd7D2035a81d856de4Aa7836c", "USDC", "USD Coin (Test)", 6, "💵",
              Some("https://bridge.arbitrum.io/"), "Test USDC for Arbitrum testnet", "arbitrum")]

  const Catalogue: map<string, seq<TestToken>> :=
    map["ethereum" := EthereumTokens, "bsc" := BscTokens, "polygon" := PolygonTokens, "arbitrum" := ArbitrumTokens]

  const MockBalances: map<string, string> := map[
    "0x326C977E6efc84E512bB9C30f76E30c160eD06FB" := "1000.0",
    "0x07865c6E87B9F70255377e024ace6630C1Eaa37F" := "5000.0",
    "0xaFF4481D10270F50f203E0763e2597776068CBc5" := "10000.0",
    "0xf4B146FbA71F41E0592668ffbF264F1D186b2Ca8" := "7500.0",
    "0x78867BbEeF44f2326bF8DDd1941a4439382EF2A7" := "2500.0",
    "0x337610d27c682E347C9cD60BD4b3b107C9d34dDd" := "3000.0",
    "0x2d7882beDcbfDDce29Ba99965dd3cdF7fcB10A1e" := "8000.0",
    "0x0FA8781a83E46826621b3BC094Ea2A0212e71B23" := "4500.0",
    "0x179522635726710Dd7D2035a81d856de4Aa7836c" := "6000.0"
  ]

  /** `getTestTokensForNetwork`: the network's list, or none for an id the
      catalogue does not know. Every token listed belongs to that network. */
  function TokensForNetwork(networkId: string): (r: seq<TestToken>)
    ensures networkId !in Networks ==> r == []
    ensures forall t :: t in r ==> t.network == networkId
  {
    CatalogueNetworks();
    if networkId in Catalogue then Catalogue[networkId] else []
  }

  /** `getTokenBalance`: the mock balance for exactly that address text, or "0". */
  function TokenBalance(tokenAddress: string): (r: string)
    ensures tokenAddress !in MockBalances ==> r == "0"
    ensures r != ""
  {
    if tokenAddress in MockBalances && MockBalances[tokenAddress] != "" then MockBalances[tokenAddress] else "0"
  }

  /** The catalogue is keyed by exactly the four networks, none of them empty,
      and each token's `network` names the list it is in. */
  lemma CatalogueNetworks()
    ensures forall n :: n in Catalogue <==> n in Networks
    ensures forall n :: n in Catalogue ==> |Catalogue[n]| > 0
    ensures forall n, t :: n in Catalogue && t in Catalogue[n] ==> t.network == n
  {
    assert Catalogue.Keys == {"ethereum", "bsc", "polygon", "arbitrum"};
    forall n, t | n in Catalogue && t in Catalogue[n]
      ensures t.network == n
    {
      if n == "ethereum" {
        assert t in EthereumTokens;
      } else if n == "bsc" {
        assert t in BscTokens;
      } else if n == "polygon" {
        assert t in PolygonTokens;
      } else {
        assert t in ArbitrumTokens;
      }
    }
  }

  /** Every catalogued token has a mock balance. */
  lemma EveryTokenHasABalance()
    ensures forall n, t :: n in Catalogue && t in Catalogue[n] ==> t.address in MockBalances
  {
    assert Catalogue.Keys == {"ethereum", "bsc", "polygon", "arbitrum"};
    forall t | t in EthereumTokens ensures t.address in MockBalances { }
    forall t | t in BscTokens ensures t.address in MockBalances { }
    forall t | t in PolygonTokens ensures t.address in MockBalances { }
    forall t | t in ArbitrumTokens ensures t.address in MockBalances { }
  }

  /** The balance lookup is exact: the lower-cased form of a listed address is not found. */
  lemma BalanceLookupIsCaseSensitive()
    ensures TokenBalance("0x326C977E6efc84E512bB9C30f76E30c160eD06FB") == "1000.0"
    ensures TokenBalance("0x326c977e6efc84e512bb9c30f76e30c160ed06fb") == "0"
  {
  }
}
