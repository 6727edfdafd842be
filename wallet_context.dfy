/** The wallet session the whole interface shares: the unlocked wallet, its
    network and token list, the cached transactions and contacts, and the
    services bound to the wallet's address. Sends and simulated receipts are
    recorded through the sync service and then fold their amount into the
    matching contact's running totals.

    Random values (hashes, the native balance) and clock readings are
    parameters. Reads of the store and contact updates assume a reachable
    server; the two inserts of a sync each take a `Link`. */
module WalletContext {
  import opened Wrappers
  import opened Records
  import opened Seqs
  import opened Store
  import opened Text
  import opened TestTokens
  import opened TransactionSync
  import opened Sorting
  import TransactionsRoute
  import ContactsRoute

  // ---------------------------------------------------------------- networks

  datatype Network = Network(id: string, name: string, rpcUrl: string, chainId: nat, symbol: string, explorer: string)

  const Ethereum := Network("ethereum", "Ethereum Testnet", "https://goerli.infura.io/v3/demo", 5, "ETH", "https://goerli.etherscan.io")

  const AllNetworks: seq<Network> := [
    Ethereum,
    Network("bsc", "BSC Testnet", "https://data-seed-prebsc-1-s1.binance.org:8545", 97, "BNB", "https://testnet.bscscan.com"),
    Network("polygon", "Polygon Mumbai", "https://rpc-mumbai.maticvigil.com", 80001, "MATIC", "https://mumbai.polygonscan.com"),
    Network("arbitrum", "Arbitrum Testnet", "https://goerli-rollup.arbitrum.io/rpc", 421613, "ETH", "https://goerli.arbiscan.io")
  ]

  /** `NETWORKS.find((n) => n.id === networkId)`. */
  function NetworkIn(ns: seq<Network>, id: string): (r: Option<Network>)
    ensures r.Some? ==> r.value in ns && r.value.id == id
    ensures r.None? <==> forall n :: n in ns ==> n.id != id
  {
    if ns == [] then None
    else if ns[0].id == id then Some(ns[0])
    else NetworkIn(ns[1..], id)
  }

  /** The networks offered are exactly those the token catalogue covers. */
  lemma NetworksCovered(id: string)
    ensures NetworkIn(AllNetworks, id).Some? <==> id in TestTokens.Networks
  {
    assert forall i :: 0 <= i < 4 ==> AllNetworks[i].id == TestTokens.Networks[i];
    if id in TestTokens.Networks {
      var i :| 0 <= i < 4 && TestTokens.Networks[i] == id;
      assert AllNetworks[i] in AllNetworks;
    }
  }

  // ---------------------------------------------------------------- tokens

  /** A token in the wallet's list; `decimals` is `None` when it was entered as
      text that is not a number. Its price and icon are display-only and not modelled. */
  datatype Token = Token(address: string, symbol: string, name: string, decimals: Option<int>, balance: string)

  function TokenAddress(t: Token): string { t.address }

  function AddressDiffers(address: string): Token -> bool {
    (t: Token) => t.address != address
  }

  /** `addCustomToken`: drop any token with the same address, then add the new one last. */
  function WithToken(tokens: seq<Token>, token: Token): (r: seq<Token>)
    ensures |r| >= 1 && r[|r| - 1] == token
    ensures IsSubsequence(r[..|r| - 1], tokens)
    ensures forall t :: t in r[..|r| - 1] <==> t in tokens && t.address != token.address
    ensures forall i :: 0 <= i < |r| && r[i].address == token.address ==> i == |r| - 1
    ensures DistinctBy(tokens, TokenAddress) ==> DistinctBy(r, TokenAddress)
  {
    var kept := Filter(tokens, AddressDiffers(token.address));
    FilterIsSubsequence(tokens, AddressDiffers(token.address));
    FilterMembers(tokens, AddressDiffers(token.address));
    FilterPasses(tokens, AddressDiffers(token.address));
    assert (kept + [token])[..|kept|] == kept;
    WithTokenDistinct(tokens, token);
    kept + [token]
  }

  lemma WithTokenDistinct(tokens: seq<Token>, token: Token)
    ensures DistinctBy(tokens, TokenAddress) ==>
              DistinctBy(Filter(tokens, AddressDiffers(token.address)) + [token], TokenAddress)
  {
    if DistinctBy(tokens, TokenAddress) {
      var kept := Filter(tokens, AddressDiffers(token.address));
      FilterKeepsDistinct(tokens, AddressDiffers(token.address), TokenAddress);
      FilterPasses(tokens, AddressDiffers(token.address));
      AppendKeepsDistinct(kept, token, TokenAddress);
    }
  }

  /** The token list `refreshBalances` builds for a network: its catalogue
      entries, each with its mock balance. */
  function NetworkTokens(networkId: string): (r: seq<Token>)
    ensures |r| == |TokensForNetwork(networkId)|
    ensures forall i :: 0 <= i < |r| ==>
              var t := TokensForNetwork(networkId)[i];
              r[i] == Token(t.address, t.symbol, t.name, Some(t.decimals), TokenBalance(t.address))
  {
    var listed := TokensForNetwork(networkId);
    seq(|listed|, i requires 0 <= i < |listed| =>
      Token(listed[i].address, listed[i].symbol, listed[i].name, Some(listed[i].decimals), TokenBalance(listed[i].address)))
  }

  datatype Nft = Nft(tokenId: string, contractAddress: string, name: string, description: string, image: string, collection: string)

  const MockNfts: seq<Nft> := [
    Nft("1", "0x...", "Cool Cat #1234", "A cool cat NFT", "/placeholder.svg?height=200&width=200", "Cool Cats"),
    Nft("2", "0x...", "Bored Ape #5678", "A bored ape NFT", "/placeholder.svg?height=200&width=200", "Bored Ape Yacht Club")
  ]

  // ---------------------------------------------------------------- records

  /** `tokenSymbol`: for a token address that is present and non-empty, the
      symbol of the first listed token with exactly that address (absent if
      none); otherwise the network's own symbol. */
  function TokenSymbolFor(tokenAddress: Option<string>, tokens: seq<Token>, network: Network): (r: Option<string>)
    ensures (tokenAddress.None? || tokenAddress == Some("")) ==> r == Some(network.symbol)
    ensures tokenAddress.Some? && tokenAddress.value != "" ==>
              (r.None? <==> forall t :: t in tokens ==> t.address != tokenAddress.value)
    ensures tokenAddress.Some? && tokenAddress.value != "" && r.Some? ==>
              exists t :: t in tokens && t.address == tokenAddress.value && t.symbol == r.value
  {
    if tokenAddress.None? || tokenAddress.value == "" then Some(network.symbol)
    else
      match FirstMatch(tokens, (t: Token) => t.address == tokenAddress.value)
      case None => None
      case Some(i) => Some(tokens[i].symbol)
  }

  /** The record `sendTransaction` builds (its owner is stamped when it is stored). */
  function SendRecord(hash: string, from: string, to: string, amount: real, now: int, tokenAddress: Option<string>,
                      memo: Option<string>, tokens: seq<Token>, network: Network): (r: Transaction)
    ensures r.hash == hash && r.from == from && r.to == to && r.value == amount && r.timestamp == now
    ensures r.status == Pending && r.txType == Send && r.network == network.id
    ensures r.token == tokenAddress && r.memo == memo && r.confirmations.None? && r.blockNumber.None?
    ensures r.gasUsed == Some("21000") && r.gasPrice == Some("20") && r.fees == Some("0.00042")
    ensures r.tokenSymbol == TokenSymbolFor(tokenAddress, tokens, network)
  {
    Transaction(hash, from, to, amount, now, Pending, Send, tokenAddress, TokenSymbolFor(tokenAddress, tokens, network),
                Some("21000"), Some("20"), Some("0.00042"), network.id, None, None, memo, "")
  }

  /** The record `simulateReceiveTransaction` builds: already confirmed, twelve times. */
  function ReceiveRecord(hash: string, from: string, to: string, amount: real, now: int, tokenAddress: Option<string>,
                         memo: Option<string>, tokens: seq<Token>, network: Network): (r: Transaction)
    ensures r.hash == hash && r.from == from && r.to == to && r.value == amount && r.timestamp == now
    ensures r.status == Confirmed && r.confirmations == Some(12) && r.txType == Receive && r.network == network.id
    ensures r.token == tokenAddress && r.memo == memo && r.blockNumber.None?
    ensures r.gasUsed == Some("21000") && r.gasPrice == Some("20") && r.fees == Some("0.00042")
    ensures r.tokenSymbol == TokenSymbolFor(tokenAddress, tokens, network)
  {
    Transaction(hash, from, to, amount, now, Confirmed, Receive, tokenAddress, TokenSymbolFor(tokenAddress, tokens, network),
                Some("21000"), Some("20"), Some("0.00042"), network.id, None, Some(12), memo, "")
  }

  // ---------------------------------------------------------------- contacts

  function SameAddressIgnoringCase(address: string): Contact -> bool {
    (c: Contact) => EqualsIgnoreCase(c.address, address)
  }

  /** `getContactByAddress`: the first cached contact whose address equals
      `address` ignoring case. */
  function ContactByAddress(contacts: seq<Contact>, address: string): (r: Option<Contact>)
    ensures r.None? <==> forall i :: 0 <= i < |contacts| ==> !EqualsIgnoreCase(contacts[i].address, address)
    ensures r.Some? ==> exists i :: 0 <= i < |contacts| && contacts[i] == r.value
                                    && EqualsIgnoreCase(r.value.address, address)
                                    && forall j :: 0 <= j < i ==> !EqualsIgnoreCase(contacts[j].address, address)
  {
    match FirstMatch(contacts, SameAddressIgnoringCase(address))
    case None => None
    case Some(i) => Some(contacts[i])
  }

  /** The `$set` that folds one transfer into a contact: one more transaction,
      the last transaction date set to the clock reading, the amount added to
      the sent or the received total, and the update time the database
      service stamps. */
  function TotalsPatch(c: Contact, amount: real, isSend: bool, now: int): ContactPatch {
    ContactPatch(None, None, None, None, Some(now), Some(c.totalTransactions + 1),
                 if isSend then Some(c.totalSent + amount) else None,
                 if isSend then None else Some(c.totalReceived + amount),
                 Some(now))
  }

  /** Applied to the contact it was built from, the patch counts one more
      transaction, dates it at `now` (not at the transaction's own time), adds
      the amount to exactly one of the two totals, and changes nothing else
      the user edits. */
  lemma TotalsPatchEffect(c: Contact, amount: real, isSend: bool, now: int)
    ensures var u := ApplyPatch(c, TotalsPatch(c, amount, isSend, now));
      && u.totalTransactions == c.totalTransactions + 1
      && u.lastTransactionDate == Some(now) && u.updatedAt == now
      && u.totalSent == (if isSend then c.totalSent + amount else c.totalSent)
      && u.totalReceived == (if isSend then c.totalReceived else c.totalReceived + amount)
      && u.name == c.name && u.address == c.address && u.notes == c.notes && u.tags == c.tags
      && u.isFavorite == c.isFavorite && u.id == c.id && u.walletAddress == c.walletAddress
  {
  }

  /** The contact store after `updateContactFromTransaction`: the matched
      contact's totals are patched in the service's partition, when there is a
      service, a match, and a key to address it by. */
  function ContactsTouched(m: map<string, seq<Contact>>, service: Option<string>, found: Option<Contact>,
                           amount: real, isSend: bool, now: int): map<string, seq<Contact>> {
    if service.Some? && found.Some? && found.value.id.Some? then
      ContactsRoute.Patched(m, found.value.id.value, TotalsPatch(found.value, amount, isSend, now), service.value)
    else m
  }

  /** In the store, the update reaches exactly the stored contact carrying the
      matched contact's key, and folds the amount into it. */
  lemma ContactsTouchedEffect(m: map<string, seq<Contact>>, next: nat, w: string, found: Contact, amount: real, isSend: bool, now: int)
    requires IdsIssued(m, ContactId, next) && found.id.Some?
    ensures var m' := ContactsTouched(m, Some(w), Some(found), amount, isSend, now);
      && (forall v :: v != w ==> Rows(m', v) == Rows(m, v))
      && |Rows(m', w)| == |Rows(m, w)|
      && forall i :: 0 <= i < |Rows(m, w)| ==>
           Rows(m', w)[i] == if Rows(m, w)[i].id == found.id
                             then ApplyPatch(Rows(m, w)[i], TotalsPatch(found, amount, isSend, now))
                             else Rows(m, w)[i]
  {
    ContactsRoute.PatchedTouchesOnlyThatContact(m, next, found.id.value, TotalsPatch(found, amount, isSend, now), w);
  }

  /** The contact store after `addContact(contact)` with clock reading `now`:
      through a service bound to `w` the contact is posted stamped with `w` and
      `now`, and stored under key `next` unless `w` already has a contact with
      that exact address; without a service nothing is sent. */
  function ContactsAdded(m: map<string, seq<Contact>>, service: Option<string>, contact: Contact, next: nat, now: int)
    : map<string, seq<Contact>>
  {
    if service.None? then m
    else
      var body := contact.(walletAddress := service.value, createdAt := now, updatedAt := now);
      if ContactsRoute.Existing(m, service.value, contact.address).Some? then m
      else Append(m, service.value, body.(id := Some(next)))
  }

  /** The contact store after `updateContact(id, updates)` with clock reading
      `now`: the update, stamped with `now`, goes to the contact with that key
      in the service's partition. A contact without a key is looked up by a
      key nothing carries, so nothing changes. */
  function ContactsUpdated(m: map<string, seq<Contact>>, service: Option<string>, id: Option<nat>, updates: ContactPatch, now: int)
    : map<string, seq<Contact>>
  {
    if service.Some? && id.Some? then ContactsRoute.Patched(m, id.value, updates.(updatedAt := Some(now)), service.value)
    else m
  }

  /** The contact store after `deleteContact(id)`: the contact with that key
      is removed from the service's partition; one without a key matches nothing. */
  function ContactsRemoved(m: map<string, seq<Contact>>, service: Option<string>, id: Option<nat>)
    : map<string, seq<Contact>>
  {
    if service.Some? && id.Some? then ContactsRoute.Removed(m, id.value, service.value) else m
  }

  // ---------------------------------------------------------------- reads

  /** `setTransactions(await getTransactions())` through the service bound to
      `service` (limit 50, offset 0); without a service nothing is read. */
  function Fetched(m: map<string, seq<Transaction>>, service: Option<string>, current: seq<Transaction>): seq<Transaction> {
    if service.None? then current
    else match TransactionsRoute.Get(m, service, Some(50), Some(0))
      case Ok(rows) => rows
      case Refused(_, _) => current
  }

  /** `setContacts(await getContacts())` through the service bound to `service`. */
  function FetchedContacts(m: map<string, seq<Contact>>, service: Option<string>, current: seq<Contact>): seq<Contact> {
    if service.None? then current
    else match ContactsRoute.Get(m, service)
      case Ok(rows) => rows
      case Refused(_, _) => current
  }

  /** A read through a service bound to a wallet yields that wallet's first
      fifty transactions, newest first. */
  lemma FetchedIsNewestPage(m: map<string, seq<Transaction>>, w: string, current: seq<Transaction>)
    requires w != "" && Partitioned(m, TxOwner)
    ensures var rows := Fetched(m, Some(w), current);
      && |rows| == (if |Rows(m, w)| < 50 then |Rows(m, w)| else 50)
      && SortedBy(rows, TransactionsRoute.NewestFirst)
      && forall t :: t in rows ==> t in Rows(m, w) && t.walletAddress == w
  {
    var r := TransactionsRoute.Get(m, Some(w), Some(50), Some(0));
    assert r.Ok?;
    forall t | t in r.body
      ensures t in Rows(m, w)
    {
      assert t in multiset(r.body);
    }
  }

  // ---------------------------------------------------------------- session

  /** A deferred confirmation: the sync service, database service address and
      hash the `setTimeout` callback closes over. */
  datatype PendingConfirmation = PendingConfirmation(sync: TransactionSyncService, dbAddress: Option<string>, hash: string)

  /** Every state field of the session, for stating what a step changes. */
  datatype SessionState = SessionState(
    wallet: Option<string>,
    address: string,
    balance: string,
    isUnlocked: bool,
    currentNetwork: Network,
    tokens: seq<Token>,
    nfts: seq<Nft>,
    transactions: seq<Transaction>,
    contacts: seq<Contact>,
    dbService: Option<string>,
    syncService: TransactionSyncService?)

  const Initial := SessionState(None, "", "0", false, Ethereum, [], [], [], [], None, null)

  /** `lockWallet`: every field back to its initial value except the network. */
  function Locked(s: SessionState): (r: SessionState) {
    s.(wallet := None, address := "", balance := "0", isUnlocked := false, tokens := [], nfts := [],
       transactions := [], contacts := [], dbService := None, syncService := null)
  }

  /** Locking returns the session to the state it started in, on the network
      it was on; locking again changes nothing. */
  lemma LockedIsInitial(s: SessionState)
    ensures Locked(s) == Initial.(currentNetwork := s.currentNetwork)
    ensures Locked(Locked(s)) == Locked(s)
    ensures Locked(s).syncService == null && Locked(s).dbService.None? && !Locked(s).isUnlocked
  {
  }

  /** `refreshBalances`: with a wallet and an address, a new native balance,
      the network's test tokens with their mock balances, and the two mock NFTs. */
  function WithBalances(s: SessionState, nativeBalance: string): SessionState {
    if s.wallet.Some? && s.address != "" then
      s.(balance := nativeBalance, tokens := NetworkTokens(s.currentNetwork.id), nfts := MockNfts)
    else s
  }

  class WalletSession {
    var wallet: Option<string>
    var address: string
    var balance: string
    var isUnlocked: bool
    var currentNetwork: Network
    var tokens: seq<Token>
    var nfts: seq<Nft>
    var transactions: seq<Transaction>
    var contacts: seq<Contact>
    var dbService: Option<string>
    var syncService: TransactionSyncService?
    const db: Db

    function State(): SessionState
      reads this
    {
      SessionState(wallet, address, balance, isUnlocked, currentNetwork, tokens, nfts, transactions, contacts, dbService, syncService)
    }

    /** The services exist together, bound to the unlocked wallet's address and
        to the one store; a wallet is present exactly while unlocked. */
    ghost predicate Valid()
      reads this, db
    {
      && db.Valid()
      && (syncService == null <==> dbService.None?)
      && (syncService != null ==> syncService.db == db && syncService.walletAddress == address
                                  && dbService == Some(address) && address != "")
      && (wallet.Some? <==> isUnlocked)
      && (wallet.Some? ==> address == wallet.value)
      && (wallet.None? ==> address == "")
    }

    /** A pending confirmation issued by this session's store. */
    ghost predicate Issued(p: PendingConfirmation)
      reads this
    {
      p.sync.db == db && p.dbAddress == Some(p.sync.walletAddress) && p.sync.walletAddress != ""
    }

    constructor(db: Db)
      requires db.Valid()
      ensures Valid() && this.db == db
      ensures State() == Initial
    {
      wallet, address, balance, isUnlocked := None, "", "0", false;
      currentNetwork := Ethereum;
      tokens, nfts, transactions, contacts := [], [], [], [];
      dbService, syncService := None, null;
      this.db := db;
    }

    /** `setTransactions(await service.getTransactions())` for the service a
        closure holds. */
    method ReadTransactions(service: Option<string>)
      requires Valid()
      modifies this
      ensures Valid()
      ensures State() == old(State()).(transactions := Fetched(db.transactions, service, old(transactions)))
    {
      if service.None? {
        return;
      }
      var reply := TransactionsRoute.Get(db.transactions, service, Some(50), Some(0));
      if reply.Ok? {
        transactions := reply.body;
      }
    }

    /** `setContacts(await service.getContacts())` for the service a closure holds. */
    method ReadContacts(service: Option<string>)
      requires Valid()
      modifies this
      ensures Valid()
      ensures State() == old(State()).(contacts := FetchedContacts(db.contacts, service, old(contacts)))
    {
      if service.None? {
        return;
      }
      var reply := ContactsRoute.Get(db.contacts, service);
      if reply.Ok? {
        contacts := reply.body;
      }
    }

    /** `refreshTransactions` through the current database service. */
    method RefreshTransactions()
      requires Valid()
      modifies this
      ensures Valid()
      ensures State() == old(State()).(transactions := Fetched(db.transactions, dbService, old(transactions)))
    {
      ReadTransactions(dbService);
    }

    /** `refreshContacts` through the current database service. */
    method RefreshContacts()
      requires Valid()
      modifies this
      ensures Valid()
      ensures State() == old(State()).(contacts := FetchedContacts(db.contacts, dbService, old(contacts)))
    {
      ReadContacts(dbService);
    }

    method RefreshBalances(nativeBalance: string)
      requires Valid()
      modifies this
      ensures Valid()
      ensures State() == WithBalances(old(State()), nativeBalance)
    {
      if wallet.None? || address == "" {
        return;
      }
      ghost var before := State();
      balance := nativeBalance;
      tokens := NetworkTokens(currentNetwork.id);
      nfts := MockNfts;
      assert State() == before.(balance := nativeBalance, tokens := tokens, nfts := nfts);
    }

    /** Marks the wallet with address `key` unlocked and binds fresh services to it. */
    method Bind(key: string)
      requires Valid() && key != ""
      modifies this
      ensures Valid() && fresh(syncService) && syncService != null
      ensures State() == old(State()).(wallet := Some(key), address := key, isUnlocked := true,
                                       dbService := Some(key), syncService := syncService)
    {
      wallet, address, isUnlocked := Some(key), key, true;
      dbService := Some(key);
      syncService := new TransactionSyncService(key, db);
    }

    /** Unlocking (or creating) the wallet whose address is `key`, as written:
        the wallet is set and the services are bound to it, but the follow-up
        reads go through the services of the previous render, so a session that
        had none loads neither transactions nor contacts. The balances are
        refreshed for the wallet. */
    method OpenAsWritten(key: string, nativeBalance: string)
      requires Valid() && key != ""
      modifies this
      ensures Valid() && fresh(syncService) && syncService != null
      ensures State() == WithBalances(old(State()).(wallet := Some(key), address := key, isUnlocked := true,
                                                    dbService := Some(key), syncService := syncService,
                                                    transactions := Fetched(db.transactions, old(dbService), old(transactions)),
                                                    contacts := FetchedContacts(db.contacts, old(dbService), old(contacts))),
                                      nativeBalance)
    {
      var previous := dbService;
      Bind(key);
      ReadTransactions(previous);
      ReadContacts(previous);
      RefreshBalances(nativeBalance);
    }

    /** Unlocking with the follow-up reads made through the new services: the
        wallet's own transactions and contacts are loaded. */
    method Open(key: string, nativeBalance: string)
      requires Valid() && key != ""
      modifies this
      ensures Valid() && fresh(syncService) && syncService != null
      ensures State() == WithBalances(old(State()).(wallet := Some(key), address := key, isUnlocked := true,
                                                    dbService := Some(key), syncService := syncService,
                                                    transactions := Fetched(db.transactions, Some(key), old(transactions)),
                                                    contacts := FetchedContacts(db.contacts, Some(key), old(contacts))),
                                      nativeBalance)
    {
      Bind(key);
      RefreshTransactions();
      RefreshContacts();
      RefreshBalances(nativeBalance);
    }

    /** `lockWallet`. */
    method LockWallet()
      requires Valid()
      modifies this
      ensures Valid()
      ensures State() == Locked(old(State()))
    {
      ghost var before := State();
      wallet, address, balance, isUnlocked := None, "", "0", false;
      tokens, nfts, transactions, contacts := [], [], [], [];
      dbService, syncService := None, null;
      assert State() == Locked(before);
    }

    /** `switchNetwork`: an unknown id changes nothing. A known one becomes the
        current network; the balances are then refreshed for it (the direct
        refresh still sees the previous network, but the effect that follows
        the switch refreshes again for the new one) and the transactions are
        read again. */
    method SwitchNetwork(networkId: string, nativeBalance: string)
      requires Valid()
      modifies this
      ensures Valid()
      ensures NetworkIn(AllNetworks, networkId).None? ==> State() == old(State())
      ensures NetworkIn(AllNetworks, networkId).Some? ==>
                State() == WithBalances(old(State()).(currentNetwork := NetworkIn(AllNetworks, networkId).value), nativeBalance)
                             .(transactions := Fetched(db.transactions, old(dbService), old(transactions)))
    {
      var network := NetworkIn(AllNetworks, networkId);
      if network.Some? {
        ghost var before := State();
        currentNetwork := network.value;
        ghost var switched := State();
        assert switched == before.(currentNetwork := network.value);
        RefreshBalances(nativeBalance);
        ghost var refreshed := State();
        assert refreshed.dbService == before.dbService && refreshed.transactions == before.transactions;
        RefreshTransactions();
        assert State() == refreshed.(transactions := Fetched(db.transactions, before.dbService, before.transactions));
      }
    }

    /** `addCustomToken`. */
    method AddCustomToken(token: Token)
      requires Valid()
      modifies this
      ensures Valid()
      ensures tokens == WithToken(old(tokens), token)
      ensures State() == old(State()).(tokens := tokens)
    {
      ghost var before := State();
      tokens := WithToken(tokens, token);
      assert State() == before.(tokens := tokens);
    }

    /** `addContact`: the contact goes to the store through the database
        service, and the contact list is read again. The store's refusal of a
        duplicate address is not treated as an error. */
    method AddContact(contact: Contact, now: int)
      requires Valid()
      modifies this, db
      ensures Valid()
      ensures db.contacts == ContactsAdded(old(db.contacts), old(dbService), contact, old(db.nextId), now)
      ensures db.transactions == old(db.transactions) && db.purchases == old(db.purchases)
      ensures State() == old(State()).(contacts := FetchedContacts(db.contacts, old(dbService), old(contacts)))
    {
      if dbService.None? {
        return;
      }
      var body := contact.(walletAddress := dbService.value, createdAt := now, updatedAt := now);
      var _ := ContactsRoute.Post(db, body);
      RefreshContacts();
    }

    /** `updateContact`: the update goes to the store through the database
        service, and the contact list is read again. */
    method UpdateContact(id: Option<nat>, updates: ContactPatch, now: int)
      requires Valid()
      modifies this, db
      ensures Valid()
      ensures db.contacts == ContactsUpdated(old(db.contacts), old(dbService), id, updates, now)
      ensures db.transactions == old(db.transactions) && db.purchases == old(db.purchases) && db.nextId == old(db.nextId)
      ensures State() == old(State()).(contacts := FetchedContacts(db.contacts, old(dbService), old(contacts)))
    {
      if dbService.None? {
        return;
      }
      if id.Some? {
        var _ := ContactsRoute.Put(db, id.value, updates.(updatedAt := Some(now)), dbService.value);
      }
      RefreshContacts();
    }

    /** `deleteContact`: the removal goes to the store through the database
        service, and the contact list is read again. */
    method DeleteContact(id: Option<nat>)
      requires Valid()
      modifies this, db
      ensures Valid()
      ensures db.contacts == ContactsRemoved(old(db.contacts), old(dbService), id)
      ensures db.transactions == old(db.transactions) && db.purchases == old(db.purchases) && db.nextId == old(db.nextId)
      ensures State() == old(State()).(contacts := FetchedContacts(db.contacts, old(dbService), old(contacts)))
    {
      if dbService.None? {
        return;
      }
      if id.Some? {
        var _ := ContactsRoute.Delete(db, id.value, dbService.value);
      }
      RefreshContacts();
    }

    /** `updateContactFromTransaction`: without a database service, or without
        a cached contact matching `address` ignoring case, nothing happens.
        Otherwise the match's totals are patched in the store by its key and the
        contact list is read again. */
    method UpdateContactFromTransaction(address: string, amount: real, isSend: bool, now: int)
      requires Valid()
      modifies this, db
      ensures Valid()
      ensures db.contacts == ContactsTouched(old(db.contacts), old(dbService), ContactByAddress(old(contacts), address), amount, isSend, now)
      ensures db.transactions == old(db.transactions) && db.purchases == old(db.purchases) && db.nextId == old(db.nextId)
      ensures old(dbService).Some? && ContactByAddress(old(contacts), address).Some? ==>
                State() == old(State()).(contacts := FetchedContacts(db.contacts, old(dbService), old(contacts)))
      ensures old(dbService).None? || ContactByAddress(old(contacts), address).None? ==> State() == old(State())
    {
      if dbService.None? {
        return;
      }
      var existing := ContactByAddress(contacts, address);
      if existing.Some? {
        var c := existing.value;
        if c.id.Some? {
          var _ := ContactsRoute.Put(db, c.id.value, TotalsPatch(c, amount, isSend, now), dbService.value);
        }
        RefreshContacts();
      }
    }

    /** `sendTransaction` with hash `hash`, clock reading `now` for the record
        and `later` for the contact update. Refused with "Wallet not connected"
        (nothing written) without a wallet or a sync service. Otherwise the
        record is synced; a failed sync is rethrown, leaving what was already
        written. After a full sync the transactions are read again, the
        recipient's contact totals are updated, and the confirmation to fire
        later is returned. */
    method SendTransaction(to: string, amount: real, tokenAddress: Option<string>, memo: Option<string>,
                           hash: string, now: int, later: int, first: Link, second: Link)
      returns (r: Result<PendingConfirmation, string>)
      requires Valid()
      modifies this, db
      ensures Valid()
      ensures old(wallet).None? || old(syncService) == null ==>
                r == Failure("Wallet not connected") && State() == old(State())
                && db.transactions == old(db.transactions) && db.contacts == old(db.contacts)
      ensures old(wallet).Some? && old(syncService) != null ==>
                db.transactions == Synced(old(db.transactions), old(address),
                                          SendRecord(hash, old(address), to, amount, now, tokenAddress, memo, old(tokens), old(currentNetwork)),
                                          first, second)
      ensures old(wallet).Some? && old(syncService) != null && (first == Down || second == Down) ==>
                r == Failure(FetchFailed) && State() == old(State()) && db.contacts == old(db.contacts)
      ensures r.Success? <==> old(wallet).Some? && old(syncService) != null && first == Up && second == Up
      ensures r.Success? ==>
                && r.value == PendingConfirmation(old(syncService), old(dbService), hash)
                && Issued(r.value)
                && db.contacts == ContactsTouched(old(db.contacts), old(dbService), ContactByAddress(old(contacts), to), amount, true, later)
                && transactions == Fetched(db.transactions, old(dbService), old(transactions))
      ensures db.purchases == old(db.purchases) && db.nextId == old(db.nextId)
    {
      if wallet.None? || syncService == null {
        return Failure("Wallet not connected");
      }
      var record := SendRecord(hash, address, to, amount, now, tokenAddress, memo, tokens, currentNetwork);
      var synced := syncService.SyncBidirectional(record, first, second);
      if synced.Fail? {
        return Failure(synced.error);
      }
      RefreshTransactions();
      UpdateContactFromTransaction(to, amount, true, later);
      r := Success(PendingConfirmation(syncService, dbService, hash));
    }

    /** The deferred confirmation: `confirmed` with 12 confirmations, sent
        through the sync service the send closed over (so only the sending
        wallet's copy changes, even after the session was locked), then a read
        of that wallet's transactions into the session. */
    method Confirm(p: PendingConfirmation)
      requires Valid() && Issued(p)
      modifies this, db
      ensures Valid()
      ensures db.transactions == TransactionsRoute.SetStatus(old(db.transactions), p.hash, Confirmed, Some(12), p.sync.walletAddress)
      ensures db.contacts == old(db.contacts) && db.purchases == old(db.purchases) && db.nextId == old(db.nextId)
      ensures State() == old(State()).(transactions := Fetched(db.transactions, p.dbAddress, old(transactions)))
    {
      p.sync.UpdateStatusGlobally(p.hash, Confirmed, Some(12), Up);
      ReadTransactions(p.dbAddress);
    }

    /** `simulateReceiveTransaction`: without a sync service nothing happens
        (a wallet is not required). Otherwise a confirmed receipt from `from` to
        this wallet is synced; after a full sync the transactions are read
        again and the sender's contact totals are updated. */
    method SimulateReceive(from: string, amount: real, tokenAddress: Option<string>, memo: Option<string>,
                           hash: string, now: int, later: int, first: Link, second: Link)
      returns (r: Outcome<string>)
      requires Valid()
      modifies this, db
      ensures Valid()
      ensures old(syncService) == null ==> r == Pass && State() == old(State()) && unchanged(db)
      ensures old(syncService) != null ==>
                db.transactions == Synced(old(db.transactions), old(address),
                                          ReceiveRecord(hash, from, old(address), amount, now, tokenAddress, memo, old(tokens), old(currentNetwork)),
                                          first, second)
      ensures old(syncService) != null && (first == Down || second == Down) ==>
                r == Fail(FetchFailed) && State() == old(State()) && db.contacts == old(db.contacts)
      ensures old(syncService) != null && first == Up && second == Up ==>
                && r == Pass
                && db.contacts == ContactsTouched(old(db.contacts), old(dbService), ContactByAddress(old(contacts), from), amount, false, later)
                && transactions == Fetched(db.transactions, old(dbService), old(transactions))
      ensures db.purchases == old(db.purchases) && db.nextId == old(db.nextId)
    {
      if syncService == null {
        return Pass;
      }
      var record := ReceiveRecord(hash, from, address, amount, now, tokenAddress, memo, tokens, currentNetwork);
      r := syncService.SyncBidirectional(record, first, second);
      if r.Fail? {
        return;
      }
      RefreshTransactions();
      UpdateContactFromTransaction(from, amount, false, later);
    }
  }

  /** What goes wrong when unlocking as written: a session without services
      (a fresh one, or one just locked) reads nothing, although a read through
      the new service would have found the wallet's contacts. */
  lemma StaleReadMissesContacts(m: map<string, seq<Contact>>, w: string)
    requires w != "" && |Rows(m, w)| > 0
    ensures FetchedContacts(m, Initial.dbService, Initial.contacts) == []
    ensures |FetchedContacts(m, Some(w), Initial.contacts)| == |Rows(m, w)| > 0
  {
    var r := ContactsRoute.Get(m, Some(w));
    assert |multiset(r.body)| == |multiset(Rows(m, w))|;
  }

  /** Unlocking through the new services loads every contact of the wallet. */
  lemma FreshReadFindsContacts(m: map<string, seq<Contact>>, w: string, current: seq<Contact>)
    requires w != "" && Partitioned(m, ContactOwner)
    ensures multiset(FetchedContacts(m, Some(w), current)) == multiset(Rows(m, w))
    ensures forall c :: c in FetchedContacts(m, Some(w), current) ==> c.walletAddress == w
  {
    var r := ContactsRoute.Get(m, Some(w));
    RowsOwned(m, ContactOwner, w);
    forall c | c in r.body
      ensures c.walletAddress == w
    {
      assert c in multiset(r.body);
      assert c in Rows(m, w);
    }
  }
}
