# OC-Wallet ledger and screens, modelled in Dafny

OC-Wallet is a demo browser wallet for EVM test networks. Its heart is a
ledger: a record store of transactions, contacts and fiat purchases, split
into partitions by the owning wallet's address (`walletAddress`). The server
routes write to and read from it, a sync service writes every transfer twice
from the client, and a session shared by all screens caches what it reads.
Around this sit the screens' validation chains, filters and small state
machines.

This project models that core and proves what it promises.

- **Records and store** (`records.dfy`, `store.dfy`). The documents are
  datatypes. The store is the class `Store.Db`, with one
  `map<string, seq<T>>` per collection and a counter for the keys the
  database assigns. `Store.Db.Valid` says each row sits in its owner's
  partition, and that the keys the database assigned in a partition are
  below the counter and distinct.
- **Routes** (`transactions_route.dfy`, `by_address_route.dfy`,
  `contacts_route.dfy`, `frequent_contacts_route.dfy`, `purchases_route.dfy`,
  `analytics_route.dfy`). Each handler is a method over `Store.Db` or a
  function over its maps. Each answer is a `Reply`: either a body, or an
  HTTP status with its error text. A sort is proved to hand back its input
  rearranged and in order under a total preorder. Skip is applied before
  limit. `updateOne` rewrites the first matching row.
- **Analytics** (`analytics_route.dfy`). The per-transaction loop is a
  method with loop invariants, proved equal to recursive definitions of
  the totals. Counting dictionaries keep
  their keys in first-seen order (`tally.dfy`), and the stable insertion
  sort (`sorting.dfy`) orders the dates and the top contacts.
- **Sync** (`transaction_sync.dfy`). A class over the store writes a
  transfer into the acting wallet's partition and its mirror into the
  counterparty's. Whether each request reaches the server is a parameter
  (`Link`).
- **Session** (`wallet_context.dfy`). The class `WalletSession` holds the
  wallet, its network, tokens, cached transactions and contacts, and its
  services. Its methods state the entire new state, through a pure `State()`
  snapshot.
- **Screens.** The screen files (`asset_list.dfy`, `contacts_manager.dfy`,
  `dapp_browser.dfy`, `fiat_onramp.dfy`, `kyc_verification.dfy`,
  `purchase_history.dfy`, `send_receive.dfy`, `settings.dfy`,
  `transaction_explorer.dfy`, `transaction_history.dfy`,
  `wallet_analytics.dfy`, `wallet_setup.dfy`) are classes holding each
  screen's own state, plus pure functions for its checks and filters.
- **Libraries** (`payment_providers.dfy`, `test_tokens.dfy`). These hold the
  payment-provider library (widget parameters, factory, webhook mappers) and
  the test-token catalogue.
- **Helpers** (`seqs.dfy`, `text.dfy`, `wrappers.dfy`). These are the
  sequence and text helpers the above share: `filter`, `slice`, ASCII case
  mapping, `includes`, `trim`, `split`/`join`.

Values that come from outside are parameters:

- the clock (`now`, `later`);
- random hashes and balances;
- `parseFloat`/`Number` readings of text (`None` for NaN);
- `toString` of numbers;
- the HMAC digest and query-string encoding;
- whether the user confirmed a prompt;
- whether a request reached the server.

Amounts that are summed are `real`. The UTC day number
`timestamp / 86400000` stands for the RFC 3339 section 5.6 `full-date` of a
timestamp, which is what the analytics route buckets by. The two agree for the
years 0000 to 9999; "## Left out" says what differs outside them. Strings are
sequences of characters, and case mapping is ASCII-only.

## Model

| member | source | states |
|---|---|---|
| TransactionsRoute.Post | app/api/transactions/route.ts:4-20 | the body is stored as sent, last in the partition its own wallet address names, with no duplicate-hash check; the reply echoes it and no other collection changes |
| TransactionsRoute.NewestFirstIsTotalPreorder | app/api/transactions/route.ts:37 | the `timestamp: -1` order is total and transitive, so the sort below is well defined |
| TransactionsRoute.Get | app/api/transactions/route.ts:22-47 | 400 "Wallet address required" exactly when the wallet is missing or empty; 500 exactly when the offset is negative; otherwise a window of the wallet's rows sorted newest first, skip `offset` then at most `limit` (50 by default), with its exact size, drawn from the partition and all owned by the wallet |
| TransactionsRoute.Put | app/api/transactions/route.ts:49-66 | the store afterwards is `SetStatus` of the old store; the reply is success whether or not a row matched; the other collections are untouched and the store invariant is kept |
| TransactionsRoute.SetStatusTouchesOneRow | app/api/transactions/route.ts:54-59 | `updateOne` rewrites only the first row of the wallet with that hash: status set, confirmations set only when given, every other row and partition unchanged |
| TransactionsRoute.SetStatusWithoutMatch | app/api/transactions/route.ts:59 | with no row of that hash the update leaves the store equal to what it was |
| TransactionsRoute.SetStatusIdempotent | app/api/transactions/route.ts:54-59 | sending the same status update twice gives the store one update gives |
| ByAddressRoute.Get | app/api/transactions/by-address/route.ts:4-29 | 400 exactly when either address is missing or empty; otherwise the wallet's rows with `from` or `to` equal to the address, newest first, and only those |
| ByAddressRoute.MatchingRows | app/api/transactions/by-address/route.ts:16-22 | the answer is an arrangement, newest first, of the filtered rows, and a row is in it iff it belongs to the partition and involves the address |
| ContactsRoute.Post | app/api/contacts/route.ts:5-31 | refused with 400 "Contact already exists" and the store unchanged exactly when the wallet already holds that exact address; otherwise stored last with a fresh key and each wallet's addresses stay unique |
| ContactsRoute.RecentThenNameIsTotalPreorder | app/api/contacts/route.ts:44 | the `lastTransactionDate: -1, name: 1` order is total and transitive |
| ContactsRoute.Get | app/api/contacts/route.ts:33-51 | 400 exactly when the wallet is missing or empty; otherwise all of the wallet's contacts, sorted by that order and a permutation of the partition |
| ContactsRoute.PatchKeepsInvariants | app/api/contacts/route.ts:58 | a `$set` of the fields the app's updates name keeps the store partitioned, its keys issued and distinct, and each wallet's addresses unique |
| ContactsRoute.Put | app/api/contacts/route.ts:53-65 | the store afterwards is the store patched with the app's update fields; the reply is success whether or not a contact matched |
| ContactsRoute.Delete | app/api/contacts/route.ts:67-79 | the store afterwards is the store with that contact removed; the reply is success either way |
| ContactsRoute.PatchedTouchesOnlyThatContact | app/api/contacts/route.ts:58 | with keys unique per wallet, the update rewrites exactly the contact with that key and no other contact of any wallet |
| ContactsRoute.RemovedDropsOnlyThatContact | app/api/contacts/route.ts:72 | with keys unique per wallet, the delete drops exactly the contact with that key and keeps the wallet's other contacts in order |
| FrequentContactsRoute.MostFrequentFirstIsTotalPreorder | app/api/contacts/frequent/route.ts:18 | the `totalTransactions: -1, lastTransactionDate: -1` order is total and transitive |
| FrequentContactsRoute.Get | app/api/contacts/frequent/route.ts:4-27 | 400 exactly when the wallet is missing or empty; otherwise the first `limit` (10 by default) of the wallet's contacts in that order, with its exact size, all owned by the wallet |
| PurchasesRoute.Post | app/api/purchases/route.ts:5-21 | the purchase is stored last in its wallet's partition under a fresh key and echoed back with it |
| PurchasesRoute.NewestPurchaseFirstIsTotalPreorder | app/api/purchases/route.ts:34 | the `timestamp: -1` order is total and transitive |
| PurchasesRoute.Get | app/api/purchases/route.ts:23-41 | 400 exactly when the wallet is missing or empty; otherwise all of the wallet's purchases newest first, a permutation of the partition |
| PurchasesRoute.Put | app/api/purchases/route.ts:43-60 | the store afterwards is `SetStatus` of the old store; success either way |
| PurchasesRoute.SetStatusTouchesOnlyThatPurchase | app/api/purchases/route.ts:48-53 | exactly the purchase with that key changes: status always, transaction hash only when a non-empty one is given |
| AnalyticsRoute.DayOf | app/api/analytics/transactions/route.ts:26 | the day number is the UTC day containing the instant, flooring for instants before 1970 |
| AnalyticsRoute.Accumulate | app/api/analytics/transactions/route.ts:19-38 | the loop stops exactly when some timestamp is outside the date range; otherwise it returns the sent total, the received total, the per-day counts and the per-counterparty counts of all rows |
| AnalyticsRoute.AccumulateStep | app/api/analytics/transactions/route.ts:24-38 | one more row adds its value to exactly one total and one to its day and to its counterparty |
| AnalyticsRoute.EarlierDayIsTotalPreorder | app/api/analytics/transactions/route.ts:47 | the date comparison is total and transitive |
| AnalyticsRoute.MoreFrequentIsTotalPreorder | app/api/analytics/transactions/route.ts:51 | the count comparison is total and transitive |
| AnalyticsRoute.Get | app/api/analytics/transactions/route.ts:4-66 | 400 exactly when the wallet is missing or empty; 500 exactly when a stored timestamp is out of range; otherwise the summary of every row of the wallet |
| AnalyticsRoute.CountsAddUp | app/api/analytics/transactions/route.ts:29-37 | the per-day counts and the per-counterparty counts each add up to `totalTransactions`, each count is that key's multiplicity, and sent plus received is the sum of all values |
| AnalyticsRoute.RecentActivityFacts | app/api/analytics/transactions/route.ts:40-47 | one entry per day with a transaction whose midnight is at most thirty days back, in strictly increasing date order, each with that day's positive count |
| AnalyticsRoute.TopContactsFacts | app/api/analytics/transactions/route.ts:50-53 | at most ten distinct counterparties, largest count first, each with its true count; one is left out only when ten with no fewer transactions are listed; ties keep first-met order |
| Tally.TallyFacts | app/api/analytics/transactions/route.ts:29-36 | the `(d[k] \|\| 0) + 1` dictionary gives each key its multiplicity, its counts add up to the number of inputs, it holds exactly the keys met, each once, all with positive counts |
| Tally.TallyInFirstSeenOrder | app/api/analytics/transactions/route.ts:44-50 | `Object.entries` lists the keys in the order they were first met |
| Sorting.SortByCorrect | app/api/analytics/transactions/route.ts:47-51 | under a total preorder the sort returns its input rearranged, in order, with the same length |
| Sorting.SortByStable | app/api/analytics/transactions/route.ts:51 | the sort is stable: elements that tie keep their input order |
| TransactionSync.Mirror | lib/transaction-sync.ts:22-25 | the counterparty's copy has the other direction and differs from the original in nothing else |
| TransactionSync.AddTransaction | lib/database-service.ts:14-22 | a reachable server stores the record stamped with the service's wallet in that wallet's partition and nothing else changes; an unreachable one changes nothing and the call fails |
| TransactionSync.TransactionSyncService.SyncBidirectional | lib/transaction-sync.ts:15-46 | the store afterwards is `Synced` of the old store for the two request outcomes; success only when both inserts reached the server; the second is not attempted after a failed first |
| TransactionSync.TransactionSyncService.TransactionsWithAddress | lib/transaction-sync.ts:49-56 | an unreachable server gives the empty list; otherwise the by-address answer, whose rows are exactly the wallet's rows involving the address |
| TransactionSync.TransactionSyncService.UpdateStatusGlobally | lib/transaction-sync.ts:59-70 | only the acting wallet's partition receives the status update; a failure is swallowed and changes nothing |
| TransactionSync.SyncWritesTwoRows | lib/transaction-sync.ts:18-41 | a completed sync writes exactly two rows with the same hash and opposite directions, one in the acting partition and one in the counterparty's (both in one partition when they coincide), and no other partition changes |
| TransactionSync.SyncTwiceStoresTwice | lib/transaction-sync.ts:18-29 | nothing is de-duplicated: syncing the same record twice stores it twice in each partition and adds two rows with that hash |
| TransactionSync.FailedMirrorKeepsFirstRow | lib/transaction-sync.ts:18-45 | a failed mirror insert does not undo the first insert |
| TransactionSync.FailedFirstWritesNothing | lib/transaction-sync.ts:18 | a failed first insert leaves the store as it was |
| TransactionSync.MirrorKeepsItsStatus | lib/transaction-sync.ts:59-66 | after a sync and the acting wallet's status update, the counterparty's copy keeps the status it was synced with |
| WalletContext.NetworkIn | contexts/wallet-context.tsx:190 | `NETWORKS.find` by id: a result is a listed network with that id, and none is found exactly when no listed network has it |
| WalletContext.NetworksCovered | contexts/wallet-context.tsx:70-107 | the four networks offered are exactly the four the token catalogue covers |
| WalletContext.WithToken | contexts/wallet-context.tsx:198-200 | the new token comes last, the others are the old tokens with a different address, in their order; afterwards only the new token has its address, and distinct addresses stay distinct |
| WalletContext.NetworkTokens | contexts/wallet-context.tsx:281-292 | one token per catalogue entry of the network, in order, with its address, symbol, name, decimals and mock balance |
| WalletContext.TokenSymbolFor | contexts/wallet-context.tsx:218 | with no token address (or an empty one), the network's symbol; otherwise the symbol of a listed token with exactly that address, and absent exactly when none is listed |
| WalletContext.SendRecord | contexts/wallet-context.tsx:209-224 | the send record: pending, type send, the given hash, parties, amount, time and network, gas 21000, price 20, fees 0.00042 |
| WalletContext.ReceiveRecord | contexts/wallet-context.tsx:250-266 | the receipt record: already confirmed with 12 confirmations, type receive, the same fixed gas fields |
| WalletContext.ContactByAddress | contexts/wallet-context.tsx:376-378 | the first cached contact whose address equals the given one ignoring case; none exactly when no cached address matches |
| WalletContext.TotalsPatchEffect | contexts/wallet-context.tsx:386-397 | the contact gets one more transaction, its last date becomes the clock reading, the amount is added to exactly one of the two totals, and nothing the user edits changes |
| WalletContext.ContactsTouchedEffect | contexts/wallet-context.tsx:380-401 | in the store, exactly the contact carrying the matched key is patched, in the service's partition only |
| WalletContext.FetchedIsNewestPage | contexts/wallet-context.tsx:319-328 | a read through a bound service gives at most fifty of the wallet's own transactions, newest first |
| WalletContext.LockedIsInitial | contexts/wallet-context.tsx:176-187 | locking gives the initial state on the current network, has no services and no unlock, and locking twice is locking once |
| WalletContext.WalletSession.constructor | contexts/wallet-context.tsx:110-120 | the initial state: no wallet, empty address, balance "0", first network, empty lists, no services |
| WalletContext.WalletSession.ReadTransactions | contexts/wallet-context.tsx:319-328 | only `transactions` changes, to what the given service reads (kept when there is no service) |
| WalletContext.WalletSession.ReadContacts | contexts/wallet-context.tsx:330-339 | only `contacts` changes, to what the given service reads |
| WalletContext.WalletSession.RefreshTransactions | contexts/wallet-context.tsx:319-328 | the read goes through the current service; nothing else changes |
| WalletContext.WalletSession.RefreshContacts | contexts/wallet-context.tsx:330-339 | the read goes through the current service; nothing else changes |
| WalletContext.WalletSession.RefreshBalances | contexts/wallet-context.tsx:273-317 | without a wallet or address nothing changes; otherwise the native balance, the network's tokens and the two mock NFTs are set and nothing else |
| WalletContext.WalletSession.Bind | contexts/wallet-context.tsx:147-149 | the wallet is unlocked under that address and both services are bound to it |
| WalletContext.WalletSession.OpenAsWritten | contexts/wallet-context.tsx:123-135 | as written: the services are bound to the new address but the follow-up reads use the previous render's service |
| WalletContext.WalletSession.Open | contexts/wallet-context.tsx:123-135 | corrected: the follow-up reads go through the new service, loading the wallet's own transactions and contacts, and the balances are refreshed |
| WalletContext.WalletSession.LockWallet | contexts/wallet-context.tsx:176-187 | the new state is the locked form of the old one |
| WalletContext.WalletSession.SwitchNetwork | contexts/wallet-context.tsx:189-196 | an unknown id changes nothing; a known one becomes current, the balances are refreshed for it and the transactions reread |
| WalletContext.WalletSession.AddCustomToken | contexts/wallet-context.tsx:198-200 | the token list becomes `WithToken` of the old one; nothing else changes |
| WalletContext.WalletSession.AddContact | contexts/wallet-context.tsx:341-351 | the store gets the contact, stamped with the wallet and time, unless that address is already there; the contact list is reread |
| WalletContext.WalletSession.UpdateContact | contexts/wallet-context.tsx:353-363 | the stamped update reaches the contact with that key in the service's partition; the contact list is reread |
| WalletContext.WalletSession.DeleteContact | contexts/wallet-context.tsx:365-374 | the contact with that key is removed from the service's partition; the contact list is reread |
| WalletContext.WalletSession.UpdateContactFromTransaction | contexts/wallet-context.tsx:380-401 | without a service or a matching cached contact nothing changes; otherwise the match's totals are patched by its key and the contacts reread |
| WalletContext.WalletSession.SendTransaction | contexts/wallet-context.tsx:202-242 | "Wallet not connected" and nothing written without a wallet or sync service; a failed sync is rethrown, keeping what was written; success exactly after a full sync, and then the transactions are reread, the recipient's totals updated and the pending confirmation returned |
| WalletContext.WalletSession.Confirm | contexts/wallet-context.tsx:234-239 | the deferred update marks the hash confirmed with 12 confirmations in the sending wallet's partition only, then rereads through the captured service |
| WalletContext.WalletSession.SimulateReceive | contexts/wallet-context.tsx:245-271 | nothing without a sync service; otherwise a confirmed receipt is synced, and after a full sync the transactions are reread and the sender's totals updated |
| WalletContext.StaleReadMissesContacts | contexts/wallet-context.tsx:123-135 | as written, unlocking a session without services reads no contacts, although the wallet has some |
| WalletContext.FreshReadFindsContacts | contexts/wallet-context.tsx:123-135 | reading through the new service loads every contact of the wallet and only those |
| TestTokens.TokensForNetwork | lib/test-tokens.ts:129-131 | an unknown network id gives no tokens; every token listed for an id belongs to that network |
| TestTokens.TokenBalance | lib/test-tokens.ts:133-135 | an address without a mock balance reads "0", and the result is never empty |
| TestTokens.CatalogueNetworks | lib/test-tokens.ts:15-115 | the catalogue is keyed by exactly the four networks, none empty, and each token names the network whose list holds it |
| TestTokens.EveryTokenHasABalance | lib/test-tokens.ts:117-127 | every catalogued token's address has a mock balance |
| TestTokens.BalanceLookupIsCaseSensitive | lib/test-tokens.ts:133-135 | the lookup is by exact text: a listed address in lower case reads "0" |
| AssetList.FormatBalance | components/asset-list.tsx:67-72 | zero shows as "0", a non-zero value below 0.01 (negatives included) as "< 0.01", NaN falls through, and everything else is shown in the locale's format, each case exactly when its condition holds |
| AssetList.NewToken | components/asset-list.tsx:39-45 | the token carries the entered address, symbol, name and parsed decimals, with balance "0" |
| AssetList.AssetListView.constructor | components/asset-list.tsx:23-27 | the dialog is closed, the fields are empty and the decimals field reads "18" |
| AssetList.AssetListView.HandleAddToken | components/asset-list.tsx:29-58 | refused, changing nothing, unless address, symbol and name are filled; otherwise the wallet's token list gains the token (replacing one with the same address), nothing else in the wallet changes, and the form is cleared |
| FiatOnramp.CatalogueFacts | components/fiat-onramp.tsx:29-121 | seven providers, with distinct names, each minimum positive and below its maximum |
| FiatOnramp.FindProvider | components/fiat-onramp.tsx:219 | the provider with exactly that name, or none exactly when no provider has it |
| FiatOnramp.FindProviderByName | components/fiat-onramp.tsx:219 | each provider is found by its own name and by no other |
| FiatOnramp.DecideAsWritten | components/fiat-onramp.tsx:133-150 | as written: 0 or NaN is refused, then KYC is asked for whenever the amount is 1000 or more or no KYC was completed |
| FiatOnramp.LargePurchaseAlwaysNeedsKyc | components/fiat-onramp.tsx:141 | as written, an amount of 1000 or more goes to KYC even when KYC is complete; the corrected rule lets it through |
| FiatOnramp.KycRuleMatchesWarning | components/fiat-onramp.tsx:232 | the corrected rule asks for KYC exactly when the step-3 warning shows: 1000 or more without completed KYC |
| FiatOnramp.Decide | components/fiat-onramp.tsx:133-150 | each outcome exactly when its condition holds: invalid amount (0 or NaN), then KYC, then a missing provider, otherwise the selected provider is submitted |
| FiatOnramp.LimitsAreNotChecked | components/fiat-onramp.tsx:133-150 | as written, with KYC complete any non-zero amount below 1000 is submitted, below the provider's minimum alike; under the corrected rule any non-zero amount is, above the maximum too |
| FiatOnramp.FiatOnrampView.constructor | components/fiat-onramp.tsx:124-131 | empty amount, the first provider selected, no KYC, step 1, USD and ETH |
| FiatOnramp.FiatOnrampView.EnterAmount | components/fiat-onramp.tsx:207 | the amount text is replaced and nothing else changes |
| FiatOnramp.FiatOnrampView.Next | components/fiat-onramp.tsx:210 | step 2, with the amount unchecked and nothing else changed |
| FiatOnramp.FiatOnrampView.SelectProvider | components/fiat-onramp.tsx:218-221 | the selection becomes the provider of that name, or none, and the form moves to step 3 |
| FiatOnramp.FiatOnrampView.HandlePurchase | components/fiat-onramp.tsx:133-150 | the decision is line 141's rule as written on the current form; only a KYC decision opens the KYC dialog, and nothing else changes |
| FiatOnramp.FiatOnrampView.KycFinished | components/fiat-onramp.tsx:179-186 | the result is recorded and the dialog closed; on success the purchase is retried with the rule as written and the KYC state read before this completion, and a KYC decision reopens the dialog |
| FiatOnramp.FiatOnrampView.CloseKyc | components/fiat-onramp.tsx:186 | the dialog closes and nothing else changes |
| FiatOnramp.Retries | components/fiat-onramp.tsx:179-186 | one entry per KYC completion, a decision exactly for those that succeeded |
| FiatOnramp.LargePurchaseNeverSubmits | components/fiat-onramp.tsx:141 | as written, for 1000 or more every retry after a successful KYC asks for KYC again, however many succeed; below 1000 the first retry asks again and the second submits |
| DappBrowser.FilteredDapps | components/dapp-browser.tsx:92-94 | the dApps shown under the tab, in catalogue order: exactly those whose lower-cased category is the tab, and all of them under "all" |
| DappBrowser.EveryDappHasOneTab | components/dapp-browser.tsx:24-80 | each featured dApp appears under exactly one category tab besides "all" |
| DappBrowser.CategoryIcon | components/dapp-browser.tsx:114-117 | the icon of the category with that id, and the globe for an unknown id |
| DappBrowser.Visited | components/dapp-browser.tsx:101-104 | a URL already in the history leaves it unchanged; a new one goes first, followed by at most nine of the previous entries in order |
| DappBrowser.VisitedKeepsHistoryShape | components/dapp-browser.tsx:101-104 | the history stays free of repeats and at most ten entries long |
| DappBrowser.Toggled | components/dapp-browser.tsx:110-112 | a favourite that is listed is removed, every copy, with the rest kept in order; an unlisted one is appended |
| DappBrowser.ToggleTwice | components/dapp-browser.tsx:110-112 | toggling twice restores a list without the URL exactly, and a list with it up to moving it to the end |
| DappBrowser.ToggledDistinct | components/dapp-browser.tsx:110-112 | toggling never creates a repeated favourite |
| DappBrowser.DappBrowserView.constructor | components/dapp-browser.tsx:83-88 | empty bar and page, not loading, the "all" tab, no favourites and no history |
| DappBrowser.DappBrowserView.Navigate | components/dapp-browser.tsx:96-108 | bar and page show the target, loading starts, the history records the visit, and nothing else changes |
| DappBrowser.DappBrowserView.Go | components/dapp-browser.tsx:148-158 | an empty bar does nothing; otherwise the bar's URL is navigated to |
| DappBrowser.DappBrowserView.FinishLoading | components/dapp-browser.tsx:107 | loading stops and nothing else changes |
| DappBrowser.DappBrowserView.ToggleFavorite | components/dapp-browser.tsx:110-112 | the favourites are toggled for that URL and nothing else changes |
| DappBrowser.DappBrowserView.SelectCategory | components/dapp-browser.tsx:187 | the active tab becomes that id and nothing else changes |
| PaymentProviders.HostsDifferByEnvironment | lib/payment-providers.ts:41-42 | each integration's production and sandbox hosts differ (MoonPay's here; the others at 70-71, 101-104, 131-132, 179-180, 222-223, 281-282) |
| PaymentProviders.WidgetParams | lib/payment-providers.ts:44-50 | the query starts with the API key, the wallet address and the asset under the integration's own keys (MoonPay's here; the others at 73-82, 106-112, 134-140, 182-189, 225-232, 284-290) |
| PaymentProviders.OptionalParamsAreTruthy | lib/payment-providers.ts:48-49 | an amount is sent exactly when given and non-zero, right after the three fixed keys and as `toString` renders it; a currency exactly when non-empty; with no extra key nothing else is sent but Transak's two menu settings |
| PaymentProviders.QueryParamsAreTruthy | lib/payment-providers.ts:44-50 | the same for any key set whose amount and currency keys are apart from the others |
| PaymentProviders.KeysApartOf | lib/payment-providers.ts:73-82 | every integration's amount and currency keys differ from each other and from all its other keys |
| PaymentProviders.HasKeyConcat | lib/payment-providers.ts:44 | a key is in a joined parameter list exactly when it is in one of the parts |
| PaymentProviders.TransakAlwaysHidesMenu | lib/payment-providers.ts:80-81 | Transak's query always ends with hideMenu=true and themeColor=000000 |
| PaymentProviders.WidgetUrl | lib/payment-providers.ts:52 | the URL begins with the environment's host followed by "?" |
| PaymentProviders.HostDependsOnlyOnEnvironment | lib/payment-providers.ts:41-52 | the URL's host is the environment's host, and two configurations with the same environment give the same host whatever their keys |
| PaymentProviders.KindNamed | lib/payment-providers.ts:329-345 | an integration is found only under its own exact lower-case name, and none exactly when no integration has that name |
| PaymentProviders.Create | lib/payment-providers.ts:444-465 | succeeds exactly when the lower-cased name is an integration's, holding the given configuration; otherwise fails with "Unsupported provider: " and the name |
| PaymentProviders.CreateIgnoresCase | lib/payment-providers.ts:446 | names equal up to case create the same integration or fail alike |
| PaymentProviders.EveryKindIsCreatable | lib/payment-providers.ts:447-460 | every integration is created from its own lower-case name |
| PaymentProviders.Field | lib/payment-providers.ts:350 | reading a property throws exactly on undefined or null; a found value is the object's member under that key |
| PaymentProviders.LowerField | lib/payment-providers.ts:370 | `.toLowerCase()` succeeds only on a string property, giving its lower-case form |
| PaymentProviders.Read | lib/payment-providers.ts:354-359 | a mapped update's id and amounts are the object's properties under the provider's keys, and the read throws exactly when the object is undefined or null |
| PaymentProviders.HandleWebhook | lib/payment-providers.ts:319-347 | a wrong signature is refused first; then an unknown provider name is refused with its name; otherwise the provider's own mapper decides |
| PaymentProviders.WebhookNamesAreExact | lib/payment-providers.ts:329 | "MoonPay" creates an integration in the factory but is an unknown provider to the webhook handler |
| PaymentProviders.OnlyReleasesComplete | lib/payment-providers.ts:376-389 | Ramp maps only RELEASED (and Coinify only trade.completed, 428-441), as completed; every other event gives null |
| PaymentProviders.SimplexStatus | lib/payment-providers.ts:391-400 | every Simplex event with a payment object is mapped: approved as completed, anything else as processing |
| PaymentProviders.UntaggedEventsAreIgnored | lib/payment-providers.ts:349-363 | MoonPay (and Mercuryo, 413-426) give null for every event type but the one each maps |
| PaymentProviders.StatusIsLowerCased | lib/payment-providers.ts:365-374 | Transak's (and Banxa's, 402-411) status comes out lower-cased, and a Transak event without a status throws |
| WalletAnalytics.Received | components/wallet-analytics.tsx:47-71 | the panel's summary carries the route's totals as text, its transaction count and how many top contacts it returned |
| WalletAnalytics.UniqueTileIsCapped | components/wallet-analytics.tsx:204-205 | the "Unique Addresses" tile never shows more than ten, and shows fewer only when every counterparty is counted |
| WalletAnalytics.CsvRows | components/wallet-analytics.tsx:82-89 | a header and then the five metrics, in order, two cells each |
| WalletAnalytics.Lines | components/wallet-analytics.tsx:91 | one line per row, each the row's cells joined by commas |
| WalletAnalytics.FileName | components/wallet-analytics.tsx:96 | "wallet-analytics-", at most the first eight characters of the address, then ".csv" |
| WalletAnalytics.ExportData | components/wallet-analytics.tsx:79-99 | nothing without analytics; otherwise the CSV text of the summary under that file name |
| WalletAnalytics.JoinAvoids | components/wallet-analytics.tsx:91 | joining pieces without some character never introduces it, unless it is the separator |
| WalletAnalytics.PlainTableReadsBack | components/wallet-analytics.tsx:91 | a table whose cells hold no comma and no newline splits back into its lines and each line into its cells |
| WalletAnalytics.LabelsArePlain | components/wallet-analytics.tsx:82-89 | the export's fixed labels hold no comma and no newline |
| WalletAnalytics.CsvReadsBack | components/wallet-analytics.tsx:82-91 | when the values hold no comma and no newline, the export splits back into its six rows of two cells |
| WalletAnalytics.CommaInCellSplitsIt | components/wallet-analytics.tsx:87 | nothing is quoted: a network name with a comma reads back as two cells |
| WalletAnalytics.BarWidth | components/wallet-analytics.tsx:238 | ten percent per transaction, capped at 100 |
| WalletAnalytics.BarWidthMonotone | components/wallet-analytics.tsx:238 | more transactions never give a shorter bar |
| ContactsManager.CheckNewContact | components/contacts-manager.tsx:46-63 | "Name and address are required" exactly when either is empty; then "Invalid Ethereum address format" exactly when the address is not "0x" and forty hex digits; otherwise accepted |
| ContactsManager.Draft | components/contacts-manager.tsx:66-71 | the submitted contact has the form's fields, no transactions and zero totals |
| ContactsManager.EditPatch | components/contacts-manager.tsx:98-103 | an edit sends name, notes, tags and the favourite flag, and no date or totals |
| ContactsManager.EditKeepsTotals | components/contacts-manager.tsx:98-103 | after an edit the user's fields are the edited ones and the address, owner, key, last transaction date and totals are the stored ones |
| ContactsManager.FavoritePatch | components/contacts-manager.tsx:141 | the star sends only the negated favourite flag |
| ContactsManager.FavoriteTwiceRestores | components/contacts-manager.tsx:139-149 | starring twice restores the contact except for its update time |
| ContactsManager.FilteredContacts | components/contacts-manager.tsx:38-43 | the contacts whose name, address or a tag contains the term ignoring case, in listed order; an empty term keeps them all |
| ContactsManager.EmptyTermFindsAll | components/contacts-manager.tsx:38-43 | the empty search term matches every contact |
| ContactsManager.FormatAddress | components/contacts-manager.tsx:151-153 | for six characters or more: the first six, "...", the last four; a shorter one keeps what it has of each side |
| ContactsManager.Initials | components/contacts-manager.tsx:155-162 | at most two characters: the upper-cased first characters of the space-separated words |
| ContactsManager.InitialsAreWordStarts | components/contacts-manager.tsx:155-162 | each initial is the upper-case form of the start of the corresponding word, in order |
| ContactsManager.ContactsManagerView.constructor | components/contacts-manager.tsx:27-36 | an empty form, the dialog closed, no contact being edited |
| ContactsManager.ContactsManagerView.HandleAddContact | components/contacts-manager.tsx:45-93 | a failed check changes nothing; otherwise the draft is added through the session (unless its address is stored), the contacts reread, and the form cleared and the dialog closed |
| ContactsManager.ContactsManagerView.HandleUpdateContact | components/contacts-manager.tsx:95-119 | nothing without a contact being edited; otherwise the edit reaches that contact in the store, the contacts are reread and the editor closes |
| ContactsManager.ContactsManagerView.HandleDeleteContact | components/contacts-manager.tsx:121-137 | a declined prompt changes nothing; otherwise the contact is removed from the service's partition and the contacts reread |
| ContactsManager.ContactsManagerView.ToggleFavorite | components/contacts-manager.tsx:139-149 | the contact's favourite flag is negated in the store and the contacts reread |
| TransactionHistory.FilteredTransactions | components/transaction-history.tsx:33-44 | the transactions that match the search (hash, sender, recipient or memo, ignoring case) and both filters, in cached order; an empty search with both filters on "all" lists everything |
| TransactionHistory.EmptySearchListsAll | components/transaction-history.tsx:33-44 | no search term and both filters on "all" list every transaction |
| TransactionHistory.SearchIgnoresCase | components/transaction-history.tsx:35-38 | typing the term in upper or lower case lists the same transactions |
| TransactionHistory.OtherAddress | components/transaction-history.tsx:158 | a send is shown against its recipient, a receipt against its sender |
| TransactionHistory.OtherAddressIsCounterparty | components/transaction-history.tsx:158 | the address shown is the counterparty the sync service mirrors the transfer to |
| TransactionExplorer.AddressesOf | components/transaction-explorer.tsx:46 | exactly the texts that appear as a sender or recipient of some row |
| TransactionExplorer.AddressesBound | components/transaction-explorer.tsx:46 | at most two distinct addresses per row |
| TransactionExplorer.Search | components/transaction-explorer.tsx:29-59 | a blank or all-white-space term does nothing; otherwise the rows found are shown and the term is reported as most active |
| TransactionExplorer.SearchStats | components/transaction-explorer.tsx:38-46 | the sent total sums exactly the own sends, the received total exactly the own receipts (own address compared ignoring case), and the address count is at most twice the rows |
| TransactionExplorer.TabsAreDisjoint | components/transaction-explorer.tsx:178-186 | no row is in both the Sent and the Received tab |
| TransactionExplorer.OtherParty | components/transaction-explorer.tsx:195-196 | an outgoing row is shown against its recipient, any other against its sender |
| TransactionExplorer.OtherPartyAgreesWithTabs | components/transaction-explorer.tsx:195-196 | a Sent-tab row is outgoing and shown against its counterparty; a receipt from another wallet is shown against its sender, and one from the own address against its recipient |
| SendReceive.CheckSend | components/send-receive.tsx:52-93 | each message exactly when its check is the first to fail: missing fields, a malformed recipient, an amount that is NaN or not positive, an amount above a readable balance; a balance read as NaN refuses nothing |
| SendReceive.TokenBalanceText | components/send-receive.tsx:82-84 | "0" when no listed token has that exact address; any other text is the balance of a token with that address |
| SendReceive.AvailableText | components/send-receive.tsx:82-84 | as written: any non-empty selection, "native" included, is looked up among the tokens; only the untouched menu uses the native balance |
| SendReceive.NativeSelectionIsRefused | components/send-receive.tsx:211 | as written, choosing the menu's native entry measures the send against "0", so every valid positive amount is refused as "Insufficient balance" |
| SendReceive.TokenArgument | components/send-receive.tsx:97 | `selectedToken \|\| undefined`: no token exactly for the untouched menu; any other selection, "native" included, is passed on as itself |
| SendReceive.SendChecksWhatItSends | components/send-receive.tsx:82-97 | as written, the balance checked is that of the token passed on, or the native balance when none is passed |
| SendReceive.SelectedTokenAddress | components/send-receive.tsx:97 | corrected: neither the untouched menu nor the native entry stands for a token; any other selection stands for itself |
| SendReceive.AvailableTextFixed | components/send-receive.tsx:82-84 | corrected: the native entry and the untouched menu both use the native balance; a token selection is looked up as before |
| SendReceive.NativeSelectionReadsNativeBalance | components/send-receive.tsx:211 | with the correction, the native entry is checked against the native balance, and a send within it passes |
| SendReceive.FormatAddress | components/send-receive.tsx:114-116 | for eight characters or more: the first eight, "...", the last eight; a shorter address is shown whole on both sides |
| SendReceive.SendView.constructor | components/send-receive.tsx:22-26 | empty recipient, amount, selection and memo, not loading |
| SendReceive.SendView.HandleSend | components/send-receive.tsx:52-112 | the checks against the balance as written (lines 82-84); a failed check returns its message and changes nothing; otherwise the session's send writes the record with `selectedToken \|\| undefined` as its token, success exactly after a full sync, any failure reported as "Failed to send transaction", and loading ends cleared |
| PurchaseHistory.FilteredPurchases | components/purchase-history.tsx:143-151 | the purchases whose provider or crypto currency contains the term ignoring case and that pass both filters, in order; an empty term with both filters on "all" keeps them all |
| PurchaseHistory.EmptySearchListsAll | components/purchase-history.tsx:143-151 | no search term and both filters on "all" list every purchase |
| PurchaseHistory.Providers | components/purchase-history.tsx:153 | the provider of each purchase, in order |
| PurchaseHistory.UniqueProvidersFacts | components/purchase-history.tsx:153 | the provider menu names each provider that occurs exactly once, and nothing else, in the order of first occurrence |
| Tally.DedupeFacts | components/purchase-history.tsx:153 | `Array.from(new Set(xs))` keeps each value once, the values of `xs` and no others |
| KycVerification.WhatStepsRequire | components/kyc-verification.tsx:89-107 | the postal code is never required, a passport needs no back image while other documents do, no step outside 1 to 4 is ever complete, and the empty form completes no step |
| KycVerification.ProgressInQuarters | components/kyc-verification.tsx:79 | within the wizard the bar reads 25, 50, 75 or 100 percent, full exactly at the last step |
| KycVerification.KycWizard.constructor | components/kyc-verification.tsx:58-76 | step 1, not loading, every field empty |
| KycVerification.KycWizard.HandleNext | components/kyc-verification.tsx:109-123 | an incomplete step stays put; a complete step before the last moves on by one; the complete last step is submitted and reported verified |
| KycVerification.KycWizard.Submit | components/kyc-verification.tsx:125-147 | the submission always tells the caller "verified" and ends with loading cleared |
| KycVerification.KycWizard.Previous | components/kyc-verification.tsx:461-465 | one step back, shown only after the first step |
| KycVerification.KycWizard.Enter | components/kyc-verification.tsx:81-87 | the form data is replaced and the step stays |
| WalletSetup.CheckCreate | components/wallet-setup.tsx:37-62 | each message exactly when its check is the first to fail: mismatched passwords, a password under eight characters, terms not agreed; otherwise accepted |
| WalletSetup.CheckImport | components/wallet-setup.tsx:81-97 | a blank phrase is refused first, then mismatched passwords; otherwise accepted |
| WalletSetup.ImportAsksLess | components/wallet-setup.tsx:80-113 | importing accepts any non-blank phrase with a matching password, however short and without the terms, which creating refuses |
| WalletSetup.WalletSetupView.constructor | components/wallet-setup.tsx:22-31 | empty passwords and phrases, nothing revealed, terms not agreed, step 1, not loading |
| WalletSetup.WalletSetupView.HandleCreateWallet | components/wallet-setup.tsx:36-78 | a failed check changes nothing; otherwise a created wallet's phrase is kept and step 2 shown, a failed creation is reported, and loading ends cleared |
| WalletSetup.WalletSetupView.HandleImportWallet | components/wallet-setup.tsx:80-113 | a failed check changes nothing; otherwise the trimmed phrase is restored but the stored phrase is a created wallet's phrase if any, else the untrimmed input; either failure reports "Invalid recovery phrase" |
| WalletSetup.WalletSetupView.PressContinue | components/wallet-setup.tsx:140-155 | a disabled button does nothing; otherwise the save is reported, "Failed to save wallet" on failure, loading ends cleared |
| WalletSetup.WalletSetupView.Reveal | components/wallet-setup.tsx:261 | the phrase is shown, which enables Continue unless busy |
| Settings.CheckChange | components/settings.tsx:54-80 | each message exactly when its check is the first to fail: a missing field, mismatched new passwords, a new password under eight characters; otherwise accepted |
| Settings.CurrentPasswordIsNotChecked | components/settings.tsx:54-80 | the outcome never depends on which current password was typed, only that one was |
| Settings.SettingsView.constructor | components/settings.tsx:26-33 | empty password fields and both dialogs closed |
| Settings.SettingsView.HandleExportRecoveryPhrase | components/settings.tsx:39-52 | without a password nothing changes; with any password the phrase dialog opens and the password is cleared |
| Settings.SettingsView.HandleChangePassword | components/settings.tsx:54-91 | a failed check changes nothing; success clears the three fields and closes the dialog |
| Records.Counterparty | lib/transaction-sync.ts:21-41 | the wallet a transfer is mirrored to: the recipient of a send, the sender of a receipt |
| Records.Flip | lib/transaction-sync.ts:22-25 | the mirror's direction is always the other one |
| Records.ApplyPatch | app/api/contacts/route.ts:58 | `$set` overwrites exactly the supplied fields among those the app's updates name, and keeps the key, address, owner, avatar and creation time |
| Text.FirstCharactersAreWordStarts | components/contacts-manager.tsx:155-162 | taking the first character of each piece of `split(" ")` gives the starts of the words, empty pieces contributing nothing |

## Left out

- Key material: `ethers` wallet creation, mnemonic derivation, `encrypt`/`decrypt` and `localStorage` are not modelled. `createWallet` and `unlockWallet` take the derived address as a parameter, and the setup screen's generated phrase is a parameter too.
- Transport: HTTP and `fetch` are left out. Handlers are called directly. Whether a sync request reaches the server is the `Link` parameter. Reads and contact updates from the session assume a reachable server.
- The `/api/purchase` request that `handlePurchase` sends and the provider HTTP calls in `lib/payment-providers.ts` (`createTransaction` and the rest) are left out. They talk to services outside the repository.
- Store failures: a database that throws (the handlers' 500 branch) is not modelled, except where a handler's own input makes it throw (an invalid timestamp in the analytics pass).
- Floating point: amounts are `real`. `parseFloat` and `Number` readings are parameters. `toFixed`, `toString`, `toLocaleString` and `Intl` formatting are not modelled, so the explorer's statistics are numbers rather than formatted text.
- Randomness: mock hashes, balances, monthly statistics and token distributions are parameters.
- `compareProviderRates` (lib/payment-providers.ts:468-495), the provider comparison screen and `app/api/providers/route.ts` are not modelled. They only rank mock quotes for display.
- Time: `setTimeout` delays are not modelled. The delayed confirmation of a send is an explicit later step (`Confirm`). The loading timers are left out. The setup screen's 3000 ms KYC simulation completes at once.
- The HMAC digest of the webhook check and `URLSearchParams` encoding are parameters.
- The balances effect (contexts/wallet-context.tsx:403-407) is folded into one `RefreshBalances` call in `Open` and in `SwitchNetwork`. React effect scheduling is not modelled.
- Text: strings are sequences of code points rather than UTF-16 units. Case mapping covers ASCII letters only.
- AnalyticsRoute.RecentActivityFacts: dates are ordered by day number. The source orders the `toISOString` date texts with `localeCompare` (app/api/analytics/transactions/route.ts:47). The two orders agree only for the years 0000 to 9999. A timestamp at or after 253402300800000 gives an expanded-year text such as "+010000-01-01", which sorts before every four-digit year. Stored timestamps are not bounded, so this case is reachable.
- AnalyticsRoute.RecentActivityFacts: the window starts at `now` less 30 × 86400000 ms. The source moves back 30 calendar days in local time with `setDate` (lines 41-42), which differs by the daylight-saving shift when one falls inside the window.
- Tally.TallyFacts: counts are kept in a list of entries. The source keeps them in a plain object (app/api/analytics/transactions/route.ts:21-36). There the key `__proto__` never becomes an entry, and `constructor` starts from an inherited function, so its count is not a number. Transaction addresses are not validated, so such keys can reach it.
- Tally.TallyInFirstSeenOrder: entries are in first-seen order. `Object.entries` on a plain object lists integer-like keys ("1", "2") first, in numeric order, before the other keys in insertion order. The model assumes no counterparty is integer-like.
- AnalyticsRoute.TopContactsFacts: "ties keep first-met order" rests on the first-seen order above. It fails for integer-like counterparties, and the counts fail for `__proto__` and `constructor` as keys.
- AnalyticsRoute.Accumulate: its tallies are the entry lists above, with the same limits for the plain-object keys `__proto__`, `constructor` and integer-like texts.
- ContactsRoute.Put: an update names only the fields the app's own updates send (`ContactPatch`). The route's `$set: updates` (app/api/contacts/route.ts:58) writes any field the request body names. A body naming `address` can duplicate an address in the wallet, and one naming `walletAddress` moves the contact to another partition.
- ContactsRoute.PatchKeepsInvariants: it holds only for the fields `ContactPatch` names. The route allows overwriting the address or owner, which can break address uniqueness and partitioning.
- Records.ApplyPatch: it keeps the key, address and owner because `ContactPatch` cannot name them. A raw `$set` can overwrite them.
- FiatOnramp.FiatOnrampView.KycFinished: after KYC completes, the retried purchase reads the screen state from before the KYC step (a stale closure). The model keeps that behaviour.
- JavaScript `TypeError` messages are collapsed to the single text "TypeError".
- JSON values are simplified: numbers are `real` or `int` as the field needs, and arrays are sequences of the modelled records.
- Coinify's `partnerId` parameter is left out. Its value comes from configuration.
- Icons, colours, NFT images, provider feature lists and other display-only fields are left out.
- PurchaseHistory: the screen shows its own four mock purchases (components/purchase-history.tsx:26-80). The model filters any list of purchase records with those fields.
- `onClose` callbacks, toasts, the clipboard and the QR code in the send screen are left out.
- The purely presentational files (dashboard, wallet header, unlock screen, NFT gallery, the page and the layout) are not part of this model.
- The MongoDB connection in `lib/mongodb.ts` is not modelled. The store is `Store.Db`.

## Findings

The screen methods (`SendReceive.SendView.HandleSend` and `FiatOnramp.FiatOnrampView`) follow the code as written. The corrected definitions sit beside them, with the intended property proved about each. The session's unlock has both forms, `OpenAsWritten` and `Open`.

| source | as written | input that shows it | evidently intended | confidence | as-written member | corrected member |
|---|---|---|---|---|---|---|
| contexts/wallet-context.tsx:123-135 | the unlock effect creates the new services, then calls `refreshTransactions`/`refreshContacts`, which still see the previous render's `dbService` (null) | a locked session with no services, unlocked for a wallet that has stored contacts | the first reads go through the service just created and load that wallet's records | not executed | WalletContext.WalletSession.OpenAsWritten, WalletContext.StaleReadMissesContacts | WalletContext.WalletSession.Open, WalletContext.FreshReadFindsContacts |
| components/send-receive.tsx:82-84 | choosing the menu's "native" entry (line 211) makes `selectedToken` the text "native", which no token has as its address, so the available balance is "0" | select "native", enter a valid recipient and the amount 1 | the native entry is checked against the native balance | not executed | SendReceive.AvailableText, SendReceive.NativeSelectionIsRefused | SendReceive.AvailableTextFixed, SendReceive.SelectedTokenAddress, SendReceive.NativeSelectionReadsNativeBalance |
| components/fiat-onramp.tsx:141 | `amount >= 1000 \|\| !kycCompleted` asks for KYC on every large purchase, even after KYC is complete | an amount of 1500 with `kycCompleted` true | KYC is asked for on 1000 or more only when it is not complete, as the step-3 warning (components/fiat-onramp.tsx:232) says | not executed | FiatOnramp.DecideAsWritten, FiatOnramp.LargePurchaseAlwaysNeedsKyc, FiatOnramp.LargePurchaseNeverSubmits | FiatOnramp.Decide, FiatOnramp.KycRuleMatchesWarning |
