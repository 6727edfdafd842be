/** The documents the wallet keeps in its record store: transactions, contacts
    and fiat purchases, each tagged with the wallet (`walletAddress`) it belongs to. */
module Records {
  import opened Wrappers

  datatype TxStatus = Pending | Confirmed | Failed

  datatype TxType = Send | Receive

  /** The other direction: what a transfer looks like from the counterparty's side. */
  function Flip(t: TxType): (r: TxType)
    ensures r != t
  {
    match t
    case Send => Receive
    case Receive => Send
  }

  /** A transfer as one wallet sees it. Amounts are exact numbers here; the
      stored text form and its `parseFloat` reading are abstracted away. */
  datatype Transaction = Transaction(
    hash: string,
    from: string,
    to: string,
    value: real,
    timestamp: int,
    status: TxStatus,
    txType: TxType,
    token: Option<string>,
    tokenSymbol: Option<string>,
    gasUsed: Option<string>,
    gasPrice: Option<string>,
    fees: Option<string>,
    network: string,
    blockNumber: Option<int>,
    confirmations: Option<int>,
    memo: Option<string>,
    walletAddress: string)

  /** The amount of a transfer, as `parseFloat(tx.value)` reads it. */
  function TxValue(t: Transaction): real { t.value }

  /** The other party of a transfer: the recipient of a send, the sender of anything else. */
  function Counterparty(t: Transaction): (r: string)
    ensures t.txType == Send ==> r == t.to
    ensures t.txType == Receive ==> r == t.from
  {
    if t.txType == Send then t.to else t.from
  }

  /** An address-book entry with its running totals. `id` is the store-assigned key. */
  datatype Contact = Contact(
    id: Option<nat>,
    name: string,
    address: string,
    avatar: Option<string>,
    tags: seq<string>,
    notes: Option<string>,
    lastTransactionDate: Option<int>,
    totalTransactions: int,
    totalSent: real,
    totalReceived: real,
    isFavorite: bool,
    walletAddress: string,
    createdAt: int,
    updatedAt: int)

  /** The fields the wallet ever sends in a contact update (`Partial<Contact>`);
      `None` means the field is not part of the `$set`. */
  datatype ContactPatch = ContactPatch(
    name: Option<string>,
    notes: Option<string>,
    tags: Option<seq<string>>,
    isFavorite: Option<bool>,
    lastTransactionDate: Option<int>,
    totalTransactions: Option<int>,
    totalSent: Option<real>,
    totalReceived: Option<real>,
    updatedAt: Option<int>)

  /** `$set: patch` on one contact: each supplied field is overwritten, every
      other field (address, owner, key, creation time, avatar) is kept. */
  function ApplyPatch(c: Contact, p: ContactPatch): (r: Contact)
    ensures r.id == c.id && r.address == c.address && r.walletAddress == c.walletAddress
    ensures r.avatar == c.avatar && r.createdAt == c.createdAt
    ensures p.name.Some? ==> r.name == p.name.value
    ensures p.name.None? ==> r.name == c.name
    ensures p.totalTransactions.None? ==> r.totalTransactions == c.totalTransactions
    ensures p.totalSent.None? ==> r.totalSent == c.totalSent
    ensures p.totalReceived.None? ==> r.totalReceived == c.totalReceived
  {
    c.(name := p.name.GetOr(c.name),
       notes := if p.notes.Some? then p.notes else c.notes,
       tags := p.tags.GetOr(c.tags),
       isFavorite := p.isFavorite.GetOr(c.isFavorite),
       lastTransactionDate := if p.lastTransactionDate.Some? then p.lastTransactionDate else c.lastTransactionDate,
       totalTransactions := p.totalTransactions.GetOr(c.totalTransactions),
       totalSent := p.totalSent.GetOr(c.totalSent),
       totalReceived := p.totalReceived.GetOr(c.totalReceived),
       updatedAt := p.updatedAt.GetOr(c.updatedAt))
  }

  /** A patch that sets nothing. */
  const NoChange := ContactPatch(None, None, None, None, None, None, None, None, None)

  datatype PurchaseStatus = PurchasePending | PurchaseCompleted | PurchaseFailed | PurchaseProcessing

  /** A fiat-to-crypto purchase made through a payment provider. The amounts
      are passed through as text and never computed with. */
  datatype Purchase = Purchase(
    id: Option<nat>,
    provider: string,
    fiatAmount: string,
    fiatCurrency: string,
    cryptoAmount: string,
    cryptoCurrency: string,
    status: PurchaseStatus,
    paymentMethod: string,
    timestamp: int,
    transactionHash: Option<string>,
    fees: string,
    walletAddress: string,
    providerTransactionId: Option<string>)

  function TxOwner(t: Transaction): string { t.walletAddress }
  function ContactOwner(c: Contact): string { c.walletAddress }
  function PurchaseOwner(p: Purchase): string { p.walletAddress }
  function ContactId(c: Contact): Option<nat> { c.id }
  function ContactAddress(c: Contact): string { c.address }
  function PurchaseId(p: Purchase): Option<nat> { p.id }

  /** What a route handler answers: a body, or an error status with its message. */
  datatype Reply<+T> = Ok(body: T) | Refused(status: nat, message: string)
}
