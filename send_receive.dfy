/** The send form: its checks, the balance a send is measured against, and the
    call into the wallet session. Readings of the entered text as numbers
    (`parseFloat`, with `None` for NaN) are parameters. */
module SendReceive {
  import opened Wrappers
  import opened Records
  import opened Store
  import opened Text
  import opened TransactionSync
  import opened WalletContext

  /** The checks `handleSend` makes, in order, on the recipient, the amount
      text, its reading and the reading of the available balance. A balance that
      reads as NaN refuses nothing, since every comparison with NaN is false. */
  function CheckSend(recipient: string, amountText: string, amount: Option<real>, available: Option<real>): (r: Outcome<string>)
    ensures (recipient == "" || amountText == "") <==> r == Fail("Please fill in all required fields")
    ensures r == Fail("Invalid recipient address") <==>
              recipient != "" && amountText != "" && !IsAccountAddress(recipient)
    ensures r == Fail("Invalid amount") <==>
              amountText != "" && IsAccountAddress(recipient) && (amount.None? || amount.value <= 0.0)
    ensures r == Fail("Insufficient balance") <==>
              amountText != "" && IsAccountAddress(recipient) && amount.Some? && amount.value > 0.0
              && available.Some? && amount.value > available.value
    ensures r == Pass <==>
              amountText != "" && IsAccountAddress(recipient) && amount.Some? && amount.value > 0.0
              && (available.None? || amount.value <= available.value)
  {
    if recipient == "" || amountText == "" then Fail("Please fill in all required fields")
    else if !IsAccountAddress(recipient) then Fail("Invalid recipient address")
    else if amount.None? || amount.value <= 0.0 then Fail("Invalid amount")
    else if available.Some? && amount.value > available.value then Fail("Insufficient balance")
    else Pass
  }

  /** The balance text of the first listed token with exactly this address, or
      "0" when none has it (or its balance is empty). */
  function TokenBalanceText(tokens: seq<Token>, tokenAddress: string): (r: string)
    ensures (forall t :: t in tokens ==> t.address != tokenAddress) ==> r == "0"
    ensures r != "0" ==> exists t :: t in tokens && t.address == tokenAddress && t.balance == r
  {
    match FirstMatch(tokens, (t: Token) => t.address == tokenAddress)
    case None => "0"
    case Some(i) => if tokens[i].balance == "" then "0" else tokens[i].balance
  }

  /** The balance text the send is checked against, as written: any selection,
      the "native" entry of the asset menu included, is looked up among the
      tokens; only an untouched menu uses the native balance. */
  function AvailableText(selectedToken: string, tokens: seq<Token>, balance: string): (r: string)
    ensures selectedToken == "" ==> r == balance
    ensures selectedToken != "" ==> r == TokenBalanceText(tokens, selectedToken)
  {
    if selectedToken != "" then TokenBalanceText(tokens, selectedToken) else balance
  }

  /** As written, choosing the native asset in the menu measures the send
      against "0", so every positive amount is refused as exceeding the
      balance, whatever the native balance is. */
  lemma NativeSelectionIsRefused(recipient: string, amountText: string, amount: real, tokens: seq<Token>,
                                 balance: string, parse: string -> Option<real>)
    requires IsAccountAddress(recipient) && amountText != "" && amount > 0.0
    requires forall t :: t in tokens ==> t.address != "native"
    requires parse("0") == Some(0.0)
    ensures AvailableText("native", tokens, balance) == "0"
    ensures CheckSend(recipient, amountText, Some(amount), parse(AvailableText("native", tokens, balance)))
            == Fail("Insufficient balance")
  {
  }

  /** `selectedToken || undefined`: the token argument the send passes as
      written; any non-empty selection, "native" included, is passed on as a
      token address. */
  function TokenArgument(selectedToken: string): (r: Option<string>)
    ensures r.None? <==> selectedToken == ""
    ensures r.Some? ==> r.value == selectedToken
  {
    if selectedToken == "" then None else Some(selectedToken)
  }

  /** As written, the send is checked against the balance of the token it
      passes on, or against the native balance when it passes none. */
  lemma SendChecksWhatItSends(selectedToken: string, tokens: seq<Token>, balance: string)
    ensures TokenArgument(selectedToken).None? ==> AvailableText(selectedToken, tokens, balance) == balance
    ensures TokenArgument(selectedToken).Some? ==>
              AvailableText(selectedToken, tokens, balance) == TokenBalanceText(tokens, TokenArgument(selectedToken).value)
  {
  }

  /** The token a selection stands for, with the correction: neither the
      untouched menu nor its "native" entry stands for a token. */
  function SelectedTokenAddress(selectedToken: string): (r: Option<string>)
    ensures r.None? <==> selectedToken == "" || selectedToken == "native"
    ensures r.Some? ==> r.value == selectedToken
  {
    if selectedToken == "" || selectedToken == "native" then None else Some(selectedToken)
  }

  /** The balance text the send is checked against, with the native entry
      measured against the native balance. */
  function AvailableTextFixed(selectedToken: string, tokens: seq<Token>, balance: string): (r: string)
    ensures SelectedTokenAddress(selectedToken).None? ==> r == balance
    ensures SelectedTokenAddress(selectedToken).Some? ==> r == AvailableText(selectedToken, tokens, balance)
  {
    match SelectedTokenAddress(selectedToken)
    case None => balance
    case Some(a) => TokenBalanceText(tokens, a)
  }

  /** With the fix, the native entry and the untouched menu are checked alike,
      against the native balance, and a send within it passes. */
  lemma NativeSelectionReadsNativeBalance(recipient: string, amountText: string, amount: real, tokens: seq<Token>,
                                          balance: string, parse: string -> Option<real>)
    requires IsAccountAddress(recipient) && amountText != "" && amount > 0.0
    requires parse(balance).Some? && amount <= parse(balance).value
    ensures AvailableTextFixed("native", tokens, balance) == AvailableTextFixed("", tokens, balance) == balance
    ensures CheckSend(recipient, amountText, Some(amount), parse(AvailableTextFixed("native", tokens, balance))) == Pass
  {
  }

  /** `formatAddress` on this screen: the first eight characters, "...", the last eight. */
  function FormatAddress(address: string): (r: string)
    ensures |address| >= 8 ==> |r| == 19 && r[..8] == address[..8] && r[8..11] == "..." && r[11..] == address[|address| - 8..]
    ensures |address| < 8 ==> r == address + "..." + address
  {
    AbbreviateShape(address, 8, 8);
    Abbreviate(address, 8, 8)
  }

  /** The send screen's own state. */
  class SendView {
    var recipient: string
    var amount: string
    var selectedToken: string
    var memo: string
    var isLoading: bool
    const session: WalletSession

    constructor(session: WalletSession)
      ensures this.session == session
      ensures recipient == "" && amount == "" && selectedToken == "" && memo == "" && !isLoading
    {
      this.session := session;
      recipient, amount, selectedToken, memo, isLoading := "", "", "", "", false;
    }

    /** `handleSend`, with `parse` reading text as a number and the session's
        parameters for the send itself. A failed check reports its message and
        changes nothing. Otherwise the session sends the entered amount to the
        recipient, for the selected token if any and without the memo; a failed
        send is reported as "Failed to send transaction". Either way the
        loading flag ends cleared. */
    method HandleSend(parse: string -> Option<real>, hash: string, now: int, later: int, first: Link, second: Link)
      returns (r: Result<PendingConfirmation, string>)
      requires session.Valid()
      modifies this, session, session.db
      ensures session.Valid()
      ensures var check := CheckSend(old(recipient), old(amount), parse(old(amount)),
                                     parse(AvailableText(old(selectedToken), old(session.tokens), old(session.balance))));
        && (check.Fail? ==> r == Failure(check.error) && unchanged(this) && unchanged(session) && unchanged(session.db))
        && (check.Pass? ==>
              && !isLoading
              && recipient == old(recipient) && amount == old(amount) && selectedToken == old(selectedToken) && memo == old(memo)
              && session.db.transactions ==
                   (if old(session.wallet).Some? && old(session.syncService) != null
                    then Synced(old(session.db.transactions), old(session.address),
                                SendRecord(hash, old(session.address), old(recipient), parse(old(amount)).value, now,
                                           TokenArgument(old(selectedToken)), None, old(session.tokens), old(session.currentNetwork)),
                                first, second)
                    else old(session.db.transactions))
              && (r.Success? <==> old(session.wallet).Some? && old(session.syncService) != null && first == Up && second == Up)
              && (r.Failure? ==> r.error == "Failed to send transaction"))
    {
      var amountNum := parse(amount);
      var check := CheckSend(recipient, amount, amountNum,
                             parse(AvailableText(selectedToken, session.tokens, session.balance)));
      if check.Fail? {
        return Failure(check.error);
      }
      isLoading := true;
      var sent := session.SendTransaction(recipient, amountNum.value, TokenArgument(selectedToken), None,
                                          hash, now, later, first, second);
      if sent.Failure? {
        r := Failure("Failed to send transaction");
      } else {
        r := sent;
      }
      isLoading := false;
    }
  }
}
