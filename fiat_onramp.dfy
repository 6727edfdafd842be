/** Buying crypto with fiat money: the provider catalogue, picking a provider,
    and the checks a purchase passes before it is posted. `Number(fiatAmount)`
    is a parameter (`None`: NaN); the request itself is not modelled. */
module FiatOnramp {
  import opened Wrappers
  import opened Store

  /** A provider as the comparison shows it; the methods, currencies,
      description and features are display-only and not modelled. */
  datatype Provider = Provider(name: string, fees: string, minAmount: int, maxAmount: int)

  const Providers: seq<Provider> := [
    Provider("MoonPay", "1.5%", 20, 50000),
    Provider("Transak", "0.99%", 30, 25000),
    Provider("Ramp Network", "2.9%", 50, 20000),
    Provider("Simplex", "3.5% + $10", 50, 20000),
    Provider("Banxa", "1.0-3.5%", 20, 50000),
    Provider("Mercuryo", "3.95%", 30, 10000),
    Provider("Coinify", "1.49-3.75%", 25, 25000)
  ]

  /** Every provider has its own name and a minimum below its maximum. */
  lemma CatalogueFacts()
    ensures |Providers| == 7
    ensures forall i, j :: 0 <= i < j < |Providers| ==> Providers[i].name != Providers[j].name
    ensures forall i :: 0 <= i < |Providers| ==> 0 < Providers[i].minAmount < Providers[i].maxAmount
  {
  }

  function NameIs(name: string): Provider -> bool {
    (p: Provider) => p.name == name
  }

  /** `PROVIDERS.find((p) => p.name === provider) || null`: the catalogue entry
      with exactly that name, or none. */
  function FindProvider(name: string): (r: Option<Provider>)
    ensures r.Some? ==> r.value in Providers && r.value.name == name
    ensures r.None? <==> forall i :: 0 <= i < |Providers| ==> Providers[i].name != name
  {
    match FirstMatch(Providers, NameIs(name))
    case None => None
    case Some(i) => Some(Providers[i])
  }

  /** Each catalogue entry is found by its name, and by nothing else. */
  lemma FindProviderByName(i: nat, name: string)
    requires i < |Providers|
    ensures FindProvider(name) == Some(Providers[i]) <==> name == Providers[i].name
  {
    CatalogueFacts();
  }

  /** What `handlePurchase` does with the amount it read, whether a KYC check
      has been completed and the selected provider. */
  datatype Decision = InvalidAmount | NeedsKyc | NoProvider | Submit(provider: Provider)

  /** The rule as written: a purchase needs KYC when it is 1000 or more OR
      when no KYC has been completed. */
  predicate RequiresKycAsWritten(amount: real, kycCompleted: bool) {
    amount >= 1000.0 || !kycCompleted
  }

  /** `handlePurchase` up to the request with the rule as written. */
  function DecideAsWritten(amount: Option<real>, kycCompleted: bool, selected: Option<Provider>): (r: Decision)
    ensures r == InvalidAmount <==> amount.None? || amount.value == 0.0
    ensures r == NeedsKyc <==> amount.Some? && amount.value != 0.0 && RequiresKycAsWritten(amount.value, kycCompleted)
    ensures r.Submit? ==> Some(r.provider) == selected && kycCompleted && amount.value < 1000.0
  {
    if amount.None? || amount.value == 0.0 then InvalidAmount
    else if RequiresKycAsWritten(amount.value, kycCompleted) then NeedsKyc
    else if selected.None? then NoProvider
    else Submit(selected.value)
  }

  /** As written, completing KYC does not help a purchase of 1000 or more (at
      1500 with KYC complete, say): it is sent to KYC again, however often KYC
      succeeds, where the corrected rule lets it through. */
  lemma LargePurchaseAlwaysNeedsKyc(amount: real, kycCompleted: bool, selected: Option<Provider>)
    requires amount >= 1000.0
    ensures DecideAsWritten(Some(amount), kycCompleted, selected) == NeedsKyc
    ensures Decide(Some(amount), true, selected) != NeedsKyc
  {
  }

  /** The rule the purchase step announces: an amount of 1000 or more needs a
      completed KYC check. */
  predicate RequiresKyc(amount: real, kycCompleted: bool) {
    amount >= 1000.0 && !kycCompleted
  }

  /** The corrected rule asks for KYC exactly when the purchase step shows its
      warning, never once KYC is complete and never below 1000. */
  lemma KycRuleMatchesWarning(amount: real, kycCompleted: bool)
    ensures RequiresKyc(amount, kycCompleted) <==> (amount >= 1000.0 && !kycCompleted)
    ensures kycCompleted ==> !RequiresKyc(amount, kycCompleted)
    ensures amount < 1000.0 ==> !RequiresKyc(amount, kycCompleted)
    ensures RequiresKyc(amount, kycCompleted) ==> RequiresKycAsWritten(amount, kycCompleted)
  {
  }

  /** `handlePurchase` up to the request, with the corrected KYC rule: an
      amount that is 0 or NaN is refused; then KYC; then a provider must be
      selected. Negative amounts pass. */
  function Decide(amount: Option<real>, kycCompleted: bool, selected: Option<Provider>): (r: Decision)
    ensures r == InvalidAmount <==> amount.None? || amount.value == 0.0
    ensures r == NeedsKyc <==> amount.Some? && amount.value != 0.0 && RequiresKyc(amount.value, kycCompleted)
    ensures r == NoProvider <==> amount.Some? && amount.value != 0.0 && !RequiresKyc(amount.value, kycCompleted) && selected.None?
    ensures r.Submit? <==> amount.Some? && amount.value != 0.0 && !RequiresKyc(amount.value, kycCompleted) && selected.Some?
    ensures r.Submit? ==> Some(r.provider) == selected
  {
    if amount.None? || amount.value == 0.0 then InvalidAmount
    else if RequiresKyc(amount.value, kycCompleted) then NeedsKyc
    else if selected.None? then NoProvider
    else Submit(selected.value)
  }

  /** The amount is never held against the chosen provider's limits: with KYC
      complete, any non-zero amount below 1000 goes to the provider, below its
      minimum alike, and under the corrected rule so does any amount above its
      maximum. */
  lemma LimitsAreNotChecked(amount: real, p: Provider)
    requires amount != 0.0
    ensures amount < 1000.0 ==> DecideAsWritten(Some(amount), true, Some(p)) == Submit(p)
    ensures Decide(Some(amount), true, Some(p)) == Submit(p)
  {
  }

  class FiatOnrampView {
    var fiatAmount: string
    var selectedProvider: Option<Provider>
    var showKyc: bool
    var kycCompleted: bool
    var step: int
    var fiatCurrency: string
    var cryptoCurrency: string

    /** The first provider is preselected and the form starts at step 1. */
    constructor()
      ensures fiatAmount == "" && selectedProvider == Some(Providers[0]) && !showKyc && !kycCompleted && step == 1
      ensures fiatCurrency == "USD" && cryptoCurrency == "ETH"
    {
      fiatAmount := "";
      selectedProvider := Some(Providers[0]);
      showKyc, kycCompleted := false, false;
      step := 1;
      fiatCurrency, cryptoCurrency := "USD", "ETH";
    }

    method EnterAmount(text: string)
      modifies this
      ensures fiatAmount == text
      ensures selectedProvider == old(selectedProvider) && showKyc == old(showKyc) && kycCompleted == old(kycCompleted) && step == old(step)
    {
      fiatAmount := text;
    }

    /** Step 1's Next: the amount is not checked on the way to step 2. */
    method Next()
      modifies this
      ensures step == 2
      ensures fiatAmount == old(fiatAmount) && selectedProvider == old(selectedProvider)
      ensures showKyc == old(showKyc) && kycCompleted == old(kycCompleted)
    {
      step := 2;
    }

    /** Choosing a provider in the comparison: an unknown name clears the
        selection, and either way the form moves to step 3. */
    method SelectProvider(name: string)
      modifies this
      ensures selectedProvider == FindProvider(name) && step == 3
      ensures fiatAmount == old(fiatAmount) && showKyc == old(showKyc) && kycCompleted == old(kycCompleted)
    {
      selectedProvider := FindProvider(name);
      step := 3;
    }

    /** `handlePurchase` on the current state, with the rule as written and
        `number` reading the amount text. A purchase that needs KYC opens the
        KYC dialog. */
    method HandlePurchase(number: string -> Option<real>) returns (d: Decision)
      modifies this
      ensures d == DecideAsWritten(number(fiatAmount), kycCompleted, selectedProvider)
      ensures showKyc == (old(showKyc) || d == NeedsKyc)
      ensures fiatAmount == old(fiatAmount) && selectedProvider == old(selectedProvider)
      ensures kycCompleted == old(kycCompleted) && step == old(step)
    {
      d := DecideAsWritten(number(fiatAmount), kycCompleted, selectedProvider);
      if d == NeedsKyc {
        showKyc := true;
      }
    }

    /** The KYC dialog's completion: the result is recorded and the dialog
        closed; a successful check then retries the purchase through the
        callback of the render that opened the dialog, which still sees the
        KYC state from before this completion. */
    method KycFinished(verified: bool, number: string -> Option<real>) returns (d: Option<Decision>)
      modifies this
      ensures kycCompleted == verified
      ensures !verified ==> d.None? && !showKyc
      ensures verified ==> d == Some(DecideAsWritten(number(fiatAmount), old(kycCompleted), selectedProvider))
                           && showKyc == (d.value == NeedsKyc)
      ensures fiatAmount == old(fiatAmount) && selectedProvider == old(selectedProvider) && step == old(step)
    {
      var seen := kycCompleted;
      kycCompleted := verified;
      showKyc := false;
      d := None;
      if verified {
        var decision := DecideAsWritten(number(fiatAmount), seen, selectedProvider);
        if decision == NeedsKyc {
          showKyc := true;
        }
        d := Some(decision);
      }
    }

    method CloseKyc()
      modifies this
      ensures !showKyc
      ensures fiatAmount == old(fiatAmount) && selectedProvider == old(selectedProvider)
      ensures kycCompleted == old(kycCompleted) && step == old(step)
    {
      showKyc := false;
    }
  }

  /** The decisions of a run of KYC completions with results `results`, each
      retry reading the KYC state `seen` from before its own completion: a
      refused check retries nothing. */
  function Retries(amount: Option<real>, seen: bool, selected: Option<Provider>, results: seq<bool>)
    : (r: seq<Option<Decision>>)
    ensures |r| == |results|
    ensures forall i :: 0 <= i < |results| ==> (r[i].Some? <==> results[i])
    decreases |results|
  {
    if results == [] then []
    else
      [if results[0] then Some(DecideAsWritten(amount, seen, selected)) else None]
      + Retries(amount, results[0], selected, results[1..])
  }

  /** As written, a purchase of 1000 or more is never submitted: every retry
      after a successful KYC check opens the KYC dialog again, however many
      checks succeed. Below 1000 the stale retry after the first success asks
      for KYC once more, and the one after a second success gets past KYC. */
  lemma {:induction false} LargePurchaseNeverSubmits(amount: real, seen: bool, selected: Option<Provider>, results: seq<bool>)
    ensures amount >= 1000.0 ==> forall i :: 0 <= i < |results| ==>
              Retries(Some(amount), seen, selected, results)[i] == if results[i] then Some(NeedsKyc) else None
    ensures 0.0 < amount < 1000.0 && selected.Some? ==>
              Retries(Some(amount), false, selected, [true, true]) == [Some(NeedsKyc), Some(Submit(selected.value))]
    decreases |results|
  {
    if results != [] {
      LargePurchaseNeverSubmits(amount, results[0], selected, results[1..]);
      var r := Retries(Some(amount), seen, selected, results);
      var rest := Retries(Some(amount), results[0], selected, results[1..]);
      assert r == [if results[0] then Some(DecideAsWritten(Some(amount), seen, selected)) else None] + rest;
      if amount >= 1000.0 {
        forall i | 0 <= i < |results|
          ensures r[i] == if results[i] then Some(NeedsKyc) else None
        {
          if i > 0 {
            assert r[i] == rest[i - 1];
          }
        }
      }
    }
    if 0.0 < amount < 1000.0 && selected.Some? {
      assert Retries(Some(amount), true, selected, [true]) == [Some(Submit(selected.value))] + Retries(Some(amount), true, selected, []);
    }
  }
}
