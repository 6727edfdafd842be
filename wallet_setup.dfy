/** First-run setup: creating a wallet behind a password, or importing one from
    a recovery phrase. Key generation, phrase checking and storage are outside
    the model; what they yield is a parameter. */
module WalletSetup {
  import opened Wrappers
  import opened Text

  /** The checks `handleCreateWallet` makes, in order. */
  function CheckCreate(password: string, confirmPassword: string, agreedToTerms: bool): (r: Outcome<string>)
    ensures password != confirmPassword <==> r == Fail("Passwords do not match")
    ensures r == Fail("Password must be at least 8 characters long") <==> password == confirmPassword && |password| < 8
    ensures r == Fail("Please agree to the terms and conditions") <==>
              password == confirmPassword && |password| >= 8 && !agreedToTerms
    ensures r == Pass <==> password == confirmPassword && |password| >= 8 && agreedToTerms
  {
    if password != confirmPassword then Fail("Passwords do not match")
    else if |password| < 8 then Fail("Password must be at least 8 characters long")
    else if !agreedToTerms then Fail("Please agree to the terms and conditions")
    else Pass
  }

  /** The checks `handleImportWallet` makes, in order. */
  function CheckImport(phrase: string, password: string, confirmPassword: string): (r: Outcome<string>)
    ensures Trim(phrase) == "" <==> r == Fail("Please enter your recovery phrase")
    ensures r == Fail("Passwords do not match") <==> Trim(phrase) != "" && password != confirmPassword
    ensures r == Pass <==> Trim(phrase) != "" && password == confirmPassword
  {
    if Trim(phrase) == "" then Fail("Please enter your recovery phrase")
    else if password != confirmPassword then Fail("Passwords do not match")
    else Pass
  }

  /** Importing asks less than creating: any phrase that is not blank passes
      with any matching password, however short and without agreeing to the
      terms, which creating would refuse. */
  lemma ImportAsksLess(phrase: string, password: string, agreedToTerms: bool)
    requires Trim(phrase) != ""
    ensures CheckImport(phrase, password, password) == Pass
    ensures |password| < 8 || !agreedToTerms ==> CheckCreate(password, password, agreedToTerms) != Pass
  {
  }

  class WalletSetupView {
    var password: string
    var confirmPassword: string
    var mnemonic: string
    var importMnemonic: string
    var showMnemonic: bool
    var agreedToTerms: bool
    var step: int
    var isLoading: bool

    constructor()
      ensures password == "" && confirmPassword == "" && mnemonic == "" && importMnemonic == ""
      ensures !showMnemonic && !agreedToTerms && step == 1 && !isLoading
    {
      password, confirmPassword, mnemonic, importMnemonic := "", "", "", "";
      showMnemonic, agreedToTerms, step, isLoading := false, false, 1, false;
    }

    /** `handleCreateWallet`, where `generated` is the recovery phrase the new
        wallet came with (`None`: creation threw). A failed check changes
        nothing; otherwise a created wallet's phrase is kept and the setup moves
        to step 2 to show it, and any outcome ends with loading cleared. */
    method HandleCreateWallet(generated: Option<string>) returns (r: Outcome<string>)
      modifies this
      ensures CheckCreate(old(password), old(confirmPassword), old(agreedToTerms)).Fail? ==>
                r == CheckCreate(old(password), old(confirmPassword), old(agreedToTerms)) && unchanged(this)
      ensures CheckCreate(old(password), old(confirmPassword), old(agreedToTerms)).Pass? ==>
                && !isLoading
                && password == old(password) && confirmPassword == old(confirmPassword)
                && importMnemonic == old(importMnemonic) && showMnemonic == old(showMnemonic) && agreedToTerms == old(agreedToTerms)
                && (generated.Some? ==> r == Pass && mnemonic == generated.value && step == 2)
                && (generated.None? ==> r == Fail("Failed to create wallet") && mnemonic == old(mnemonic) && step == old(step))
    {
      r := CheckCreate(password, confirmPassword, agreedToTerms);
      if r.Fail? {
        return;
      }
      isLoading := true;
      if generated.Some? {
        mnemonic := generated.value;
        step := 2;
      } else {
        r := Fail("Failed to create wallet");
      }
      isLoading := false;
    }

    /** `handleImportWallet`, where `restores(p)` says whether phrase `p`
        restores a wallet and `stores(p)` whether the wallet of phrase `p` is
        then stored. A failed check changes nothing. Otherwise the trimmed
        phrase is restored, but what is stored is the phrase of a wallet created
        earlier in this setup if there is one, else the untrimmed input; either
        failure is reported as an invalid phrase, and loading ends cleared. */
    method HandleImportWallet(restores: string -> bool, stores: string -> bool) returns (r: Outcome<string>)
      modifies this
      ensures CheckImport(old(importMnemonic), old(password), old(confirmPassword)).Fail? ==>
                r == CheckImport(old(importMnemonic), old(password), old(confirmPassword)) && unchanged(this)
      ensures CheckImport(old(importMnemonic), old(password), old(confirmPassword)).Pass? ==>
                && r == (if restores(Trim(old(importMnemonic))) && stores(if old(mnemonic) != "" then old(mnemonic) else old(importMnemonic))
                         then Pass else Fail("Invalid recovery phrase"))
                && !isLoading && step == old(step) && mnemonic == old(mnemonic) && importMnemonic == old(importMnemonic)
                && password == old(password) && confirmPassword == old(confirmPassword)
    {
      r := CheckImport(importMnemonic, password, confirmPassword);
      if r.Fail? {
        return;
      }
      isLoading := true;
      var phrase := Trim(importMnemonic);
      var saved := restores(phrase) && stores(if mnemonic != "" then mnemonic else importMnemonic);
      r := if saved then Pass else Fail("Invalid recovery phrase");
      isLoading := false;
    }

    /** Continue is offered only once the phrase has been revealed, and not while busy. */
    predicate ContinueEnabled()
      reads this
    {
      showMnemonic && !isLoading
    }

    /** Pressing Continue, where `saved` says whether the wallet was stored: a
        disabled button does nothing (`None`). */
    method PressContinue(saved: bool) returns (r: Option<Outcome<string>>)
      modifies this
      ensures !old(ContinueEnabled()) ==> r.None? && unchanged(this)
      ensures old(ContinueEnabled()) ==>
                && r == Some(if saved then Pass else Fail("Failed to save wallet"))
                && !isLoading && step == old(step) && mnemonic == old(mnemonic) && showMnemonic == old(showMnemonic)
    {
      if !ContinueEnabled() {
        return None;
      }
      isLoading := true;
      r := Some(if saved then Pass else Fail("Failed to save wallet"));
      isLoading := false;
    }

    /** Revealing the phrase is what enables Continue. */
    method Reveal()
      modifies this
      ensures showMnemonic && ContinueEnabled() == !isLoading
      ensures step == old(step) && mnemonic == old(mnemonic) && isLoading == old(isLoading)
    {
      showMnemonic := true;
    }
  }
}
