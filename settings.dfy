/** The settings screen's two password forms: revealing the recovery phrase and
    changing the password. Neither checks the password against the wallet. */
module Settings {
  import opened Wrappers

  /** The checks `handleChangePassword` makes, in order; the current password
      only has to be entered. */
  function CheckChange(password: string, newPassword: string, confirmPassword: string): (r: Outcome<string>)
    ensures (password == "" || newPassword == "" || confirmPassword == "") <==> r == Fail("Please fill in all fields")
    ensures r == Fail("New passwords do not match") <==>
              password != "" && newPassword != "" && confirmPassword != "" && newPassword != confirmPassword
    ensures r == Fail("Password must be at least 8 characters long") <==>
              password != "" && newPassword != "" && newPassword == confirmPassword && |newPassword| < 8
    ensures r == Pass <==> password != "" && newPassword == confirmPassword && |newPassword| >= 8
  {
    if password == "" || newPassword == "" || confirmPassword == "" then Fail("Please fill in all fields")
    else if newPassword != confirmPassword then Fail("New passwords do not match")
    else if |newPassword| < 8 then Fail("Password must be at least 8 characters long")
    else Pass
  }

  /** Any entered current password is accepted: the outcome never depends on
      which one was typed. */
  lemma CurrentPasswordIsNotChecked(p1: string, p2: string, newPassword: string, confirmPassword: string)
    requires p1 != "" && p2 != ""
    ensures CheckChange(p1, newPassword, confirmPassword) == CheckChange(p2, newPassword, confirmPassword)
  {
  }

  class SettingsView {
    var password: string
    var newPassword: string
    var confirmPassword: string
    var showPasswordDialog: bool
    var showRecoveryDialog: bool

    constructor()
      ensures password == "" && newPassword == "" && confirmPassword == ""
      ensures !showPasswordDialog && !showRecoveryDialog
    {
      password, newPassword, confirmPassword := "", "", "";
      showPasswordDialog, showRecoveryDialog := false, false;
    }

    /** `handleExportRecoveryPhrase`: without a password nothing changes;
        with any password the phrase dialog opens and the password is cleared. */
    method HandleExportRecoveryPhrase() returns (r: Outcome<string>)
      modifies this
      ensures old(password) == "" ==> r == Fail("Please enter your password") && unchanged(this)
      ensures old(password) != "" ==>
                && r == Pass && showRecoveryDialog && password == ""
                && newPassword == old(newPassword) && confirmPassword == old(confirmPassword)
                && showPasswordDialog == old(showPasswordDialog)
    {
      if password == "" {
        return Fail("Please enter your password");
      }
      showRecoveryDialog := true;
      password := "";
      r := Pass;
    }

    /** `handleChangePassword`: a failed check changes nothing; success clears
        the three fields and closes the dialog. */
    method HandleChangePassword() returns (r: Outcome<string>)
      modifies this
      ensures r == CheckChange(old(password), old(newPassword), old(confirmPassword))
      ensures r.Fail? ==> unchanged(this)
      ensures r.Pass? ==>
                && password == "" && newPassword == "" && confirmPassword == ""
                && !showPasswordDialog && showRecoveryDialog == old(showRecoveryDialog)
    {
      r := CheckChange(password, newPassword, confirmPassword);
      if r.Fail? {
        return;
      }
      showPasswordDialog := false;
      password, newPassword, confirmPassword := "", "", "";
    }
  }
}
