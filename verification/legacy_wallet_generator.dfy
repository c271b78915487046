/** The submit handler of the older wallet-generation form
    (src/components/WalletGenerator.tsx), over the reducer of
    src/types/WalletGenerator.ts. Its length check counts the untrimmed
    password, which is also what it dispatches. */
module LegacyWalletGenerator {
  import opened Wrappers
  import opened WalletGeneratorTypes
  import JsString
  import WalletGeneratorForm

  class LegacyWalletGenerator {
    var formState: WalletFormState

    constructor ()
      ensures formState == InitialState
    {
      formState := InitialState;
    }

    /** `handleSubmit`: blank password, then raw length under six UTF-16 code units, are reported
        without dispatching; otherwise the raw password and the trimmed name
        are dispatched and `reply` decides between reset and failure. */
    method HandleSubmit(reply: WalletGeneratorForm.Reply)
      returns (request: Option<WalletGeneratorForm.GenerateRequest>)
      modifies this
      ensures var password := old(formState).password;
        && (JsString.IsBlank(password) ==>
              request.None? && formState == old(formState).(error := WalletGeneratorForm.PASSWORD_REQUIRED))
        && (!JsString.IsBlank(password) && JsString.Utf16Length(password) < WalletGeneratorForm.MIN_PASSWORD_LENGTH ==>
              request.None? && formState == old(formState).(error := WalletGeneratorForm.PASSWORD_TOO_SHORT))
        && (!JsString.IsBlank(password) && WalletGeneratorForm.MIN_PASSWORD_LENGTH <= JsString.Utf16Length(password) ==>
              && request == Some(WalletGeneratorForm.GenerateRequest(
                   password, WalletGeneratorForm.OptionalName(JsString.Trim(old(formState).walletName))))
              && formState == (if reply.Generated? then InitialState
                               else old(formState).(error := WalletGeneratorForm.FailureMessage(reply))))
    {
      formState := WalletFormReducer(formState, ClearError);
      JsString.TrimEmptyIffBlank(formState.password);
      if JsString.Trim(formState.password) == [] {
        formState := WalletFormReducer(formState, SetError(WalletGeneratorForm.PASSWORD_REQUIRED));
        return None;
      }
      if JsString.Utf16Length(formState.password) < WalletGeneratorForm.MIN_PASSWORD_LENGTH {
        formState := WalletFormReducer(formState, SetError(WalletGeneratorForm.PASSWORD_TOO_SHORT));
        return None;
      }
      var name := JsString.Trim(formState.walletName);
      request := Some(WalletGeneratorForm.GenerateRequest(formState.password, if name == "" then None else Some(name)));
      match reply
      case Generated =>
        formState := WalletFormReducer(formState, ResetForm);
      case ThrownString(message) =>
        formState := WalletFormReducer(formState, SetError(message));
      case ThrownOther =>
        formState := WalletFormReducer(formState, SetError(WalletGeneratorForm.FAILED_TO_GENERATE));
    }
  }

  /** The two forms disagree on a padded short password: five spaces and one
      letter are dispatched as they are by the older form and rejected as too
      short by the newer one. */
  method PaddedPasswordDiffers(reply: WalletGeneratorForm.Reply)
    returns (legacy: Option<WalletGeneratorForm.GenerateRequest>, current: Option<WalletGeneratorForm.GenerateRequest>)
    ensures legacy == Some(WalletGeneratorForm.GenerateRequest("     a", None))
    ensures current.None?
  {
    var padded := "     a";
    assert JsString.Trim(padded) == "a" by {
      assert JsString.TrimStart("     a") == JsString.TrimStart("    a") == JsString.TrimStart("   a")
          == JsString.TrimStart("  a") == JsString.TrimStart(" a") == JsString.TrimStart("a") == "a";
    }
    assert !JsString.IsBlank(padded) by { assert !JsString.IsWhitespace(padded[5]); }
    assert JsString.Trim("") == "";
    var older := new LegacyWalletGenerator();
    older.formState := older.formState.(password := padded);
    legacy := older.HandleSubmit(reply);
    var newer := new WalletGeneratorForm.WalletGenerator();
    newer.formState := newer.formState.(password := padded);
    current := newer.HandleSubmit(reply);
  }
}
