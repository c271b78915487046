/** The submit handler of the wallet-generation form
    (src/components/wallet/WalletGenerator.tsx), over the reducer of
    src/reducer/walletFormReducer.ts. */
module WalletGeneratorForm {
  import opened Wrappers
  import opened WalletGeneratorTypes
  import FormReducer
  import JsString

  const PASSWORD_REQUIRED := "Password is required"
  const PASSWORD_TOO_SHORT := "Password must be at least 6 characters long"
  const FAILED_TO_GENERATE := "Failed to generate wallet"
  const MIN_PASSWORD_LENGTH := 6

  /** The argument of the dispatched `generateWallet` thunk. */
  datatype GenerateRequest = GenerateRequest(password: string, name: Option<string>)

  /** How awaiting `dispatch(generateWallet(...)).unwrap()` ended: fulfilled,
      or what it threw (the rejection's string payload, or another value). */
  datatype Reply = Generated | ThrownString(message: string) | ThrownOther

  /** `name || undefined`. */
  function OptionalName(name: string): (r: Option<string>)
    ensures r.None? <==> name == ""
    ensures r.Some? ==> r.value == name
  {
    if name == "" then None else Some(name)
  }

  /** The message stored when the dispatched thunk throws. */
  function FailureMessage(reply: Reply): string {
    if reply.ThrownString? then reply.message else FAILED_TO_GENERATE
  }

  /** `disabled={!password.trim()}` on the submit button of both forms: it
      is disabled exactly while the password is all whitespace. */
  function SubmitDisabled(password: string): (disabled: bool)
    ensures disabled <==> JsString.IsBlank(password)
  {
    JsString.TrimEmptyIffBlank(password);
    JsString.Trim(password) == []
  }

  class WalletGenerator {
    var formState: WalletFormState

    constructor ()
      ensures formState == FormReducer.InitialFormState
    {
      formState := FormReducer.InitialFormState;
    }

    /** `handleSubmit`. The error is cleared first; a blank password and a
        trimmed password under six characters are reported without
        dispatching (the length counts UTF-16 code units, as `length` does);
        otherwise `request` is the dispatched thunk argument,
        with the trimmed password and trimmed name, and `reply` decides
        whether the form is reset or shows the failure. */
    method HandleSubmit(reply: Reply) returns (request: Option<GenerateRequest>)
      modifies this
      ensures var password := JsString.Trim(old(formState).password);
        && (password == [] ==>
              request.None? && formState == old(formState).(error := PASSWORD_REQUIRED))
        && (password != [] && JsString.Utf16Length(password) < MIN_PASSWORD_LENGTH ==>
              request.None? && formState == old(formState).(error := PASSWORD_TOO_SHORT))
        && (MIN_PASSWORD_LENGTH <= JsString.Utf16Length(password) ==>
              && request == Some(GenerateRequest(password, OptionalName(JsString.Trim(old(formState).walletName))))
              && formState == (if reply.Generated? then FormReducer.InitialFormState
                               else old(formState).(error := FailureMessage(reply))))
    {
      formState := FormReducer.WalletFormReducer(formState, ClearError);
      var trimmedPassword := JsString.Trim(formState.password);
      var trimmedWalletName := JsString.Trim(formState.walletName);
      if trimmedPassword == [] {
        formState := FormReducer.WalletFormReducer(formState, SetError(PASSWORD_REQUIRED));
        return None;
      }
      if JsString.Utf16Length(trimmedPassword) < MIN_PASSWORD_LENGTH {
        formState := FormReducer.WalletFormReducer(formState, SetError(PASSWORD_TOO_SHORT));
        return None;
      }
      request := Some(GenerateRequest(trimmedPassword, OptionalName(trimmedWalletName)));
      match reply
      case Generated =>
        formState := FormReducer.WalletFormReducer(formState, ResetForm);
      case ThrownString(message) =>
        formState := FormReducer.WalletFormReducer(formState, SetError(message));
      case ThrownOther =>
        formState := FormReducer.WalletFormReducer(formState, SetError(FAILED_TO_GENERATE));
    }
  }

  /** A password this form dispatches is never blank, so the thunk's own
      "Password is required" check cannot fire for it; it has at least three
      characters, since one character is at most two UTF-16 code units. */
  lemma DispatchedPasswordNotBlank(password: string)
    requires MIN_PASSWORD_LENGTH <= JsString.Utf16Length(JsString.Trim(password))
    ensures !JsString.IsBlank(JsString.Trim(password))
    ensures 3 <= |JsString.Trim(password)|
  {
    JsString.TrimProperties(password);
    assert !JsString.IsWhitespace(JsString.Trim(password)[0]);
  }
}
