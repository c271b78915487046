/** The action creators of src/actions/walletFormActions.ts. */
module WalletFormActions {
  import opened WalletGeneratorTypes
  import FormReducer

  /** `setPassword`: reduced, it stores the password and clears the error. */
  function SetPasswordAction(password: string): (a: WalletFormAction)
    ensures forall s :: FormReducer.WalletFormReducer(s, a) == s.(password := password, error := "")
  {
    SetPassword(password)
  }

  /** `setWalletName`: reduced, it stores the name. */
  function SetWalletNameAction(name: string): (a: WalletFormAction)
    ensures forall s :: FormReducer.WalletFormReducer(s, a).walletName == name
  {
    SetWalletName(name)
  }

  /** `togglePasswordVisibility`: reduced, it flips the visibility, and
      twice it changes nothing. */
  function TogglePasswordVisibilityAction(): (a: WalletFormAction)
    ensures forall s :: FormReducer.WalletFormReducer(s, a).showPassword == !s.showPassword
    ensures forall s :: FormReducer.WalletFormReducer(FormReducer.WalletFormReducer(s, a), a) == s
  {
    TogglePasswordVisibility
  }

  /** `setError`: reduced, it stores the message and nothing else. */
  function SetErrorAction(error: string): (a: WalletFormAction)
    ensures forall s :: FormReducer.WalletFormReducer(s, a) == s.(error := error)
  {
    SetError(error)
  }

  /** `clearError`: reduced, it empties the error and nothing else. */
  function ClearErrorAction(): (a: WalletFormAction)
    ensures forall s :: FormReducer.WalletFormReducer(s, a) == s.(error := "")
  {
    ClearError
  }

  /** `resetForm`: reduced, it gives the initial state from any state. */
  function ResetFormAction(): (a: WalletFormAction)
    ensures forall s :: FormReducer.WalletFormReducer(s, a) == FormReducer.InitialFormState
  {
    ResetForm
  }

  /** The creators with an argument carry it as the payload, verbatim; the
      others carry none. Distinct creators give distinct actions. */
  lemma CreatorsCarryPayload(password: string, name: string, error: string)
    ensures SetPasswordAction(password).SetPassword? && SetPasswordAction(password).password == password
    ensures SetWalletNameAction(name).SetWalletName? && SetWalletNameAction(name).name == name
    ensures SetErrorAction(error).SetError? && SetErrorAction(error).message == error
    ensures TogglePasswordVisibilityAction().TogglePasswordVisibility?
    ensures ClearErrorAction().ClearError? && ResetFormAction().ResetForm?
  {
  }

  /** Dispatching `setPassword(p)` stores `p` and clears the error; dispatching
      `resetForm()` gives the initial state, from any state. */
  lemma CreatorsThroughReducer(s: WalletFormState, p: string, name: string)
    ensures FormReducer.WalletFormReducer(s, SetPasswordAction(p)).password == p
    ensures FormReducer.WalletFormReducer(s, SetPasswordAction(p)).error == ""
    ensures FormReducer.WalletFormReducer(s, SetWalletNameAction(name)).walletName == name
    ensures FormReducer.WalletFormReducer(s, ResetFormAction()) == FormReducer.InitialFormState
    ensures FormReducer.InitialFormState == InitialState
  {
  }
}
