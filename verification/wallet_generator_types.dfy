/** The wallet-generation form's state, its actions and the reducer declared
    beside them (src/types/WalletGenerator.ts). */
module WalletGeneratorTypes {

  datatype WalletFormState = WalletFormState(
    password: string,
    walletName: string,
    showPassword: bool,
    error: string)

  /** The action union; `Unknown` stands for any other action object, which
      takes the reducer's `default` branch. */
  datatype WalletFormAction =
    | SetPassword(password: string)
    | SetWalletName(name: string)
    | TogglePasswordVisibility
    | SetError(message: string)
    | ClearError
    | ResetForm
    | Unknown(actionType: string)

  const InitialState := WalletFormState("", "", false, "")

  /** `walletFormReducer` of this file: unlike the reducer in
      src/reducer/walletFormReducer.ts, `SET_WALLET_NAME` keeps the error. */
  function WalletFormReducer(state: WalletFormState, action: WalletFormAction): (r: WalletFormState)
    ensures r.error != "" && r.error != state.error ==> action.SetError?
    ensures action.SetWalletName? ==> r.error == state.error
  {
    match action
    case SetPassword(p) => state.(password := p, error := "")
    case SetWalletName(n) => state.(walletName := n)
    case TogglePasswordVisibility => state.(showPassword := !state.showPassword)
    case SetError(m) => state.(error := m)
    case ClearError => state.(error := "")
    case ResetForm => InitialState
    case Unknown(_) => state
  }

  /** Every field but the named one keeps its value, action by action;
      `RESET_FORM` gives the all-empty initial state. */
  lemma ReducerCases(s: WalletFormState, a: WalletFormAction)
    ensures var r := WalletFormReducer(s, a);
      match a
      case SetPassword(p) =>
        r.password == p && r.error == "" && r.walletName == s.walletName && r.showPassword == s.showPassword
      case SetWalletName(n) =>
        r.walletName == n && r.error == s.error && r.password == s.password && r.showPassword == s.showPassword
      case TogglePasswordVisibility =>
        r.showPassword != s.showPassword && r.password == s.password
        && r.walletName == s.walletName && r.error == s.error
      case SetError(m) =>
        r.error == m && r.password == s.password && r.walletName == s.walletName && r.showPassword == s.showPassword
      case ClearError =>
        r.error == "" && r.password == s.password && r.walletName == s.walletName && r.showPassword == s.showPassword
      case ResetForm =>
        r.password == "" && r.walletName == "" && !r.showPassword && r.error == ""
      case Unknown(_) => r == s
  {
  }

  /** The form state after dispatching the actions in order. */
  function Run(s: WalletFormState, actions: seq<WalletFormAction>): WalletFormState
    decreases |actions|
  {
    if actions == [] then s else Run(WalletFormReducer(s, actions[0]), actions[1..])
  }

  /** In this reducer only `SET_ERROR` writes a message: from a state without
      an error, no sequence of other actions produces one. */
  lemma {:induction false} ErrorOnlyFromSetError(s: WalletFormState, actions: seq<WalletFormAction>)
    requires s.error == ""
    requires forall i :: 0 <= i < |actions| ==> !actions[i].SetError?
    ensures Run(s, actions).error == ""
    decreases |actions|
  {
    if actions != [] {
      ErrorOnlyFromSetError(WalletFormReducer(s, actions[0]), actions[1..]);
    }
  }

  /** A set error survives name edits here, and is only removed by
      `SET_PASSWORD`, `CLEAR_ERROR`, `RESET_FORM` or another `SET_ERROR`. */
  lemma {:induction false} ErrorSurvivesNameEdits(s: WalletFormState, actions: seq<WalletFormAction>)
    requires forall i :: 0 <= i < |actions| ==>
      actions[i].SetWalletName? || actions[i].TogglePasswordVisibility? || actions[i].Unknown?
    ensures Run(s, actions).error == s.error
    ensures Run(s, actions).password == s.password
    decreases |actions|
  {
    if actions != [] {
      ErrorSurvivesNameEdits(WalletFormReducer(s, actions[0]), actions[1..]);
    }
  }
}
