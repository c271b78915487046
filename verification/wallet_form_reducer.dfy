/** The wallet-generation form reducer of src/reducer/walletFormReducer.ts,
    over the state and actions of src/types/WalletGenerator.ts. */
module FormReducer {
  import opened WalletGeneratorTypes

  /** `initialState`. */
  const InitialFormState := WalletFormState("", "", false, "")

  /** `walletFormReducer`. A missing payload (`payload || ''`) cannot occur
      with the typed actions, whose payloads are strings. */
  function WalletFormReducer(state: WalletFormState, action: WalletFormAction): (r: WalletFormState)
    ensures r.error != "" && r.error != state.error ==> action.SetError?
    ensures r.showPassword != state.showPassword ==> action.TogglePasswordVisibility? || action.ResetForm?
  {
    match action
    case SetPassword(p) => state.(password := p, error := "")
    case SetWalletName(n) => state.(walletName := n, error := "")
    case TogglePasswordVisibility => state.(showPassword := !state.showPassword)
    case SetError(m) => state.(error := m)
    case ClearError => state.(error := "")
    case ResetForm => InitialFormState
    case Unknown(_) => state
  }

  /** Each action changes its own field and nothing else; both `SET_PASSWORD`
      and `SET_WALLET_NAME` clear the error; `RESET_FORM` gives the initial
      state whatever the input; an unknown action changes nothing. */
  lemma ReducerCases(s: WalletFormState, a: WalletFormAction)
    ensures var r := WalletFormReducer(s, a);
      match a
      case SetPassword(p) =>
        r.password == p && r.error == "" && r.walletName == s.walletName && r.showPassword == s.showPassword
      case SetWalletName(n) =>
        r.walletName == n && r.error == "" && r.password == s.password && r.showPassword == s.showPassword
      case TogglePasswordVisibility =>
        r.showPassword != s.showPassword && r.password == s.password
        && r.walletName == s.walletName && r.error == s.error
      case SetError(m) =>
        r.error == m && r.password == s.password && r.walletName == s.walletName && r.showPassword == s.showPassword
      case ClearError =>
        r.error == "" && r.password == s.password && r.walletName == s.walletName && r.showPassword == s.showPassword
      case ResetForm =>
        r.password == "" && r.walletName == "" && !r.showPassword && r.error == ""
      case Unknown(_) => r == s
  {
  }

  /** Toggling visibility twice is the identity, and resetting is idempotent. */
  lemma ToggleTwiceAndResetTwice(s: WalletFormState)
    ensures WalletFormReducer(WalletFormReducer(s, TogglePasswordVisibility), TogglePasswordVisibility) == s
    ensures WalletFormReducer(WalletFormReducer(s, ResetForm), ResetForm) == WalletFormReducer(s, ResetForm)
  {
  }

  /** The two reducers agree on every action except `SET_WALLET_NAME`, where
      they differ exactly when an error is showing. */
  lemma ReducersDifferOnlyOnName(s: WalletFormState, a: WalletFormAction)
    ensures !a.SetWalletName? ==>
      WalletFormReducer(s, a) == WalletGeneratorTypes.WalletFormReducer(s, a)
    ensures a.SetWalletName? ==>
      (WalletFormReducer(s, a) == WalletGeneratorTypes.WalletFormReducer(s, a) <==> s.error == "")
  {
  }

  /** The form state after dispatching the actions in order. */
  function Run(s: WalletFormState, actions: seq<WalletFormAction>): WalletFormState
    decreases |actions|
  {
    if actions == [] then s else Run(WalletFormReducer(s, actions[0]), actions[1..])
  }

  /** Whatever was dispatched before, a `RESET_FORM` followed only by
      visibility toggles leaves an empty form. */
  lemma {:induction false} ResetThenToggles(s: WalletFormState, before: seq<WalletFormAction>, toggles: nat)
    ensures var r := Run(s, before + [ResetForm] + seq(toggles, _ => TogglePasswordVisibility));
      r.password == "" && r.walletName == "" && r.error == "" && r.showPassword == (toggles % 2 == 1)
    decreases |before|, toggles
  {
    if before != [] {
      assert (before + [ResetForm] + seq(toggles, _ => TogglePasswordVisibility))[1..]
          == before[1..] + [ResetForm] + seq(toggles, _ => TogglePasswordVisibility);
      ResetThenToggles(WalletFormReducer(s, before[0]), before[1..], toggles);
    } else {
      var ts := seq(toggles, _ => TogglePasswordVisibility);
      assert before + [ResetForm] + ts == [ResetForm] + ts;
      assert ([ResetForm] + ts)[1..] == ts;
      TogglesRun(InitialFormState, toggles);
    }
  }

  /** Toggling k times only flips the visibility, k times. */
  lemma {:induction false} TogglesRun(s: WalletFormState, k: nat)
    ensures Run(s, seq(k, _ => TogglePasswordVisibility))
         == s.(showPassword := if k % 2 == 0 then s.showPassword else !s.showPassword)
    decreases k
  {
    if k > 0 {
      var ts := seq(k, _ => TogglePasswordVisibility);
      assert ts[1..] == seq(k - 1, _ => TogglePasswordVisibility);
      TogglesRun(WalletFormReducer(s, TogglePasswordVisibility), k - 1);
    }
  }
}
