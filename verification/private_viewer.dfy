/** The private-key viewer's state, actions and reducer (src/types/PrivateViewer.ts). */
module PrivateViewer {

  datatype PrivateKeyState = PrivateKeyState(
    selectedWalletId: string,
    password: string,
    showPassword: bool,
    privateKey: string,
    showPrivateKey: bool,
    error: string,
    loading: bool,
    copiedPrivateKey: bool)

  /** The action union; `Unknown` stands for any other action object. */
  datatype PrivateKeyAction =
    | SetWalletId(walletId: string)
    | SetPassword(password: string)
    | TogglePasswordVisibility
    | SetLoading(loading: bool)
    | SetError(message: string)
    | RevealPrivateKey(privateKey: string)
    | HidePrivateKey
    | SetCopied(copied: bool)
    | ResetForm
    | Unknown(actionType: string)

  /** `initialPrivateKeyState`. */
  const InitialPrivateKeyState := PrivateKeyState("", "", false, "", false, "", false, false)

  /** `privateKeyReducer`. Only a reveal, a hide or a reset changes the key,
      and only a reveal makes it a new non-empty one. */
  function PrivateKeyReducer(state: PrivateKeyState, action: PrivateKeyAction): (r: PrivateKeyState)
    ensures r.privateKey != state.privateKey ==>
      action.RevealPrivateKey? || action.HidePrivateKey? || action.ResetForm?
    ensures r.privateKey != "" && r.privateKey != state.privateKey ==> action.RevealPrivateKey?
  {
    match action
    case SetWalletId(id) => state.(selectedWalletId := id)
    case SetPassword(p) => state.(password := p)
    case TogglePasswordVisibility => state.(showPassword := !state.showPassword)
    case SetLoading(b) => state.(loading := b)
    case SetError(m) => state.(error := m)
    case RevealPrivateKey(k) => state.(privateKey := k, showPrivateKey := true, error := "")
    case HidePrivateKey =>
      state.(privateKey := "", showPrivateKey := false, password := "",
             selectedWalletId := "", error := "", copiedPrivateKey := false)
    case SetCopied(b) => state.(copiedPrivateKey := b)
    case ResetForm => state.(error := "", privateKey := "")
    case Unknown(_) => state
  }

  /** Revealing sets the key, shows it and clears the error; hiding clears
      everything but the password visibility and the loading flag; resetting
      clears only the error and the key (the key stays "shown"). */
  lemma RevealHideReset(s: PrivateKeyState, key: string)
    ensures PrivateKeyReducer(s, RevealPrivateKey(key))
         == s.(privateKey := key, showPrivateKey := true, error := "")
    ensures PrivateKeyReducer(s, HidePrivateKey)
         == InitialPrivateKeyState.(showPassword := s.showPassword, loading := s.loading)
    ensures PrivateKeyReducer(s, ResetForm).showPrivateKey == s.showPrivateKey
    ensures PrivateKeyReducer(s, ResetForm) == s.(error := "", privateKey := "")
  {
  }

  /** Each `SET_*` action and the toggle update exactly one field; any other
      action leaves the state as it is. */
  lemma SettersTouchOneField(s: PrivateKeyState, a: PrivateKeyAction)
    ensures a.SetWalletId? ==> PrivateKeyReducer(s, a) == s.(selectedWalletId := a.walletId)
    ensures a.SetPassword? ==> PrivateKeyReducer(s, a) == s.(password := a.password)
    ensures a.SetLoading? ==> PrivateKeyReducer(s, a) == s.(loading := a.loading)
    ensures a.SetError? ==> PrivateKeyReducer(s, a) == s.(error := a.message)
    ensures a.SetCopied? ==> PrivateKeyReducer(s, a) == s.(copiedPrivateKey := a.copied)
    ensures a.TogglePasswordVisibility? ==> PrivateKeyReducer(s, a) == s.(showPassword := !s.showPassword)
    ensures a.Unknown? ==> PrivateKeyReducer(s, a) == s
  {
  }

  /** The state after dispatching the actions in order. */
  function Run(s: PrivateKeyState, actions: seq<PrivateKeyAction>): PrivateKeyState
    decreases |actions|
  {
    if actions == [] then s else Run(PrivateKeyReducer(s, actions[0]), actions[1..])
  }

  /** Only `REVEAL_PRIVATE_KEY` puts a key into the state: after a hide, the
      key stays empty until the next reveal. */
  lemma KeyOnlyFromReveal(s: PrivateKeyState, actions: seq<PrivateKeyAction>)
    requires forall i :: 0 <= i < |actions| ==> !actions[i].RevealPrivateKey?
    ensures Run(PrivateKeyReducer(s, HidePrivateKey), actions).privateKey == ""
  {
    KeyStaysEmpty(PrivateKeyReducer(s, HidePrivateKey), actions);
  }

  lemma {:induction false} KeyStaysEmpty(s: PrivateKeyState, actions: seq<PrivateKeyAction>)
    requires s.privateKey == ""
    requires forall i :: 0 <= i < |actions| ==> !actions[i].RevealPrivateKey?
    ensures Run(s, actions).privateKey == ""
    decreases |actions|
  {
    if actions != [] {
      KeyStaysEmpty(PrivateKeyReducer(s, actions[0]), actions[1..]);
    }
  }
}
