# Wallet-Keeper, modelled in Dafny

Wallet-Keeper is a browser wallet manager for two Ethereum-compatible test
networks, Ethereum Sepolia and BSC Testnet. It generates key pairs and
encrypts each private key under a user password. It keeps the wallet records
in the browser's local storage and reveals a private key again when the
password is given. It also queries every wallet's balance on both networks,
falling back over a list of RPC endpoints, and groups the results by address.
The same operations exist twice: once as a Redux slice with async thunks, and
once as a React hook. The forms that drive them are small reducers.

This project models that core:

- the wallet utilities: encrypted wallet creation, decryption with address
  validation, and the balance query with endpoint fallback;
- the storage utilities, over one storage slot;
- the native-balance check;
- the Redux slice, with its thunks and every reducer case;
- the `useWallets` and `useWalletActions` hooks;
- the two form reducers and their action creators;
- the private-key reducer;
- the submit handlers of both wallet-generation forms;
- the reveal and hide handlers of the private-key viewer.

The model makes these modelling choices:

- State that the source updates in place is a Dafny class whose methods have
  `modifies` clauses. This covers the slice state (Immer-style reducers), the
  hook states, the form components and the storage.
- Pure reducers are functions, with lemmas about them.
- Cryptography is a `Crypto` value with three function fields: encrypt,
  decrypt and address derivation. The properties that need a working cipher
  require `Inverts(c)`: decrypting with the same password gives the
  plaintext back.
- Some inputs are parameters of the operations instead of being computed:
  - key generation, wallet ids and timestamps;
  - the outcome of each RPC attempt;
  - whether a storage write succeeds;
  - `parseFloat` and `formatEther`.
- The fan-out `Promise.allSettled` over wallets and networks is given as its
  settled results, in order.

Where the code and its documentation disagree, the model follows the code:

- The slice's balance grouping leaves out an address whose queries all
  rejected; it does not keep an empty list for it.
- A thunk rejected through `rejectWithValue` makes `unwrap()` throw the
  string payload, not an `Error` object. In `useWalletActions`, an `Error`
  message containing "insufficient BNB" gets a special message. A string
  payload never reaches that branch: it becomes "Failed to refresh balances".
- `checkBNBBalance` never recognises a BSC Testnet record: its symbol is
  "tBNB" and its network is "BSC Testnet", and neither matches the lookup.
  A list of BSC Testnet records alone reports network "Unknown".
- The older form (src/components/WalletGenerator.tsx) checks the length of
  the untrimmed password and dispatches it untrimmed. So "     a" is accepted
  there and rejected by the newer form.

## Model

| member | source | states |
|---|---|---|
| WalletTypes.FindById | src/store/slices/walletSlice.ts:88 | `find` by id: the wallet found is the first listed wallet with the id; nothing is found exactly when no listed wallet has the id |
| JsString.TrimEmptyIffBlank | src/store/slices/walletSlice.ts:19 | `!s.trim()` holds exactly when every character of `s` is ECMAScript whitespace |
| JsString.TrimProperties | src/components/wallet/WalletGenerator.tsx:42 | trimming never lengthens a string; a non-empty trimmed string neither starts nor ends with whitespace |
| JsString.Utf16LengthIsCount | src/components/wallet/WalletGenerator.tsx:54 | `length` counts UTF-16 code units: it equals the number of characters exactly when none lies outside the Basic Multilingual Plane |
| WalletUtils.NetworksTable | src/utils/wallet.ts:5-30 | two networks: Ethereum Sepolia (chain 11155111, ETH, five backup endpoints) and BSC Testnet (chain 97, tBNB, three backup endpoints); no primary endpoint reappears among its backups |
| WalletUtils.DecryptWallet | src/utils/wallet.ts:54-70 | succeeds exactly when the cipher decrypts and the key derives the wallet's address up to case, and then yields the decrypted key; a cipher failure propagates; every other failure is "Invalid password" |
| WalletUtils.CreateThenDecrypt | src/utils/wallet.ts:41-70 | round trip: a wallet created under a password decrypts with that password to the generated private key |
| WalletUtils.CreateEncryptedWallet | src/utils/wallet.ts:41-52 | the record holds the generated address and the given id, timestamp and name; with a working cipher its ciphertext decrypts under the same password to the generated key, whatever the password is |
| WalletUtils.DecryptYieldsOnlyGeneratedKey | src/utils/wallet.ts:60-66 | whatever password is tried, a successful decryption yields only the generated key, if no other key derives that address |
| WalletUtils.GetBalance | src/utils/wallet.ts:72-136 | endpoints are tried in order, primary first; every attempt before the last failed; the result is the formatted balance of the first success, or "0" after all endpoints failed; it carries the address, network name and symbol |
| StorageUtils.WithoutId | src/utils/storage.ts:36 | the filtered list is no longer than the input and holds no wallet with the removed id |
| StorageUtils.WithoutIdKeeps | src/utils/storage.ts:36 | the filter keeps exactly the wallets with another id and adds no copies; it never grows the list; an absent id leaves the list unchanged |
| StorageUtils.WithoutIdIdempotent | src/utils/storage.ts:34-38 | filtering an id twice is the same as filtering it once |
| StorageUtils.WithoutIdAppend | src/utils/storage.ts:28-38 | filtering after appending a wallet equals filtering first, then appending that wallet unless it has the id |
| StorageUtils.Storage.Wallets | src/utils/storage.ts:6-16 | without a window, or with an empty or unreadable slot, the list is empty; otherwise it is the stored list |
| StorageUtils.Storage.GetWallets | src/utils/storage.ts:6-16 | `getWallets` returns the stored list as defined by `Wallets` |
| StorageUtils.Storage.SaveWallets | src/utils/storage.ts:18-26 | a successful write with a window stores the list; otherwise the slot is unchanged |
| StorageUtils.Storage.AddWallet | src/utils/storage.ts:28-32 | after a successful write the stored list is the old one plus the wallet at the end; otherwise nothing changes |
| StorageUtils.Storage.RemoveWallet | src/utils/storage.ts:34-38 | after a successful write the stored list is the old one without the id; otherwise nothing changes |
| StorageUtils.RemoveIsIdempotent | src/utils/storage.ts:34-38 | removing an id twice leaves the same list as removing it once; removing an unknown id changes nothing |
| Balance.FindNative | src/utils/balance.ts:15-22 | the index found is the first record with symbol BNB or ETH or network BSC, Ethereum or ETH; nothing is found exactly when no record qualifies |
| Balance.CheckBNBBalance | src/utils/balance.ts:11-46 | without a native record: not enough, 0, "ETH/BNB", "Unknown"; otherwise the parsed balance, symbol and network of the first native record, with enough exactly when the balance is a number at least the required amount |
| Balance.CheckBNBBalanceDefault | src/utils/balance.ts:13 | the default required amount is 0.002 |
| Balance.TestnetBalancesNotNative | src/utils/balance.ts:15-32 | records with symbol tBNB on network "BSC Testnet" are never recognised, so such a list reports "Unknown" |
| Balance.SepoliaBalanceIsNative | src/utils/balance.ts:15-22 | an ETH record placed first is the native record found, and the report carries its parsed balance, its symbol ETH and its network, with enough exactly when that balance meets the required amount |
| BalanceGrouping.EntriesForNonEmpty | src/store/slices/walletSlice.ts:50-58 | an address has balances in the grouping exactly when some entry carries it |
| BalanceGrouping.GroupIsEntriesFor | src/store/slices/walletSlice.ts:50-58 | the loop's map has a key exactly for addresses with entries, and each list is that address's entries in order |
| BalanceGrouping.GroupKeys | src/store/slices/walletSlice.ts:50-58 | the same per address: a key exactly when some entry carries it, with its entries in order |
| BalanceGrouping.TotalAfterPush | src/store/slices/walletSlice.ts:53-56 | pushing one balance adds exactly one to the number of stored balances |
| BalanceGrouping.GroupTotal | src/store/slices/walletSlice.ts:50-58 | the map holds exactly one balance per entry: none is lost or duplicated |
| WalletSlice.FulfilledEntriesFrom | src/store/slices/walletSlice.ts:50-57 | the pushed entries are one per fulfilled result; an address is pushed exactly when some fulfilled result carries it |
| WalletSlice.RefreshGrouping | src/store/slices/walletSlice.ts:40-58 | an address is a key exactly when a fulfilled query carries it; its list is those balances in order; rejected queries are dropped and the total is the number of fulfilled queries |
| WalletSlice.RefreshBalancesThunk | src/store/slices/walletSlice.ts:47-60 | the `forEach` builds exactly the grouping of the fulfilled results |
| WalletSlice.GenerateWalletThunk | src/store/slices/walletSlice.ts:17-32 | a blank password is rejected with "Password is required" and nothing is stored; otherwise the created wallet is returned and appended to storage |
| WalletSlice.RejectionMessage | src/store/slices/walletSlice.ts:119-125 | a string payload is the error; otherwise the case's default |
| WalletSlice.WalletState.constructor | src/store/types/WalletState.ts:11-16 | the initial state: no wallets, no balances, not loading, no error |
| WalletSlice.WalletState.RemoveWallet | src/store/slices/walletSlice.ts:86-98 | every wallet with the id is dropped; the balances of the first such wallet's address are deleted; storage drops the id |
| WalletSlice.WalletState.ClearError | src/store/slices/walletSlice.ts:99-101 | the error becomes null and nothing else changes |
| WalletSlice.WalletState.GenerateWalletPending | src/store/slices/walletSlice.ts:106-109 | loading, with the error cleared |
| WalletSlice.WalletState.GenerateWalletFulfilled | src/store/slices/walletSlice.ts:110-116 | the wallet is appended and loading ends |
| WalletSlice.WalletState.GenerateWalletRejected | src/store/slices/walletSlice.ts:117-126 | loading ends and the error is the payload or "Failed to generate wallet" |
| WalletSlice.WalletState.LoadingPending | src/store/slices/walletSlice.ts:129-131 | loading, everything else kept (the same for the refresh) |
| WalletSlice.WalletState.LoadWalletsFulfilled | src/store/slices/walletSlice.ts:132-138 | the list is replaced by the loaded one and loading ends |
| WalletSlice.WalletState.LoadRejected | src/store/slices/walletSlice.ts:139-148 | loading ends and the error is the payload or "Failed to load wallets" (the refresh uses the same default) |
| WalletSlice.WalletState.RefreshBalancesFulfilled | src/store/slices/walletSlice.ts:154-163 | the balances are replaced wholesale and loading ends |
| WalletSlice.WalletState.DispatchGenerateWallet | src/store/slices/walletSlice.ts:13-32 | a blank password leaves wallets and storage unchanged and sets "Password is required"; otherwise the created wallet is appended to state and storage with no error |
| WalletSlice.WalletState.DispatchLoadWallets | src/store/slices/walletSlice.ts:68-80 | the state's list becomes the stored list |
| WalletSlice.WalletState.DispatchRefreshBalances | src/store/slices/walletSlice.ts:34-66 | the balances become the grouping of the fulfilled queries; wallets and error are kept |
| WalletSlice.RemoveUnknownIdIsNoOp | src/store/slices/walletSlice.ts:86-98 | removing an id no wallet has leaves the list unchanged and finds no wallet, so by `WalletState.RemoveWallet` the balances stay too |
| UseWallets.AddressedEntriesFrom | src/hooks/useWallets.ts:91-103 | an address is pushed exactly when a fulfilled result reports it and it is non-empty; each entry is keyed by its own balance's address |
| UseWallets.RefreshGrouping | src/hooks/useWallets.ts:89-105 | an address is a key exactly when it is non-empty and reported by a fulfilled query; the empty address is never a key; each list is its results in order |
| UseWallets.GroupReported | src/hooks/useWallets.ts:89-103 | the `forEach` builds exactly that grouping |
| UseWallets.FindAppended | src/hooks/useWallets.ts:117 | a wallet appended under a fresh id is what `find` returns for that id |
| UseWallets.WalletsHook.constructor | src/hooks/useWallets.ts:18-27 | after mounting, the list is the stored list; no balances, not loading, no error |
| UseWallets.WalletsHook.GenerateWallet | src/hooks/useWallets.ts:29-53 | a blank password throws and sets "Password is required" with list and storage unchanged; otherwise the created wallet is appended to list and storage; loading ends false |
| UseWallets.WalletsHook.RemoveWallet | src/hooks/useWallets.ts:55-75 | storage and list drop the id; the balances of the found wallet's address are deleted |
| UseWallets.WalletsHook.RefreshBalances | src/hooks/useWallets.ts:77-113 | the error is cleared and the balances become the grouping of the reported results; loading ends false |
| UseWallets.WalletsHook.DecryptPrivateKey | src/hooks/useWallets.ts:115-125 | an unknown id fails with "Wallet not found"; otherwise the wallet's decryption result |
| UseWallets.GenerateThenReveal | src/hooks/useWallets.ts:29-125 | generating under a fresh id and revealing it with the same password gives back the generated private key |
| UseWallet.FormatAddress | src/hooks/useWallet.ts:12-14 | the abbreviation has at most six leading characters, three dots and at most four trailing characters |
| UseWallet.FormatAddressShape | src/hooks/useWallet.ts:12-14 | the abbreviation is the first six characters, "...", and the last four (fewer for short strings); an address of ten or more characters gives 13 characters |
| UseWallet.DisplayName | src/hooks/useWallet.ts:40 | the modal's name is never empty: the wallet's name, or "Wallet " and the abbreviated address |
| UseWallet.RefreshErrorMessage | src/hooks/useWallet.ts:20-31 | a non-Error value gives "Failed to refresh balances"; an Error message mentioning "insufficient BNB" gives the funding advice; any other message is shown as it is |
| UseWallet.WalletActions.constructor | src/hooks/useWallet.ts:9-10 | the modal starts closed and empty, with no refresh error |
| UseWallet.WalletActions.HandleRefreshBalances | src/hooks/useWallet.ts:16-32 | the error is cleared; a failure leaves its message; the modal is kept |
| UseWallet.WalletActions.HandleRemoveWallet | src/hooks/useWallet.ts:34-44 | a listed wallet opens the modal with its id, display name and address; an unknown id changes nothing |
| UseWallet.WalletActions.ConfirmRemoveWallet | src/hooks/useWallet.ts:46-51 | with an id in the modal, that id is removed and the modal resets; otherwise nothing happens |
| UseWallet.WalletActions.CloseModal | src/hooks/useWallet.ts:53-55 | the modal returns to its initial state |
| UseWallet.OpenThenConfirm | src/hooks/useWallet.ts:34-51 | opening the modal for a listed wallet and confirming removes exactly that wallet's id |
| WalletGeneratorTypes.WalletFormReducer | src/types/WalletGenerator.ts:38-55 | a new non-empty error comes only from `SET_ERROR`; `SET_WALLET_NAME` keeps the error |
| WalletGeneratorTypes.ReducerCases | src/types/WalletGenerator.ts:38-55 | each action sets its own field and keeps the others; `SET_WALLET_NAME` keeps the error; `RESET_FORM` gives the empty form |
| WalletGeneratorTypes.ErrorOnlyFromSetError | src/types/WalletGenerator.ts:38-55 | from a state without an error, no sequence without `SET_ERROR` produces one |
| WalletGeneratorTypes.ErrorSurvivesNameEdits | src/types/WalletGenerator.ts:42-45 | name edits and visibility toggles keep the error and the password |
| FormReducer.WalletFormReducer | src/reducer/walletFormReducer.ts:14-57 | a new non-empty error comes only from `SET_ERROR`; the password visibility changes only by a toggle or a reset |
| FormReducer.ReducerCases | src/reducer/walletFormReducer.ts:14-57 | each action sets its own field and keeps the others; both setters clear the error; `RESET_FORM` gives the initial state |
| FormReducer.ToggleTwiceAndResetTwice | src/reducer/walletFormReducer.ts:33-52 | toggling visibility twice is the identity; resetting is idempotent |
| FormReducer.ReducersDifferOnlyOnName | src/reducer/walletFormReducer.ts:26-31 | the two reducers agree on every action except `SET_WALLET_NAME`, where they differ exactly when an error is showing |
| FormReducer.ResetThenToggles | src/reducer/walletFormReducer.ts:33-52 | after a reset followed only by toggles, the form is empty and visible exactly after an odd number of toggles |
| FormReducer.TogglesRun | src/reducer/walletFormReducer.ts:33-37 | k toggles flip only the visibility, k times |
| WalletFormActions.SetPasswordAction | src/actions/walletFormActions.ts:7-10 | reduced, the action stores the password and clears the error, from any state |
| WalletFormActions.SetWalletNameAction | src/actions/walletFormActions.ts:12-15 | reduced, the action stores the name, from any state |
| WalletFormActions.TogglePasswordVisibilityAction | src/actions/walletFormActions.ts:17-19 | reduced, the action flips the visibility, and applying it twice changes nothing |
| WalletFormActions.SetErrorAction | src/actions/walletFormActions.ts:21-24 | reduced, the action stores the message and changes nothing else |
| WalletFormActions.ClearErrorAction | src/actions/walletFormActions.ts:26-28 | reduced, the action empties the error and changes nothing else |
| WalletFormActions.ResetFormAction | src/actions/walletFormActions.ts:30-32 | reduced, the action gives the initial state from any state |
| WalletFormActions.CreatorsCarryPayload | src/actions/walletFormActions.ts:6-33 | each creator builds its action type with its argument as payload |
| WalletFormActions.CreatorsThroughReducer | src/actions/walletFormActions.ts:6-33 | the created actions do through the reducer what their names say |
| PrivateViewer.PrivateKeyReducer | src/types/PrivateViewer.ts:46-85 | only a reveal, a hide or a reset changes the private key, and only a reveal makes it a new non-empty key |
| PrivateViewer.RevealHideReset | src/types/PrivateViewer.ts:61-81 | reveal sets the key, shows it and clears the error; hide clears key, password, selection, error and copied flag; reset clears only error and key |
| PrivateViewer.SettersTouchOneField | src/types/PrivateViewer.ts:51-60 | every setter changes only its field; unknown actions change nothing |
| PrivateViewer.KeyOnlyFromReveal | src/types/PrivateViewer.ts:46-85 | after a hide, the key stays empty until the next reveal |
| PrivateViewer.KeyStaysEmpty | src/types/PrivateViewer.ts:46-85 | from an empty key, no sequence without a reveal sets one |
| WalletGeneratorForm.OptionalName | src/components/wallet/WalletGenerator.tsx:66 | `name \|\| undefined`: absent exactly for the empty name |
| WalletGeneratorForm.SubmitDisabled | src/components/wallet/WalletGenerator.tsx:181 | the submit button is disabled exactly while the password is all whitespace |
| WalletGeneratorForm.WalletGenerator.HandleSubmit | src/components/wallet/WalletGenerator.tsx:37-80 | a blank password, then a trimmed password under six UTF-16 code units (an astral character counts twice, as `length` counts it), set their error and dispatch nothing; otherwise the trimmed password and name are dispatched, and success resets the form while failure shows the thrown string or "Failed to generate wallet" |
| WalletGeneratorForm.DispatchedPasswordNotBlank | src/components/wallet/WalletGenerator.tsx:54-68 | a password that passes the length check is never blank, so the thunk's own blank-password test cannot fail, and has at least three characters |
| LegacyWalletGenerator.LegacyWalletGenerator.HandleSubmit | src/components/WalletGenerator.tsx:17-50 | a blank password, then a raw password under six UTF-16 code units, set their error; otherwise the raw password and trimmed name are dispatched, with reset or failure as in the newer form |
| LegacyWalletGenerator.PaddedPasswordDiffers | src/components/WalletGenerator.tsx:27 | "     a" is dispatched unchanged by the older form and rejected as too short by the newer one |
| PrivateKeyViewer.Viewer.constructor | src/components/PrivateKeyViewer.tsx:11-17 | empty selection, password, key and error; hidden; not loading |
| PrivateKeyViewer.Viewer.HandleRevealPrivateKey | src/components/PrivateKeyViewer.tsx:19-45 | missing selection or password asks for both; an unknown wallet and any decryption failure give the same message; success shows the decrypted key; loading ends false |
| PrivateKeyViewer.Viewer.HandleHidePrivateKey | src/components/PrivateKeyViewer.tsx:65-71 | clears key, shown flag, password, selection and error; keeps visibility and loading |
| PrivateKeyViewer.RevealCreatedWallet | src/components/PrivateKeyViewer.tsx:19-45 | revealing a wallet created with the same password shows its generated private key |

## Left out

- Cryptography internals (the AES encryption in src/utils/crypto.ts, ethers key generation and address derivation) are abstract function values; src/utils/crypto.ts is not part of this model.
- `isValidAddress` (src/utils/wallet.ts:138-140) only calls into ethers and is not modelled.
- JSON parsing and serialisation in storage: a slot is empty, unreadable or a stored list. A stored JSON value that is not an array, such as `null`, is not modelled. `getWallets` returns such a value unchanged (src/utils/storage.ts:11), so `loadWallets` puts it into `state.wallets`. Then `wallets.push` in `addWallet` (src/utils/storage.ts:30) and `wallets.filter` in `removeWallet` (src/utils/storage.ts:36) throw a TypeError.
- Concurrency: thunks and hook callbacks run to completion one at a time. The 10-second timeout race of each RPC call is folded into the attempt outcome.
- The fan-out over wallets and networks is taken as given settled results in order, not built from the wallet list.
- `toLowerCase` folds ASCII letters only, which covers hexadecimal addresses.
- Floating point: balances are exact reals, and `parseFloat` and `formatEther` are parameters.
- Logging, the clipboard copy handler (src/components/PrivateKeyViewer.tsx:47-63), `setTimeout` feedback and all rendering are left out.
- The routes of those TypeErrors into catch branches are not modelled. This covers the `generateWallet` thunk's catch (src/store/slices/walletSlice.ts:27-31) and the TypeError from `push` reaching the `generateWallet` catch of `useWallets` (src/hooks/useWallets.ts:43-47). The blank-password `Error` that `useWallets` throws into that same catch (src/hooks/useWallets.ts:35-37) is modelled by UseWallets.WalletsHook.GenerateWallet, which sets the error and rethrows its message. The slice's `removeWallet` reducer lets the same throw escape, which is not modelled either. A failing `localStorage` read is caught inside `getWallets` and yields the empty list. A failed write is swallowed and modelled as `writeOk`. The `loadWallets` and `refreshBalances` rejections are reachable only through `LoadRejected` called directly.
- `useWalletForm` (src/hooks/useWalletForm.ts) is outside the modelled core.
- UseWallets.WalletsHook.RemoveWallet: the `catch` that sets "Failed to remove wallet" is not modelled. Only the TypeError of `wallets.filter` on a stored non-array value reaches it, and such values are not modelled.
- JsString.Slice and JsString.SliceFrom index by characters, not by UTF-16 code units as `slice` does. The two agree on the hexadecimal addresses they are applied to.
