/** The wallet-list actions hook `useWalletActions` (src/hooks/useWallet.ts):
    the removal-confirmation modal, the refresh error, and address
    abbreviation. */
module UseWallet {
  import opened Wrappers
  import opened WalletTypes
  import opened JsString

  function Min(a: nat, b: nat): nat { if a < b then a else b }

  /** `formatAddress(address)`: `address.slice(0, 6) + "..." + address.slice(-4)`.
      The same function is `formatAddress` of the private-key viewer. Its
      length is at most six, plus three dots, plus at most four. */
  function FormatAddress(address: string): (r: string)
    ensures |r| == Min(6, |address|) + 3 + Min(4, |address|)
  {
    Slice(address, 0, 6) + "..." + SliceFrom(address, -4)
  }

  /** The abbreviation is the first six characters (or all, when shorter),
      three dots, and the last four characters (or all, when shorter); a
      full-length address of at least ten characters becomes 13 characters. */
  lemma FormatAddressShape(address: string)
    ensures FormatAddress(address)
         == address[..Min(6, |address|)] + "..." + address[|address| - Min(4, |address|)..]
    ensures |address| >= 10 ==> |FormatAddress(address)| == 13
  {
  }

  datatype ModalState = ModalState(
    isOpen: bool,
    walletId: Option<string>,
    walletName: Option<string>,
    walletAddress: Option<string>)

  /** `INITIAL_MODAL_STATE` (src/components/types/index.ts). */
  const INITIAL_MODAL_STATE := ModalState(false, None, None, None)

  /** A JavaScript truthy string: present and non-empty. */
  predicate Truthy(s: Option<string>) {
    s.Some? && s.value != ""
  }

  /** `wallet.name || 'Wallet ' + formatAddress(wallet.address)`. */
  function DisplayName(wallet: Wallet): (n: string)
    ensures n != ""
    ensures Truthy(wallet.name) ==> n == wallet.name.value
    ensures !Truthy(wallet.name) ==> n == "Wallet " + FormatAddress(wallet.address)
  {
    if Truthy(wallet.name) then wallet.name.value else "Wallet " + FormatAddress(wallet.address)
  }

  /** What `unwrap()` throws: an `Error` object with its message, or any
      other value. */
  datatype Thrown = ErrorObject(message: string) | OtherValue

  const FAILED_TO_REFRESH := "Failed to refresh balances"
  const INSUFFICIENT_BNB_ADVICE :=
    "Some wallets have insufficient BNB for gas fees. Add BNB to perform transactions."

  /** The message `handleRefreshBalances` shows for a failure. */
  function RefreshErrorMessage(thrown: Thrown): (m: string)
    ensures thrown.OtherValue? ==> m == FAILED_TO_REFRESH
    ensures thrown.ErrorObject? && Includes(thrown.message, "insufficient BNB") ==>
      m == INSUFFICIENT_BNB_ADVICE
    ensures thrown.ErrorObject? && !Includes(thrown.message, "insufficient BNB") ==>
      m == thrown.message
  {
    MissingCharNotIncluded(FAILED_TO_REFRESH, "insufficient BNB", 'B');
    var errorMessage := if thrown.ErrorObject? then thrown.message else FAILED_TO_REFRESH;
    if Includes(errorMessage, "insufficient BNB") then INSUFFICIENT_BNB_ADVICE else errorMessage
  }

  /** The hook's state: the modal and the refresh error. */
  class WalletActions {
    var modalState: ModalState
    var refreshError: Option<string>

    constructor ()
      ensures modalState == INITIAL_MODAL_STATE && refreshError.None?
    {
      modalState := INITIAL_MODAL_STATE;
      refreshError := None;
    }

    /** `handleRefreshBalances(wallets)`; `thrown` is what awaiting the
        dispatched refresh threw, if anything. The error is cleared first. */
    method HandleRefreshBalances(thrown: Option<Thrown>)
      modifies this
      ensures thrown.None? ==> refreshError.None?
      ensures thrown.Some? ==> refreshError == Some(RefreshErrorMessage(thrown.value))
      ensures modalState == old(modalState)
    {
      refreshError := None;
      if thrown.Some? {
        refreshError := Some(RefreshErrorMessage(thrown.value));
      }
    }

    /** `handleRemoveWallet(walletId, wallets)`: opens the modal for the
        wallet with that id; an unknown id changes nothing. */
    method HandleRemoveWallet(walletId: string, wallets: seq<Wallet>)
      modifies this
      ensures FindById(wallets, walletId).None? ==> modalState == old(modalState)
      ensures FindById(wallets, walletId).Some? ==>
        var w := FindById(wallets, walletId).value;
        modalState == ModalState(true, Some(walletId), Some(DisplayName(w)), Some(w.address))
      ensures refreshError == old(refreshError)
    {
      var wallet := FindById(wallets, walletId);
      if wallet.Some? {
        var w := wallet.value;
        modalState := ModalState(true, Some(walletId), Some(DisplayName(w)), Some(w.address));
      }
    }

    /** `confirmRemoveWallet()`: `removed` is the id of the `removeWallet`
        action it dispatches. Without an id in the modal it does nothing. */
    method ConfirmRemoveWallet() returns (removed: Option<string>)
      modifies this
      ensures Truthy(old(modalState).walletId) ==>
        removed == old(modalState).walletId && modalState == INITIAL_MODAL_STATE
      ensures !Truthy(old(modalState).walletId) ==>
        removed.None? && modalState == old(modalState)
      ensures refreshError == old(refreshError)
    {
      removed := None;
      if Truthy(modalState.walletId) {
        removed := modalState.walletId;
        modalState := INITIAL_MODAL_STATE;
      }
    }

    /** `closeModal()`. */
    method CloseModal()
      modifies this
      ensures modalState == INITIAL_MODAL_STATE && refreshError == old(refreshError)
    {
      modalState := INITIAL_MODAL_STATE;
    }
  }

  /** Opening the modal for a listed wallet and confirming removes exactly
      that wallet's id. */
  method OpenThenConfirm(actions: WalletActions, walletId: string, wallets: seq<Wallet>)
    returns (removed: Option<string>)
    requires walletId != "" && exists w :: w in wallets && w.id == walletId
    modifies actions
    ensures removed == Some(walletId) && actions.modalState == INITIAL_MODAL_STATE
  {
    actions.HandleRemoveWallet(walletId, wallets);
    removed := actions.ConfirmRemoveWallet();
  }
}
