/** The private-key viewer component (src/components/PrivateKeyViewer.tsx):
    its local state and the handlers that reveal and hide a key. The wallet
    list it reads from the store is passed to the handlers. */
module PrivateKeyViewer {
  import opened Wrappers
  import opened WalletTypes
  import opened Cipher
  import WalletUtils

  const SELECT_AND_ENTER := "Please select a wallet and enter your password"
  const INVALID_OR_CORRUPTED := "Invalid password or corrupted wallet data"

  class Viewer {
    var selectedWalletId: string
    var password: string
    var showPassword: bool
    var privateKey: string
    var showPrivateKey: bool
    var error: string
    var loading: bool

    constructor ()
      ensures selectedWalletId == "" && password == "" && !showPassword
      ensures privateKey == "" && !showPrivateKey && error == "" && !loading
    {
      selectedWalletId, password, showPassword := "", "", false;
      privateKey, showPrivateKey, error, loading := "", false, "", false;
    }

    /** `handleRevealPrivateKey`. The error and the key are cleared first. With
        no wallet selected or no password, it asks for both and touches
        nothing else. Otherwise the selected wallet is decrypted: the key is
        shown on success, and an unknown id and any decryption failure give
        the same message. Loading ends false either way. */
    method HandleRevealPrivateKey(c: Crypto, wallets: seq<Wallet>)
      modifies this
      ensures selectedWalletId == old(selectedWalletId) && password == old(password)
      ensures showPassword == old(showPassword)
      ensures old(selectedWalletId) == "" || old(password) == "" ==>
        && error == SELECT_AND_ENTER && privateKey == ""
        && showPrivateKey == old(showPrivateKey) && loading == old(loading)
      ensures old(selectedWalletId) != "" && old(password) != "" ==>
        && !loading
        && match FindById(wallets, old(selectedWalletId))
           case None =>
             error == INVALID_OR_CORRUPTED && privateKey == "" && showPrivateKey == old(showPrivateKey)
           case Some(w) =>
             match WalletUtils.DecryptWallet(c, w, old(password))
             case Success(k) => error == "" && privateKey == k && showPrivateKey
             case Failure(_) =>
               error == INVALID_OR_CORRUPTED && privateKey == "" && showPrivateKey == old(showPrivateKey)
    {
      error := "";
      privateKey := "";
      if selectedWalletId == "" || password == "" {
        error := SELECT_AND_ENTER;
        return;
      }
      loading := true;
      var wallet := FindById(wallets, selectedWalletId);
      if wallet.None? {
        error := INVALID_OR_CORRUPTED;
      } else {
        match WalletUtils.DecryptWallet(c, wallet.value, password)
        case Success(decryptedKey) =>
          privateKey := decryptedKey;
          showPrivateKey := true;
        case Failure(_) =>
          error := INVALID_OR_CORRUPTED;
      }
      loading := false;
    }

    /** `handleHidePrivateKey`: forgets the key, the password and the
        selection, and clears the error; the password visibility toggle and
        the loading flag stay. */
    method HandleHidePrivateKey()
      modifies this
      ensures privateKey == "" && !showPrivateKey && password == "" && selectedWalletId == ""
      ensures error == ""
      ensures showPassword == old(showPassword) && loading == old(loading)
    {
      privateKey := "";
      showPrivateKey := false;
      password := "";
      selectedWalletId := "";
      error := "";
    }
  }

  /** Revealing a wallet created in this session with the same password shows
      the private key it was generated with. */
  method RevealCreatedWallet(
    viewer: Viewer, c: Crypto, wallets: seq<Wallet>,
    password: string, name: Option<string>, keys: KeyPair, id: string, createdAt: string)
    requires Inverts(c) && Derived(c, keys.privateKey, keys.address)
    requires id != "" && password != ""
    requires FindById(wallets, id) == Some(WalletUtils.CreateEncryptedWallet(c, password, name, keys, id, createdAt))
    modifies viewer
    ensures viewer.privateKey == keys.privateKey && viewer.showPrivateKey && viewer.error == ""
  {
    viewer.selectedWalletId := id;
    viewer.password := password;
    WalletUtils.CreateThenDecrypt(c, password, name, keys, id, createdAt);
    viewer.HandleRevealPrivateKey(c, wallets);
  }
}
