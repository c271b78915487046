/** The `useWallets` hook (src/hooks/useWallets.ts): the same operations as the
    Redux slice, written against React state. Each `setX` of the hook is an
    assignment to the field of the same name. */
module UseWallets {
  import opened Wrappers
  import opened WalletTypes
  import opened Cipher
  import opened StorageUtils
  import opened BalanceGrouping
  import WalletUtils
  import JsString

  const PASSWORD_REQUIRED := "Password is required"
  const WALLET_NOT_FOUND := "Wallet not found"

  /** The entries the hook's `forEach` pushes: fulfilled results whose
      `address` is present and non-empty, keyed by that address, in order. */
  function AddressedEntries(results: seq<Settled<WalletBalance>>): seq<(string, WalletBalance)>
    decreases |results|
  {
    if results == [] then []
    else
      var last := results[|results| - 1];
      AddressedEntries(results[..|results| - 1])
        + (if last.Fulfilled? && last.value.address != "" then [(last.value.address, last.value)] else [])
  }

  /** Some fulfilled result carries the non-empty address `a`. */
  predicate ReportedFor(results: seq<Settled<WalletBalance>>, a: string) {
    exists i :: 0 <= i < |results| && results[i].Fulfilled? && results[i].value.address == a && a != ""
  }

  lemma {:induction false} AddressedEntriesFrom(results: seq<Settled<WalletBalance>>, a: string)
    ensures KeyedBy(AddressedEntries(results), a) <==> ReportedFor(results, a)
    ensures forall i :: 0 <= i < |AddressedEntries(results)| ==>
      AddressedEntries(results)[i].0 == AddressedEntries(results)[i].1.address
  {
    if results != [] {
      var init := results[..|results| - 1];
      AddressedEntriesFrom(init, a);
      var es, ies := AddressedEntries(results), AddressedEntries(init);
      assert es[..|ies|] == ies;
      if KeyedBy(es, a) {
        var i :| 0 <= i < |es| && es[i].0 == a;
        if i < |ies| {
          assert ies[i].0 == a;
          assert KeyedBy(ies, a);
          var k :| 0 <= k < |init| && init[k].Fulfilled? && init[k].value.address == a && a != "";
          assert results[k] == init[k];
        } else {
          assert results[|results| - 1].Fulfilled?;
        }
      }
      if ReportedFor(results, a) {
        var i :| 0 <= i < |results| && results[i].Fulfilled? && results[i].value.address == a && a != "";
        if i < |init| {
          assert init[i] == results[i];
          var k :| 0 <= k < |ies| && ies[k].0 == a;
          assert es[k] == ies[k];
        } else {
          assert es[|es| - 1].0 == a;
        }
      }
    }
  }

  /** What the hook's refresh stores: an address is a key exactly when it is
      non-empty and some fulfilled result reports it; its list holds those
      results in order. Results without an address are skipped. */
  lemma RefreshGrouping(results: seq<Settled<WalletBalance>>, a: string)
    ensures a in Group(AddressedEntries(results)) <==> ReportedFor(results, a)
    ensures "" !in Group(AddressedEntries(results))
    ensures a in Group(AddressedEntries(results)) ==>
      Group(AddressedEntries(results))[a] == EntriesFor(AddressedEntries(results), a)
  {
    AddressedEntriesFrom(results, a);
    AddressedEntriesFrom(results, "");
    GroupKeys(AddressedEntries(results), a);
    GroupKeys(AddressedEntries(results), "");
  }

  /** The `forEach` that builds `newBalances` from the settled queries. */
  method GroupReported(results: seq<Settled<WalletBalance>>)
    returns (newBalances: map<string, seq<WalletBalance>>)
    ensures newBalances == Group(AddressedEntries(results))
  {
    newBalances := map[];
    for i := 0 to |results|
      invariant newBalances == Group(AddressedEntries(results[..i]))
    {
      assert results[..i + 1][..i] == results[..i];
      var result := results[i];
      if result.Fulfilled? {
        var balance := result.value;
        if balance.address != "" {
          var es := AddressedEntries(results[..i]) + [(balance.address, balance)];
          assert AddressedEntries(results[..i + 1]) == es;
          assert es[..|es| - 1] == AddressedEntries(results[..i]);
          if balance.address !in newBalances {
            newBalances := newBalances[balance.address := []];
          }
          newBalances := newBalances[balance.address := newBalances[balance.address] + [balance]];
        } else {
          assert AddressedEntries(results[..i + 1]) == AddressedEntries(results[..i]);
        }
      } else {
        assert AddressedEntries(results[..i + 1]) == AddressedEntries(results[..i]);
      }
    }
    assert results[..|results|] == results;
  }

  /** A wallet appended under a fresh id is the one `find` returns for that id. */
  lemma FindAppended(wallets: seq<Wallet>, w: Wallet)
    requires forall v :: v in wallets ==> v.id != w.id
    ensures FindById(wallets + [w], w.id) == Some(w)
  {
  }

  /** The state of one `useWallets` instance. */
  class WalletsHook {
    var wallets: seq<Wallet>
    var balances: map<string, seq<WalletBalance>>
    var loading: bool
    var error: Option<string>
    const storage: Storage

    /** The first render plus the mount effect, which loads the stored list. */
    constructor (storage: Storage)
      ensures wallets == storage.Wallets() && balances == map[] && !loading && error.None?
      ensures this.storage == storage
    {
      this.storage := storage;
      wallets, balances, loading, error := [], map[], false, None;
      var storedWallets := storage.GetWallets();
      wallets := storedWallets;
    }

    /** `generateWallet(password, name)`. `thrown` is the message of the error
        it rethrows. A blank password stores nothing and leaves the list as it
        was; otherwise the new wallet is stored and appended. Loading always
        ends false. */
    method GenerateWallet(
      c: Crypto, password: string, name: Option<string>,
      keys: KeyPair, id: string, createdAt: string, writeOk: bool)
      returns (thrown: Option<string>)
      modifies this, storage
      ensures !loading && balances == old(balances)
      ensures JsString.IsBlank(password) ==>
        && thrown == Some(PASSWORD_REQUIRED) && error == Some(PASSWORD_REQUIRED)
        && wallets == old(wallets) && storage.slot == old(storage.slot)
      ensures !JsString.IsBlank(password) ==>
        && thrown.None? && error.None?
        && wallets == old(wallets) + [WalletUtils.CreateEncryptedWallet(c, password, name, keys, id, createdAt)]
      ensures !JsString.IsBlank(password) && storage.hasWindow && writeOk ==>
        storage.Wallets() == old(storage.Wallets())
          + [WalletUtils.CreateEncryptedWallet(c, password, name, keys, id, createdAt)]
      ensures !(storage.hasWindow && writeOk) ==> storage.slot == old(storage.slot)
    {
      loading := true;
      error := None;
      JsString.TrimEmptyIffBlank(password);
      if JsString.Trim(password) == [] {
        error := Some(PASSWORD_REQUIRED);
        loading := false;
        return Some(PASSWORD_REQUIRED);
      }
      var newWallet := WalletUtils.CreateEncryptedWallet(c, password, name, keys, id, createdAt);
      ghost var stored := storage.Wallets();
      storage.AddWallet(newWallet, writeOk);
      assert storage.hasWindow && writeOk ==> storage.Wallets() == stored + [newWallet];
      wallets := wallets + [newWallet];
      loading := false;
      thrown := None;
    }

    /** `removeWallet(walletId)`: storage first, then the list is filtered;
        the balances of the wallet's address go only if the id was found. */
    method RemoveWallet(walletId: string, writeOk: bool)
      modifies this, storage
      ensures wallets == WithoutId(old(wallets), walletId)
      ensures balances == match FindById(old(wallets), walletId)
        case Some(w) => old(balances) - {w.address}
        case None => old(balances)
      ensures loading == old(loading) && error == old(error)
      ensures storage.hasWindow && writeOk ==> storage.Wallets() == WithoutId(old(storage.Wallets()), walletId)
      ensures !(storage.hasWindow && writeOk) ==> storage.slot == old(storage.slot)
    {
      storage.RemoveWallet(walletId, writeOk);
      var wallet := FindById(wallets, walletId);
      wallets := WithoutId(wallets, walletId);
      var newBalances := balances;
      if wallet.Some? {
        newBalances := newBalances - {wallet.value.address};
      }
      balances := newBalances;
    }

    /** `refreshBalances()` given the settled queries: the error is cleared
        first, the balances are replaced wholesale, and loading ends false. */
    method RefreshBalances(results: seq<Settled<WalletBalance>>)
      modifies this
      ensures balances == Group(AddressedEntries(results))
      ensures !loading && error.None? && wallets == old(wallets)
    {
      loading := true;
      error := None;
      var newBalances := GroupReported(results);
      balances := newBalances;
      loading := false;
    }

    /** `decryptPrivateKey(walletId, password)`. */
    function DecryptPrivateKey(c: Crypto, walletId: string, password: string): (r: Result<string, string>)
      reads this
      ensures FindById(wallets, walletId).None? ==> r == Failure(WALLET_NOT_FOUND)
      ensures FindById(wallets, walletId).Some? ==>
        r == WalletUtils.DecryptWallet(c, FindById(wallets, walletId).value, password)
    {
      match FindById(wallets, walletId)
      case None => Failure(WALLET_NOT_FOUND)
      case Some(wallet) => WalletUtils.DecryptWallet(c, wallet, password)
    }
  }

  /** Generating a wallet with a fresh id and then revealing it by that id and
      the same password gives back the generated private key. */
  method GenerateThenReveal(
    hook: WalletsHook, c: Crypto, password: string, name: Option<string>,
    keys: KeyPair, id: string, createdAt: string, writeOk: bool)
    returns (revealed: Result<string, string>)
    requires Inverts(c) && Derived(c, keys.privateKey, keys.address)
    requires !JsString.IsBlank(password)
    requires forall w :: w in hook.wallets ==> w.id != id
    modifies hook, hook.storage
    ensures revealed == Success(keys.privateKey)
  {
    var thrown := hook.GenerateWallet(c, password, name, keys, id, createdAt, writeOk);
    var w := WalletUtils.CreateEncryptedWallet(c, password, name, keys, id, createdAt);
    FindAppended(old(hook.wallets), w);
    WalletUtils.CreateThenDecrypt(c, password, name, keys, id, createdAt);
    revealed := hook.DecryptPrivateKey(c, id, password);
  }
}
