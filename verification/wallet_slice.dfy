/** The Redux wallet slice (src/store/slices/walletSlice.ts): the bodies of the
    `generateWallet`, `loadWallets` and `refreshBalances` thunks, and every
    reducer case. Immer lets the reducers mutate the state in place, so the
    state is a class whose methods are those reducers. */
module WalletSlice {
  import opened Wrappers
  import opened WalletTypes
  import opened Cipher
  import opened StorageUtils
  import opened BalanceGrouping
  import WalletUtils
  import JsString

  const PASSWORD_REQUIRED := "Password is required"
  const FAILED_TO_GENERATE := "Failed to generate wallet"
  const FAILED_TO_LOAD := "Failed to load wallets"

  /** The value each `refreshBalances` promise resolves to. */
  datatype AddressedBalance = AddressedBalance(address: string, balance: WalletBalance)

  /** The entries the `forEach` pushes: the fulfilled results, keyed by the
      wallet address they carry, in order. */
  function FulfilledEntries(results: seq<Settled<AddressedBalance>>): (es: seq<(string, WalletBalance)>)
    decreases |results|
  {
    if results == [] then []
    else
      var last := results[|results| - 1];
      FulfilledEntries(results[..|results| - 1])
        + (if last.Fulfilled? then [(last.value.address, last.value.balance)] else [])
  }

  /** The number of fulfilled results. */
  function CountFulfilled<T>(results: seq<Settled<T>>): nat {
    if results == [] then 0
    else CountFulfilled(results[..|results| - 1]) + (if results[|results| - 1].Fulfilled? then 1 else 0)
  }

  /** Some fulfilled result carries address `a`. */
  predicate FulfilledFor(results: seq<Settled<AddressedBalance>>, a: string) {
    exists i :: 0 <= i < |results| && results[i].Fulfilled? && results[i].value.address == a
  }

  lemma {:induction false} FulfilledEntriesFrom(results: seq<Settled<AddressedBalance>>, a: string)
    ensures |FulfilledEntries(results)| == CountFulfilled(results)
    ensures KeyedBy(FulfilledEntries(results), a) <==> FulfilledFor(results, a)
  {
    if results != [] {
      var init := results[..|results| - 1];
      FulfilledEntriesFrom(init, a);
      var es, ies := FulfilledEntries(results), FulfilledEntries(init);
      if KeyedBy(es, a) {
        var i :| 0 <= i < |es| && es[i].0 == a;
        if i < |ies| {
          assert ies[i].0 == a;
          var k :| 0 <= k < |init| && init[k].Fulfilled? && init[k].value.address == a;
          assert results[k] == init[k];
        } else {
          assert results[|results| - 1].Fulfilled?;
        }
      }
      if FulfilledFor(results, a) {
        var i :| 0 <= i < |results| && results[i].Fulfilled? && results[i].value.address == a;
        if i < |init| {
          assert init[i] == results[i];
          var k :| 0 <= k < |ies| && ies[k].0 == a;
          assert es[k] == ies[k];
        } else {
          assert es[|es| - 1].0 == a;
        }
      }
    }
  }

  /** The grouping the `refreshBalances` thunk returns: an address is a key
      exactly when some fulfilled result carries it (rejected results are
      dropped), its list holds those results' balances in order, and the map
      holds one balance per fulfilled result. */
  lemma RefreshGrouping(results: seq<Settled<AddressedBalance>>, a: string)
    ensures a in Group(FulfilledEntries(results)) <==> FulfilledFor(results, a)
    ensures a in Group(FulfilledEntries(results)) ==>
      Group(FulfilledEntries(results))[a] == EntriesFor(FulfilledEntries(results), a)
    ensures TotalEntries(Group(FulfilledEntries(results))) == CountFulfilled(results)
  {
    FulfilledEntriesFrom(results, a);
    GroupKeys(FulfilledEntries(results), a);
    GroupTotal(FulfilledEntries(results));
  }

  /** The `refreshBalances` thunk body after `Promise.allSettled`: the
      `results` are the settled queries, in wallets-times-networks order. */
  method RefreshBalancesThunk(results: seq<Settled<AddressedBalance>>)
    returns (balances: map<string, seq<WalletBalance>>)
    ensures balances == Group(FulfilledEntries(results))
  {
    balances := map[];
    for i := 0 to |results|
      invariant balances == Group(FulfilledEntries(results[..i]))
    {
      assert results[..i + 1][..i] == results[..i];
      match results[i]
      case Fulfilled(AddressedBalance(address, balance)) =>
        assert FulfilledEntries(results[..i + 1]) == FulfilledEntries(results[..i]) + [(address, balance)];
        var es := FulfilledEntries(results[..i]) + [(address, balance)];
        assert es[..|es| - 1] == FulfilledEntries(results[..i]);
        if address !in balances {
          balances := balances[address := []];
        }
        balances := balances[address := balances[address] + [balance]];
      case Rejected =>
        assert FulfilledEntries(results[..i + 1]) == FulfilledEntries(results[..i]);
    }
    assert results[..|results|] == results;
  }

  /** The `generateWallet` thunk body. A blank password is rejected before
      anything is created or stored; otherwise the new wallet is appended to
      storage and returned. */
  method GenerateWalletThunk(
    storage: Storage, c: Crypto, password: string, name: Option<string>,
    keys: KeyPair, id: string, createdAt: string, writeOk: bool)
    returns (r: Result<Wallet, string>)
    modifies storage
    ensures JsString.IsBlank(password) ==>
      r == Failure(PASSWORD_REQUIRED) && storage.slot == old(storage.slot)
    ensures !JsString.IsBlank(password) ==>
      r == Success(WalletUtils.CreateEncryptedWallet(c, password, name, keys, id, createdAt))
    ensures !JsString.IsBlank(password) && storage.hasWindow && writeOk ==>
      storage.Wallets() == old(storage.Wallets()) + [r.value]
    ensures !(storage.hasWindow && writeOk) ==> storage.slot == old(storage.slot)
  {
    JsString.TrimEmptyIffBlank(password);
    if JsString.Trim(password) == [] {
      return Failure(PASSWORD_REQUIRED);
    }
    var newWallet := WalletUtils.CreateEncryptedWallet(c, password, name, keys, id, createdAt);
    storage.AddWallet(newWallet, writeOk);
    return Success(newWallet);
  }

  /** The message a rejected case stores: the payload when it is a string,
      otherwise the case's default. */
  function RejectionMessage(payload: Option<string>, default: string): (m: string)
    ensures payload.Some? ==> m == payload.value
    ensures payload.None? ==> m == default
  {
    payload.GetOr(default)
  }

  /** The slice state `{ wallets, balances, loading, error }`, with the storage
      the reducers write through. */
  class WalletState {
    var wallets: seq<Wallet>
    var balances: map<string, seq<WalletBalance>>
    var loading: bool
    var error: Option<string>
    const storage: Storage

    /** `initialState`. */
    constructor (storage: Storage)
      ensures wallets == [] && balances == map[] && !loading && error.None?
      ensures this.storage == storage
    {
      wallets, balances, loading, error := [], map[], false, None;
      this.storage := storage;
    }

    /** Reducer `removeWallet`: drops every wallet with the id, deletes the
        balances of the first such wallet's address, and removes the id from
        storage. */
    method RemoveWallet(walletId: string, writeOk: bool)
      modifies this, storage
      ensures wallets == WithoutId(old(wallets), walletId)
      ensures balances == match FindById(old(wallets), walletId)
        case Some(w) => old(balances) - {w.address}
        case None => old(balances)
      ensures loading == old(loading) && error == old(error)
      ensures storage.hasWindow && writeOk ==> storage.Wallets() == WithoutId(old(storage.Wallets()), walletId)
      ensures !(storage.hasWindow && writeOk) ==> storage.slot == old(storage.slot)
    {
      var wallet := FindById(wallets, walletId);
      wallets := WithoutId(wallets, walletId);
      if wallet.Some? {
        balances := balances - {wallet.value.address};
      }
      storage.RemoveWallet(walletId, writeOk);
    }

    /** Reducer `clearError`. */
    method ClearError()
      modifies this
      ensures error.None?
      ensures wallets == old(wallets) && balances == old(balances) && loading == old(loading)
    {
      error := None;
    }

    /** `generateWallet.pending`: loading, with the error cleared. */
    method GenerateWalletPending()
      modifies this
      ensures loading && error.None?
      ensures wallets == old(wallets) && balances == old(balances)
    {
      loading := true;
      error := None;
    }

    /** `generateWallet.fulfilled`: the new wallet goes at the end of the list. */
    method GenerateWalletFulfilled(wallet: Wallet)
      modifies this
      ensures !loading && wallets == old(wallets) + [wallet]
      ensures balances == old(balances) && error == old(error)
    {
      loading := false;
      wallets := wallets + [wallet];
    }

    /** `generateWallet.rejected`. */
    method GenerateWalletRejected(payload: Option<string>)
      modifies this
      ensures !loading && error == Some(RejectionMessage(payload, FAILED_TO_GENERATE))
      ensures wallets == old(wallets) && balances == old(balances)
    {
      loading := false;
      error := Some(if payload.Some? then payload.value else FAILED_TO_GENERATE);
    }

    /** `loadWallets.pending` and `refreshBalances.pending`: loading only. */
    method LoadingPending()
      modifies this
      ensures loading
      ensures wallets == old(wallets) && balances == old(balances) && error == old(error)
    {
      loading := true;
    }

    /** `loadWallets.fulfilled`: the list is replaced wholesale. */
    method LoadWalletsFulfilled(loaded: seq<Wallet>)
      modifies this
      ensures !loading && wallets == loaded
      ensures balances == old(balances) && error == old(error)
    {
      loading := false;
      wallets := loaded;
    }

    /** `loadWallets.rejected` and `refreshBalances.rejected`, which share the
        default "Failed to load wallets". */
    method LoadRejected(payload: Option<string>)
      modifies this
      ensures !loading && error == Some(RejectionMessage(payload, FAILED_TO_LOAD))
      ensures wallets == old(wallets) && balances == old(balances)
    {
      loading := false;
      error := Some(if payload.Some? then payload.value else FAILED_TO_LOAD);
    }

    /** `refreshBalances.fulfilled`: the balances are replaced wholesale. */
    method RefreshBalancesFulfilled(grouped: map<string, seq<WalletBalance>>)
      modifies this
      ensures !loading && balances == grouped
      ensures wallets == old(wallets) && error == old(error)
    {
      loading := false;
      balances := grouped;
    }

    /** `dispatch(generateWallet({ password, name }))`: pending, the thunk,
        then fulfilled or rejected. */
    method DispatchGenerateWallet(
      c: Crypto, password: string, name: Option<string>,
      keys: KeyPair, id: string, createdAt: string, writeOk: bool)
      returns (r: Result<Wallet, string>)
      modifies this, storage
      ensures !loading && balances == old(balances)
      ensures JsString.IsBlank(password) ==>
        && r == Failure(PASSWORD_REQUIRED)
        && wallets == old(wallets) && error == Some(PASSWORD_REQUIRED)
        && storage.slot == old(storage.slot)
      ensures !JsString.IsBlank(password) ==>
        && r == Success(WalletUtils.CreateEncryptedWallet(c, password, name, keys, id, createdAt))
        && wallets == old(wallets) + [r.value] && error.None?
      ensures !JsString.IsBlank(password) && storage.hasWindow && writeOk ==>
        storage.Wallets() == old(storage.Wallets()) + [r.value]
    {
      GenerateWalletPending();
      r := GenerateWalletThunk(storage, c, password, name, keys, id, createdAt, writeOk);
      match r
      case Success(w) => GenerateWalletFulfilled(w);
      case Failure(e) => GenerateWalletRejected(Some(e));
    }

    /** `dispatch(loadWallets())`: reading storage never throws, so the thunk
        always fulfils with the stored list. */
    method DispatchLoadWallets()
      modifies this
      ensures !loading && wallets == storage.Wallets()
      ensures balances == old(balances) && error == old(error)
    {
      LoadingPending();
      var loaded := storage.GetWallets();
      LoadWalletsFulfilled(loaded);
    }

    /** `dispatch(refreshBalances(wallets))` given the settled queries: the
        thunk cannot fail after `allSettled`, so the balances are replaced by
        the grouped results. */
    method DispatchRefreshBalances(results: seq<Settled<AddressedBalance>>)
      modifies this
      ensures !loading && balances == Group(FulfilledEntries(results))
      ensures wallets == old(wallets) && error == old(error)
    {
      LoadingPending();
      var grouped := RefreshBalancesThunk(results);
      RefreshBalancesFulfilled(grouped);
    }
  }

  /** Removing an id no wallet has leaves the list as it is and finds no
      wallet; by the `None` case of `WalletState.RemoveWallet`'s ensures the
      balances then stay as they are too. */
  lemma RemoveUnknownIdIsNoOp(wallets: seq<Wallet>, walletId: string)
    requires forall w :: w in wallets ==> w.id != walletId
    ensures WithoutId(wallets, walletId) == wallets
    ensures FindById(wallets, walletId).None?
  {
  }
}
