/** The persisted wallet list (src/utils/storage.ts): one `localStorage` entry
    holding the JSON of the list. JSON encoding is abstracted: the entry is
    either absent, unreadable, or a stored list. */
module StorageUtils {
  import opened WalletTypes

  /** The contents of the `wallet_keeper_wallets` entry. */
  datatype Slot = Empty | Corrupt | Stored(wallets: seq<Wallet>)

  /** `wallets.filter(w => w.id !== walletId)`. */
  function WithoutId(wallets: seq<Wallet>, walletId: string): (r: seq<Wallet>)
    ensures |r| <= |wallets|
    ensures forall w :: w in r ==> w.id != walletId
  {
    if wallets == [] then []
    else if wallets[0].id == walletId then WithoutId(wallets[1..], walletId)
    else [wallets[0]] + WithoutId(wallets[1..], walletId)
  }

  /** The filter keeps exactly the wallets with another id and adds nothing:
      no wallet occurs in its result more often than in the input. */
  lemma {:induction false} WithoutIdKeeps(wallets: seq<Wallet>, walletId: string)
    ensures forall w :: w in WithoutId(wallets, walletId) <==> w in wallets && w.id != walletId
    ensures |WithoutId(wallets, walletId)| <= |wallets|
    ensures (forall w :: w in wallets ==> w.id != walletId) ==> WithoutId(wallets, walletId) == wallets
    ensures multiset(WithoutId(wallets, walletId)) <= multiset(wallets)
  {
    if wallets != [] {
      var rest := wallets[1..];
      WithoutIdKeeps(rest, walletId);
      assert wallets == [wallets[0]] + rest;
      assert multiset(wallets) == multiset{wallets[0]} + multiset(rest);
      if wallets[0].id != walletId {
        assert WithoutId(wallets, walletId) == [wallets[0]] + WithoutId(rest, walletId);
      }
    }
  }

  /** Filtering twice by the same id is filtering once. */
  lemma {:induction false} WithoutIdIdempotent(wallets: seq<Wallet>, walletId: string)
    ensures WithoutId(WithoutId(wallets, walletId), walletId) == WithoutId(wallets, walletId)
  {
    if wallets != [] {
      WithoutIdIdempotent(wallets[1..], walletId);
    }
  }

  /** Filtering distributes over appending one wallet. */
  lemma {:induction false} WithoutIdAppend(wallets: seq<Wallet>, w: Wallet, walletId: string)
    ensures WithoutId(wallets + [w], walletId)
         == WithoutId(wallets, walletId) + (if w.id == walletId then [] else [w])
  {
    if wallets == [] {
      assert [w][1..] == [];
    } else {
      assert (wallets + [w])[1..] == wallets[1..] + [w];
      WithoutIdAppend(wallets[1..], w, walletId);
    }
  }

  /** The browser's storage. `hasWindow` is false when running without a
      window (server-side rendering), where reads give `[]` and writes do
      nothing. */
  class Storage {
    const hasWindow: bool
    var slot: Slot

    constructor (hasWindow: bool, slot: Slot)
      ensures this.hasWindow == hasWindow && this.slot == slot
    {
      this.hasWindow := hasWindow;
      this.slot := slot;
    }

    /** The list `getWallets` returns: `[]` without a window, when nothing is
        stored and when parsing fails. */
    function Wallets(): (ws: seq<Wallet>)
      reads this
      ensures !hasWindow || !slot.Stored? ==> ws == []
      ensures hasWindow && slot.Stored? ==> ws == slot.wallets
    {
      if hasWindow && slot.Stored? then slot.wallets else []
    }

    /** `getWallets()`. */
    method GetWallets() returns (ws: seq<Wallet>)
      ensures ws == Wallets()
    {
      if !hasWindow {
        return [];
      }
      match slot
      case Stored(stored) => ws := stored;
      case _ => ws := [];
    }

    /** `saveWallets(wallets)`. `writeOk` is false when `setItem` throws (for
        example over quota); the error is swallowed and the entry keeps its
        old contents. */
    method SaveWallets(wallets: seq<Wallet>, writeOk: bool)
      modifies this
      ensures slot == if hasWindow && writeOk then Stored(wallets) else old(slot)
      ensures hasWindow && writeOk ==> Wallets() == wallets
    {
      if !hasWindow {
        return;
      }
      if writeOk {
        slot := Stored(wallets);
      }
    }

    /** `addWallet(wallet)`: the stored list afterwards is the old one plus the wallet. */
    method AddWallet(wallet: Wallet, writeOk: bool)
      modifies this
      ensures hasWindow && writeOk ==> Wallets() == old(Wallets()) + [wallet]
      ensures !(hasWindow && writeOk) ==> slot == old(slot)
    {
      var wallets := GetWallets();
      wallets := wallets + [wallet];
      SaveWallets(wallets, writeOk);
    }

    /** `removeWallet(walletId)`: the stored list afterwards is the old one
        without the wallets of that id. */
    method RemoveWallet(walletId: string, writeOk: bool)
      modifies this
      ensures hasWindow && writeOk ==> Wallets() == WithoutId(old(Wallets()), walletId)
      ensures !(hasWindow && writeOk) ==> slot == old(slot)
    {
      var wallets := GetWallets();
      var filtered := WithoutId(wallets, walletId);
      SaveWallets(filtered, writeOk);
    }
  }

  /** Removing the same id twice leaves the same list as removing it once, and
      removing an id nobody has leaves the list as it was. */
  method RemoveIsIdempotent(storage: Storage, walletId: string)
    modifies storage
    ensures storage.Wallets() == WithoutId(old(storage.Wallets()), walletId)
    ensures (forall w :: w in old(storage.Wallets()) ==> w.id != walletId) ==>
      storage.Wallets() == old(storage.Wallets())
  {
    storage.RemoveWallet(walletId, true);
    storage.RemoveWallet(walletId, true);
    WithoutIdIdempotent(old(storage.Wallets()), walletId);
    WithoutIdKeeps(old(storage.Wallets()), walletId);
  }
}
