/** The records shared by the vault, the balance resolver and the stores
    (src/types/wallet.ts, extended with the fields the code actually reads). */
module WalletTypes {
  import opened Wrappers

  /** A persisted wallet. `name` is optional; `id` and `createdAt` are opaque strings. */
  datatype Wallet = Wallet(
    id: string,
    address: string,
    encryptedPrivateKey: string,
    createdAt: string,
    name: Option<string>)

  /** One chain the resolver can query: a primary endpoint and ordered backups. */
  datatype Network = Network(
    name: string,
    chainId: nat,
    rpcUrl: string,
    backupRpcs: seq<string>,
    symbol: string)

  /** The result of one balance query; `balance` is a decimal string. */
  datatype WalletBalance = WalletBalance(
    address: string,
    balance: string,
    network: string,
    symbol: string)

  /** A freshly generated key pair, as `ethers.Wallet.createRandom` returns it. */
  datatype KeyPair = KeyPair(address: string, privateKey: string)

  /** `wallets.find(w => w.id === walletId)`: the first wallet with that id. */
  function FindById(wallets: seq<Wallet>, walletId: string): (r: Option<Wallet>)
    ensures r.Some? ==> r.value in wallets && r.value.id == walletId
    ensures r.Some? ==> exists i :: 0 <= i < |wallets| && wallets[i] == r.value
                                   && forall j :: 0 <= j < i ==> wallets[j].id != walletId
    ensures r.None? <==> forall w :: w in wallets ==> w.id != walletId
  {
    if wallets == [] then None
    else if wallets[0].id == walletId then Some(wallets[0])
    else
      var r := FindById(wallets[1..], walletId);
      assert forall w :: w in wallets ==> w == wallets[0] || w in wallets[1..];
      assert r.Some? ==> forall i :: 0 <= i < |wallets[1..]| ==> wallets[1..][i] == wallets[i + 1];
      r
  }
}
