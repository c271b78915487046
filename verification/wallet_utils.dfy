/** The wallet vault and the balance resolver (src/utils/wallet.ts). */
module WalletUtils {
  import opened Wrappers
  import opened WalletTypes
  import opened Cipher
  import JsString

  /** The supported networks, each with its primary and backup RPC endpoints. */
  const NETWORKS: seq<Network> := [
    Network(
      "Ethereum Sepolia",
      11155111,
      "https://rpc.sepolia.eth.gateway.fm",
      [
        "https://sepolia.infura.io/v3/9aa3d95b3bc440fa88ea12eaa4456161",
        "https://eth-sepolia.public.blastapi.io",
        "https://rpc.sepolia.org",
        "https://sepolia.gateway.tenderly.co",
        "https://ethereum-sepolia.publicnode.com"
      ],
      "ETH"),
    Network(
      "BSC Testnet",
      97,
      "https://data-seed-prebsc-1-s1.binance.org:8545",
      [
        "https://data-seed-prebsc-2-s1.binance.org:8545",
        "https://bsc-testnet.public.blastapi.io",
        "https://bsc-testnet.publicnode.com"
      ],
      "tBNB")
  ]

  /** Two networks: Ethereum Sepolia (chain 11155111, ETH, five backups) and
      BSC Testnet (chain 97, tBNB, three backups); no primary endpoint is
      repeated among its own backups. */
  lemma NetworksTable()
    ensures |NETWORKS| == 2
    ensures NETWORKS[0].name == "Ethereum Sepolia" && NETWORKS[0].chainId == 11155111
         && NETWORKS[0].symbol == "ETH" && |NETWORKS[0].backupRpcs| == 5
    ensures NETWORKS[1].name == "BSC Testnet" && NETWORKS[1].chainId == 97
         && NETWORKS[1].symbol == "tBNB" && |NETWORKS[1].backupRpcs| == 3
    ensures forall n :: n in NETWORKS ==> n.rpcUrl !in n.backupRpcs
  {
  }

  /** The one error the validation step of `decryptWallet` reports. */
  const INVALID_PASSWORD := "Invalid password"

  /** `createEncryptedWallet(password, name)`: the generated key pair, the id
      (`Date.now()` plus random digits) and the ISO timestamp are supplied by
      the caller. The password is not checked here. The record holds the
      generated address, the given id, timestamp and name, and a ciphertext
      that a working cipher decrypts under the same password to the
      generated key, whatever the password is. */
  function CreateEncryptedWallet(
    c: Crypto, password: string, name: Option<string>,
    keys: KeyPair, id: string, createdAt: string): (w: Wallet)
    ensures w.address == keys.address && w.name == name && w.id == id && w.createdAt == createdAt
    ensures Inverts(c) ==> c.decrypt(w.encryptedPrivateKey, password) == Success(keys.privateKey)
  {
    Wallet(id, keys.address, c.encrypt(keys.privateKey, password), createdAt, name)
  }

  /** The key derives an address equal to `address` up to letter case. */
  predicate Unlocks(c: Crypto, privateKey: string, address: string) {
    match c.deriveAddress(privateKey)
    case None => false
    case Some(derived) => JsString.ToLower(derived) == JsString.ToLower(address)
  }

  /** `decryptWallet(wallet, password)`. A failure of the cipher itself happens
      before the validation `try` and propagates as it is; a key that does not
      parse and a key whose address differs both become "Invalid password". */
  function DecryptWallet(c: Crypto, wallet: Wallet, password: string): (r: Result<string, string>)
    ensures r.Success? <==>
      c.decrypt(wallet.encryptedPrivateKey, password).Success?
      && Unlocks(c, c.decrypt(wallet.encryptedPrivateKey, password).value, wallet.address)
    ensures r.Success? ==> c.decrypt(wallet.encryptedPrivateKey, password) == r
    ensures c.decrypt(wallet.encryptedPrivateKey, password).Failure? ==>
      r == c.decrypt(wallet.encryptedPrivateKey, password)
    ensures r.Failure? && c.decrypt(wallet.encryptedPrivateKey, password).Success? ==>
      r.error == INVALID_PASSWORD
  {
    match c.decrypt(wallet.encryptedPrivateKey, password)
    case Failure(e) => Failure(e)
    case Success(privateKey) =>
      match c.deriveAddress(privateKey)
      case None => Failure(INVALID_PASSWORD)
      case Some(derived) =>
        if JsString.ToLower(derived) != JsString.ToLower(wallet.address) then Failure(INVALID_PASSWORD)
        else Success(privateKey)
  }

  /** Round trip: a wallet created with password `p` from a generated key pair
      gives back that pair's private key when decrypted with `p`. */
  lemma CreateThenDecrypt(
    c: Crypto, password: string, name: Option<string>,
    keys: KeyPair, id: string, createdAt: string)
    requires Inverts(c)
    requires Derived(c, keys.privateKey, keys.address)
    ensures DecryptWallet(c, CreateEncryptedWallet(c, password, name, keys, id, createdAt), password)
         == Success(keys.privateKey)
  {
  }

  /** A successful decryption never yields a key other than the generated one,
      whatever password is tried, provided no other key derives the same
      address (up to case). */
  lemma DecryptYieldsOnlyGeneratedKey(
    c: Crypto, password: string, name: Option<string>,
    keys: KeyPair, id: string, createdAt: string, attempt: string)
    requires Derived(c, keys.privateKey, keys.address)
    requires forall k {:trigger c.deriveAddress(k)} ::
      Unlocks(c, k, keys.address) ==> k == keys.privateKey
    ensures var r := DecryptWallet(c, CreateEncryptedWallet(c, password, name, keys, id, createdAt), attempt);
      r.Success? ==> r.value == keys.privateKey
  {
  }

  /** The outcome of one endpoint attempt: a balance in wei, or a failure (a
      network error, or the 10-second `RPC timeout`). */
  datatype Attempt = Fetched(wei: nat) | Unreachable | TimedOut

  /** `[network.rpcUrl, ...(network.backupRpcs || [])]`. */
  function Endpoints(network: Network): seq<string> {
    [network.rpcUrl] + network.backupRpcs
  }

  /** `getBalance(address, network)`. `probe(i, url)` is the outcome of the
      i-th attempt, made against `url`, and `formatEther` formats wei as ether.
      `tried` lists the endpoints attempted, in order. */
  method GetBalance(
    address: string, network: Network,
    probe: (nat, string) -> Attempt, formatEther: nat -> string)
    returns (b: WalletBalance, tried: seq<string>)
    ensures b.address == address && b.network == network.name && b.symbol == network.symbol
    ensures 1 <= |tried| <= 1 + |network.backupRpcs|
    ensures tried == Endpoints(network)[..|tried|]
    ensures forall i :: 0 <= i < |tried| - 1 ==> !probe(i, tried[i]).Fetched?
    ensures probe(|tried| - 1, tried[|tried| - 1]).Fetched? ==>
      b.balance == formatEther(probe(|tried| - 1, tried[|tried| - 1]).wei)
    ensures !probe(|tried| - 1, tried[|tried| - 1]).Fetched? ==>
      tried == Endpoints(network) && b.balance == "0"
  {
    var rpcsToTry := Endpoints(network);
    tried := [];
    for i := 0 to |rpcsToTry|
      invariant tried == rpcsToTry[..i]
      invariant forall j :: 0 <= j < i ==> !probe(j, rpcsToTry[j]).Fetched?
    {
      var rpcUrl := rpcsToTry[i];
      tried := tried + [rpcUrl];
      var outcome := probe(i, rpcUrl);
      if outcome.Fetched? {
        return WalletBalance(address, formatEther(outcome.wei), network.name, network.symbol), tried;
      }
      if i == |rpcsToTry| - 1 {
        return WalletBalance(address, "0", network.name, network.symbol), tried;
      }
    }
    b := WalletBalance(address, "0", network.name, network.symbol);
  }
}
