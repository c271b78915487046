/** The native-balance check (src/utils/balance.ts). */
module Balance {
  import opened Wrappers
  import opened WalletTypes

  /** A JavaScript number as `parseFloat` yields it: a value or NaN. */
  datatype Number = Num(value: real) | NaN

  datatype BalanceCheck = BalanceCheck(
    hasEnough: bool,
    current: Number,
    required: real,
    symbol: string,
    network: string)

  /** The default `requiredAmount`. */
  const DEFAULT_REQUIRED: real := 0.002

  /** The `find` predicate: a record counts as a native balance when its symbol
      is BNB or ETH, or its network is BSC, Ethereum or ETH. */
  predicate IsNative(b: WalletBalance) {
    || b.symbol == "BNB" || b.symbol == "ETH"
    || b.network == "BSC" || b.network == "Ethereum" || b.network == "ETH"
  }

  /** `balances.find(IsNative)`: the index of the first native record. */
  function FindNative(balances: seq<WalletBalance>): (r: Option<nat>)
    ensures r.Some? ==> r.value < |balances| && IsNative(balances[r.value])
    ensures r.Some? ==> forall j :: 0 <= j < r.value ==> !IsNative(balances[j])
    ensures r.None? <==> forall j :: 0 <= j < |balances| ==> !IsNative(balances[j])
  {
    if balances == [] then None
    else if IsNative(balances[0]) then Some(0)
    else match FindNative(balances[1..])
      case None => None
      case Some(k) => Some(k + 1)
  }

  /** `checkBNBBalance(balances, requiredAmount)`; `parseFloat` is supplied. */
  function CheckBNBBalance(
    balances: seq<WalletBalance>, requiredAmount: real, parseFloat: string -> Number): (r: BalanceCheck)
    ensures r.required == requiredAmount
    ensures FindNative(balances).None? ==>
      r == BalanceCheck(false, Num(0.0), requiredAmount, "ETH/BNB", "Unknown")
    ensures FindNative(balances).Some? ==>
      var found := balances[FindNative(balances).value];
      && r.current == parseFloat(found.balance)
      && r.symbol == found.symbol && r.network == found.network
      && (r.hasEnough <==> r.current.Num? && r.current.value >= requiredAmount)
  {
    match FindNative(balances)
    case None => BalanceCheck(false, Num(0.0), requiredAmount, "ETH/BNB", "Unknown")
    case Some(k) =>
      var current := parseFloat(balances[k].balance);
      BalanceCheck(current.Num? && current.value >= requiredAmount, current,
                   requiredAmount, balances[k].symbol, balances[k].network)
  }

  /** `checkBNBBalance(balances)` with the default threshold. */
  function CheckBNBBalanceDefault(balances: seq<WalletBalance>, parseFloat: string -> Number): (r: BalanceCheck)
    ensures r.required == 0.002
  {
    CheckBNBBalance(balances, DEFAULT_REQUIRED, parseFloat)
  }

  /** Balances of the BSC Testnet network (symbol tBNB) are never recognised
      as native, so a list holding only such records reports "Unknown". */
  lemma TestnetBalancesNotNative(
    balances: seq<WalletBalance>, requiredAmount: real, parseFloat: string -> Number)
    requires forall j :: 0 <= j < |balances| ==>
      balances[j].symbol == "tBNB" && balances[j].network == "BSC Testnet"
    ensures CheckBNBBalance(balances, requiredAmount, parseFloat)
         == BalanceCheck(false, Num(0.0), requiredAmount, "ETH/BNB", "Unknown")
  {
  }

  /** A Sepolia balance is recognised by its ETH symbol: placed first, it is
      the record `checkBNBBalance` reports on. */
  lemma SepoliaBalanceIsNative(b: WalletBalance, rest: seq<WalletBalance>, requiredAmount: real, parseFloat: string -> Number)
    requires b.symbol == "ETH"
    ensures FindNative([b] + rest) == Some(0)
    ensures var r := CheckBNBBalance([b] + rest, requiredAmount, parseFloat);
      && r.current == parseFloat(b.balance) && r.symbol == "ETH" && r.network == b.network
      && (r.hasEnough <==> r.current.Num? && r.current.value >= requiredAmount)
  {
  }
}
