/** The EIP-1559 fee policy of src/mint_bot.py:61-67 ("Specification" section
    of EIP-1559: `maxFeePerGas` and `maxPriorityFeePerGas`). */
module Fees {
  import opened MintTypes

  /** Wei in one gwei: `to_wei(n, "gwei") == n * 10^9` for an integer n. */
  const WeiPerGwei: nat := 1_000_000_000

  /** The largest wei amount `to_wei` accepts: 2^256 - 1. */
  const MaxWei: nat := 115792089237316195423570985008687907853269984665640564039457584007913129639935

  /** `to_wei(gwei, "gwei")` for an integer amount: the amount in wei, or a
      ValueError when that lies outside 0 .. 2^256 - 1. */
  function GweiToWei(gwei: int): (r: Result<nat>)
    ensures r.Success? <==> 0 <= gwei && gwei * WeiPerGwei <= MaxWei
    ensures r.Success? ==> r.value == gwei * WeiPerGwei
    ensures r.Failure? ==> r.error == ValueFormatError
  {
    var wei := gwei * WeiPerGwei;
    if wei < 0 || wei > MaxWei then Failure(ValueFormatError) else Success(wei)
  }

  /** `int(baseFeePerGas * 1.25)`: the observed base fee with a 25% buffer,
      rounded down. */
  function BufferedBaseFee(baseFeePerGas: nat): (b: nat)
    ensures 4 * b <= 5 * baseFeePerGas < 4 * b + 4
    ensures b >= baseFeePerGas
  {
    (baseFeePerGas * 5) / 4
  }

  /** The fee fields shared by every transaction of the bundle. */
  datatype FeePolicy = FeePolicy(baseFee: nat, maxFeePerGas: nat, maxPriorityFeePerGas: nat)

  /** The fee policy derived from the latest block's base fee (absent on a
      chain without a base-fee market), the network's priority-fee estimate
      and the configured priority fee in gwei. The base fee is looked up first
      (line 62), the configured fee converted afterwards (line 64). */
  function FeePolicyFor(latestBaseFee: Option<nat>, networkPriorityFee: nat, configuredGwei: int): (r: Result<FeePolicy>)
    ensures r.Failure? <==> latestBaseFee.None? || GweiToWei(configuredGwei).Failure?
    ensures latestBaseFee.None? ==> r == Failure(UnsupportedChain)
    ensures latestBaseFee.Some? && GweiToWei(configuredGwei).Failure? ==> r == Failure(ValueFormatError)
    ensures r.Success? ==>
      var f := r.value;
      4 * f.baseFee <= 5 * latestBaseFee.value < 4 * f.baseFee + 4 &&
      f.maxPriorityFeePerGas >= networkPriorityFee &&
      f.maxPriorityFeePerGas >= configuredGwei * WeiPerGwei &&
      (f.maxPriorityFeePerGas == networkPriorityFee || f.maxPriorityFeePerGas == configuredGwei * WeiPerGwei) &&
      f.maxFeePerGas == 2 * f.baseFee + f.maxPriorityFeePerGas
  {
    match latestBaseFee
    case None => Failure(UnsupportedChain)
    case Some(observed) =>
      var base := BufferedBaseFee(observed);
      match GweiToWei(configuredGwei)
      case Failure(e) => Failure(e)
      case Success(configured) =>
        var priority: nat := if configured < networkPriorityFee then networkPriorityFee else configured;
        Success(FeePolicy(base, 2 * base + priority, priority))
  }

  /** The max fee always covers the priority fee and twice the buffered base fee. */
  lemma MaxFeeCoversBoth(latestBaseFee: Option<nat>, networkPriorityFee: nat, configuredGwei: int)
    requires FeePolicyFor(latestBaseFee, networkPriorityFee, configuredGwei).Success?
    ensures var f := FeePolicyFor(latestBaseFee, networkPriorityFee, configuredGwei).value;
      f.maxFeePerGas >= f.maxPriorityFeePerGas && f.maxFeePerGas >= 2 * f.baseFee &&
      f.maxFeePerGas >= 2 * latestBaseFee.value
  {
  }

  /** The statements of lines 61-67: read the base fee, buffer it, start from
      the configured priority fee and raise it to the network estimate when
      that is higher, then form the max fee. */
  method ComputeFees(latestBaseFee: Option<nat>, networkPriorityFee: nat, configuredGwei: int)
    returns (r: Result<FeePolicy>)
    ensures r == FeePolicyFor(latestBaseFee, networkPriorityFee, configuredGwei)
  {
    if latestBaseFee.None? {
      return Failure(UnsupportedChain);
    }
    var baseFee := BufferedBaseFee(latestBaseFee.value);
    var configured := GweiToWei(configuredGwei);
    if configured.Failure? {
      return Failure(configured.error);
    }
    var priorityFee := configured.value;
    if priorityFee < networkPriorityFee {
      priorityFee := networkPriorityFee;
    }
    var maxFeePerGas := 2 * baseFee + priorityFee;
    r := Success(FeePolicy(baseFee, maxFeePerGas, priorityFee));
  }
}
