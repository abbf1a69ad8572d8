/** The decision logic of `mint_bot()` (src/mint_bot.py:48-128) put together:
    wait, derive the fees, assemble and sign the transactions, then run the
    submit/poll loop with the finished bundle. */
module MintBot {
  import opened MintTypes
  import opened Schedule
  import opened Fees
  import opened Assembly
  import opened Submission

  /** What the bot reads over RPC once its wait is over: the latest block's
      base fee (absent on a chain without one), `max_priority_fee`,
      `get_transaction_count(bot)` and `chain_id`. */
  datatype ChainView = ChainView(latestBaseFee: Option<nat>, maxPriorityFee: nat, transactionCount: nat, chainId: nat)

  /** Lines 59-93: fees, then the transaction list, then the signed bundle;
      the first step that raises ends the run before anything is sent. */
  function PreparedBundle(config: MintBotConfig, chain: ChainView, lib: Web3Utils): (r: Result<Bundle>)
    ensures r.Success? ==> |r.value| == |config.transactions|
    ensures chain.latestBaseFee.None? ==> r == Failure(UnsupportedChain)
    ensures var fees := FeePolicyFor(chain.latestBaseFee, chain.maxPriorityFee, config.priorityFee);
      fees.Failure? ==> r == Failure(fees.error)
    ensures var fees := FeePolicyFor(chain.latestBaseFee, chain.maxPriorityFee, config.priorityFee);
      fees.Success? ==>
        var txs := AssembledTransactions(config.transactions, fees.value, chain.transactionCount, chain.chainId, lib);
        (txs.Failure? ==> r == Failure(txs.error)) &&
        (txs.Success? ==> r == BuildBundle(txs.value, lib))
    ensures var fees := FeePolicyFor(chain.latestBaseFee, chain.maxPriorityFee, config.priorityFee);
      r.Failure? <==>
        (fees.Failure? ||
         var txs := AssembledTransactions(config.transactions, fees.value, chain.transactionCount, chain.chainId, lib);
         txs.Failure? || exists k :: 0 <= k < |txs.value| && lib.signTransaction(txs.value[k]).Failure?)
  {
    match FeePolicyFor(chain.latestBaseFee, chain.maxPriorityFee, config.priorityFee)
    case Failure(e) => Failure(e)
    case Success(fees) =>
      match AssembledTransactions(config.transactions, fees, chain.transactionCount, chain.chainId, lib)
      case Failure(e) => Failure(e)
      case Success(txs) => BuildBundle(txs, lib)
  }

  /** A finished bundle holds, in configuration order, the signature of one
      transaction per entry, with nonces counting up from the account's
      transaction count and the fee policy's fields shared by all. */
  lemma PreparedBundleShape(config: MintBotConfig, chain: ChainView, lib: Web3Utils)
    requires PreparedBundle(config, chain, lib).Success?
    ensures chain.latestBaseFee.Some?
    ensures var fees := FeePolicyFor(chain.latestBaseFee, chain.maxPriorityFee, config.priorityFee).value;
      var txs := AssembledTransactions(config.transactions, fees, chain.transactionCount, chain.chainId, lib).value;
      var bundle := PreparedBundle(config, chain, lib).value;
      |txs| == |bundle| == |config.transactions| &&
      forall i :: 0 <= i < |bundle| ==>
        lib.signTransaction(txs[i]) == Success(bundle[i].signedTransaction) &&
        txs[i].nonce == chain.transactionCount + i &&
        txs[i].gas == config.transactions[i].gasEstimate &&
        txs[i].chainId == chain.chainId &&
        txs[i].maxFeePerGas == fees.maxFeePerGas &&
        txs[i].maxPriorityFeePerGas == fees.maxPriorityFeePerGas &&
        txs[i].maxPriorityFeePerGas >= chain.maxPriorityFee &&
        txs[i].maxPriorityFeePerGas >= config.priorityFee * WeiPerGwei
  {
    var fees := FeePolicyFor(chain.latestBaseFee, chain.maxPriorityFee, config.priorityFee).value;
    AssembledShape(config.transactions, fees, chain.transactionCount, chain.chainId, lib);
  }

  /** The run from line 48 on. The sleep itself is not performed: the wait
      step is returned. Any error before submission aborts with nothing sent. */
  method RunMintBot(config: MintBotConfig, now: int, chain: ChainView, lib: Web3Utils, relay: Relay, maxCycles: nat)
    returns (wait: WaitStep, outcome: RunOutcome, trace: seq<Event>)
    ensures wait == WaitStepFor(config.targetTimestamp, now, config.blockTime)
    ensures PreparedBundle(config, chain, lib).Failure? ==>
      outcome == Aborted(PreparedBundle(config, chain, lib).error) && trace == []
    ensures PreparedBundle(config, chain, lib).Success? ==>
      outcome == RunOutcomeOf(relay, 0, maxCycles) &&
      trace == RunTrace(PreparedBundle(config, chain, lib).value, relay, 0, maxCycles)
  {
    wait := WaitStepFor(config.targetTimestamp, now, config.blockTime);
    var fees := ComputeFees(chain.latestBaseFee, chain.maxPriorityFee, config.priorityFee);
    if fees.Failure? {
      return wait, Aborted(fees.error), [];
    }
    var txs := AssembleTransactions(config.transactions, fees.value, chain.transactionCount, chain.chainId, lib);
    if txs.Failure? {
      return wait, Aborted(txs.error), [];
    }
    var bundle := BuildBundle(txs.value, lib);
    if bundle.Failure? {
      return wait, Aborted(bundle.error), [];
    }
    outcome, trace := SubmitUntilIncluded(bundle.value, relay, maxCycles);
  }
}
