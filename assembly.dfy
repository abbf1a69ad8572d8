/** Building the transaction list and the bundle (src/mint_bot.py:71-93). */
module Assembly {
  import opened MintTypes
  import opened ValueString
  import opened Fees

  /** The transaction dictionary for one configuration entry, in the order the
      source evaluates its parts: calldata (line 74), recipient checksum
      (line 77), the unit token `tx_value[1]` and the wei conversion (line 79).
      The first of these to raise decides the error. */
  function PrepareTx(cfg: TransactionConfig, fees: FeePolicy, nonce: nat, chainId: nat, lib: Web3Utils): (r: Result<PreparedTx>)
    ensures r.Success? ==>
      r.value.nonce == nonce && r.value.gas == cfg.gasEstimate && r.value.chainId == chainId &&
      r.value.maxFeePerGas == fees.maxFeePerGas && r.value.maxPriorityFeePerGas == fees.maxPriorityFeePerGas
    ensures r.Success? ==>
      lib.buildCalldata(cfg.functionSignature, cfg.args) == Success(r.value.data) &&
      lib.toChecksumAddress(cfg.to) == Success(r.value.to) &&
      ParseValue(cfg.value).Success? &&
      lib.toWei(ParseValue(cfg.value).value.amount, ParseValue(cfg.value).value.unit) == Success(r.value.value)
    ensures r.Success? <==>
      lib.buildCalldata(cfg.functionSignature, cfg.args).Success? &&
      lib.toChecksumAddress(cfg.to).Success? &&
      Space in cfg.value &&
      lib.toWei(ParseValue(cfg.value).value.amount, ParseValue(cfg.value).value.unit).Success?
    ensures lib.buildCalldata(cfg.functionSignature, cfg.args).Failure? ==>
      r == Failure(lib.buildCalldata(cfg.functionSignature, cfg.args).error)
    ensures (lib.buildCalldata(cfg.functionSignature, cfg.args).Success? &&
             lib.toChecksumAddress(cfg.to).Failure?) ==>
      r == Failure(lib.toChecksumAddress(cfg.to).error)
    ensures (lib.buildCalldata(cfg.functionSignature, cfg.args).Success? &&
             lib.toChecksumAddress(cfg.to).Success? && Space !in cfg.value) ==>
      r == Failure(MissingUnit)
    ensures (lib.buildCalldata(cfg.functionSignature, cfg.args).Success? &&
             lib.toChecksumAddress(cfg.to).Success? && Space in cfg.value &&
             lib.toWei(ParseValue(cfg.value).value.amount, ParseValue(cfg.value).value.unit).Failure?) ==>
      r == Failure(lib.toWei(ParseValue(cfg.value).value.amount, ParseValue(cfg.value).value.unit).error)
  {
    match lib.buildCalldata(cfg.functionSignature, cfg.args)
    case Failure(e) => Failure(e)
    case Success(data) =>
      match lib.toChecksumAddress(cfg.to)
      case Failure(e) => Failure(e)
      case Success(to) =>
        match ParseValue(cfg.value)
        case Failure(e) => Failure(e)
        case Success(parts) =>
          match lib.toWei(parts.amount, parts.unit)
          case Failure(e) => Failure(e)
          case Success(value) =>
            Success(PreparedTx(to, data, value, cfg.gasEstimate, fees.maxFeePerGas, fees.maxPriorityFeePerGas, nonce, chainId))
  }

  /** The list `txs` after the loop over `enumerate(config["transactions"])`:
      entry i prepared with nonce `startNonce + i`, or the error of the first
      entry that raises. Defined from the back, as the loop appends. */
  function AssembledTransactions(configs: seq<TransactionConfig>, fees: FeePolicy, startNonce: nat, chainId: nat, lib: Web3Utils): (r: Result<seq<PreparedTx>>)
    ensures r.Success? ==> |r.value| == |configs|
    ensures r.Success? ==> forall i :: 0 <= i < |configs| ==>
      PrepareTx(configs[i], fees, startNonce + i, chainId, lib) == Success(r.value[i])
    ensures r.Success? <==> forall i :: 0 <= i < |configs| ==>
      PrepareTx(configs[i], fees, startNonce + i, chainId, lib).Success?
    ensures r.Failure? ==> exists k :: (0 <= k < |configs| &&
      PrepareTx(configs[k], fees, startNonce + k, chainId, lib) == Failure(r.error) &&
      forall j :: 0 <= j < k ==> PrepareTx(configs[j], fees, startNonce + j, chainId, lib).Success?)
    decreases |configs|
  {
    if |configs| == 0 then Success([])
    else
      var n := |configs| - 1;
      match AssembledTransactions(configs[..n], fees, startNonce, chainId, lib)
      case Failure(e) => Failure(e)
      case Success(txs) =>
        match PrepareTx(configs[n], fees, startNonce + n, chainId, lib)
        case Failure(e) => Failure(e)
        case Success(tx) => Success(txs + [tx])
  }

  /** What every assembled list satisfies: the order of the configuration, the
      nonces `startNonce, startNonce + 1, ...` without gaps, and the shared fee
      and chain fields. */
  lemma AssembledShape(configs: seq<TransactionConfig>, fees: FeePolicy, startNonce: nat, chainId: nat, lib: Web3Utils)
    requires AssembledTransactions(configs, fees, startNonce, chainId, lib).Success?
    ensures var txs := AssembledTransactions(configs, fees, startNonce, chainId, lib).value;
      |txs| == |configs| &&
      (forall i :: 0 <= i < |txs| ==>
        txs[i].nonce == startNonce + i && txs[i].gas == configs[i].gasEstimate &&
        txs[i].maxFeePerGas == fees.maxFeePerGas &&
        txs[i].maxPriorityFeePerGas == fees.maxPriorityFeePerGas &&
        txs[i].chainId == chainId) &&
      (forall i, j :: 0 <= i < j < |txs| ==> txs[i].nonce < txs[j].nonce)
  {
    var txs := AssembledTransactions(configs, fees, startNonce, chainId, lib).value;
    forall i | 0 <= i < |txs|
      ensures txs[i].nonce == startNonce + i
    {
      assert PrepareTx(configs[i], fees, startNonce + i, chainId, lib) == Success(txs[i]);
    }
  }

  /** The loop of lines 72-86: `txs += [tx]` once per configuration entry. */
  method AssembleTransactions(configs: seq<TransactionConfig>, fees: FeePolicy, startNonce: nat, chainId: nat, lib: Web3Utils)
    returns (r: Result<seq<PreparedTx>>)
    ensures r == AssembledTransactions(configs, fees, startNonce, chainId, lib)
  {
    var txs: seq<PreparedTx> := [];
    for i := 0 to |configs|
      invariant AssembledTransactions(configs[..i], fees, startNonce, chainId, lib) == Success(txs)
    {
      assert configs[..i + 1][..i] == configs[..i];
      var tx := PrepareTx(configs[i], fees, startNonce + i, chainId, lib);
      if tx.Failure? {
        assert AssembledTransactions(configs[..i + 1], fees, startNonce, chainId, lib) == Failure(tx.error);
        AssembledFailureSticks(configs, i + 1, fees, startNonce, chainId, lib);
        return Failure(tx.error);
      }
      txs := txs + [tx.value];
    }
    assert configs[..|configs|] == configs;
    r := Success(txs);
  }

  /** Once a prefix of the configuration fails, the whole list fails with the
      same error: later entries are never prepared. */
  lemma {:induction false} AssembledFailureSticks(configs: seq<TransactionConfig>, k: nat, fees: FeePolicy, startNonce: nat, chainId: nat, lib: Web3Utils)
    requires k <= |configs|
    requires AssembledTransactions(configs[..k], fees, startNonce, chainId, lib).Failure?
    ensures AssembledTransactions(configs, fees, startNonce, chainId, lib) ==
      AssembledTransactions(configs[..k], fees, startNonce, chainId, lib)
    decreases |configs| - k
  {
    if k < |configs| {
      assert configs[..k + 1][..k] == configs[..k];
      AssembledFailureSticks(configs, k + 1, fees, startNonce, chainId, lib);
    } else {
      assert configs[..k] == configs;
    }
  }

  /** `[sign_transaction(tx) for tx in txs]`: signs in order; the first
      transaction that cannot be signed aborts the whole list. */
  function SignTransactions(txs: seq<PreparedTx>, lib: Web3Utils): (r: Result<seq<Bytes>>)
    ensures r.Success? ==> (|r.value| == |txs| &&
      forall i :: 0 <= i < |txs| ==> lib.signTransaction(txs[i]) == Success(r.value[i]))
    ensures r.Success? <==> forall i :: 0 <= i < |txs| ==> lib.signTransaction(txs[i]).Success?
    ensures r.Failure? ==> exists k :: (0 <= k < |txs| &&
      lib.signTransaction(txs[k]) == Failure(r.error) &&
      forall j :: 0 <= j < k ==> lib.signTransaction(txs[j]).Success?)
    decreases |txs|
  {
    if |txs| == 0 then Success([])
    else
      match lib.signTransaction(txs[0])
      case Failure(e) => Failure(e)
      case Success(raw) =>
        match SignTransactions(txs[1..], lib)
        case Failure(e) => Failure(e)
        case Success(rest) => Success([raw] + rest)
  }

  /** `[{"signed_transaction": tx.rawTransaction} for tx in signed_txs]`. */
  function BundleOf(signed: seq<Bytes>): (bundle: Bundle)
    ensures |bundle| == |signed|
    ensures forall i :: 0 <= i < |signed| ==> bundle[i].signedTransaction == signed[i]
  {
    seq(|signed|, i requires 0 <= i < |signed| => BundleEntry(signed[i]))
  }

  /** The bundle of lines 90-93: one signed entry per transaction, in order. */
  function BuildBundle(txs: seq<PreparedTx>, lib: Web3Utils): (r: Result<Bundle>)
    ensures r.Success? ==> (|r.value| == |txs| &&
      forall i :: 0 <= i < |txs| ==> lib.signTransaction(txs[i]) == Success(r.value[i].signedTransaction))
    ensures r.Failure? <==> exists k :: 0 <= k < |txs| && lib.signTransaction(txs[k]).Failure?
  {
    match SignTransactions(txs, lib)
    case Failure(e) => Failure(e)
    case Success(signed) => Success(BundleOf(signed))
  }
}
