/** Data shapes shared by the mint bot model: the configuration records of
    src/lib/types.py, the transaction and bundle records the bot builds, the
    error conditions that abort a run, and the external libraries and RPC
    reads it depends on, passed in as values. */
module MintTypes {

  newtype byte = x: int | 0 <= x < 256
  type Bytes = seq<byte>

  datatype Option<T> = None | Some(value: T)

  /** An operation that either returns a value or raises one of the errors below. */
  datatype Result<T> = Success(value: T) | Failure(error: Error)

  /** The exceptions that end a run. */
  datatype Error =
    | EncodingError       // build_calldata rejected the signature or the arguments
    | InvalidAddress      // to_checksum_address rejected the recipient
    | MissingUnit         // the value string has no second token: `tx_value[1]` raises IndexError
    | ValueFormatError    // to_wei rejected the amount or the unit
    | UnsupportedChain    // the latest block has no `baseFeePerGas` entry (KeyError)
    | SigningError        // sign_transaction rejected a transaction
    | EmptyReceipts       // receipts() returned an empty list: `receipts[0]` raises IndexError

  /** A TOML value in a transaction's argument list. */
  datatype Arg = IntArg(i: int) | StringArg(s: string) | BoolArg(b: bool) | ListArg(items: seq<Arg>)

  /** One entry of `config["transactions"]` (TransactionConfig). */
  datatype TransactionConfig = TransactionConfig(
    to: string,
    functionSignature: string,
    value: string,            // "<amount> <unit>", e.g. "0.05 ether"
    args: seq<Arg>,
    gasEstimate: int)

  /** The whole configuration file (MintBotConfig). */
  datatype MintBotConfig = MintBotConfig(
    rpcUrl: string,
    relayUrl: string,
    blockTime: int,           // seconds
    botKeystore: string,
    authKeystore: string,
    targetTimestamp: int,     // Unix seconds
    priorityFee: int,         // gwei
    transactions: seq<TransactionConfig>)

  /** The transaction dictionary built for one configuration entry. */
  datatype PreparedTx = PreparedTx(
    to: string,
    data: Bytes,
    value: int,
    gas: int,
    maxFeePerGas: nat,
    maxPriorityFeePerGas: nat,
    nonce: nat,
    chainId: nat)

  /** One bundle entry: `{"signed_transaction": rawTransaction}`. */
  datatype BundleEntry = BundleEntry(signedTransaction: Bytes)
  type Bundle = seq<BundleEntry>

  /** The library calls the bot makes but whose code is not part of this model:
      ABI encoding, address checksumming, decimal unit conversion and signing
      with the bot's private key. Each may raise. */
  datatype Web3Utils = Web3Utils(
    buildCalldata: (string, seq<Arg>) -> Result<Bytes>,
    toChecksumAddress: string -> Result<string>,
    toWei: (string, string) -> Result<int>,
    signTransaction: PreparedTx -> Result<Bytes>)
}
