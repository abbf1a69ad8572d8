# Mint bot: a Dafny model of its scheduling and submission core

The mint bot (`mint_bot()` in `src/mint_bot.py`) sends an ordered set of
transactions as a Flashbots bundle at a chosen moment. It waits until two
block times before the target timestamp. It then sets EIP-1559 fees: a
buffered base fee, a priority fee that is the larger of the configured and
the network value, and `maxFeePerGas = 2 * base + priority`; see the
"Specification" section of EIP-1559 for `maxFeePerGas` and
`maxPriorityFeePerGas`. Next it builds one transaction per configuration
entry, with nonces counting up from the account's transaction count, and
signs them into a bundle. Finally it sends that bundle for the next three
blocks and polls the three submissions in order until one is included,
starting a new three-block cycle whenever all three are not found.

This project models that decision logic. Every network read, library call
and clock reading is passed in as a value or as a function-valued parameter.

Modules, one per file:

- `MintTypes` (`types.dfy`): the configuration records of `src/lib/types.py`, the
  transaction and bundle records, the errors that end a run, and
  `Web3Utils`, the library calls the bot makes (ABI encoding, address
  checksumming, `to_wei` on strings, signing) given as functions.
- `ValueString` (`value_string.dfy`): Python's `str.split(" ")`, with the
  round trips against `join`, and the reading of amount and unit.
- `Schedule` (`schedule.dfy`): the pre-execution wait.
- `Fees` (`fees.dfy`): the fee policy, as a function and as the statements
  of the source (a method).
- `Assembly` (`assembly.dfy`): the per-entry transaction, the assembly
  loop (a method proved against a recursive function), signing and the bundle.
- `Submission` (`submission.dfy`): the submit/poll state machine. The
  loops of the source are methods (`SubmitBundle`, `PollSubmissions`, and
  `SubmitUntilIncluded` whose body is `CycleOnce`, built on `RunCycle`),
  each proved equal to a specification function, and the lemmas about those
  functions prove its ordering and retry properties. The relay calls are
  recorded as a trace of `Sent` and `Polled` events.
- `MintBot` (`mint_bot.dfy`): the composition of the above from line 48 on.

Behaviour of the code that is easy to misread, and which the model keeps as written:

- The value string is split on every single space, and only tokens 0 and 1
  are read. A string with more tokens is accepted and the rest is
  ignored. A string with no space fails with `MissingUnit` (the IndexError
  of `tx_value[1]`). It is not required to have exactly two tokens.
- The buffered base fee is rounded down (`int(...)` truncates), not rounded
  to nearest.
- An inclusion whose receipt list is empty makes `receipts[0]` raise
  (src/mint_bot.py:116). The model's outcome is then `Aborted(EmptyReceipts)`,
  while the source has already printed its "Bundle Included!" line at
  src/mint_bot.py:114; status printing is not modelled.
- The comment above the loop (src/mint_bot.py:94) speaks of the next 2
  blocks; the code submits for three (`range(1, 4)`), and the model follows the code.
- Errors inside one transaction entry are raised in the order the source
  evaluates them: calldata, recipient checksum, the missing unit token, then
  `to_wei`.

## Model

| member | source | states |
|---|---|---|
| `ValueString.Split` | src/mint_bot.py:75 | always at least one piece, and no piece contains the separator |
| `ValueString.JoinSplit` | src/mint_bot.py:75 | joining the pieces of a split with the separator gives back the original string |
| `ValueString.SplitJoin` | src/mint_bot.py:75 | splitting a join of separator-free pieces gives back exactly those pieces |
| `ValueString.SplitHasSecondPiece` | src/mint_bot.py:75-79 | a split has a second token (so `tx_value[1]` exists) if and only if the string contains a space |
| `ValueString.ParseValue` | src/mint_bot.py:75-79 | succeeds if and only if the string contains a space; the only error is `MissingUnit`; amount and unit contain no space |
| `ValueString.ParseValueCharacterized` | src/mint_bot.py:75-79 | succeeds iff the string has a space; then amount, space and unit form a prefix of the string that ends at the end of the string or at another space, so later tokens are ignored |
| `ValueString.ParseValueExamples` | src/mint_bot.py:75-79 | "1.5 ether" gives ("1.5", "ether"); "1.5" fails with `MissingUnit`; "2 gwei extra" gives ("2", "gwei") |
| `Schedule.SecondsUntilExecution` | src/mint_bot.py:49-52 | now plus the delay plus two block times is exactly the target timestamp |
| `Schedule.WaitStepFor` | src/mint_bot.py:50-57 | the bot sleeps iff the delay is strictly positive, and then for exactly the delay; otherwise it proceeds at once |
| `Schedule.WakeTimeIsWindowStart` | src/mint_bot.py:49-57 | the bot resumes at the later of now and target minus two block times |
| `Schedule.SleepScenario` | src/mint_bot.py:49-57 | target T, block time 12, now T-30: a sleep of 6 seconds |
| `Fees.GweiToWei` | src/mint_bot.py:64 | `to_wei(n, "gwei")` succeeds iff n * 10^9 lies in 0 .. 2^256 - 1, and is then n * 10^9; otherwise it fails with `ValueFormatError` |
| `Fees.BufferedBaseFee` | src/mint_bot.py:62 | the result is floor(1.25 * base fee): 4b <= 5*base < 4b+4, and never below the observed base fee |
| `Fees.FeePolicyFor` | src/mint_bot.py:61-67 | fails iff the block has no base fee (`UnsupportedChain`, checked first) or the configured gwei is out of `to_wei`'s range (`ValueFormatError`); otherwise the base fee is floor(1.25 * observed), the priority fee is at least both the configured gwei times 10^9 and the network estimate and equals one of them, and the max fee is 2 * base + priority |
| `Fees.MaxFeeCoversBoth` | src/mint_bot.py:62-67 | for a successful policy, the max fee is at least the priority fee, at least twice the buffered base fee and at least twice the observed base fee |
| `Fees.ComputeFees` | src/mint_bot.py:61-67 | the statements (assign, then raise to the network estimate) compute exactly `FeePolicyFor` |
| `Assembly.PrepareTx` | src/mint_bot.py:74-85 | succeeds iff calldata, checksum, the unit token and `to_wei` all succeed; errors come in source order (calldata, then recipient, then `MissingUnit`, then `to_wei`), each with the library's own error; a prepared transaction has the given nonce and chain id, the entry's gas estimate and the shared fees, and its data, recipient and value are what the library calls returned |
| `Assembly.AssembledTransactions` | src/mint_bot.py:71-86 | on success the list has one transaction per entry, in order, entry i prepared with nonce start + i; it succeeds iff every entry does; on failure the error is that of the first failing entry |
| `Assembly.AssembledShape` | src/mint_bot.py:71-86 | nonces are start, start+1, … and strictly increasing; every transaction carries the same max fee, priority fee and chain id, and its entry's gas estimate |
| `Assembly.AssembledFailureSticks` | src/mint_bot.py:72-86 | once a prefix of the entries fails, the whole assembly fails with that error |
| `Assembly.AssembleTransactions` | src/mint_bot.py:72-86 | the enumerate loop with `txs += [tx]` returns exactly `AssembledTransactions` |
| `Assembly.SignTransactions` | src/mint_bot.py:90-92 | one signature per transaction, in order; succeeds iff every signing does; otherwise the first signing error |
| `Assembly.BundleOf` | src/mint_bot.py:93 | one bundle entry per signed payload, same order and bytes |
| `Assembly.BuildBundle` | src/mint_bot.py:90-93 | the bundle has one entry per transaction holding its signature; it fails iff some transaction cannot be signed |
| `Submission.Targets` | src/mint_bot.py:99-105 | three targets, the i-th being head + 1 + i |
| `Submission.SendEvents` | src/mint_bot.py:100-106 | one submission of the same bundle per target, in target order |
| `Submission.Resolve` | src/mint_bot.py:113-121 | receipts decide the cycle: the recorded block is `receipts[0].blockNumber` and the hashes are those of all receipts in order; an empty list crashes with `EmptyReceipts` |
| `Submission.PollEvents` | src/mint_bot.py:110-128 | at most one poll per target and at least one when there is a target; poll k asks for target k and records the relay's answer; every poll but the last was not found |
| `Submission.PollOutcome` | src/mint_bot.py:110-128 | polling misses iff every target is not found |
| `Submission.PollingInOrder` | src/mint_bot.py:110-128 | polls visit the targets in submission order; every poll before the last was not found; the cycle is missed iff every attempt was not found, and then all were polled; otherwise the last polled attempt has receipts and decides the result, and nothing after it is polled |
| `Submission.CycleEvents` | src/mint_bot.py:98-128 | a cycle makes more than three and at most six relay calls |
| `Submission.CycleOutcome` | src/mint_bot.py:98-128 | a cycle misses iff all three targets after the head it read are not found |
| `Submission.CycleSubmitsBeforePolling` | src/mint_bot.py:98-128 | each cycle sends the identical bundle for B+1, B+2, B+3 in ascending order before its first poll, then polls one to three times in ascending target order with no further submission |
| `Submission.CycleSends` | src/mint_bot.py:99-106 | the submissions of a cycle are its first three events, event i sending the bundle for head + 1 + i |
| `Submission.RunOutcomeFrom` | src/mint_bot.py:96-128 | given each cycle's result, the run is exhausted iff every one of its cycles missed |
| `Submission.RunOutcomeOf` | src/mint_bot.py:96-128 | the run from cycle c is exhausted iff every cycle c .. c + fuel - 1 missed |
| `Submission.RunTrace` | src/mint_bot.py:96-128 | a run of at least one cycle makes more than three relay calls, and at most six per cycle |
| `Submission.FirstNonMissDecides` | src/mint_bot.py:96-128 | a run that is not exhausted ends at a cycle n all of whose predecessors missed, with n's inclusion or error |
| `Submission.RetryOnlyAfterFullMiss` | src/mint_bot.py:96-128 | the run is exhausted iff every cycle missed; otherwise it ends at the first cycle that did not miss, with that cycle's inclusion or error |
| `Submission.EverySubmissionSendsTheBundle` | src/mint_bot.py:90-106 | every submission of the whole run, across retry cycles, sends the one bundle built before the loop |
| `Submission.TargetWindowGrows` | src/mint_bot.py:96-105 | a block among the three after cycle c's head, or a target of a later cycle, is a target of the run from c |
| `Submission.SubmissionsTargetNextBlocks` | src/mint_bot.py:96-106 | every submission of the whole run targets one of the three blocks after the head read in some cycle of the run |
| `Submission.IncludedOnSecondAttempt` | src/mint_bot.py:110-128 | attempt 1 not found and attempt 2 with two receipts in block B+2: included in B+2 with both hashes, and no poll targets B+3 |
| `Submission.RunStep` | src/mint_bot.py:96-123 | a missed cycle passes on to the next; an inclusion or a crash ends the run with that cycle's events |
| `Submission.SubmitBundle` | src/mint_bot.py:99-106 | the `range(1, 4)` loop submits for exactly `Targets(head)`, in order |
| `Submission.PollUnfold` | src/mint_bot.py:110-128 | a not-found first attempt leads on to polling the rest; a first attempt with receipts is the only poll and decides the result |
| `Submission.PollAdvance` | src/mint_bot.py:110-128 | a not-found attempt only moves polling on to the next attempt; an attempt with receipts is the last one polled and decides the result |
| `Submission.PollSubmissions` | src/mint_bot.py:110-128 | the polling loop with `break` returns exactly `PollOutcome` and records exactly `PollEvents` for the attempts |
| `Submission.RunCycle` | src/mint_bot.py:97-128 | one pass of the loop body returns exactly `CycleOutcome` and `CycleEvents` of its cycle |
| `Submission.RunAdvance` | src/mint_bot.py:96-128 | after a missed cycle the whole run is the rest of the run from the next cycle; after an inclusion or a crash it is that result, and the trace ends with that cycle |
| `Submission.CycleOnce` | src/mint_bot.py:96-128 | goes round again only after a missed cycle, with the run left to come unchanged; otherwise its outcome and trace are those of the whole run |
| `Submission.SubmitUntilIncluded` | src/mint_bot.py:96-128 | the `while submit_bundle` loop, bounded by a cycle count, returns exactly `RunOutcomeOf` and records exactly `RunTrace` |
| `MintBot.PreparedBundle` | src/mint_bot.py:59-93 | fails iff the fees fail, some entry cannot be assembled, or some transaction cannot be signed, with the first of these errors (a chain without a base fee gives `UnsupportedChain`); otherwise the bundle has one entry per configured transaction |
| `MintBot.PreparedBundleShape` | src/mint_bot.py:61-93 | bundle entry i is the signature of a transaction with nonce count + i, the entry's gas, the chain id and the shared fees, whose priority fee is at least both the network and the configured value |
| `MintBot.RunMintBot` | src/mint_bot.py:48-128 | the wait is `WaitStepFor`; any error in fees, assembly or signing aborts with an empty trace (no partial bundle is sent); otherwise the run is the submission loop on the finished bundle |

## Left out

- Loading `.env` and the TOML file, keystore reading, `Account.decrypt`, password prompts and all status printing (src/mint_bot.py:16-43). These are I/O and user interface.
- Construction of the Web3 and Flashbots clients (src/mint_bot.py:45-46). Every RPC and relay read is an input: `ChainView` holds `get_block`, `max_priority_fee`, `get_transaction_count` and `chain_id`, and `Relay` holds `block_number` and the poll results.
- `chain_id` is read once per transaction at line 84. The model reads it once and uses that value for all of them.
- `bundle_result.wait()` blocks until the target block is mined. It is merged into the poll result, and the block-by-block timing is not modelled.
- `build_calldata`, `to_checksum_address`, `to_wei` on strings and `sign_transaction` are given as functions in `Web3Utils`. Their code is not part of this model, so the ABI encoding, the Keccak checksum, decimal parsing (for example "1.5 ether" as 1.5 * 10^18) and ECDSA signing are not modelled.
- Fees.BufferedBaseFee: modelled as the integer `(b * 5) / 4`. Python computes `int(b * 1.25)` in floating point. The two agree for base fees below 2^53/5, where `b * 1.25` is exact in a double; above that they may differ.
- `time()` and `sleep()` are not called. "now" is an input (already truncated by `int(time())`), and the sleep is returned as a `WaitStep`, not performed.
- Submission.SubmitUntilIncluded: the source loops forever while no cycle gets included. The model stops after `maxCycles` cycles with `Exhausted`, and its lemmas hold for every bound.
- Exceptions other than the ones in `MintTypes.Error` are not modelled. For example, transport failures of RPC or relay calls are left out.
- `main.py` is a one-choice menu that calls `mint_bot()`, and it is not modelled.
