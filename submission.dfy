/** The submit/poll cycle of src/mint_bot.py:96-128: read the chain head B,
    send the one bundle for blocks B+1, B+2, B+3, then poll the three
    submissions in that order until one yields receipts; when none does,
    start a fresh cycle against the new head. */
module Submission {
  import opened MintTypes

  /** Submissions per cycle: `for i in range(1, 4)`. */
  const TargetCount: nat := 3

  /** A transaction receipt as the relay reports it. */
  datatype Receipt = Receipt(blockNumber: nat, transactionHash: Bytes)

  /** What `bundle_result.receipts()` gives once the target block is mined:
      a list of receipts, or TransactionNotFound. */
  datatype PollResult = Receipts(receipts: seq<Receipt>) | NotFound

  /** The chain and the relay as the bot observes them: the head block number
      read at the start of cycle c (`w3.eth.block_number`), and what polling
      the submission of cycle c that targets a given block returns. */
  datatype Relay = Relay(blockNumber: nat -> nat, status: (nat, nat) -> PollResult)

  /** The observable calls to the relay, in the order they are made. */
  datatype Event = Sent(bundle: Bundle, targetBlock: nat) | Polled(targetBlock: nat, result: PollResult)

  /** What the bot reports on inclusion: `receipts[0].blockNumber` and the
      transaction hashes of all receipts. */
  datatype Inclusion = Inclusion(blockNumber: nat, transactionHashes: seq<Bytes>)

  /** How one cycle of polling ends. */
  datatype CycleResult = Landed(inclusion: Inclusion) | Missed | Crashed(error: Error)

  /** How the whole submission loop ends: included, out of cycles (the source
      itself has no such bound), or stopped by an exception. */
  datatype RunOutcome = Included(inclusion: Inclusion) | Exhausted | Aborted(error: Error)

  /** The target blocks of a cycle whose head is `head`. */
  function Targets(head: nat): (t: seq<nat>)
    ensures |t| == TargetCount
    ensures forall i :: 0 <= i < |t| ==> t[i] == head + 1 + i
  {
    [head + 1, head + 2, head + 3]
  }

  /** One `send_bundle` call per target, in the order of the targets. */
  function SendEvents(bundle: Bundle, targets: seq<nat>): (events: seq<Event>)
    ensures |events| == |targets|
    ensures forall i :: 0 <= i < |targets| ==> events[i] == Sent(bundle, targets[i])
  {
    seq(|targets|, i requires 0 <= i < |targets| => Sent(bundle, targets[i]))
  }

  /** The end of a cycle whose poll returned `receipts`: the reported block is
      that of the first receipt; an empty list makes `receipts[0]` raise. */
  function Resolve(receipts: seq<Receipt>): (r: CycleResult)
    ensures r.Missed? == false
    ensures r.Crashed? <==> |receipts| == 0
    ensures r.Crashed? ==> r.error == EmptyReceipts
    ensures r.Landed? ==>
      r.inclusion.blockNumber == receipts[0].blockNumber &&
      |r.inclusion.transactionHashes| == |receipts| &&
      forall i :: 0 <= i < |receipts| ==> r.inclusion.transactionHashes[i] == receipts[i].transactionHash
  {
    if |receipts| == 0 then Crashed(EmptyReceipts)
    else Landed(Inclusion(receipts[0].blockNumber,
                          seq(|receipts|, i requires 0 <= i < |receipts| => receipts[i].transactionHash)))
  }

  /** The polls of cycle c over `targets`, stopping after the first one that
      yields receipts. */
  function PollEvents(relay: Relay, c: nat, targets: seq<nat>): (p: seq<Event>)
    ensures |p| <= |targets|
    ensures |targets| > 0 ==> |p| >= 1
    ensures forall k :: 0 <= k < |p| ==> p[k] == Polled(targets[k], relay.status(c, targets[k]))
    ensures forall k :: 0 <= k < |p| - 1 ==> relay.status(c, targets[k]).NotFound?
    decreases |targets|
  {
    if |targets| == 0 then []
    else
      var res := relay.status(c, targets[0]);
      [Polled(targets[0], res)] + (if res.NotFound? then PollEvents(relay, c, targets[1..]) else [])
  }

  /** How polling cycle c over `targets` ends. */
  function PollOutcome(relay: Relay, c: nat, targets: seq<nat>): (r: CycleResult)
    ensures r.Missed? <==> forall k :: 0 <= k < |targets| ==> relay.status(c, targets[k]).NotFound?
    decreases |targets|
  {
    if |targets| == 0 then Missed
    else
      match relay.status(c, targets[0])
      case NotFound => PollOutcome(relay, c, targets[1..])
      case Receipts(rs) => Resolve(rs)
  }

  /** Polling visits the targets in order, passes over not-found attempts only,
      and stops at the first attempt with receipts, whose receipts decide the
      result; the cycle is missed exactly when every attempt is not found. */
  lemma {:induction false} PollingInOrder(relay: Relay, c: nat, targets: seq<nat>)
    ensures var p := PollEvents(relay, c, targets);
      |p| <= |targets| &&
      (forall k :: 0 <= k < |p| ==> p[k] == Polled(targets[k], relay.status(c, targets[k]))) &&
      (forall k :: 0 <= k < |p| - 1 ==> relay.status(c, targets[k]).NotFound?)
    ensures PollOutcome(relay, c, targets).Missed? <==>
      forall k :: 0 <= k < |targets| ==> relay.status(c, targets[k]).NotFound?
    ensures PollOutcome(relay, c, targets).Missed? ==> |PollEvents(relay, c, targets)| == |targets|
    ensures !PollOutcome(relay, c, targets).Missed? ==>
      var n := |PollEvents(relay, c, targets)|;
      1 <= n && relay.status(c, targets[n - 1]).Receipts? &&
      PollOutcome(relay, c, targets) == Resolve(relay.status(c, targets[n - 1]).receipts)
    decreases |targets|
  {
    if |targets| > 0 {
      var res := relay.status(c, targets[0]);
      var tail := targets[1..];
      PollingInOrder(relay, c, tail);
      var pt := PollEvents(relay, c, tail);
      if res.NotFound? {
        var p := [Polled(targets[0], res)] + pt;
        assert PollEvents(relay, c, targets) == p;
        forall k | 0 <= k < |p|
          ensures p[k] == Polled(targets[k], relay.status(c, targets[k]))
        {
          if k > 0 { assert p[k] == pt[k - 1] && tail[k - 1] == targets[k]; }
        }
        forall k | 0 <= k < |p| - 1
          ensures relay.status(c, targets[k]).NotFound?
        {
          if k > 0 { assert tail[k - 1] == targets[k]; }
        }
        if PollOutcome(relay, c, targets).Missed? {
          forall k | 0 <= k < |targets|
            ensures relay.status(c, targets[k]).NotFound?
          {
            if k > 0 { assert tail[k - 1] == targets[k]; }
          }
        } else {
          assert tail[|pt| - 1] == targets[|p| - 1];
        }
        if forall k :: 0 <= k < |targets| ==> relay.status(c, targets[k]).NotFound? {
          forall k | 0 <= k < |tail|
            ensures relay.status(c, tail[k]).NotFound?
          {
            assert tail[k] == targets[k + 1];
          }
        }
      }
    }
  }

  /** What one cycle sends and polls: all three submissions, then the polls. */
  function CycleEvents(bundle: Bundle, relay: Relay, c: nat): (ev: seq<Event>)
    ensures TargetCount < |ev| <= 2 * TargetCount
  {
    var targets := Targets(relay.blockNumber(c));
    SendEvents(bundle, targets) + PollEvents(relay, c, targets)
  }

  /** How cycle c ends. */
  function CycleOutcome(relay: Relay, c: nat): (r: CycleResult)
    ensures r.Missed? <==>
      forall k :: 0 <= k < TargetCount ==> relay.status(c, Targets(relay.blockNumber(c))[k]).NotFound?
  {
    PollOutcome(relay, c, Targets(relay.blockNumber(c)))
  }

  /** Each cycle first sends the same bundle for B+1, B+2, B+3 in ascending
      order, then polls at least once and at most three times, and makes no
      further submission once polling has begun. */
  lemma CycleSubmitsBeforePolling(bundle: Bundle, relay: Relay, c: nat)
    ensures var ev := CycleEvents(bundle, relay, c);
      var b := relay.blockNumber(c);
      4 <= |ev| <= 6 &&
      ev[..3] == [Sent(bundle, b + 1), Sent(bundle, b + 2), Sent(bundle, b + 3)] &&
      (forall i :: 3 <= i < |ev| ==> ev[i].Polled?) &&
      (forall i :: 3 <= i < |ev| ==> ev[i].targetBlock == b + i - 2)
  {
    var b := relay.blockNumber(c);
    var targets := Targets(b);
    var sent := SendEvents(bundle, targets);
    var p := PollEvents(relay, c, targets);
    PollingInOrder(relay, c, targets);
    var ev := sent + p;
    assert ev[..3] == sent;
    forall i | 3 <= i < |ev|
      ensures ev[i].Polled? && ev[i].targetBlock == b + i - 2
    {
      assert ev[i] == p[i - 3];
    }
  }

  /** The submissions of one cycle: its first three events, for the three
      blocks after the head. */
  lemma CycleSends(bundle: Bundle, relay: Relay, c: nat)
    ensures forall i :: 0 <= i < |CycleEvents(bundle, relay, c)| && CycleEvents(bundle, relay, c)[i].Sent? ==>
      i < TargetCount && CycleEvents(bundle, relay, c)[i] == Sent(bundle, relay.blockNumber(c) + 1 + i)
  {
    var ev := CycleEvents(bundle, relay, c);
    CycleSubmitsBeforePolling(bundle, relay, c);
    forall i | 0 <= i < |ev| && ev[i].Sent?
      ensures i < TargetCount && ev[i] == Sent(bundle, relay.blockNumber(c) + 1 + i)
    {
      if i < 3 { assert ev[i] == ev[..3][i]; }
    }
  }

  /** How the retry loop ends when cycle k ends with `results(k)`: the first
      cycle that does not miss decides the run, and after `fuel` missed cycles
      it is exhausted. */
  function RunOutcomeFrom(results: nat -> CycleResult, c: nat, fuel: nat): (r: RunOutcome)
    ensures r.Exhausted? <==> forall k :: c <= k < c + fuel ==> results(k).Missed?
    decreases fuel
  {
    if fuel == 0 then Exhausted
    else
      match results(c)
      case Landed(inc) => Included(inc)
      case Crashed(e) => Aborted(e)
      case Missed => RunOutcomeFrom(results, c + 1, fuel - 1)
  }

  /** The result of every cycle, as a function of the cycle number. */
  function CycleResults(relay: Relay): (results: nat -> CycleResult)
    ensures forall k: nat :: results(k) == CycleOutcome(relay, k)
  {
    (k: nat) => CycleOutcome(relay, k)
  }

  /** The outcome of running at most `fuel` cycles starting at cycle c. */
  function RunOutcomeOf(relay: Relay, c: nat, fuel: nat): (r: RunOutcome)
    ensures r.Exhausted? <==> forall k :: c <= k < c + fuel ==> CycleOutcome(relay, k).Missed?
  {
    RunOutcomeFrom(CycleResults(relay), c, fuel)
  }

  /** The relay calls of running at most `fuel` cycles starting at cycle c. */
  function RunTrace(bundle: Bundle, relay: Relay, c: nat, fuel: nat): (t: seq<Event>)
    ensures fuel > 0 ==> TargetCount < |t|
    ensures |t| <= 2 * TargetCount * fuel
    decreases fuel
  {
    if fuel == 0 then []
    else if CycleOutcome(relay, c).Missed? then CycleEvents(bundle, relay, c) + RunTrace(bundle, relay, c + 1, fuel - 1)
    else CycleEvents(bundle, relay, c)
  }

  /** The run ends at the first cycle that does not miss, with that cycle's
      inclusion or error; before it, every cycle missed. */
  lemma {:induction false} FirstNonMissDecides(results: nat -> CycleResult, c: nat, fuel: nat)
    ensures !RunOutcomeFrom(results, c, fuel).Exhausted? ==>
      exists n :: c <= n < c + fuel &&
        (forall k :: c <= k < n ==> results(k).Missed?) &&
        (match results(n)
         case Landed(inc) => RunOutcomeFrom(results, c, fuel) == Included(inc)
         case Crashed(e) => RunOutcomeFrom(results, c, fuel) == Aborted(e)
         case Missed => false)
    decreases fuel
  {
    if fuel > 0 && results(c).Missed? && !RunOutcomeFrom(results, c, fuel).Exhausted? {
      FirstNonMissDecides(results, c + 1, fuel - 1);
      var n :| c + 1 <= n < c + fuel &&
        (forall k :: c + 1 <= k < n ==> results(k).Missed?) &&
        (match results(n)
         case Landed(inc) => RunOutcomeFrom(results, c + 1, fuel - 1) == Included(inc)
         case Crashed(e) => RunOutcomeFrom(results, c + 1, fuel - 1) == Aborted(e)
         case Missed => false);
      assert forall k :: c <= k < n ==> results(k).Missed?;
    }
  }

  /** A fresh cycle starts only after every attempt of the previous one was
      not found: the run is exhausted exactly when every cycle missed, and
      otherwise it ends with the first cycle that did not miss. */
  lemma RetryOnlyAfterFullMiss(relay: Relay, c: nat, fuel: nat)
    ensures RunOutcomeOf(relay, c, fuel).Exhausted? <==>
      forall k :: c <= k < c + fuel ==> CycleOutcome(relay, k).Missed?
    ensures !RunOutcomeOf(relay, c, fuel).Exhausted? ==>
      exists n :: c <= n < c + fuel &&
        (forall k :: c <= k < n ==> CycleOutcome(relay, k).Missed?) &&
        (match CycleOutcome(relay, n)
         case Landed(inc) => RunOutcomeOf(relay, c, fuel) == Included(inc)
         case Crashed(e) => RunOutcomeOf(relay, c, fuel) == Aborted(e)
         case Missed => false)
  {
    FirstNonMissDecides(CycleResults(relay), c, fuel);
  }

  /** Every submission of the whole run sends the one bundle built before the
      loop. */
  lemma {:induction false} EverySubmissionSendsTheBundle(bundle: Bundle, relay: Relay, c: nat, fuel: nat)
    ensures forall i :: 0 <= i < |RunTrace(bundle, relay, c, fuel)| && RunTrace(bundle, relay, c, fuel)[i].Sent? ==>
      RunTrace(bundle, relay, c, fuel)[i].bundle == bundle
    decreases fuel
  {
    if fuel > 0 {
      var ev: seq<Event> := CycleEvents(bundle, relay, c);
      CycleSends(bundle, relay, c);
      if CycleOutcome(relay, c).Missed? {
        EverySubmissionSendsTheBundle(bundle, relay, c + 1, fuel - 1);
        var rest: seq<Event> := RunTrace(bundle, relay, c + 1, fuel - 1);
        assert RunTrace(bundle, relay, c, fuel) == ev + rest;
        forall i | 0 <= i < |ev + rest| && (ev + rest)[i].Sent?
          ensures (ev + rest)[i].bundle == bundle
        {
          if i >= |ev| { assert (ev + rest)[i] == rest[i - |ev|]; } else { assert (ev + rest)[i] == ev[i]; }
        }
      }
    }
  }

  /** Block `target` is one of the three after the head read in some cycle
      c, ..., c + fuel - 1. */
  predicate TargetOfSomeCycle(relay: Relay, c: nat, fuel: nat, target: nat)
  {
    exists k :: c <= k < c + fuel && relay.blockNumber(k) < target <= relay.blockNumber(k) + TargetCount
  }

  /** A target of cycle c, or of a later cycle within the run, is a target of
      the run from c. */
  lemma TargetWindowGrows(relay: Relay, c: nat, fuel: nat, target: nat)
    requires fuel > 0
    requires relay.blockNumber(c) < target <= relay.blockNumber(c) + TargetCount ||
             TargetOfSomeCycle(relay, c + 1, fuel - 1, target)
    ensures TargetOfSomeCycle(relay, c, fuel, target)
  {
    if !(relay.blockNumber(c) < target <= relay.blockNumber(c) + TargetCount) {
      var k :| c + 1 <= k < c + 1 + (fuel - 1) &&
        relay.blockNumber(k) < target <= relay.blockNumber(k) + TargetCount;
      assert c <= k < c + fuel;
    } else {
      assert c <= c < c + fuel;
    }
  }

  /** Every submission of the run targets one of the three blocks after the
      head read in its cycle. */
  lemma {:induction false} SubmissionsTargetNextBlocks(bundle: Bundle, relay: Relay, c: nat, fuel: nat)
    ensures forall i :: 0 <= i < |RunTrace(bundle, relay, c, fuel)| && RunTrace(bundle, relay, c, fuel)[i].Sent? ==>
      TargetOfSomeCycle(relay, c, fuel, RunTrace(bundle, relay, c, fuel)[i].targetBlock)
    decreases fuel
  {
    if fuel > 0 {
      var ev: seq<Event> := CycleEvents(bundle, relay, c);
      CycleSends(bundle, relay, c);
      RunStep(bundle, relay, c, fuel);
      if CycleOutcome(relay, c).Missed? {
        var rest: seq<Event> := RunTrace(bundle, relay, c + 1, fuel - 1);
        SubmissionsTargetNextBlocks(bundle, relay, c + 1, fuel - 1);
        forall i | 0 <= i < |ev + rest| && (ev + rest)[i].Sent?
          ensures TargetOfSomeCycle(relay, c, fuel, (ev + rest)[i].targetBlock)
        {
          AppendIndex(ev, rest, i);
          TargetWindowGrows(relay, c, fuel, (ev + rest)[i].targetBlock);
        }
      } else {
        forall i | 0 <= i < |ev| && ev[i].Sent?
          ensures TargetOfSomeCycle(relay, c, fuel, ev[i].targetBlock)
        {
          TargetWindowGrows(relay, c, fuel, ev[i].targetBlock);
        }
      }
    }
  }

  /** Attempt 1 not found, attempt 2 returns two receipts in block B+2: the
      bundle is included in B+2 with both hashes, and attempt 3 is never polled. */
  lemma IncludedOnSecondAttempt(bundle: Bundle, relay: Relay, c: nat, r1: Receipt, r2: Receipt)
    requires relay.status(c, relay.blockNumber(c) + 1) == NotFound
    requires relay.status(c, relay.blockNumber(c) + 2) == Receipts([r1, r2])
    requires r1.blockNumber == relay.blockNumber(c) + 2
    ensures CycleOutcome(relay, c) ==
      Landed(Inclusion(relay.blockNumber(c) + 2, [r1.transactionHash, r2.transactionHash]))
    ensures forall i :: 0 <= i < |CycleEvents(bundle, relay, c)| && CycleEvents(bundle, relay, c)[i].Polled? ==>
      CycleEvents(bundle, relay, c)[i].targetBlock != relay.blockNumber(c) + 3
  {
    var b := relay.blockNumber(c);
    var targets := Targets(b);
    assert targets[1..] == [b + 2] + [b + 3];
    assert targets[1..][1..] == [b + 3];
    assert PollEvents(relay, c, targets) == [Polled(b + 1, NotFound), Polled(b + 2, Receipts([r1, r2]))];
    assert PollOutcome(relay, c, targets) == PollOutcome(relay, c, targets[1..]) == Resolve([r1, r2]);
    assert Resolve([r1, r2]).inclusion.transactionHashes == [r1.transactionHash, r2.transactionHash];
  }

  /** The `for i in range(1, 4)` loop of lines 100-106: one `send_bundle` per
      target block, collecting the submissions in order. */
  method SubmitBundle(bundle: Bundle, head: nat) returns (attempts: seq<nat>, sent: seq<Event>)
    ensures attempts == Targets(head)
    ensures sent == SendEvents(bundle, attempts)
  {
    attempts, sent := [], [];
    for i := 1 to TargetCount + 1
      invariant |attempts| == i - 1 && |sent| == i - 1
      invariant forall k :: 0 <= k < i - 1 ==> attempts[k] == head + 1 + k && sent[k] == Sent(bundle, head + 1 + k)
    {
      attempts := attempts + [head + i];
      sent := sent + [Sent(bundle, head + i)];
    }
  }

  /** The first poll over `rest`, and what comes after it. */
  lemma PollUnfold(relay: Relay, c: nat, rest: seq<nat>)
    requires |rest| > 0
    ensures relay.status(c, rest[0]).NotFound? ==>
      PollEvents(relay, c, rest) == [Polled(rest[0], relay.status(c, rest[0]))] + PollEvents(relay, c, rest[1..]) &&
      PollOutcome(relay, c, rest) == PollOutcome(relay, c, rest[1..])
    ensures relay.status(c, rest[0]).Receipts? ==>
      PollEvents(relay, c, rest) == [Polled(rest[0], relay.status(c, rest[0]))] + [] &&
      PollOutcome(relay, c, rest) == Resolve(relay.status(c, rest[0]).receipts)
  {
  }

  /** The remaining attempts from position i are attempt i followed by those
      from position i + 1. */
  lemma SliceStep(attempts: seq<nat>, i: nat)
    requires i < |attempts|
    ensures attempts[i..][0] == attempts[i] && attempts[i..][1..] == attempts[i + 1..]
  {
  }

  /** One more poll of the loop below: a not-found attempt moves on to the
      next one, an attempt with receipts ends the polling. */
  lemma PollAdvance(relay: Relay, c: nat, attempts: seq<nat>, i: nat, polled: seq<Event>)
    requires i < |attempts|
    requires PollEvents(relay, c, attempts) == polled + PollEvents(relay, c, attempts[i..])
    requires PollOutcome(relay, c, attempts) == PollOutcome(relay, c, attempts[i..])
    ensures relay.status(c, attempts[i]).NotFound? ==>
      PollEvents(relay, c, attempts) ==
        (polled + [Polled(attempts[i], relay.status(c, attempts[i]))]) + PollEvents(relay, c, attempts[i + 1..]) &&
      PollOutcome(relay, c, attempts) == PollOutcome(relay, c, attempts[i + 1..])
    ensures relay.status(c, attempts[i]).Receipts? ==>
      PollEvents(relay, c, attempts) == polled + [Polled(attempts[i], relay.status(c, attempts[i]))] &&
      PollOutcome(relay, c, attempts) == Resolve(relay.status(c, attempts[i]).receipts)
  {
    SliceStep(attempts, i);
    PollUnfold(relay, c, attempts[i..]);
    var head := [Polled(attempts[i], relay.status(c, attempts[i]))];
    AppendAssociative(polled, head, PollEvents(relay, c, attempts[i + 1..]));
    AppendEmpty(head);
  }

  /** The `for bundle_result in bundle_results` loop of lines 110-128: wait
      for each submission in order, stop at the first with receipts. */
  method PollSubmissions(relay: Relay, c: nat, attempts: seq<nat>) returns (result: CycleResult, polled: seq<Event>)
    ensures result == PollOutcome(relay, c, attempts)
    ensures polled == PollEvents(relay, c, attempts)
  {
    result, polled := Missed, [];
    var i := 0;
    assert attempts[0..] == attempts;
    while i < |attempts|
      invariant 0 <= i <= |attempts|
      invariant PollEvents(relay, c, attempts) == polled + PollEvents(relay, c, attempts[i..])
      invariant PollOutcome(relay, c, attempts) == PollOutcome(relay, c, attempts[i..])
    {
      var res := relay.status(c, attempts[i]);
      PollAdvance(relay, c, attempts, i, polled);
      polled := polled + [Polled(attempts[i], res)];
      if res.Receipts? {
        result := Resolve(res.receipts);
        return;
      }
      i := i + 1;
    }
    assert attempts[i..] == [];
    assert polled + [] == polled;
  }

  /** The body of the `while submit_bundle` loop: read the head, submit for
      the next three blocks, then poll the submissions. */
  method RunCycle(bundle: Bundle, relay: Relay, c: nat) returns (result: CycleResult, events: seq<Event>)
    ensures result == CycleOutcome(relay, c)
    ensures events == CycleEvents(bundle, relay, c)
  {
    var block := relay.blockNumber(c);
    var attempts, sent := SubmitBundle(bundle, block);
    var polled;
    result, polled := PollSubmissions(relay, c, attempts);
    events := sent + polled;
  }

  /** One cycle more of the run: a missed cycle passes on to the next one,
      any other result ends the run. */
  lemma RunStep(bundle: Bundle, relay: Relay, c: nat, fuel: nat)
    requires fuel > 0
    ensures CycleOutcome(relay, c).Missed? ==>
      RunOutcomeOf(relay, c, fuel) == RunOutcomeOf(relay, c + 1, fuel - 1) &&
      RunTrace(bundle, relay, c, fuel) == CycleEvents(bundle, relay, c) + RunTrace(bundle, relay, c + 1, fuel - 1)
    ensures CycleOutcome(relay, c).Landed? ==>
      RunOutcomeOf(relay, c, fuel) == Included(CycleOutcome(relay, c).inclusion) &&
      RunTrace(bundle, relay, c, fuel) == CycleEvents(bundle, relay, c)
    ensures CycleOutcome(relay, c).Crashed? ==>
      RunOutcomeOf(relay, c, fuel) == Aborted(CycleOutcome(relay, c).error) &&
      RunTrace(bundle, relay, c, fuel) == CycleEvents(bundle, relay, c)
  {
  }

  /** Concatenation of traces is associative. */
  lemma AppendAssociative(a: seq<Event>, b: seq<Event>, c: seq<Event>)
    ensures a + (b + c) == (a + b) + c
  {
  }

  /** Indexing into a concatenation of traces. */
  lemma AppendIndex(a: seq<Event>, b: seq<Event>, i: int)
    requires 0 <= i < |a| + |b|
    ensures (a + b)[i] == if i < |a| then a[i] else b[i - |a|]
  {
  }

  /** The empty trace is neutral for concatenation. */
  lemma AppendEmpty(a: seq<Event>)
    ensures [] + a == a && a + [] == a
  {
  }

  /** The loop below after one more cycle, seen from the whole run: what is
      left of the run after a missed cycle, or how it ends otherwise. */
  lemma RunAdvance(bundle: Bundle, relay: Relay, cycle: nat, fuel: nat, trace: seq<Event>,
                   result: CycleResult, events: seq<Event>, whole: RunOutcome, wholeTrace: seq<Event>)
    requires fuel > 0
    requires result == CycleOutcome(relay, cycle) && events == CycleEvents(bundle, relay, cycle)
    requires whole == RunOutcomeOf(relay, cycle, fuel)
    requires wholeTrace == trace + RunTrace(bundle, relay, cycle, fuel)
    ensures result.Missed? ==>
      whole == RunOutcomeOf(relay, cycle + 1, fuel - 1) &&
      wholeTrace == (trace + events) + RunTrace(bundle, relay, cycle + 1, fuel - 1)
    ensures result.Landed? ==> whole == Included(result.inclusion) && wholeTrace == trace + events
    ensures result.Crashed? ==> whole == Aborted(result.error) && wholeTrace == trace + events
  {
    RunStep(bundle, relay, cycle, fuel);
    AppendAssociative(trace, events, RunTrace(bundle, relay, cycle + 1, fuel - 1));
  }

  /** One pass of the `while submit_bundle` body for cycle `cycle`, with
      `fuel` cycles left: reads the head, submits, polls, appends the cycle's
      relay calls to `trace`, and says whether to go round again. */
  method CycleOnce(bundle: Bundle, relay: Relay, cycle: nat, fuel: nat, trace: seq<Event>,
                   ghost whole: RunOutcome, ghost wholeTrace: seq<Event>)
    returns (again: bool, outcome: RunOutcome, trace': seq<Event>)
    requires fuel > 0
    requires whole == RunOutcomeOf(relay, cycle, fuel)
    requires wholeTrace == trace + RunTrace(bundle, relay, cycle, fuel)
    ensures again ==> outcome == Exhausted
    ensures again ==> whole == RunOutcomeOf(relay, cycle + 1, fuel - 1)
    ensures again ==> wholeTrace == trace' + RunTrace(bundle, relay, cycle + 1, fuel - 1)
    ensures !again ==> outcome == whole && trace' == wholeTrace
  {
    var result, events := RunCycle(bundle, relay, cycle);
    RunAdvance(bundle, relay, cycle, fuel, trace, result, events, whole, wholeTrace);
    trace' := trace + events;
    match result {
      case Landed(inc) =>
        again, outcome := false, Included(inc);
      case Crashed(e) =>
        again, outcome := false, Aborted(e);
      case Missed =>
        again, outcome := true, Exhausted;
    }
  }

  /** The `while submit_bundle` loop of lines 96-128, run for at most
      `maxCycles` cycles: each cycle reads the head, submits, polls, and
      either stops or goes round again. */
  method SubmitUntilIncluded(bundle: Bundle, relay: Relay, maxCycles: nat) returns (outcome: RunOutcome, trace: seq<Event>)
    ensures outcome == RunOutcomeOf(relay, 0, maxCycles)
    ensures trace == RunTrace(bundle, relay, 0, maxCycles)
  {
    var submitting := true;
    var cycle, left := 0, maxCycles;
    outcome, trace := Exhausted, [];
    ghost var whole, wholeTrace := RunOutcomeOf(relay, 0, maxCycles), RunTrace(bundle, relay, 0, maxCycles);
    AppendEmpty(wholeTrace);
    while submitting && left > 0
      invariant submitting ==> outcome == Exhausted
      invariant submitting ==> whole == RunOutcomeOf(relay, cycle, left)
      invariant submitting ==> wholeTrace == trace + RunTrace(bundle, relay, cycle, left)
      invariant !submitting ==> outcome == whole && trace == wholeTrace
      decreases left, submitting
    {
      submitting, outcome, trace := CycleOnce(bundle, relay, cycle, left, trace, whole, wholeTrace);
      cycle, left := cycle + 1, left - 1;
    }
    if submitting {
      AppendEmpty(trace);
    }
  }
}
