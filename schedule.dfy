/** The pre-execution wait of src/mint_bot.py:49-57: the bot wakes up two
    block times before the target timestamp. */
module Schedule {

  /** `target_timestamp - now - 2 * block_time`: the time from now until two
      block intervals before the target. */
  function SecondsUntilExecution(targetTimestamp: int, now: int, blockTime: int): (s: int)
    ensures now + s + 2 * blockTime == targetTimestamp
  {
    targetTimestamp - now - 2 * blockTime
  }

  /** What the bot does before fetching gas data: one sleep, or nothing. */
  datatype WaitStep = Sleep(seconds: nat) | Proceed

  /** The `if seconds_until_execution > 0: sleep(seconds_until_execution)` decision. */
  function WaitStepFor(targetTimestamp: int, now: int, blockTime: int): (w: WaitStep)
    ensures w.Sleep? <==> targetTimestamp - 2 * blockTime > now
    ensures w.Sleep? ==> now + w.seconds + 2 * blockTime == targetTimestamp
  {
    var s := SecondsUntilExecution(targetTimestamp, now, blockTime);
    if s > 0 then Sleep(s) else Proceed
  }

  /** The clock reading once the wait step is over. */
  function WakeTime(now: int, w: WaitStep): int
  {
    match w
    case Sleep(seconds) => now + seconds
    case Proceed => now
  }

  /** The bot resumes at the later of now and two block times before the
      target: it never resumes early, and it never waits past that point. */
  lemma WakeTimeIsWindowStart(targetTimestamp: int, now: int, blockTime: int)
    ensures var t := WakeTime(now, WaitStepFor(targetTimestamp, now, blockTime));
      t >= now && t >= targetTimestamp - 2 * blockTime &&
      (t == now || t == targetTimestamp - 2 * blockTime)
  {
  }

  /** Target T, block time 12 s, now T - 30: the bot sleeps 30 - 24 = 6 seconds. */
  lemma SleepScenario(t: int)
    ensures WaitStepFor(t, t - 30, 12) == Sleep(6)
  {
  }
}
