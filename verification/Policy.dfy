/** The selection policy and its admitted bounds. Durations are nanoseconds. */
module Policies {
  const SECOND: int := 1_000_000_000
  const MINUTE: int := 60 * SECOND
  const HOUR: int := 60 * MINUTE
  const DAY: int := 24 * HOUR

  datatype Strategy = Static | LowestLatency | Adaptive

  datatype Policy = Policy(
    strategy: Strategy,
    topN: int,
    evidenceWindow: int,
    freshness: int,
    minSamples: int,
    minSuccessPermille: int,
    failureStreak: int,
    recoverySuccesses: int,
    residence: int,
    cooldown: int,
    requiredImprovementPermille: int)
  {
    predicate Valid() {
      && 1 <= topN <= 10_000
      && 1 <= minSamples <= 512
      && 1 <= minSuccessPermille <= 1000
      && 1 <= failureStreak <= 512
      && 1 <= recoverySuccesses <= 512
      && 0 < evidenceWindow <= 30 * DAY
      && 0 < freshness <= evidenceWindow
      && 0 <= residence <= 7 * DAY
      && 0 <= cooldown <= 30 * DAY
      && 0 <= requiredImprovementPermille < 1000
    }
  }

  function DefaultPolicy(strategy: Strategy): Policy {
    Policy(strategy, 1, 30 * MINUTE, 5 * MINUTE, 3, 600, 2, 3, 10 * MINUTE, 15 * MINUTE, 100)
  }
}
