/** The contract's configuration: the constants the entry points use and the
    optional `Config` record accepted at initialisation. The constants live in a
    source file outside this model; their values here are assumptions, and no
    property outside the scenario lemmas depends on them. */
module Config {
  import opened Base

  const NANOS_PER_SEC: nat := 1_000_000_000
  const ONE_YOCTO: nat := 1
  const ONE_NEAR: nat := 1_000_000_000_000_000_000_000_000

  /** Fee rates are basis points: parts of 10 000. */
  const BASIS_P: nat := 10_000
  /** The default service fee, "10% total fees". */
  const MAX_FEES: nat := 1_000
  /** The divisor of the game bound that gives the turn bound: the one-hour
      default game allows 400 seconds per turn. */
  const MAX_NUM_TURNS: nat := 9
  const MIN_DEPOSIT_NEAR: nat := ONE_NEAR / 10
  /** How long an account may wait in the queue before the sweep refunds it. */
  const MAX_TIME_TO_BE_AVAILABLE: nat := 10 * 60 * NANOS_PER_SEC
  /** The token id recorded for deposits attached in the chain's native coin. */
  const NEAR_TOKEN: TokenId := "near"

  /** A service fee rate, at most the whole (10 000 basis points). */
  type FeeRate = x: int | 0 <= x <= BASIS_P

  function SecToNano(sec: U32): (ns: U64)
    ensures ns == sec * NANOS_PER_SEC
  {
    sec * NANOS_PER_SEC
  }

  /** The initialisation record. */
  datatype Config = Config(
    serviceFeePercentage: U32,
    maxGameDurationSec: U32,
    referrerRatio: U32,
    maxStoredGames: U8)
  {
    /** The validity check run on a supplied record; both ratios are parts of BASIS_P. */
    predicate Valid() {
      serviceFeePercentage <= BASIS_P && referrerRatio <= BASIS_P
    }
  }
}
