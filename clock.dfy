/**
 * The cycle clock of the jitter meter, reduced to what can be stated without
 * the hardware: timestamps are arbitrary unsigned 64-bit values and the
 * elapsed time between two reads is their absolute difference.
 */
module Clock {

  const TWO64: int := 0x1_0000_0000_0000_0000

  /** A C `uint64_t`. */
  type Uint64 = x: int | 0 <= x < TWO64

  function Min(a: int, b: int): int { if a <= b then a else b }
  function Max(a: int, b: int): int { if a <= b then b else a }

  /** C subtraction of two `uint64_t` values: wraps around modulo 2^64. */
  function Sub64(a: Uint64, b: Uint64): (r: Uint64)
    ensures b <= a ==> r == a - b
    ensures a < b ==> r == a - b + TWO64
  {
    (a - b) % TWO64
  }

  /**
   * `clockdiff`: the number of cycles between two timestamps, whichever of
   * the two reads came out larger. Each branch subtracts the smaller value
   * from the larger one, so the unsigned subtraction never wraps.
   */
  function ClockDiff(startTime: Uint64, endTime: Uint64): (r: Uint64)
    ensures r == Max(startTime, endTime) - Min(startTime, endTime)
    ensures r <= Max(startTime, endTime)
  {
    if startTime > endTime then Sub64(startTime, endTime) else Sub64(endTime, startTime)
  }

  /** The difference does not depend on which timestamp was taken first. */
  lemma ClockDiffSymmetric(a: Uint64, b: Uint64)
    ensures ClockDiff(a, b) == ClockDiff(b, a)
  {
  }

  /** The difference is zero exactly when both reads returned the same value. */
  lemma ClockDiffZero(a: Uint64, b: Uint64)
    ensures ClockDiff(a, b) == 0 <==> a == b
  {
  }
}
