/**
 * Clock readings are integers counting nanoseconds. The difference of two
 * readings saturates at zero when the later one is not later, as the
 * difference of two of std's `Instant`s does.
 */
module Clock {

  /** `f32::EPSILON`. */
  const F32Epsilon: real := 0.00000011920928955078125
  const NanosPerSecond: real := 1_000_000_000.0

  /** Seconds from `earlier` to `later`, or zero when `later` does not come after `earlier`. */
  function SecondsBetween(earlier: int, later: int): (s: real)
    ensures s >= 0.0
    ensures later <= earlier ==> s == 0.0
    ensures earlier <= later ==> s * NanosPerSecond == (later - earlier) as real
  {
    (if later >= earlier then later - earlier else 0) as real / NanosPerSecond
  }
}
