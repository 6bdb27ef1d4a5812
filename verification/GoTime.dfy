/** Go's `time.Time` and `time.Duration`, as integers counting nanoseconds. */
module GoTime {
  /** Nanoseconds since Go's zero time; the zero time itself is what `IsZero` tests for. */
  type Time = int

  const ZERO_TIME: Time := 0

  const MIN_DURATION: int := -0x8000_0000_0000_0000
  const MAX_DURATION: int := 0x7FFF_FFFF_FFFF_FFFF
  const MINUTE: int := 60_000_000_000

  /** A signed 64-bit count of nanoseconds. */
  type Duration = d: int | MIN_DURATION <= d <= MAX_DURATION

  /** `t.Sub(u)`: the difference, saturating at the ends of the 64-bit range. */
  function Sub(t: Time, u: Time): (d: Duration)
    ensures -0x8000_0000_0000_0000 <= t - u <= 0x7FFF_FFFF_FFFF_FFFF ==> d == t - u
    ensures t - u > 0x7FFF_FFFF_FFFF_FFFF ==> d == 0x7FFF_FFFF_FFFF_FFFF
    ensures t - u < -0x8000_0000_0000_0000 ==> d == -0x8000_0000_0000_0000
  {
    if t - u < MIN_DURATION then MIN_DURATION
    else if t - u > MAX_DURATION then MAX_DURATION
    else t - u
  }
}
