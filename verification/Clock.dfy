/** Lengths of time in nanoseconds. */
module Clock {
  const SECOND := 1_000_000_000
  const MINUTE := 60 * SECOND
  const DAY := 86_400 * SECOND
}
