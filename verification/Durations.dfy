/** Durations are integers of nanoseconds, as in Go's time package. */
module Durations {
  const SECOND: int := 1_000_000_000
  const MINUTE: int := 60 * SECOND
  const HOUR: int := 60 * MINUTE
}
