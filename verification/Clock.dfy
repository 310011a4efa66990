/** Instants and durations, as the gateway's Go code sees them.

An instant is an `int`: nanoseconds since 1970-01-01T00:00:00Z. The database columns hold whole seconds. */
module Clock {
  const SECOND: int := 1_000_000_000
  const MINUTE: int := 60 * SECOND
  const HOUR: int := 60 * MINUTE
  const DAY: int := 24 * HOUR

  /** Go's zero `time.Time`: 0001-01-01T00:00:00Z. It is what `IsZero` recognises. */
  const ZERO_TIME: int := -62_135_596_800 * SECOND

  /** `t.Unix()`: whole seconds, rounded down. */
  function Unix(t: int): int {
    t / SECOND
  }

  /** `time.Unix(s, 0)`. */
  function FromUnix(s: int): int {
    s * SECOND
  }
}
