/** The monotonic clock the stopwatch reads, and the durations it measures.
    An instant is a clock reading in nanoseconds since an arbitrary origin; a
    duration is a count of nanoseconds. Reading the clock is not modelled: every
    operation that reads it takes the reading as a parameter. */
module Clock {

  /** A reading of the monotonic clock, in nanoseconds. */
  type Instant = nat

  /** A span of time, in nanoseconds. */
  type Duration = nat

  const NanosPerMilli: nat := 1_000_000

  /** The time from `earlier` to `later`. Like the subtraction of two tokio
      instants it saturates: it is zero when `earlier` is in fact the later one. */
  function DurationSince(later: Instant, earlier: Instant): (d: Duration)
    ensures earlier <= later ==> earlier + d == later
    ensures later <= earlier ==> d == 0
  {
    if earlier <= later then later - earlier else 0
  }

  /** The whole milliseconds in `d`, truncated (Duration::as_millis). */
  function AsMillis(d: Duration): (ms: nat)
    ensures ms * NanosPerMilli <= d < (ms + 1) * NanosPerMilli
  {
    d / NanosPerMilli
  }

  /** Truncation never rounds a duration up, and it keeps the order of durations. */
  lemma AsMillisMonotone(d1: Duration, d2: Duration)
    requires d1 <= d2
    ensures AsMillis(d1) <= AsMillis(d2)
  {
  }
}
