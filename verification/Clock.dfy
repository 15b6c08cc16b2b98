/** The unit of time. */
module Clock {
  const SECOND := 1_000_000 // microseconds
}
