/** Times are nanoseconds of a monotonic clock. */
module Clock {
  const NANOS_PER_MILLI: nat := 1_000_000

  function Elapsed(now: nat, since: nat): nat {
    if now >= since then now - since else 0
  }
}
