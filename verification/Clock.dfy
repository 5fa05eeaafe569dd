/** Clock readings, and what is left of them in a row. */
module Clock {
  type Time = int // nanoseconds

  const SECOND: Time := 1_000_000_000
  const HOUR: Time := 3600 * SECOND

  /** A timestamptz column keeps whole microseconds; the driver cuts what it is given. */
  function Stored(t: Time): (m: Time) {
    t - t % 1000
  }

  lemma StoredAscends(t: Time, u: Time)
    requires t <= u
    ensures Stored(t) <= Stored(u)
  {
  }
}
