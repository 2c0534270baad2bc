/** Optional values, bytes and clock readings shared by every table and service. */
module Basics {

  datatype Option<+T> = None | Some(value: T)

  newtype byte = b: int | 0 <= b < 256
  type bytes = seq<byte>

  // Clock readings and durations are in nanoseconds; tables store whole Unix seconds.
  const SECOND: int := 1_000_000_000

  /** Whole Unix seconds of a clock reading, rounded down. */
  function Unix(t: int): (s: int)
    ensures s * SECOND <= t < (s + 1) * SECOND
  {
    t / SECOND
  }

  lemma UnixMonotone(t: int, u: int)
    requires t <= u
    ensures Unix(t) <= Unix(u)
  {
  }

  /** Whole seconds of a duration, truncated toward zero. */
  function WholeSeconds(d: int): (s: int)
    ensures d >= 0 ==> s * SECOND <= d < (s + 1) * SECOND
    ensures d < 0 ==> (s - 1) * SECOND < d <= s * SECOND
  {
    if d >= 0 then d / SECOND else -((-d) / SECOND)
  }
}
