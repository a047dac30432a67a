/** Instants are integer nanoseconds of Unix time. */
module Instants {

  const MILLISECOND := 1000000

  /** UnixMilli. */
  function Millis(t: int): int {
    t / MILLISECOND
  }

  lemma MillisMonotone(s: int, t: int)
    requires s <= t
    ensures Millis(s) <= Millis(t)
  {}
}
