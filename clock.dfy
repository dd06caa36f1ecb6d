/**
 * Instants and durations as Go's time package computes with them.
 *
 * An instant is an integer number of nanoseconds since the Unix epoch; a
 * Duration is a signed 64-bit count of nanoseconds.  Time.Sub saturates at
 * the ends of the Duration range, Time.Add adds exactly, and negating a
 * Duration wraps around as int64 negation does.
 */
module Clock {
  import opened Text

  const Second: int := 1_000_000_000

  /** Nanoseconds since 1970-01-01 UTC. */
  type Time = int

  type Duration = int64

  /** The instants a Go time.Time can hold: whole seconds fit in an int64. */
  predicate Representable(t: Time) { MinInt64 <= t / Second <= MaxInt64 }

  /** An instant read from the clock. */
  type Instant = t: Time | Representable(t) witness 0

  /** t.Sub(u): the exact difference when it fits, the nearest end of the range otherwise. */
  function Sub(t: Time, u: Time): (d: Duration)
  {
    if t - u > MaxInt64 then MaxInt64
    else if t - u < MinInt64 then MinInt64
    else t - u
  }

  /**
   * t.Add(d), exact.  Go's Time.Add saturates the seconds when the sum
   * leaves their int64 range; the instants used here stay far inside it,
   * and no contract relies on the saturation.
   */
  function Add(t: Time, d: Duration): Time { t + d }

  /** -d for an int64: the negation of the smallest value is itself. */
  function Neg(d: Duration): (r: Duration)
  {
    if d == MinInt64 then MinInt64 else -d
  }

  /** Adding the difference back gives the later instant, whenever the difference fits. */
  lemma AddSub(t: Time, u: Time)
    requires MinInt64 <= t - u <= MaxInt64
    ensures Add(u, Sub(t, u)) == t
  {
  }

  /** Sub never lies about the order of two instants and is exact when it does not saturate. */
  lemma SubOrder(t: Time, u: Time)
    ensures Sub(t, u) < 0 <==> t < u
    ensures Sub(t, u) == 0 <==> t == u
    ensures MinInt64 < Sub(t, u) < MaxInt64 ==> Sub(t, u) == t - u
  {
  }

  /** Negation is an involution and is exact everywhere except at the smallest value. */
  lemma NegNeg(d: Duration)
    ensures Neg(Neg(d)) == d
    ensures d != MinInt64 ==> Neg(d) == -d && Add(0, Neg(d)) + d == 0
  {
  }
}
