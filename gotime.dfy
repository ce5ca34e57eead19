/**
 * The parts of Go's `time` package that the player cooldown rule relies on.
 * A `time.Duration` is a signed 64-bit count of nanoseconds; a `time.Time` is
 * modelled as the number of nanoseconds since Go's zero time (January 1,
 * year 1, UTC), so that the zero value of a `time.Time` is 0.
 */
module GoTime {

  const MinInt64: int := -0x8000_0000_0000_0000
  const MaxInt64: int := 0x7FFF_FFFF_FFFF_FFFF
  const TwoTo64: int := 0x1_0000_0000_0000_0000

  /** Go's `int` and `int64` on a 64-bit platform. */
  type Int64 = x: int | -0x8000_0000_0000_0000 <= x <= 0x7FFF_FFFF_FFFF_FFFF

  /** `time.Duration`. */
  type Duration = Int64

  /** A `time.Time`, in nanoseconds since the zero time. */
  type Instant = int

  /** `time.Second`. */
  const Second: Duration := 1_000_000_000

  /** The largest number of seconds whose `Duration` does not overflow: 9223372036. */
  const MaxExactSeconds: int := MaxInt64 / Second

  /** Two's complement wrap-around, as Go's signed 64-bit arithmetic does on overflow. */
  function Wrap64(x: int): (r: Int64)
    ensures MinInt64 <= x <= MaxInt64 ==> r == x
    ensures (x - r) % TwoTo64 == 0
  {
    (x - MinInt64) % TwoTo64 + MinInt64
  }

  /** `time.Duration(n) * time.Second`: a 64-bit product, wrapping on overflow. */
  function Seconds(n: Int64): (d: Duration)
    ensures -MaxExactSeconds <= n <= MaxExactSeconds ==> d == n * Second
  {
    // Both branches compute the same value; the first only carries the fact
    // that the exact product already lies in the `int64` range.
    if -MaxExactSeconds <= n <= MaxExactSeconds then
      assert MinInt64 <= n * Second <= MaxInt64 by { ExactSecondsInRange(n); }
      Wrap64(n * Second)
    else
      Wrap64(n * Second)
  }

  lemma ExactSecondsInRange(n: int)
    requires -MaxExactSeconds <= n <= MaxExactSeconds
    ensures MinInt64 <= n * Second <= MaxInt64
  {
    assert MaxExactSeconds * Second <= MaxInt64;
    if n >= 0 {
      assert n * Second <= MaxExactSeconds * Second;
    } else {
      assert (-n) * Second <= MaxExactSeconds * Second;
    }
  }

  /** `t.Sub(u)`: the elapsed duration, saturated at the bounds of a `Duration`. */
  function Sub(t: Instant, u: Instant): Duration
  {
    if t - u > MaxInt64 then MaxInt64
    else if t - u < MinInt64 then MinInt64
    else t - u
  }

  /** The distance between two integers. */
  function Distance(x: int, y: int): nat
  {
    if x <= y then y - x else x - y
  }

  /** `Sub` is the saturated difference: exact inside the range, a bound outside it. */
  lemma SubSaturates(t: Instant, u: Instant)
    ensures MinInt64 <= t - u <= MaxInt64 ==> Sub(t, u) == t - u
    ensures t - u > MaxInt64 ==> Sub(t, u) == MaxInt64
    ensures t - u < MinInt64 ==> Sub(t, u) == MinInt64
  {
  }

  /** `Sub` gives the `Duration` nearest to the exact difference: no `Duration` is closer. */
  lemma SubIsNearest(t: Instant, u: Instant, d: Duration)
    ensures Distance(Sub(t, u), t - u) <= Distance(d, t - u)
  {
  }

  /** A later reading of the clock never gives a shorter elapsed time. */
  lemma SubMonotone(t: Instant, t': Instant, u: Instant)
    requires t <= t'
    ensures Sub(t, u) <= Sub(t', u)
  {
  }

  /**
   * Comparing a saturated difference with any duration above the minimum is
   * comparing the exact difference.
   */
  lemma SubCompare(t: Instant, u: Instant, d: Duration)
    requires d > MinInt64
    ensures Sub(t, u) >= d <==> t - u >= d
  {
  }
}
