/** Exponential backoff with jitter: what the job queue's retries and the client's poller share. */
module Backoff {
  import opened Basics

  function Round(x: real): real { (x + 0.5).Floor as real }

  function Pow2(n: nat): (p: real)
    ensures p >= 1.0
  {
    if n == 0 then 1.0 else 2.0 * Pow2(n - 1)
  }

  function Doubled(base: real, times: nat): real { base * Pow2(times) }

  lemma {:induction false} DoubledGrows(base: real, times: nat)
    requires base >= 0.0
    ensures Doubled(base, times) <= Doubled(base, times + 1)
  {
    var p := Pow2(times);
    assert Pow2(times + 1) == 2.0 * p;
    hide Pow2;
    NotNegative(base, p);
    assert base * (2.0 * p) == base * p + base * p;
  }

  /** The delay moved by up to `ratio` of itself, by a random number that is held to [0, 1]. */
  function Jitter(delay: real, ratio: real, random: real): real {
    delay * (1.0 + (RealMin(1.0, RealMax(0.0, random)) * 2.0 - 1.0) * ratio)
  }

  function Portion(delay: real, ratio: real): real { delay * ratio }

  lemma {:induction false} JitterSpread(delay: real, ratio: real, random: real)
    requires delay >= 0.0 && ratio >= 0.0
    ensures delay - Portion(delay, ratio) <= Jitter(delay, ratio, random) <= delay + Portion(delay, ratio)
  {
    var x := RealMin(1.0, RealMax(0.0, random)) * 2.0 - 1.0;
    NotNegative(delay, ratio);
    NotNegative(delay * ratio, 1.0 - x);
    NotNegative(delay * ratio, 1.0 + x);
    assert delay * (1.0 + x * ratio) == delay + delay * ratio * x;
  }

  // ---------- the retry policy of the job queue ----------

  datatype RetryPolicy = RetryPolicy(baseDelayMs: real, maxDelayMs: real, jitterRatio: real)

  function Bounded(p: RetryPolicy, attempts: nat): real {
    RealMin(p.maxDelayMs, Doubled(p.baseDelayMs, if attempts > 1 then attempts - 1 else 0))
  }

  function RetryDelayMs(p: RetryPolicy, attempts: nat, random: real): real {
    RealMax(1.0, Round(RealMin(p.maxDelayMs, Jitter(Bounded(p, attempts), p.jitterRatio, random))))
  }

  /** A retry waits at least a millisecond, at most the maximum (the next whole one, if the maximum is
      no whole number), and within the jitter ratio of the doubled base delay. */
  lemma {:induction false} RetryDelayBounds(p: RetryPolicy, attempts: nat, random: real)
    requires p.baseDelayMs >= 0.0 && p.maxDelayMs >= 1.0 && 0.0 <= p.jitterRatio
    ensures var d, b := RetryDelayMs(p, attempts, random), Bounded(p, attempts);
            && 1.0 <= d <= Round(p.maxDelayMs)
            && (p.maxDelayMs.Floor as real == p.maxDelayMs ==> d <= p.maxDelayMs)
            && d <= RealMax(1.0, b + Portion(b, p.jitterRatio) + 0.5)
            && RealMin(p.maxDelayMs, b - Portion(b, p.jitterRatio)) - 0.5 <= d
  {
    BoundedNotNegative(p, attempts);
    var b := Bounded(p, attempts);
    hide Doubled, Bounded, Jitter, Round, Portion;
    JitterSpread(b, p.jitterRatio, random);
    Clamped(p.maxDelayMs, b - Portion(b, p.jitterRatio), Jitter(b, p.jitterRatio, random),
        b + Portion(b, p.jitterRatio));
  }

  lemma {:induction false} Clamped(maximum: real, low: real, x: real, high: real)
    requires maximum >= 1.0 && low <= x <= high
    ensures var d := RealMax(1.0, Round(RealMin(maximum, x)));
            && 1.0 <= d <= Round(maximum) && d <= RealMax(1.0, high + 0.5) && RealMin(maximum, low) - 0.5 <= d
            && (maximum.Floor as real == maximum ==> d <= maximum)
  {
    RoundIsMonotone(RealMin(maximum, x), maximum);
    RoundIsMonotone(1.0, maximum);
    RoundOfWhole(1);
    RoundOfWhole(maximum.Floor);
    RoundIsNear(RealMin(maximum, x));
    hide Round;
  }

  lemma {:induction false} RoundIsNear(x: real)
    ensures x - 0.5 <= Round(x) <= x + 0.5
  {
  }

  lemma {:induction false} RoundIsMonotone(x: real, y: real)
    requires x <= y
    ensures Round(x) <= Round(y)
  {
    FloorIsMonotone(x + 0.5, y + 0.5);
  }

  lemma {:induction false} RoundOfWhole(k: int)
    ensures Round(k as real) == k as real
  {
    var f := (k as real + 0.5).Floor;
    assert f as real <= k as real + 0.5 < f as real + 1.0;
    assert (f - k) as real <= 0.5 && -0.5 < (f - k) as real;
  }

  lemma {:induction false} BoundedNotNegative(p: RetryPolicy, attempts: nat)
    requires p.baseDelayMs >= 0.0 && p.maxDelayMs >= 0.0
    ensures Bounded(p, attempts) >= 0.0
  {
    NotNegative(p.baseDelayMs, Pow2(if attempts > 1 then attempts - 1 else 0));
  }

  /** Before jitter, a later attempt never waits less. */
  lemma {:induction false} RetriesSpreadOut(p: RetryPolicy, attempts: nat)
    requires p.baseDelayMs >= 0.0
    ensures Bounded(p, attempts) <= Bounded(p, attempts + 1)
  {
    if attempts > 0 { DoubledGrows(p.baseDelayMs, attempts - 1); }
    hide Doubled;
  }

  /** The first delay is the base; each further attempt doubles the one before, up to the maximum. */
  lemma {:induction false} RetriesDouble(p: RetryPolicy, attempts: nat)
    requires p.baseDelayMs >= 0.0 && p.maxDelayMs >= 0.0
    ensures attempts <= 1 ==> Bounded(p, attempts) == RealMin(p.maxDelayMs, p.baseDelayMs)
    ensures attempts >= 1 ==> Bounded(p, attempts + 1) == RealMin(p.maxDelayMs, 2.0 * Bounded(p, attempts))
  {
    assert Doubled(p.baseDelayMs, 0) == p.baseDelayMs;
    if attempts >= 1 { DoublesAgain(p.baseDelayMs, attempts - 1); }
    hide Doubled;
  }

  lemma {:induction false} DoublesAgain(base: real, times: nat)
    requires base >= 0.0
    ensures Doubled(base, times + 1) == 2.0 * Doubled(base, times) && Doubled(base, times) >= 0.0
  {
    var p := Pow2(times);
    assert Pow2(times + 1) == 2.0 * p;
    hide Pow2;
    NotNegative(base, p);
    assert base * (2.0 * p) == 2.0 * (base * p);
  }

  /** Jitter reaches both ends of its range and is even in between: the least random number gives
      the delay without its portion, the greatest with it, and others lie in proportion. */
  lemma {:induction false} JitterIsEven(delay: real, ratio: real, random: real)
    ensures random <= 0.0 ==> Jitter(delay, ratio, random) == delay - Portion(delay, ratio)
    ensures random >= 1.0 ==> Jitter(delay, ratio, random) == delay + Portion(delay, ratio)
    ensures 0.0 <= random <= 1.0 ==>
        Jitter(delay, ratio, random) == delay + Portion(delay, ratio) * (2.0 * random - 1.0)
  {
    var x := RealMin(1.0, RealMax(0.0, random)) * 2.0 - 1.0;
    assert delay * (1.0 + x * ratio) == delay + delay * ratio * x;
  }

  /** Rounding is to the nearest whole number, and up from the middle. */
  lemma {:induction false} RoundsHalfUp(x: real, k: int)
    requires k as real - 0.5 <= x < k as real + 0.5
    ensures Round(x) == k as real
  {
    var f := (x + 0.5).Floor;
    assert f as real <= x + 0.5 < f as real + 1.0;
    assert (f - k) as real < 1.0 && -1.0 < (f - k) as real;
  }

  /** The delay of an attempt whose random number is in the middle: the doubled delay, rounded. */
  lemma {:induction false} RetryWithoutJitter(p: RetryPolicy, attempts: nat)
    requires p.baseDelayMs >= 0.0 && p.maxDelayMs >= 0.0
    ensures RetryDelayMs(p, attempts, 0.5) == RealMax(1.0, Round(Bounded(p, attempts)))
  {
    NoJitter(Bounded(p, attempts), p.jitterRatio);
    hide Doubled, Jitter, Round;
  }

  lemma {:induction false} NoJitter(delay: real, ratio: real)
    ensures Jitter(delay, ratio, 0.5) == delay
  {
    assert (RealMin(1.0, RealMax(0.0, 0.5)) * 2.0 - 1.0) * ratio == 0.0;
  }
}
