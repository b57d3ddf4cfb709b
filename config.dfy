/**
 * The process-wide tuning constants of the event processor, resolved once
 * from three optional system properties by the static initialiser.
 */
module Config {
  import opened Wrappers
  import opened JavaInt

  const DEFAULT_EVENT_BATCH_SIZE: int := 1
  const DEFAULT_LINGER_TIME_MS: int := 2500
  const MIN_LINGER_TIME_MS: int := 1000
  const DEFAULT_DEADPOOL_POLL_MS: int := 250
  const MIN_DEADPOOL_POLL_MS: int := 100

  /**
   * The values of the properties `org.nuprocess.eventBatchSize`,
   * `org.nuprocess.lingerTimeMs` and `org.nuprocess.deadPoolPollMs`:
   * None when the property is unset or does not parse as an int.
   */
  datatype Overrides = Overrides(
    eventBatchSize: Option<int>,
    lingerTimeMs: Option<int>,
    deadPoolPollMs: Option<int>)
  {
    /** Every present override is a Java int. */
    predicate Valid() {
      (eventBatchSize.Some? ==> IsInt(eventBatchSize.value)) &&
      (lingerTimeMs.Some? ==> IsInt(lingerTimeMs.value)) &&
      (deadPoolPollMs.Some? ==> IsInt(deadPoolPollMs.value))
    }
  }

  const NO_OVERRIDES: Overrides := Overrides(None, None, None)

  /**
   * The three static constants EVENT_BATCH_SIZE, DEADPOOL_POLL_INTERVAL and
   * LINGER_ITERATIONS, together with the initialiser's local lingerTimeMs.
   */
  datatype Settings = Settings(
    eventBatchSize: int,
    lingerTimeMs: int,
    deadPoolPollInterval: int,
    lingerIterations: int)

  /** Math.max */
  function Max(a: int, b: int): (r: int)
    ensures r >= a && r >= b && (r == a || r == b)
  {
    if a >= b then a else b
  }

  /** Math.min */
  function Min(a: int, b: int): (r: int)
    ensures r <= a && r <= b && (r == a || r == b)
  {
    if a <= b then a else b
  }

  /** The local lingerTimeMs: the override or 2500, raised to at least 1000. */
  function LingerTime(o: Option<int>): (r: int)
    ensures r >= MIN_LINGER_TIME_MS
    ensures o.None? ==> r == DEFAULT_LINGER_TIME_MS
    ensures o.Some? ==> r == Max(MIN_LINGER_TIME_MS, o.value)
  {
    Max(MIN_LINGER_TIME_MS, o.GetOr(DEFAULT_LINGER_TIME_MS))
  }

  /** DEADPOOL_POLL_INTERVAL: the override or 250, clamped into [100, lingerTimeMs]. */
  function PollInterval(lingerTimeMs: int, o: Option<int>): (r: int)
    requires lingerTimeMs >= MIN_DEADPOOL_POLL_MS
    ensures MIN_DEADPOOL_POLL_MS <= r <= lingerTimeMs
    ensures MIN_DEADPOOL_POLL_MS <= o.GetOr(DEFAULT_DEADPOOL_POLL_MS) <= lingerTimeMs ==> r == o.GetOr(DEFAULT_DEADPOOL_POLL_MS)
    ensures o.GetOr(DEFAULT_DEADPOOL_POLL_MS) < MIN_DEADPOOL_POLL_MS ==> r == MIN_DEADPOOL_POLL_MS
    ensures o.GetOr(DEFAULT_DEADPOOL_POLL_MS) > lingerTimeMs ==> r == lingerTimeMs
  {
    Min(lingerTimeMs, Max(MIN_DEADPOOL_POLL_MS, o.GetOr(DEFAULT_DEADPOOL_POLL_MS)))
  }

  /**
   * LINGER_ITERATIONS: how many whole poll intervals fit in the linger time,
   * by Java's truncating division.
   */
  function LingerIterations(lingerTimeMs: int, pollInterval: int): (r: int)
    requires IsInt(lingerTimeMs) && 0 < pollInterval <= lingerTimeMs
    ensures 1 <= r
    ensures r * pollInterval <= lingerTimeMs < (r + 1) * pollInterval
  {
    var r := Div(lingerTimeMs, pollInterval);
    QuotientBounds(lingerTimeMs, pollInterval);
    r
  }

  lemma QuotientBounds(n: int, d: int)
    requires 0 < d <= n
    ensures 1 <= n / d
    ensures (n / d) * d <= n < (n / d + 1) * d
  {
    var q := n / d;
    assert n == q * d + n % d;
    assert (q + 1) * d == q * d + d;
  }

  lemma MulAtLeast(k: int, d: int)
    requires k >= 1 && d > 0
    ensures k * d >= d
  {
    assert k * d == (k - 1) * d + d;
    assert (k - 1) * d >= 0 by { NonNegativeProduct(k - 1, d); }
  }

  /** The static initialiser: resolves the three constants, and its local linger time, from the overrides. */
  function Resolve(o: Overrides): (s: Settings)
    requires o.Valid()
    ensures s.eventBatchSize == o.eventBatchSize.GetOr(DEFAULT_EVENT_BATCH_SIZE)
    ensures s.lingerTimeMs == LingerTime(o.lingerTimeMs) && s.lingerTimeMs >= MIN_LINGER_TIME_MS
    ensures s.deadPoolPollInterval == PollInterval(s.lingerTimeMs, o.deadPoolPollMs)
    ensures MIN_DEADPOOL_POLL_MS <= s.deadPoolPollInterval <= s.lingerTimeMs
    ensures 1 <= s.lingerIterations
    ensures s.lingerIterations * s.deadPoolPollInterval <= s.lingerTimeMs
    ensures s.lingerTimeMs < (s.lingerIterations + 1) * s.deadPoolPollInterval
  {
    var batch := o.eventBatchSize.GetOr(DEFAULT_EVENT_BATCH_SIZE);
    var linger := LingerTime(o.lingerTimeMs);
    var poll := PollInterval(linger, o.deadPoolPollMs);
    Settings(batch, linger, poll, LingerIterations(linger, poll))
  }

  /** LINGER_ITERATIONS lies in [1, lingerTimeMs / 100], whatever the overrides. */
  lemma IterationsBounded(o: Overrides)
    requires o.Valid()
    ensures var s := Resolve(o);
      1 <= s.lingerIterations <= s.lingerTimeMs / MIN_DEADPOOL_POLL_MS
  {
    var s := Resolve(o);
    var k := s.lingerIterations;
    assert k * MIN_DEADPOOL_POLL_MS <= k * s.deadPoolPollInterval by {
      assert k * s.deadPoolPollInterval - k * MIN_DEADPOOL_POLL_MS == k * (s.deadPoolPollInterval - MIN_DEADPOOL_POLL_MS);
      NonNegativeProduct(k, s.deadPoolPollInterval - MIN_DEADPOOL_POLL_MS);
    }
  }

  /** The three constants and the local linger time are Java ints, so none of the Java arithmetic overflows. */
  lemma SettingsAreInts(o: Overrides)
    requires o.Valid()
    ensures var s := Resolve(o);
      IsInt(s.eventBatchSize) && IsInt(s.lingerTimeMs) && IsInt(s.deadPoolPollInterval) && IsInt(s.lingerIterations)
  {
    var s := Resolve(o);
    assert s.lingerIterations <= s.lingerIterations * s.deadPoolPollInterval by {
      MulAtLeast(s.deadPoolPollInterval, s.lingerIterations);
    }
  }

  /** With no property set: batch size 1, linger 2500 ms, poll interval 250 ms, 10 iterations. */
  lemma DefaultSettings()
    ensures Resolve(NO_OVERRIDES) == Settings(1, 2500, 250, 10)
  {
  }

  /** Linger 1000 ms with a 250 ms poll interval gives 4 linger iterations. */
  lemma ShortLingerSettings()
    ensures Resolve(Overrides(None, Some(1000), Some(250))).lingerIterations == 4
  {
  }

  /** The batch size is taken as given, with no clamping: even zero or a negative override survives. */
  lemma BatchSizeUnclamped(n: int)
    requires IsInt(n)
    ensures Resolve(Overrides(Some(n), None, None)).eventBatchSize == n
  {
  }

  /** Resolution is idempotent: feeding resolved values back in as overrides changes nothing. */
  lemma ResolveIdempotent(o: Overrides)
    requires o.Valid()
    ensures var s := Resolve(o);
      var again := Overrides(Some(s.eventBatchSize), Some(s.lingerTimeMs), Some(s.deadPoolPollInterval));
      again.Valid() && Resolve(again) == s
  {
    SettingsAreInts(o);
  }
}
