/** The health of one free node: smoothed success rate and latency, backoff, weight.  Times are in seconds. */
module Health {
  import opened Options

  const EWMA_ALPHA := 0.3
  const NEUTRAL_LATENCY_MS := 3000.0
  const TRUSTED_MIN_STREAK: nat := 3
  const TRUSTED_MAX_LATENCY_MS := 1500.0
  const FREE_POOL_WEIGHT: nat := 10
  const FREE_POOL_WEIGHT_TRUSTED_MAX: nat := 20
  const BACKOFF_BASE_SECS: nat := 60
  const BACKOFF_MAX_SECS: nat := 3600

  datatype AnonLevel = Elite | Anonymous | Transparent | Unknown

  datatype HealthState = HealthState(
    success: real,
    latency: real,
    streak: nat,
    failStreak: nat,
    backoffUntil: Option<int>,
    anon: AnonLevel,
    exitIp: Option<string>)

  const FRESH_HEALTH := HealthState(0.5, NEUTRAL_LATENCY_MS, 0, 0, None, Unknown, None)

  function NoteSuccess(h: HealthState, latencyMs: nat): HealthState {
    h.(success := h.success + EWMA_ALPHA * (1.0 - h.success),
       latency := h.latency + EWMA_ALPHA * (latencyMs as real - h.latency),
       streak := h.streak + 1, failStreak := 0, backoffUntil := None)
  }

  function Pow2(n: nat): nat {
    if n == 0 then 1 else 2 * Pow2(n - 1)
  }

  /** The backoff after the `k`-th failure in a row. */
  function BackoffSecs(k: nat): nat
    requires k >= 1
  {
    var secs := BACKOFF_BASE_SECS * Pow2((if k < 7 then k else 7) - 1);
    if secs < BACKOFF_MAX_SECS then secs else BACKOFF_MAX_SECS
  }

  function NoteFailure(h: HealthState, now: int): HealthState {
    h.(success := h.success + EWMA_ALPHA * (0.0 - h.success),
       streak := 0, failStreak := h.failStreak + 1,
       backoffUntil := Some(now + BackoffSecs(h.failStreak + 1)))
  }

  function Score(h: HealthState): real
    requires h.latency >= 0.0
  {
    var over := if h.latency > NEUTRAL_LATENCY_MS then h.latency - NEUTRAL_LATENCY_MS else 0.0;
    h.success * (NEUTRAL_LATENCY_MS / (NEUTRAL_LATENCY_MS + over))
  }

  function Retention(h: HealthState): real {
    var survived := h.streak as real / TRUSTED_MIN_STREAK as real;
    0.5 + 0.5 * (if survived < 1.0 then survived else 1.0)
  }

  function Composite(h: HealthState): real
    requires h.latency >= 0.0
  {
    Score(h) * Retention(h)
  }

  predicate Trusted(h: HealthState) {
    h.anon == Elite && h.streak >= TRUSTED_MIN_STREAK && h.latency < TRUSTED_MAX_LATENCY_MS
  }

  /** Rounds half away from zero, as f64::round does for numbers that are not negative. */
  function Round(x: real): int {
    (x + 0.5).Floor
  }

  function Weight(h: HealthState): nat
    requires h.latency >= 0.0
  {
    var cap := if Trusted(h) then FREE_POOL_WEIGHT_TRUSTED_MAX else FREE_POOL_WEIGHT;
    var w := Round(Composite(h) * cap as real);
    if w < 1 then 1 else if w > cap then cap else w
  }

  predicate BackedOff(h: HealthState, now: int) {
    h.backoffUntil.Some? && h.backoffUntil.value > now
  }

  // ---------------------------------------------------------------- what every history keeps

  /** The invariant of a node's health. */
  ghost predicate Sane(h: HealthState) {
    && 0.0 <= h.success <= 1.0
    && h.latency >= 0.0
    && (h.streak > 0 ==> h.failStreak == 0)
    && (h.backoffUntil.Some? <==> h.failStreak >= 1)
  }

  lemma SaneAfterNotes(h: HealthState, latencyMs: nat, now: int)
    requires Sane(h)
    ensures Sane(NoteSuccess(h, latencyMs)) && Sane(NoteFailure(h, now))
    ensures h.success <= NoteSuccess(h, latencyMs).success
    ensures NoteFailure(h, now).success <= 0.7
  {
    assert NoteSuccess(h, latencyMs).latency == 0.7 * h.latency + 0.3 * latencyMs as real;
  }

  lemma ProductOfFractions(a: real, b: real)
    requires 0.0 <= a <= 1.0 && 0.0 <= b <= 1.0
    ensures 0.0 <= a * b <= a
  {
    assert a - a * b == a * (1.0 - b);
  }

  lemma ScoreIsFraction(h: HealthState)
    requires Sane(h)
    ensures 0.0 <= Score(h) <= h.success
    ensures h.latency <= NEUTRAL_LATENCY_MS ==> Score(h) == h.success
  {
    var over := if h.latency > NEUTRAL_LATENCY_MS then h.latency - NEUTRAL_LATENCY_MS else 0.0;
    var factor := NEUTRAL_LATENCY_MS / (NEUTRAL_LATENCY_MS + over);
    assert factor * (NEUTRAL_LATENCY_MS + over) == NEUTRAL_LATENCY_MS;
    assert 0.0 <= factor <= 1.0;
    ProductOfFractions(h.success, factor);
  }

  lemma CompositeIsFraction(h: HealthState)
    requires Sane(h)
    ensures 0.0 <= Composite(h) <= Score(h) <= h.success
    ensures h.streak == 0 ==> Composite(h) == 0.5 * Score(h)
    ensures h.streak >= TRUSTED_MIN_STREAK ==> Composite(h) == Score(h)
    ensures h.latency <= NEUTRAL_LATENCY_MS ==> Score(h) == h.success
  {
    ScoreIsFraction(h);
    RetentionRange(h);
    hide Score, Retention;
    ProductOfFractions(Score(h), Retention(h));
  }

  lemma RetentionRange(h: HealthState)
    ensures 0.5 <= Retention(h) <= 1.0
    ensures h.streak == 0 ==> Retention(h) == 0.5
    ensures h.streak >= TRUSTED_MIN_STREAK ==> Retention(h) == 1.0
  {
  }

  /** Each of the first three successes in a row adds a sixth of the score. */
  lemma CompositeOfStreak(h: HealthState)
    requires Sane(h)
    ensures 6.0 * Composite(h) == (if h.streak < 3 then 3 + h.streak else 6) as real * Score(h)
  {
    assert 6.0 * Retention(h) == (if h.streak < 3 then 3 + h.streak else 6) as real;
    assert Score(h) * (6.0 * Retention(h)) == 6.0 * (Score(h) * Retention(h));
  }

  /** The weight is between 1 and 20, and above 10 only for a trusted node. */
  lemma WeightRange(h: HealthState)
    requires Sane(h)
    ensures 1 <= Weight(h) <= FREE_POOL_WEIGHT_TRUSTED_MAX
    ensures Weight(h) > 10 ==> h.anon == Elite && h.streak >= 3 && h.latency < 1500.0
  {
  }

  /** The weight is the composite scaled to 10, or to 20 for a proven elite node, rounded half up, and at least 1. */
  lemma WeightIsRounded(h: HealthState)
    requires Sane(h)
    ensures var cap := if h.anon == Elite && h.streak >= 3 && h.latency < 1500.0 then 20.0 else 10.0;
            var w, c := Weight(h) as real, Composite(h) * cap;
            (w - 0.5 <= c < w + 0.5) || (w == 1.0 && c < 0.5)
  {
    CompositeIsFraction(h);
    hide Composite;
    var cap: nat := if h.anon == Elite && h.streak >= 3 && h.latency < 1500.0 then 20 else 10;
    ProductMonotone(Composite(h), cap as real, 1.0, cap as real);
  }

  /** Whatever came before, a failure leaves a weight of at most 4 and a backoff that doubles up to one hour. */
  lemma AfterFailure(h: HealthState, now: int)
    requires Sane(h)
    ensures var f := NoteFailure(h, now);
            && Sane(f)
            && Weight(f) <= 4
            && f.backoffUntil == Some(now + BackoffSecs(f.failStreak))
            && BackedOff(f, now)
  {
    SaneAfterNotes(h, 0, now);
    var f := NoteFailure(h, now);
    CompositeIsFraction(f);
    BackoffDoubles(f.failStreak);
    assert Composite(f) * 10.0 <= 3.5;
  }

  lemma BackoffDoubles(k: nat)
    requires k >= 1
    ensures BackoffSecs(k + 1) == if 2 * BackoffSecs(k) < BACKOFF_MAX_SECS then 2 * BackoffSecs(k) else BACKOFF_MAX_SECS
    ensures BackoffSecs(1) == BACKOFF_BASE_SECS
    ensures BACKOFF_BASE_SECS <= BackoffSecs(k) <= BACKOFF_MAX_SECS
  {
    assert Pow2(5) == 32 && Pow2(6) == 64 by {
      assert Pow2(3) == 8;
    }
    if k < 7 {
      assert Pow2(k) == 2 * Pow2(k - 1);
      PowPositive(k - 1);
    }
  }

  /** One minute, doubled with each further failure, and an hour from the seventh on. */
  lemma BackoffIs(k: nat)
    requires k >= 1
    ensures BackoffSecs(k) == if k <= 6 then 60 * Pow2(k - 1) else 3600
  {
    assert Pow2(3) == 8;
    assert Pow2(5) == 32 && Pow2(6) == 64;
    if k <= 6 {
      PowGrows(k - 1, 5);
    }
  }

  lemma {:induction false} PowGrows(m: nat, n: nat)
    requires m <= n
    ensures 1 <= Pow2(m) <= Pow2(n)
    decreases n
  {
    if m < n {
      PowGrows(m, n - 1);
    } else {
      PowPositive(m);
    }
  }

  lemma {:induction false} PowPositive(n: nat)
    ensures Pow2(n) >= 1
  {
    if n > 0 {
      PowPositive(n - 1);
    }
  }

  // ---------------------------------------------------------------- a note moves the weight its way

  lemma ProductMonotone(a: real, b: real, c: real, d: real)
    requires 0.0 <= a <= c && 0.0 <= b <= d
    ensures a * b <= c * d
  {
    assert a * b <= c * b;
    assert c * b <= c * d;
  }

  lemma QuotientMonotone(n: real, d: real, d': real)
    requires n > 0.0 && 0.0 < d' <= d
    ensures 0.0 <= n / d <= n / d'
  {
    assert n / d * d == n && n / d' * d' == n;
  }

  lemma ScoreMonotone(h: HealthState, g: HealthState)
    requires Sane(h) && Sane(g) && h.success <= g.success && g.latency <= h.latency
    ensures 0.0 <= Score(h) <= Score(g)
  {
    var over := if h.latency > NEUTRAL_LATENCY_MS then h.latency - NEUTRAL_LATENCY_MS else 0.0;
    var over' := if g.latency > NEUTRAL_LATENCY_MS then g.latency - NEUTRAL_LATENCY_MS else 0.0;
    var f, f' := NEUTRAL_LATENCY_MS / (NEUTRAL_LATENCY_MS + over), NEUTRAL_LATENCY_MS / (NEUTRAL_LATENCY_MS + over');
    QuotientMonotone(NEUTRAL_LATENCY_MS, NEUTRAL_LATENCY_MS + over, NEUTRAL_LATENCY_MS + over');
    assert Score(h) == h.success * f && Score(g) == g.success * f';
    ScoreIsFraction(h);
    hide Score;
    ProductMonotone(h.success, f, g.success, f');
  }

  /** A better rate, a lower latency and a longer streak never make a lower composite. */
  lemma CompositeMonotone(h: HealthState, g: HealthState)
    requires Sane(h) && Sane(g)
    requires h.success <= g.success && g.latency <= h.latency && h.streak <= g.streak
    ensures Composite(h) <= Composite(g)
  {
    ScoreMonotone(h, g);
    assert 0.0 <= Retention(h) <= Retention(g);
    hide Score, Retention;
    ProductMonotone(Score(h), Retention(h), Score(g), Retention(g));
  }

  lemma WeightMonotone(h: HealthState, g: HealthState)
    requires Sane(h) && Sane(g)
    requires h.success <= g.success && g.latency <= h.latency && h.streak <= g.streak && h.anon == g.anon
    ensures Weight(h) <= Weight(g)
  {
    CompositeMonotone(h, g);
    CompositeIsFraction(h);
    var cap, cap' := if Trusted(h) then FREE_POOL_WEIGHT_TRUSTED_MAX else FREE_POOL_WEIGHT,
                     if Trusted(g) then FREE_POOL_WEIGHT_TRUSTED_MAX else FREE_POOL_WEIGHT;
    assert cap <= cap';
    hide Composite;
    ProductMonotone(Composite(h), cap as real, Composite(g), cap' as real);
  }

  /** A success no slower than the average never lowers the weight, and a failure never raises it. */
  lemma NotesMoveWeight(h: HealthState, latencyMs: nat, now: int)
    requires Sane(h)
    ensures latencyMs as real <= h.latency ==> Weight(h) <= Weight(NoteSuccess(h, latencyMs))
    ensures Weight(NoteFailure(h, now)) <= Weight(h)
  {
    SaneAfterNotes(h, latencyMs, now);
    if latencyMs as real <= h.latency {
      WeightMonotone(h, NoteSuccess(h, latencyMs));
    }
    WeightMonotone(NoteFailure(h, now), h);
  }

  /** Above the neutral latency the score falls in inverse proportion to the latency. */
  lemma ScoreFallsWithLatency(h: HealthState)
    requires Sane(h) && h.latency >= NEUTRAL_LATENCY_MS
    ensures Score(h) * h.latency == h.success * NEUTRAL_LATENCY_MS
  {
    var factor := NEUTRAL_LATENCY_MS / h.latency;
    assert factor * h.latency == NEUTRAL_LATENCY_MS;
    assert Score(h) == h.success * factor;
    assert h.success * factor * h.latency == h.success * (factor * h.latency);
  }

  // ---------------------------------------------------------------- runs of successes

  function Successes(h: HealthState, latencies: seq<nat>): HealthState {
    if latencies == [] then h
    else NoteSuccess(Successes(h, latencies[..|latencies| - 1]), latencies[|latencies| - 1])
  }

  function Decay(k: nat): real {
    if k == 0 then 1.0 else 0.7 * Decay(k - 1)
  }

  /** s 0.7^k */
  function Faded(s: real, k: nat): real {
    s * Decay(k)
  }

  lemma FadesFurther(s: real, k: nat)
    ensures Faded(s, 0) == s && Faded(s, k + 1) == 0.7 * Faded(s, k)
  {
    var d := Decay(k);
    assert s * (0.7 * d) == 0.7 * (s * d);
  }

  function Failures(h: HealthState, times: seq<int>): HealthState {
    if times == [] then h
    else NoteFailure(Failures(h, times[..|times| - 1]), times[|times| - 1])
  }

  lemma {:induction false} FailuresClosedForm(h: HealthState, times: seq<int>)
    requires Sane(h)
    ensures var r, n := Failures(h, times), |times|;
            && Sane(r)
            && r.success == Faded(h.success, n)
            && r.failStreak == h.failStreak + n
            && (n > 0 ==> r.streak == 0 && Weight(r) <= 4
                          && r.backoffUntil == Some(times[n - 1] + BackoffSecs(h.failStreak + n)))
  {
    FadesFurther(h.success, 0);
    if times != [] {
      var front := times[..|times| - 1];
      FailuresClosedForm(h, front);
      AfterFailure(Failures(h, front), times[|times| - 1]);
      FadesFurther(h.success, |front|);
      hide Weight, BackoffSecs, Sane, Faded;
    }
  }

  /** The closed form of the smoothed success rate over k successes in a row: 1 - (1 - s) 0.7^k. */
  lemma {:induction false} SuccessClosedForm(h: HealthState, latencies: seq<nat>)
    requires Sane(h)
    ensures var r := Successes(h, latencies);
            && Sane(r)
            && r.success == 1.0 - (1.0 - h.success) * Decay(|latencies|)
            && r.streak == h.streak + |latencies|
            && r.anon == h.anon
            && (latencies != [] ==> r.failStreak == 0 && r.backoffUntil == None)
  {
    if latencies != [] {
      var front := latencies[..|latencies| - 1];
      SuccessClosedForm(h, front);
      SaneAfterNotes(Successes(h, front), latencies[|latencies| - 1], 0);
      var d := Decay(|front|);
      assert (1.0 - h.success) * (0.7 * d) == 0.7 * ((1.0 - h.success) * d);
    }
  }

  /** The closed-form bound of the smoothed latency when each measurement is at most `bound`. */
  lemma {:induction false} LatencyBound(h: HealthState, latencies: seq<nat>, bound: nat)
    requires forall k :: 0 <= k < |latencies| ==> latencies[k] <= bound
    ensures Successes(h, latencies).latency - bound as real <= (h.latency - bound as real) * Decay(|latencies|)
  {
    if latencies != [] {
      var front := latencies[..|latencies| - 1];
      LatencyBound(h, front, bound);
      var l, d, b := Successes(h, front).latency, Decay(|front|), bound as real;
      assert Successes(h, latencies).latency - b <= 0.7 * (l - b);
      assert (h.latency - b) * (0.7 * d) == 0.7 * ((h.latency - b) * d);
    }
  }

  lemma DecayValues()
    ensures Decay(4) == 0.2401
    ensures Decay(8) == 0.05764801
    ensures Decay(9) == 0.040353607
  {
    assert Decay(2) == 0.49;
    assert Decay(4) == 0.2401;
    assert Decay(6) == 0.117649;
    assert Decay(8) == 0.05764801;
  }

  lemma {:induction false} DecayShrinks(k: nat, n: nat)
    requires k <= n
    ensures 0.0 < Decay(n) <= Decay(k)
    decreases n
  {
    if k < n {
      DecayShrinks(k, n - 1);
    } else if n > 0 {
      DecayShrinks(n - 1, n - 1);
    }
  }

  /** An elite node that is never slower than a second has the full weight of 20 exactly from its ninth success in a
      row on. */
  lemma FullWeightFromNinthSuccess(latencies: seq<nat>)
    requires forall k :: 0 <= k < |latencies| ==> latencies[k] <= 1000
    ensures var h := Successes(FRESH_HEALTH.(anon := Elite), latencies);
            Sane(h) && (Weight(h) == FREE_POOL_WEIGHT_TRUSTED_MAX <==> |latencies| >= 9)
  {
    var start, n := FRESH_HEALTH.(anon := Elite), |latencies|;
    SuccessClosedForm(start, latencies);
    LatencyBound(start, latencies, 1000);
    DecayValues();
    DecayShrinks(0, n);
    var h := Successes(start, latencies);
    CompositeIsFraction(h);
    if n >= 9 {
      DecayShrinks(9, n);
    } else {
      DecayShrinks(n, 8);
    }
  }
}
