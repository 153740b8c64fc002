/**
 Per-minute limits turned into a replenishment period, and the number of
 requests the resulting limiter can let through.
 */
module RateLimit {
  import opened Prelude

  const MINUTE_MS: nat := 60_000

  /** Milliseconds between two replenished cells. */
  function PerMinuteToPeriod(perMinute: nat): (period: nat)
    ensures 1 <= period <= MINUTE_MS
  {
    if perMinute == 0 then MINUTE_MS else Max(MINUTE_MS / perMinute, 1)
  }

  datatype Quota = Quota(period: nat, burst: nat) {
    predicate Valid() {
      period >= 1 && burst >= 1
    }
  }

  function BinaryConnectionQuota(perMinute: nat, burstSize: nat): (quota: Quota)
    ensures quota.Valid()
  {
    Quota(PerMinuteToPeriod(perMinute), Max(burstSize, 1))
  }

  /** `q` is the floor of `a / b`. */
  lemma {:induction false} FloorBounds(a: nat, b: nat)
    requires b >= 1
    ensures a / b * b <= a < (a / b + 1) * b
  {
    assert a == a / b * b + a % b;
  }

  lemma {:induction false} FloorAtLeast(a: nat, b: nat, k: nat)
    requires b >= 1 && k * b <= a
    ensures k <= a / b
  {
    FloorBounds(a, b);
  }

  lemma {:induction false} FloorBelow(a: nat, b: nat, k: nat)
    requires b >= 1 && a < k * b
    ensures a / b < k
  {
    FloorBounds(a, b);
  }

  /**
   Rounding the period down makes the limiter more generous than configured,
   but never twice as generous; and it is never stricter exactly when the
   configured rate is expressible at millisecond resolution.
   */
  lemma {:induction false} PeriodTracksPerMinute(perMinute: nat)
    requires perMinute >= 1
    ensures PerMinuteToPeriod(0) == 60_000
    ensures 60_000 / PerMinuteToPeriod(perMinute) < 2 * perMinute
    ensures 60_000 / PerMinuteToPeriod(perMinute) >= perMinute <==> perMinute <= 60_000
  {
    var q := MINUTE_MS / perMinute;
    FloorBounds(MINUTE_MS, perMinute);
    if perMinute <= MINUTE_MS {
      FloorAtLeast(MINUTE_MS, perMinute, 1);
      assert q >= 1 && PerMinuteToPeriod(perMinute) == q;
      assert (q + 1) * perMinute <= 2 * perMinute * q by {
        assert (q + 1) * perMinute == q * perMinute + perMinute;
        assert perMinute <= perMinute * q;
      }
      FloorBelow(MINUTE_MS, q, 2 * perMinute);
      assert perMinute * q == q * perMinute;
      FloorAtLeast(MINUTE_MS, q, perMinute);
    } else {
      FloorBelow(MINUTE_MS, perMinute, 1);
    }
  }

  // The limiter itself is the generic cell rate algorithm in its virtual-scheduling
  // form: `tat` is the theoretical arrival time of the next conforming cell.

  predicate Conforms(quota: Quota, tat: int, now: int) {
    tat - (quota.burst - 1) * quota.period <= now
  }

  function NextArrival(quota: Quota, tat: int, now: int): int {
    (if tat < now then now else tat) + quota.period
  }

  /** The arrival time reached after checking requests at `times`, and those let through. */
  function RunLimiter(quota: Quota, tat: int, times: seq<int>): (int, seq<int>) {
    if times == [] then (tat, [])
    else
      var (before, admitted) := RunLimiter(quota, tat, times[..|times| - 1]);
      var now := times[|times| - 1];
      if Conforms(quota, before, now) then (NextArrival(quota, before, now), admitted + [now])
      else (before, admitted)
  }

  function Admitted(quota: Quota, tat: int, times: seq<int>): seq<int> {
    RunLimiter(quota, tat, times).1
  }

  /** Every admission from request `i` on has pushed the theoretical arrival time a period further. */
  lemma {:induction false} ArrivalAhead(quota: Quota, tat: int, times: seq<int>, i: nat)
    requires quota.Valid() && i < |Admitted(quota, tat, times)|
    ensures var (after, admitted) := RunLimiter(quota, tat, times);
            admitted[i] + (|admitted| - i) * quota.period <= after
    decreases |times|
  {
    var init, now := times[..|times| - 1], times[|times| - 1];
    var (before, earlier) := RunLimiter(quota, tat, init);
    if i < |earlier| {
      ArrivalAhead(quota, tat, init, i);
      assert (|earlier| + 1 - i) * quota.period == (|earlier| - i) * quota.period + quota.period;
    } else {
      assert 1 * quota.period == quota.period;
    }
  }

  /** So admissions keep their distance: at most a burst of them ahead of one per period. */
  lemma {:induction false} AdmissionSpacing(quota: Quota, tat: int, times: seq<int>, i: nat, j: nat)
    requires quota.Valid() && i <= j < |Admitted(quota, tat, times)|
    ensures var admitted := Admitted(quota, tat, times);
            admitted[i] + (j + 1 - i - quota.burst) * quota.period <= admitted[j]
    decreases |times|
  {
    var init, now := times[..|times| - 1], times[|times| - 1];
    var (before, earlier) := RunLimiter(quota, tat, init);
    if j < |earlier| {
      AdmissionSpacing(quota, tat, init, i, j);
    } else {
      assert Admitted(quota, tat, times) == earlier + [now] && j == |earlier|;
      if i < |earlier| {
        ArrivalAhead(quota, tat, init, i);
        BurstAhead(quota, earlier[i], j - i, before, now);
      } else {
        NoneAhead(quota);
      }
    }
  }

  lemma {:induction false} BurstAhead(quota: Quota, x: int, n: int, before: int, now: int)
    requires x + n * quota.period <= before && Conforms(quota, before, now)
    ensures x + (n + 1 - quota.burst) * quota.period <= now
  {
    assert (n + 1 - quota.burst) * quota.period == n * quota.period - (quota.burst - 1) * quota.period;
  }

  lemma {:induction false} NoneAhead(quota: Quota)
    requires quota.Valid()
    ensures (1 - quota.burst) * quota.period <= 0
  {
  }

  /** In any window of length `window` at most `burst + floor(window / period)` requests pass. */
  lemma {:induction false} WindowBound(quota: Quota, tat: int, times: seq<int>, i: nat, j: nat, window: nat)
    requires quota.Valid()
    requires i <= j < |Admitted(quota, tat, times)|
    requires Admitted(quota, tat, times)[j] - Admitted(quota, tat, times)[i] <= window
    ensures j - i + 1 <= quota.burst + window / quota.period
  {
    AdmissionSpacing(quota, tat, times, i, j);
    var excess := j + 1 - i - quota.burst;
    if excess > 0 {
      FloorAtLeast(window, quota.period, excess);
    }
  }

  /** The arrival time never runs further ahead of the last admission than a full burst. */
  lemma {:induction false} ArrivalBound(quota: Quota, tat: int, times: seq<int>)
    requires quota.Valid()
    ensures var (after, admitted) := RunLimiter(quota, tat, times);
            if admitted == [] then after == tat
            else after <= admitted[|admitted| - 1] + quota.burst * quota.period
    decreases |times|
  {
    if times != [] {
      var n := |times| - 1;
      ArrivalBound(quota, tat, times[..n]);
      assert quota.burst * quota.period == (quota.burst - 1) * quota.period + quota.period;
      assert quota.burst * quota.period >= quota.period;
    }
  }

  /**
   The other direction: the limiter admits a request whenever a period has passed since the last one it
   admitted, and a new limiter admits its first.
   */
  lemma {:induction false} AdmitsAfterPeriod(quota: Quota, tat: int, times: seq<int>, now: int)
    requires quota.Valid()
    requires var admitted := Admitted(quota, tat, times);
             if admitted == [] then tat <= now else admitted[|admitted| - 1] + quota.period <= now
    ensures Admitted(quota, tat, times + [now]) == Admitted(quota, tat, times) + [now]
  {
    ArrivalBound(quota, tat, times);
    assert quota.burst * quota.period == (quota.burst - 1) * quota.period + quota.period;
    assert (quota.burst - 1) * quota.period >= 0;
    Cut(times, [now]);
  }

  /** Of requests at one instant a new limiter admits exactly the first `burst`. */
  lemma {:induction false} BurstIsExact(quota: Quota, start: int, now: int, n: nat)
    requires quota.Valid() && start <= now
    ensures var times := seq(n, i => now);
            var (after, admitted) := RunLimiter(quota, start, times);
            && |admitted| == (if n <= quota.burst then n else quota.burst)
            && (if n == 0 then after == start else after == now + |admitted| * quota.period)
    decreases n
  {
    var times := seq(n, i => now);
    if n > 0 {
      BurstIsExact(quota, start, now, n - 1);
      assert times[..n - 1] == seq(n - 1, i => now);
      var m := |Admitted(quota, start, times[..n - 1])|;
      assert (m + 1) * quota.period == m * quota.period + quota.period;
      BurstBoundary(quota, m);
    }
  }

  lemma {:induction false} BurstBoundary(quota: Quota, m: nat)
    requires quota.Valid()
    ensures m * quota.period <= (quota.burst - 1) * quota.period <==> m <= quota.burst - 1
  {
    Multiples(quota.period, quota.burst - 1, m);
    Multiples(quota.period, m, quota.burst - 1);
    assert quota.period * m == m * quota.period;
    assert quota.period * (quota.burst - 1) == (quota.burst - 1) * quota.period;
  }

  /** What that means for a socket with this configuration. */
  lemma {:induction false} BinarySocketBurst(perMinute: nat, burstSize: nat, start: int, now: int, n: nat)
    requires start <= now
    ensures |Admitted(BinaryConnectionQuota(perMinute, burstSize), start, seq(n, i => now))| ==
            if n <= burstSize || n <= 1 then n else Max(burstSize, 1)
  {
    BurstIsExact(BinaryConnectionQuota(perMinute, burstSize), start, now, n);
  }

  /**
   A client that keeps to the configured rate is never limited: a request passes that comes at least
   `gap` after the last one admitted, if `perMinute` such gaps fill a minute.
   */
  lemma {:induction false} RateIsGranted(perMinute: nat, burstSize: nat, start: int, times: seq<int>, now: int, gap: nat)
    requires gap >= 1 && (if perMinute == 0 then gap >= 60_000 else gap * perMinute >= 60_000)
    requires var admitted := Admitted(BinaryConnectionQuota(perMinute, burstSize), start, times);
             if admitted == [] then start <= now else admitted[|admitted| - 1] + gap <= now
    ensures var quota := BinaryConnectionQuota(perMinute, burstSize);
            Admitted(quota, start, times + [now]) == Admitted(quota, start, times) + [now]
  {
    if perMinute > 0 {
      FloorBelow(60_000, perMinute, gap + 1);
    }
    AdmitsAfterPeriod(BinaryConnectionQuota(perMinute, burstSize), start, times, now);
  }

  /** One socket: over any minute fewer than `burst + 2 * perMinute` binary requests reach the pool. */
  lemma {:induction false} BinarySocketMinuteBound(perMinute: nat, burstSize: nat, tat: int, times: seq<int>, i: nat, j: nat)
    requires perMinute >= 1
    requires i <= j < |Admitted(BinaryConnectionQuota(perMinute, burstSize), tat, times)|
    requires Admitted(BinaryConnectionQuota(perMinute, burstSize), tat, times)[j]
          <= Admitted(BinaryConnectionQuota(perMinute, burstSize), tat, times)[i] + MINUTE_MS
    ensures j - i + 1 < Max(burstSize, 1) + 2 * perMinute
  {
    WindowBound(BinaryConnectionQuota(perMinute, burstSize), tat, times, i, j, MINUTE_MS);
    PeriodTracksPerMinute(perMinute);
  }
}
