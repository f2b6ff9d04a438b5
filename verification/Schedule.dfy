/** Start-to-start cadence and retry delays, over exact real arithmetic. */
module Schedule {
  import opened Basics

  const TOLERANCE: real := 0.000000001
  const BASE: real := 5.0
  const MAXIMUM: real := 300.0

  function RMax(a: real, b: real): real {
    if a < b then b else a
  }

  function RMin(a: real, b: real): real {
    if a < b then a else b
  }

  function Ceil(x: real): int {
    -(-x).Floor
  }

  /** Python's round(x): ties go to the even neighbour. */
  function RoundHalfEven(x: real): (n: int)
    ensures -0.5 <= x - n as real <= 0.5
    ensures x - n as real == 0.5 || x - n as real == -0.5 ==> n % 2 == 0
  {
    var f := x.Floor;
    var rest := x - f as real;
    if rest < 0.5 then f
    else if rest > 0.5 then f + 1
    else if f % 2 == 0 then f else f + 1
  }

  /** round(x, 3) */
  function Millis(x: real): real {
    RoundHalfEven(x * 1000.0) as real / 1000.0
  }

  // ---------- schedule_after_iteration ----------

  datatype Decision = Decision(scheduled: real, actual: real, finished: real, next: real, missed: nat)

  /** The branches on whole intervals elapsed: a near-boundary test, then rounding up. */
  function NextMultiplier(elapsed: real): int {
    var nearest := RoundHalfEven(elapsed);
    if -TOLERANCE <= elapsed - nearest as real <= TOLERANCE then Max(1, nearest)
    else Max(1, elapsed.Floor + 1)
  }

  /** m * interval, as repeated addition. */
  function Times(m: nat, interval: real): real {
    if m == 0 then 0.0 else Times(m - 1, interval) + interval
  }

  lemma {:induction false} TimesIsProduct(m: nat, interval: real)
    ensures Times(m, interval) == m as real * interval
  {
    if m > 0 {
      TimesIsProduct(m - 1, interval);
      assert m as real * interval == (m - 1) as real * interval + interval;
    }
  }

  lemma {:induction false} TimesAdd(m: nat, n: nat, interval: real)
    ensures Times(m + n, interval) == Times(m, interval) + Times(n, interval)
  {
    if n > 0 {
      TimesAdd(m, n - 1, interval);
    }
  }

  lemma {:induction false} TimesMonotone(m: nat, n: nat, interval: real)
    requires m <= n && interval >= 0.0
    ensures 0.0 <= Times(m, interval) <= Times(n, interval)
    decreases n
  {
    if m < n {
      TimesMonotone(m, n - 1, interval);
    } else if m > 0 {
      TimesMonotone(m - 1, n - 1, interval);
    }
  }

  /** Whole intervals from the scheduled start to the next cadence point. */
  function CadenceMultiplier(scheduled: real, finished: real, interval: real): (m: nat)
    ensures m >= 1
    requires interval > 0.0
  {
    if finished - (scheduled + interval) > 0.0
    then NextMultiplier(RMax(0.0, (finished - scheduled) / interval)) else 1
  }

  function After(scheduled: real, actual: real, finishedAt: real, interval: real, backoff: real): Result<Decision, string> {
    if interval <= 0.0 then Err("watch interval must be greater than zero")
    else
      var finished := RMax(finishedAt, actual);
      var m := CadenceMultiplier(scheduled, finished, interval);
      var cadence := scheduled + Times(m, interval);
      var next := RMax(cadence, finished + RMax(0.0, backoff));
      Ok(Decision(scheduled, actual, finished, next, m - 1))
  }

  /** `m` is the first whole number, at least one, that reaches `elapsed` up to the tolerance. */
  predicate Reaches(elapsed: real, m: int) {
    m >= 1 && elapsed <= m as real + TOLERANCE && (m > 1 ==> (m - 1) as real + TOLERANCE < elapsed)
  }

  /** The branching boundary test refines max(1, ceil(elapsed - 1e-9)). */
  lemma BranchesAreClosedForm(elapsed: real)
    requires elapsed > 1.0
    ensures NextMultiplier(elapsed) == Max(1, Ceil(elapsed - TOLERANCE))
    ensures Reaches(elapsed, NextMultiplier(elapsed))
  {
    var f := elapsed.Floor;
    assert f as real <= elapsed < f as real + 1.0;
  }

  lemma ReachesMonotone(e1: real, m1: int, e2: real, m2: int)
    requires e1 <= e2 && Reaches(e1, m1) && Reaches(e2, m2)
    ensures m1 <= m2
  {}

  lemma ScaledOrder(a: real, b: real, interval: real)
    requires interval > 0.0
    ensures a <= b <==> a * interval <= b * interval
    ensures a < b <==> a * interval < b * interval
  {
    if a < b {
      assert (b - a) * interval > 0.0;
    } else if b < a {
      assert (a - b) * interval > 0.0;
    }
  }

  /** Elapsed intervals against elapsed seconds. */
  lemma Elapsed(d: real, interval: real)
    requires interval > 0.0
    ensures (d / interval) * interval == d && (d > interval <==> d / interval > 1.0)
  {
    ScaledOrder(d / interval, 1.0, interval);
  }

  lemma Quotient(d: real, interval: real) returns (e: real)
    requires interval > 0.0
    ensures e == d / interval && e * interval == d
  {
    e := d / interval;
  }

  lemma ElapsedMonotone(d1: real, d2: real, interval: real)
    requires interval > 0.0 && d1 <= d2
    ensures d1 / interval <= d2 / interval
  {
    var a := Quotient(d1, interval);
    var b := Quotient(d2, interval);
    ScaledOrder(a, b, interval);
  }

  lemma CadenceReaches(scheduled: real, finished: real, interval: real)
    requires interval > 0.0
    ensures Reaches((finished - scheduled) / interval, CadenceMultiplier(scheduled, finished, interval))
  {
    var e := (finished - scheduled) / interval;
    Elapsed(finished - scheduled, interval);
    if e > 1.0 {
      BranchesAreClosedForm(e);
    }
  }

  lemma CeilReaches(elapsed: real)
    ensures Reaches(elapsed, Max(1, Ceil(elapsed - TOLERANCE)))
  {}

  /** For every input, on time or late, the branches compute max(1, ceil(elapsed - 1e-9)). */
  lemma CadenceClosedForm(scheduled: real, finished: real, interval: real)
    requires interval > 0.0
    ensures CadenceMultiplier(scheduled, finished, interval) == Max(1, Ceil((finished - scheduled) / interval - TOLERANCE))
  {
    var e := (finished - scheduled) / interval;
    var m, c := CadenceMultiplier(scheduled, finished, interval), Max(1, Ceil(e - TOLERANCE));
    CadenceReaches(scheduled, finished, interval);
    CeilReaches(e);
    ReachesMonotone(e, m, e, c);
    ReachesMonotone(e, c, e, m);
  }

  /** The same in seconds. */
  ghost predicate FirstPoint(scheduled: real, finished: real, interval: real, m: nat) {
    && m >= 1 && interval <= Times(m, interval)
    && finished <= scheduled + Times(m, interval) + TOLERANCE * interval
    && (m > 1 ==> scheduled + Times(m - 1, interval) + TOLERANCE * interval < finished)
  }

  /** p and q are r and e intervals long. */
  lemma ScaledWithTolerance(r: real, e: real, interval: real, p: real, q: real)
    requires interval > 0.0 && p == r * interval && q == e * interval
    ensures e <= r + TOLERANCE <==> q <= p + TOLERANCE * interval
  {
    ScaledOrder(e, r + TOLERANCE, interval);
    assert (r + TOLERANCE) * interval == p + TOLERANCE * interval;
  }

  lemma Seconds(e: real, m: nat, interval: real, q: real)
    requires interval > 0.0 && q == e * interval
    ensures e <= m as real + TOLERANCE <==> q <= Times(m, interval) + TOLERANCE * interval
  {
    TimesIsProduct(m, interval);
    ScaledWithTolerance(m as real, e, interval, Times(m, interval), q);
  }

  lemma ReachesInSeconds(e: real, m: nat, interval: real, q: real)
    requires interval > 0.0 && q == e * interval && Reaches(e, m)
    ensures FirstPoint(0.0, q, interval, m)
  {
    TimesMonotone(1, m, interval);
    assert Times(1, interval) == interval;
    Seconds(e, m, interval, q);
    Seconds(e, m - 1, interval, q);
  }

  lemma CadencePoint(scheduled: real, finished: real, interval: real)
    requires interval > 0.0
    ensures FirstPoint(scheduled, finished, interval, CadenceMultiplier(scheduled, finished, interval))
  {
    var d := finished - scheduled;
    CadenceReaches(scheduled, finished, interval);
    var e := Quotient(d, interval);
    ReachesInSeconds(e, CadenceMultiplier(scheduled, finished, interval), interval, d);
  }

  /** What a decision promises: the cadence point is the first whole number of intervals that
      reaches the finish time up to the tolerance, and the next start is neither before that
      point, nor before one interval, nor before the retry delay has passed. */
  lemma NextStart(scheduled: real, actual: real, finishedAt: real, interval: real, backoff: real)
    requires interval > 0.0
    ensures var d := After(scheduled, actual, finishedAt, interval, backoff).value;
            var finish := RMax(finishedAt, actual);
            && FirstPoint(scheduled, finish, interval, d.missed + 1)
            && d.next == RMax(scheduled + Times(d.missed + 1, interval), finish + RMax(0.0, backoff))
            && d.next >= scheduled + interval && d.next >= finishedAt + RMax(0.0, backoff) && d.next >= actual
            && d.scheduled == scheduled && d.actual == actual && d.finished == finish
  {
    CadencePoint(scheduled, RMax(finishedAt, actual), interval);
  }

  /** Only a positive interval can be scheduled. */
  lemma ScheduledIff(scheduled: real, actual: real, finishedAt: real, interval: real, backoff: real)
    ensures After(scheduled, actual, finishedAt, interval, backoff).Ok? <==> interval > 0.0
  {}

  lemma CadenceMonotone(scheduled: real, f1: real, f2: real, interval: real)
    requires interval > 0.0 && f1 <= f2
    ensures CadenceMultiplier(scheduled, f1, interval) <= CadenceMultiplier(scheduled, f2, interval)
  {
    var e1 := (f1 - scheduled) / interval;
    var e2 := (f2 - scheduled) / interval;
    CadenceReaches(scheduled, f1, interval);
    CadenceReaches(scheduled, f2, interval);
    ElapsedMonotone(f1 - scheduled, f2 - scheduled, interval);
    ReachesMonotone(e1, CadenceMultiplier(scheduled, f1, interval), e2, CadenceMultiplier(scheduled, f2, interval));
  }

  /** A later finish or a longer delay never moves the next start earlier. */
  lemma NextStartMonotone(scheduled: real, actual: real, f1: real, f2: real, interval: real, b1: real, b2: real)
    requires interval > 0.0 && f1 <= f2 && b1 <= b2
    ensures After(scheduled, actual, f1, interval, b1).value.next <= After(scheduled, actual, f2, interval, b2).value.next
    ensures After(scheduled, actual, f1, interval, b1).value.missed <= After(scheduled, actual, f2, interval, b2).value.missed
  {
    var g1, g2 := RMax(f1, actual), RMax(f2, actual);
    CadenceMonotone(scheduled, g1, g2, interval);
    TimesMonotone(CadenceMultiplier(scheduled, g1, interval), CadenceMultiplier(scheduled, g2, interval), interval);
  }

  // ---------- Cadence over a whole run ----------

  /** One iteration as the scheduler last saw it. */
  datatype Lap = Lap(actual: real, finished: real, backoff: real)

  function Decide(scheduled: real, interval: real, lap: Lap): Decision
    requires interval > 0.0
  {
    After(scheduled, lap.actual, lap.finished, interval, lap.backoff).value
  }

  /** The scheduled start after the laps: each next start feeds the following iteration. */
  function StartAfter(start: real, interval: real, laps: seq<Lap>): real
    requires interval > 0.0
    decreases |laps|
  {
    if laps == [] then start
    else Decide(StartAfter(start, interval, laps[..|laps| - 1]), interval, laps[|laps| - 1]).next
  }

  /** The sum of 1 + missed over the laps. */
  function Intervals(start: real, interval: real, laps: seq<Lap>): nat
    requires interval > 0.0
    decreases |laps|
  {
    if laps == [] then 0
    else
      var before := laps[..|laps| - 1];
      Intervals(start, interval, before) + 1
      + Decide(StartAfter(start, interval, before), interval, laps[|laps| - 1]).missed
  }

  /** The retry delay of a lap does not reach past its cadence point. */
  predicate NotBinding(scheduled: real, interval: real, lap: Lap)
    requires interval > 0.0
  {
    var finish := RMax(lap.finished, lap.actual);
    var cadence := scheduled + Times(1 + Decide(scheduled, interval, lap).missed, interval);
    finish + RMax(0.0, lap.backoff) <= RMax(finish, cadence)
  }

  /** It does exactly when the decision is later than both the cadence point and the end. */
  lemma NotBindingIff(scheduled: real, interval: real, lap: Lap)
    requires interval > 0.0
    ensures var d := Decide(scheduled, interval, lap);
            NotBinding(scheduled, interval, lap) <==>
              d.next == RMax(scheduled + Times(d.missed + 1, interval), d.finished)
  {}

  predicate NeverBinding(start: real, interval: real, laps: seq<Lap>)
    requires interval > 0.0
    decreases |laps|
  {
    laps == [] ||
    var before := laps[..|laps| - 1];
    && NeverBinding(start, interval, before)
    && NotBinding(StartAfter(start, interval, before), interval, laps[|laps| - 1])
  }

  lemma LapBounds(scheduled: real, interval: real, lap: Lap)
    requires interval > 0.0
    ensures var d := Decide(scheduled, interval, lap);
            var cadence := scheduled + Times(1 + d.missed, interval);
            && cadence <= d.next
            && lap.finished + RMax(0.0, lap.backoff) <= d.next && lap.actual <= d.next
            && (NotBinding(scheduled, interval, lap) ==> d.next <= cadence + TOLERANCE * interval)
  {
    NextStart(scheduled, lap.actual, lap.finished, interval, lap.backoff);
  }

  lemma DriftStep(start: real, interval: real, k: nat, missed: nat, n: nat, s: real, next: real, tight: bool)
    requires start + Times(k, interval) <= s
    requires tight ==> s <= start + Times(k, interval) + Times(n, TOLERANCE * interval)
    requires s + Times(1 + missed, interval) <= next
    requires tight ==> next <= s + Times(1 + missed, interval) + TOLERANCE * interval
    ensures start + Times(k + 1 + missed, interval) <= next
    ensures tight ==> next <= start + Times(k + 1 + missed, interval) + Times(n + 1, TOLERANCE * interval)
  {
    TimesAdd(k, 1 + missed, interval);
  }

  /** No drift over any run: the n-th start is never earlier than the whole intervals counted,
      and later by at most n tolerances when no retry delay reaches past a cadence point. */
  lemma {:induction false} NoDrift(start: real, interval: real, laps: seq<Lap>)
    requires interval > 0.0
    ensures var exact := start + Times(Intervals(start, interval, laps), interval);
            && exact <= StartAfter(start, interval, laps)
            && (NeverBinding(start, interval, laps) ==>
                  StartAfter(start, interval, laps) <= exact + Times(|laps|, TOLERANCE * interval))
    decreases |laps|
  {
    if laps != [] {
      var n := |laps| - 1;
      var before := laps[..n];
      var s := StartAfter(start, interval, before);
      var d := Decide(s, interval, laps[n]);
      var tight := NeverBinding(start, interval, laps);
      NoDrift(start, interval, before);
      LapBounds(s, interval, laps[n]);
      DriftStep(start, interval, Intervals(start, interval, before), d.missed, n, s, d.next, tight);
    }
  }

  /** No start of a run is before the previous iteration has started and ended and its delay
      has passed. */
  lemma StartsAfterFinish(start: real, interval: real, laps: seq<Lap>, n: nat)
    requires interval > 0.0 && n < |laps|
    ensures var next := StartAfter(start, interval, laps[..n + 1]);
            next >= laps[n].finished + RMax(0.0, laps[n].backoff) && next >= laps[n].actual
  {
    assert laps[..n + 1][..n] == laps[..n];
    LapBounds(StartAfter(start, interval, laps[..n]), interval, laps[n]);
  }

  // ---------- Retry delays ----------

  /** base * 2**exponent */
  function Doubled(base: real, exponent: nat): real {
    if exponent == 0 then base else 2.0 * Doubled(base, exponent - 1)
  }

  function FailureBackoff(failures: int, base: real, maximum: real): real {
    if failures <= 0 then 0.0
    else Millis(RMin(maximum, Doubled(base, Min(failures - 1, 30))))
  }

  function DiscoveryBackoff(failures: int, jitter: real, base: real, maximum: real): Result<real, string> {
    if jitter < 0.0 || jitter > 1.0 then Err("jitter must be between 0 and 1")
    else
      Ok(Jittered(FailureBackoff(failures, base, maximum), jitter, maximum))
  }

  /** Equal jitter below a ceiling, in milliseconds. */
  function Jittered(ceiling: real, jitter: real, maximum: real): real {
    if ceiling <= 0.0 then 0.0 else Millis(RMin(maximum, ceiling * (0.5 + 0.5 * jitter)))
  }

  lemma RoundMonotone(x: real, y: real)
    requires x <= y
    ensures RoundHalfEven(x) <= RoundHalfEven(y)
  {
    assert x.Floor <= y.Floor;
  }

  lemma MillisMonotone(x: real, y: real)
    requires x <= y
    ensures Millis(x) <= Millis(y)
  {
    RoundMonotone(x * 1000.0, y * 1000.0);
  }

  lemma MillisNear(x: real)
    ensures x - 0.0005 <= Millis(x) <= x + 0.0005
  {}

  /** Values with a whole number of milliseconds are kept. */
  lemma MillisExact(k: int)
    ensures Millis(k as real / 1000.0) == k as real / 1000.0
  {
    assert k as real / 1000.0 * 1000.0 == k as real;
  }

  lemma {:induction false} DoubledMonotone(base: real, m: nat, n: nat)
    requires m <= n && base >= 0.0
    ensures 0.0 <= base <= Doubled(base, m) <= Doubled(base, n)
    decreases n
  {
    if m < n {
      DoubledMonotone(base, m, n - 1);
    } else if m > 0 {
      DoubledMonotone(base, m - 1, n - 1);
    }
  }

  /** A longer failure streak never shortens the delay, and the delay never exceeds the
      (rounded) maximum. */
  lemma BackoffMonotone(m: int, n: int, base: real, maximum: real)
    requires m <= n && base >= 0.0 && maximum >= 0.0
    ensures 0.0 <= FailureBackoff(m, base, maximum) <= FailureBackoff(n, base, maximum) <= Millis(maximum)
  {
    MillisExact(0);
    MillisMonotone(0.0, maximum);
    if n > 0 {
      var y := Doubled(base, Min(n - 1, 30));
      DoubledMonotone(base, 0, Min(n - 1, 30));
      MillisMonotone(RMin(maximum, y), maximum);
      MillisMonotone(0.0, RMin(maximum, y));
      if m > 0 {
        var x := Doubled(base, Min(m - 1, 30));
        DoubledMonotone(base, Min(m - 1, 30), Min(n - 1, 30));
        MillisMonotone(0.0, RMin(maximum, x));
        MillisMonotone(RMin(maximum, x), RMin(maximum, y));
      }
    }
  }

  function DoubledInt(base: int, exponent: nat): int {
    if exponent == 0 then base else 2 * DoubledInt(base, exponent - 1)
  }

  lemma {:induction false} DoubledIntMonotone(m: nat, n: nat)
    requires m <= n
    ensures 5 <= DoubledInt(5, m) <= DoubledInt(5, n)
    decreases n
  {
    if m < n {
      DoubledIntMonotone(m, n - 1);
    } else if m > 0 {
      DoubledIntMonotone(m - 1, n - 1);
    }
  }

  lemma {:induction false} DoubledWhole(n: nat)
    ensures Doubled(BASE, n) == DoubledInt(5, n) as real
  {
    if n > 0 {
      DoubledWhole(n - 1);
    }
  }

  /** The shipped delays are whole seconds, 5 * 2**(n-1) below the cap, and reach the cap of
      300 seconds exactly from the seventh failure on. */
  lemma DefaultBackoff(n: int) returns (v: int)
    requires n >= 1
    ensures FailureBackoff(n, BASE, MAXIMUM) == v as real && 5 <= v <= 300
    ensures v == 300 <==> n >= 7
    ensures n < 7 ==> v == DoubledInt(5, n - 1)
  {
    assert DoubledInt(5, 6) == 320 && DoubledInt(5, 5) == 160;
    var e := Min(n - 1, 30);
    DoubledWhole(e);
    DoubledIntMonotone(0, e);
    if n >= 7 {
      DoubledIntMonotone(6, e);
      v := 300;
    } else {
      DoubledIntMonotone(e, 5);
      v := DoubledInt(5, e);
    }
    MillisExact(1000 * v);
    assert (1000 * v) as real / 1000.0 == v as real;
  }

  lemma JitterRange(c: real, jitter: real)
    requires c >= 0.0 && 0.0 <= jitter <= 1.0
    ensures c / 2.0 <= c * (0.5 + 0.5 * jitter) <= c
    ensures c * (0.5 + 0.5 * jitter) == c / 2.0 + c * jitter / 2.0 && c * jitter >= 0.0
  {
    assert c * (1.0 - jitter) >= 0.0 && c * jitter >= 0.0;
  }

  /** A delay between half a whole-millisecond ceiling and that ceiling, after rounding. */
  lemma RoundedWithin(k: int, x: real, maximum: real)
    requires k >= 1 && k as real / 2000.0 <= x <= k as real / 1000.0
    requires k as real / 1000.0 <= maximum + 0.0005
    ensures k as real / 2000.0 - 0.0005 <= Millis(RMin(maximum, x)) <= k as real / 1000.0
  {
    MillisExact(k);
    MillisMonotone(RMin(maximum, x), k as real / 1000.0);
    MillisNear(RMin(maximum, x));
  }

  lemma CeilingIsWhole(n: int, base: real, maximum: real) returns (k: int)
    requires base >= 0.0 && maximum >= 0.0
    ensures FailureBackoff(n, base, maximum) == k as real / 1000.0 && k >= 0
    ensures k as real / 1000.0 <= maximum + 0.0005
  {
    BackoffMonotone(n, n, base, maximum);
    MillisNear(maximum);
    k := if n <= 0 then 0 else RoundHalfEven(RMin(maximum, Doubled(base, Min(n - 1, 30))) * 1000.0);
  }

  lemma JitteredAs(c: real, jitter: real, maximum: real) returns (x: real)
    requires c > 0.0 && 0.0 <= jitter <= 1.0
    ensures c / 2.0 <= x <= c && Jittered(c, jitter, maximum) == Millis(RMin(maximum, x))
  {
    JitterRange(c, jitter);
    x := c * (0.5 + 0.5 * jitter);
  }

  lemma JitteredWithin(k: int, c: real, jitter: real, maximum: real)
    requires k >= 0 && c == k as real / 1000.0 && c <= maximum + 0.0005 && 0.0 <= jitter <= 1.0
    ensures c / 2.0 - 0.0005 <= Jittered(c, jitter, maximum) <= c
  {
    if k > 0 {
      var x := JitteredAs(c, jitter, maximum);
      RoundedWithin(k, x, maximum);
    }
  }

  /** Equal jitter: the delay stays within the ceiling and at least at its half, up to the
      rounding to milliseconds. */
  lemma DiscoveryWithinCeiling(n: int, jitter: real, base: real, maximum: real)
    requires base >= 0.0 && maximum >= 0.0 && 0.0 <= jitter <= 1.0
    ensures var c := FailureBackoff(n, base, maximum);
            c / 2.0 - 0.0005 <= DiscoveryBackoff(n, jitter, base, maximum).value <= c
  {
    var k := CeilingIsWhole(n, base, maximum);
    JitteredWithin(k, FailureBackoff(n, base, maximum), jitter, maximum);
  }

  /** An even number of milliseconds plus `extra` seconds, rounded, exceeds that number
      exactly when the extra is more than half a millisecond. */
  lemma RoundedAbove(k: int, x: real, extra: real)
    requires k % 2 == 0 && extra >= 0.0 && x == k as real / 1000.0 + extra
    ensures Millis(x) > k as real / 1000.0 <==> extra > 0.0005
  {
    var n := RoundHalfEven(x * 1000.0);
    RoundAboveEven(k, x * 1000.0, extra * 1000.0);
    assert n > k <==> n as real / 1000.0 > k as real / 1000.0;
  }

  lemma HalfIsEven(v: int, k: int)
    requires k == 500 * v
    ensures k % 2 == 0
  {}

  lemma HalfInMillis(v: int, k: int)
    requires k == 500 * v
    ensures k as real / 1000.0 == v as real / 2.0
  {}

  lemma JitteredSplit(c: real, jitter: real) returns (x: real, extra: real)
    requires 0.0 < c <= MAXIMUM && 0.0 <= jitter <= 1.0
    ensures extra == c * jitter / 2.0 >= 0.0 && x == c / 2.0 + extra
    ensures Jittered(c, jitter, MAXIMUM) == Millis(x)
  {
    JitterRange(c, jitter);
    x, extra := c * (0.5 + 0.5 * jitter), c * jitter / 2.0;
  }

  lemma JitteredAboveHalf(v: int, c: real, jitter: real)
    requires c == v as real && 0.0 < c <= MAXIMUM && 0.0 <= jitter <= 1.0
    ensures Jittered(c, jitter, MAXIMUM) > c / 2.0 <==> c * jitter > 0.001
  {
    var k := 500 * v;
    HalfIsEven(v, k);
    HalfInMillis(v, k);
    var x, extra := JitteredSplit(c, jitter);
    RoundedAbove(k, x, extra);
  }

  /** The documented interval excludes half the ceiling. With the shipped constants the delay
      is above one half exactly when the jitter is worth more than half a millisecond. */
  lemma DiscoveryAboveHalf(n: int, jitter: real) returns (c: real)
    requires n >= 1 && 0.0 <= jitter <= 1.0
    ensures c == FailureBackoff(n, BASE, MAXIMUM)
    ensures DiscoveryBackoff(n, jitter, BASE, MAXIMUM).value > c / 2.0 <==> c * jitter > 0.001
  {
    var v := DefaultBackoff(n);
    c := v as real;
    JitteredAboveHalf(v, c, jitter);
  }

  lemma RoundAboveEven(k: int, y: real, extra: real)
    requires k % 2 == 0 && extra >= 0.0 && y == k as real + extra
    ensures RoundHalfEven(y) > k <==> extra > 0.5
  {}

  /** A jitter outside the unit interval is refused, and no other. */
  lemma JitterRefusedIff(n: int, jitter: real, base: real, maximum: real)
    ensures DiscoveryBackoff(n, jitter, base, maximum).Err? <==> !(0.0 <= jitter <= 1.0)
  {}

  lemma HalfCeilingIsReached()
    ensures DiscoveryBackoff(1, 0.0, BASE, MAXIMUM) == Ok(2.5)
    ensures FailureBackoff(1, BASE, MAXIMUM) / 2.0 == 2.5
  {
    var v := DefaultBackoff(1);
    MillisExact(2500);
  }
}
