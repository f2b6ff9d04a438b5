/** The supervised loop: failure streak, repeated policy evaluations, and the schedule. */
module Supervisor {
  import opened Basics
  import R = RetryPolicy
  import S = Schedule

  /** What a finished scan hands to the policy. */
  datatype Execution = Execution(phases: map<R.Name, R.Phase>, counts: R.Counts, summary: Option<R.Summary>)

  /** How the steps after the scan went: state save, scan storage, manifest, output file. */
  datatype Tail = Tail(saved: bool, storage: R.Phase, manifestOk: bool, output: Option<bool>)

  const TAIL_PHASES := {R.WatchState, R.ScanStorage, R.ScanManifest, R.WatchOutput}

  function PhaseOf(ok: bool): R.Phase {
    if ok then R.Success else R.FailedPhase
  }

  /** _watch_retry_policy */
  datatype Policy = Policy(failures: nat, backoff: real, decision: R.Eligibility)

  function RetryPolicyFor(x: Execution, phases: map<R.Name, R.Phase>, prior: nat, continues: bool): Policy {
    var d := R.Decide(phases, x.counts, x.summary);
    var failures := if d.eligible then prior + 1 else 0;
    Policy(failures, if continues && d.eligible then S.FailureBackoff(failures, S.BASE, S.MAXIMUM) else 0.0, d)
  }

  /** A failure is counted and delayed exactly when the policy finds one, and there is a delay only
      if the loop goes on. */
  lemma PolicyMeans(x: Execution, phases: map<R.Name, R.Phase>, prior: nat, continues: bool)
    ensures var p := RetryPolicyFor(x, phases, prior, continues);
            && p.failures == (if p.decision.eligible then prior + 1 else 0)
            && (p.backoff > 0.0 <==> continues && p.decision.eligible)
            && (p.backoff == 0.0 <==> !continues || !p.decision.eligible)
  {
    var v := S.DefaultBackoff(prior + 1);
  }

  /** One evaluation of policy and schedule inside an iteration. */
  datatype Evaluation = Evaluation(phases: map<R.Name, R.Phase>, policy: Policy, at: real, next: real)

  /** Worse or added phases, read later on the clock: no earlier next attempt. */
  ghost predicate NotEarlier(a: Evaluation, b: Evaluation) {
    && R.NoBetter(a.phases, b.phases)
    && (a.policy.decision.eligible ==> b.policy.decision.eligible)
    && a.policy.failures <= b.policy.failures && a.policy.backoff <= b.policy.backoff && a.next <= b.next
  }

  function Evaluate(x: Execution, phases: map<R.Name, R.Phase>, prior: nat, continues: bool,
                    scheduled: real, actual: real, at: real, interval: real): Evaluation
    requires interval > 0.0
  {
    var p := RetryPolicyFor(x, phases, prior, continues);
    Evaluation(phases, p, at, S.Decide(scheduled, interval, S.Lap(actual, at, p.backoff)).next)
  }

  lemma EvaluationsNotEarlier(x: Execution, p: map<R.Name, R.Phase>, q: map<R.Name, R.Phase>, prior: nat, continues: bool,
                              scheduled: real, actual: real, t: real, u: real, interval: real)
    requires interval > 0.0 && R.NoBetter(p, q) && t <= u
    ensures NotEarlier(Evaluate(x, p, prior, continues, scheduled, actual, t, interval),
                       Evaluate(x, q, prior, continues, scheduled, actual, u, interval))
  {
    if R.Decide(p, x.counts, x.summary).eligible {
      R.EligibilityMonotone(p, q, x.counts, x.summary);
    }
    S.BackoffMonotone(0, prior + 1, S.BASE, S.MAXIMUM);
    var b1 := RetryPolicyFor(x, p, prior, continues).backoff;
    var b2 := RetryPolicyFor(x, q, prior, continues).backoff;
    S.NextStartMonotone(scheduled, actual, t, u, interval, b1, b2);
  }

  /** The phase map at the four points where the policy is evaluated. */
  function PhasesAt(x: Execution, t: Tail, point: nat): map<R.Name, R.Phase> {
    var p1 := x.phases[R.WatchState := PhaseOf(t.saved)];
    if point <= 1 then p1
    else
      var p2 := p1[R.ScanStorage := t.storage][R.ScanManifest := R.Success];
      if point == 2 then p2
      else
        var p3 := if t.manifestOk then p2 else p2[R.ScanManifest := R.FailedPhase];
        if point == 3 || t.output.None? then p3 else p3[R.WatchOutput := PhaseOf(t.output.value)]
  }

  /** Within an iteration phases are only added or worsened. */
  lemma PhasesWorsen(x: Execution, t: Tail, i: nat, j: nat)
    requires x.phases.Keys !! TAIL_PHASES && i <= j
    ensures R.NoBetter(PhasesAt(x, t, i), PhasesAt(x, t, j))
  {
    assert forall k :: k in x.phases ==> k !in TAIL_PHASES;
  }

  // ---------- One iteration and a whole run ----------

  /** An attempt that raised, a completed one with its clock readings in order, or one whose
      results could not be stored and that ends the loop after its first evaluation. */
  datatype Attempt =
    | Raised(recoverable: bool, discovery: bool, jitter: real, started: real, at: real, recordedAt: real)
    | Completed(x: Execution, tail: Tail, started: real, times: seq<real>)
    | StorageBroke(x: Execution, saved: bool, started: real, at: real)

  predicate ClockOrdered(a: Attempt) {
    match a
    case Raised(_, _, j, _, at, rec) => 0.0 <= j <= 1.0 && at <= rec
    case Completed(x, _, _, ts) =>
      |ts| == 4 && ts[0] <= ts[1] <= ts[2] <= ts[3] && x.phases.Keys !! TAIL_PHASES
    case StorageBroke(x, _, _, _) => x.phases.Keys !! TAIL_PHASES
  }

  /** The iteration counts towards the streak: a recoverable exception, or phases that the policy
      finds eligible when it is last evaluated. */
  predicate Bad(a: Attempt) {
    match a
    case Raised(recoverable, _, _, _, _, _) => recoverable
    case Completed(x, t, _, _) => R.Decide(PhasesAt(x, t, 4), x.counts, x.summary).eligible
    case StorageBroke(x, saved, _, _) => R.Decide(x.phases[R.WatchState := PhaseOf(saved)], x.counts, x.summary).eligible
  }

  predicate Fatal(a: Attempt) {
    a.StorageBroke? || (a.Raised? && !a.recoverable)
  }

  /** A completed iteration with a failed phase of the scan, a failed save, storage, manifest or
      output counts as bad. */
  lemma FailedStepIsBad(a: Attempt)
    requires a.Completed? && ClockOrdered(a)
    requires || (exists k :: k in a.x.phases && k != R.Outbox && a.x.phases[k] in {R.Partial, R.FailedPhase, R.OtherPhase})
             || (R.Outbox in a.x.phases && a.x.phases[R.Outbox] in {R.FailedPhase, R.OtherPhase})
             || !a.tail.saved || a.tail.storage in {R.Partial, R.FailedPhase, R.OtherPhase}
             || !a.tail.manifestOk || a.tail.output == Some(false)
    ensures Bad(a)
  {
    var p := PhasesAt(a.x, a.tail, 4);
    var k;
    if !a.tail.saved { k := R.WatchState; }
    else if a.tail.storage in {R.Partial, R.FailedPhase, R.OtherPhase} { k := R.ScanStorage; }
    else if !a.tail.manifestOk { k := R.ScanManifest; }
    else if a.tail.output == Some(false) { k := R.WatchOutput; }
    else if R.Outbox in a.x.phases && a.x.phases[R.Outbox] in {R.FailedPhase, R.OtherPhase} { k := R.Outbox; }
    else { k :| k in a.x.phases && k != R.Outbox && a.x.phases[k] in {R.Partial, R.FailedPhase, R.OtherPhase}; }
    R.FailedPhaseBacksOff(p, a.x.counts, a.x.summary, k);
  }

  /** One in which everything succeeded or was skipped does not. */
  lemma HealthyIsNotBad(a: Attempt)
    requires a.Completed? && ClockOrdered(a)
    requires forall k :: k in a.x.phases ==> a.x.phases[k] in {R.Success, R.SkippedPhase}
    requires a.tail.saved && a.tail.storage in {R.Success, R.SkippedPhase} && a.tail.manifestOk && a.tail.output != Some(false)
    ensures !Bad(a)
  {
    R.NoFailureIff(PhasesAt(a.x, a.tail, 4), a.x.counts, a.x.summary);
  }

  /** Length of the longest suffix of bad iterations. */
  function BadSuffix(run: seq<Attempt>): nat {
    if run == [] || !Bad(run[|run| - 1]) then 0 else 1 + BadSuffix(run[..|run| - 1])
  }

  lemma {:induction false} BadSuffixIsLongest(run: seq<Attempt>)
    ensures var k := BadSuffix(run);
            && k <= |run|
            && (forall i :: |run| - k <= i < |run| ==> Bad(run[i]))
            && (k < |run| ==> !Bad(run[|run| - k - 1]))
    decreases |run|
  {
    if run != [] && Bad(run[|run| - 1]) {
      var before := run[..|run| - 1];
      BadSuffixIsLongest(before);
      var k := BadSuffix(before);
      forall i | |run| - (k + 1) <= i < |run|
        ensures Bad(run[i])
      {
        if i < |run| - 1 { assert before[i] == run[i]; }
      }
    }
  }

  lemma SuffixNext(past: seq<Attempt>, a: Attempt)
    ensures BadSuffix(past + [a]) == if Bad(a) then BadSuffix(past) + 1 else 0
  {
    assert (past + [a])[..|past|] == past;
  }

  function RaisedBackoff(a: Attempt, failures: nat): real
    requires a.Raised? && 0.0 <= a.jitter <= 1.0
  {
    if !a.recoverable then 0.0
    else if a.discovery then S.DiscoveryBackoff(failures, a.jitter, S.BASE, S.MAXIMUM).value
    else S.FailureBackoff(failures, S.BASE, S.MAXIMUM)
  }

  function EvaluateAt(a: Attempt, point: nat, prior: nat, continues: bool, scheduled: real, interval: real): Evaluation
    requires interval > 0.0 && a.Completed? && ClockOrdered(a) && 1 <= point <= 4
  {
    Evaluate(a.x, PhasesAt(a.x, a.tail, point), prior, continues, scheduled, a.started, a.times[point - 1], interval)
  }

  /** The evaluations of one iteration; the third happens only when the manifest failed. */
  function LogOf(a: Attempt, prior: nat, continues: bool, scheduled: real, interval: real): (log: seq<Evaluation>)
    requires interval > 0.0 && a.Completed? && ClockOrdered(a)
    ensures log != []
  {
    [EvaluateAt(a, 1, prior, continues, scheduled, interval), EvaluateAt(a, 2, prior, continues, scheduled, interval)]
    + (if a.tail.manifestOk then [] else [EvaluateAt(a, 3, prior, continues, scheduled, interval)])
    + [EvaluateAt(a, 4, prior, continues, scheduled, interval)]
  }

  lemma Ordered(a: Attempt, i: nat, j: nat, prior: nat, continues: bool, scheduled: real, interval: real)
    requires interval > 0.0 && a.Completed? && ClockOrdered(a) && 1 <= i < j <= 4
    ensures NotEarlier(EvaluateAt(a, i, prior, continues, scheduled, interval),
                       EvaluateAt(a, j, prior, continues, scheduled, interval))
  {
    PhasesWorsen(a.x, a.tail, i, j);
    EvaluationsNotEarlier(a.x, PhasesAt(a.x, a.tail, i), PhasesAt(a.x, a.tail, j), prior, continues,
                          scheduled, a.started, a.times[i - 1], a.times[j - 1], interval);
  }

  /** Which of the four points the i-th evaluation is. */
  function PointOf(a: Attempt, i: nat): nat
    requires a.Completed?
  {
    if a.tail.manifestOk && i == 2 then 4 else i + 1
  }

  lemma LogAt(a: Attempt, prior: nat, continues: bool, scheduled: real, interval: real, i: nat)
    requires interval > 0.0 && a.Completed? && ClockOrdered(a)
    requires i < |LogOf(a, prior, continues, scheduled, interval)|
    ensures 1 <= PointOf(a, i) <= 4
    ensures LogOf(a, prior, continues, scheduled, interval)[i]
         == EvaluateAt(a, PointOf(a, i), prior, continues, scheduled, interval)
  {}

  /** Re-evaluating policy and schedule inside an iteration never brings the next attempt
      forward, never takes eligibility back and counts the failure at most once. */
  lemma ReevaluationNotEarlier(a: Attempt, prior: nat, continues: bool, scheduled: real, interval: real, i: nat, j: nat)
    requires interval > 0.0 && a.Completed? && ClockOrdered(a)
    requires i < j < |LogOf(a, prior, continues, scheduled, interval)|
    ensures var log := LogOf(a, prior, continues, scheduled, interval);
            NotEarlier(log[i], log[j]) && log[j].policy.failures <= prior + 1
  {
    LogAt(a, prior, continues, scheduled, interval, i);
    LogAt(a, prior, continues, scheduled, interval, j);
    Ordered(a, PointOf(a, i), PointOf(a, j), prior, continues, scheduled, interval);
  }

  /** The clock reading and delay with which an attempt is finally scheduled. */
  function LapOf(a: Attempt, prior: nat): S.Lap
    requires ClockOrdered(a)
  {
    match a
    case Raised(_, _, _, started, _, recordedAt) => S.Lap(started, recordedAt, RaisedBackoff(a, prior + 1))
    case Completed(x, t, started, times) =>
      S.Lap(started, times[3], RetryPolicyFor(x, PhasesAt(x, t, 4), prior, true).backoff)
    case StorageBroke(_, _, started, at) => S.Lap(started, at, 0.0)
  }

  /** When an attempt was over for the schedule. */
  function EndOf(a: Attempt): real
    requires ClockOrdered(a)
  {
    match a
    case Raised(_, _, _, _, _, recordedAt) => recordedAt
    case Completed(_, _, _, times) => times[3]
    case StorageBroke(_, _, _, at) => at
  }

  /** A bad attempt after k earlier ones is retried no sooner than `v` seconds after its end, 5
      doubled k times and at most 300, and for a failed discovery no sooner than half of it up
      to half a millisecond; an attempt that is not bad has no delay. */
  lemma RetryDelay(a: Attempt, k: nat, scheduled: real, interval: real) returns (v: int)
    requires interval > 0.0 && ClockOrdered(a) && !Fatal(a)
    ensures v == (if k >= 6 then 300 else S.DoubledInt(5, k))
    ensures var next := S.Decide(scheduled, interval, LapOf(a, k)).next;
            && (Bad(a) && !(a.Raised? && a.discovery) ==> next >= EndOf(a) + v as real)
            && (Bad(a) && a.Raised? && a.discovery ==> next >= EndOf(a) + v as real / 2.0 - 0.0005)
            && next >= EndOf(a)
            && 0.0 <= LapOf(a, k).backoff <= v as real && (!Bad(a) ==> LapOf(a, k).backoff == 0.0)
  {
    v := S.DefaultBackoff(k + 1);
    if a.Raised? && a.discovery { S.DiscoveryWithinCeiling(k + 1, a.jitter, S.BASE, S.MAXIMUM); }
    S.LapBounds(scheduled, interval, LapOf(a, k));
  }

  predicate AllOrdered(run: seq<Attempt>) {
    forall i :: 0 <= i < |run| ==> ClockOrdered(run[i])
  }

  function LapsOf(run: seq<Attempt>): (laps: seq<S.Lap>)
    requires AllOrdered(run)
    ensures |laps| == |run|
    decreases |run|
  {
    if run == [] then []
    else
      var before := run[..|run| - 1];
      LapsOf(before) + [LapOf(run[|run| - 1], BadSuffix(before))]
  }

  /** The scheduled start after the attempts. */
  function StartOf(start: real, interval: real, run: seq<Attempt>): real
    requires interval > 0.0 && AllOrdered(run)
  {
    S.StartAfter(start, interval, LapsOf(run))
  }

  lemma StartNext(past: seq<Attempt>, a: Attempt, start: real, interval: real)
    requires interval > 0.0 && AllOrdered(past) && ClockOrdered(a)
    ensures StartOf(start, interval, past + [a])
         == S.Decide(StartOf(start, interval, past), interval, LapOf(a, BadSuffix(past))).next
  {
    assert (past + [a])[..|past|] == past;
    assert LapsOf(past + [a])[..|past|] == LapsOf(past);
  }

  /** `start` plus whole intervals is not after t, and t is at most the accumulated tolerance
      later unless a delay has pushed it out. */
  ghost predicate OnCadence(run: seq<Attempt>, start: real, interval: real, t: real)
    requires interval > 0.0 && AllOrdered(run)
  {
    var laps := LapsOf(run);
    var exact := start + S.Times(S.Intervals(start, interval, laps), interval);
    && exact <= t
    && (S.NeverBinding(start, interval, laps) ==> t <= exact + S.Times(|run|, S.TOLERANCE * interval))
  }

  lemma StartsOnCadence(run: seq<Attempt>, start: real, interval: real)
    requires interval > 0.0 && AllOrdered(run)
    ensures OnCadence(run, start, interval, StartOf(start, interval, run))
  {
    S.NoDrift(start, interval, LapsOf(run));
  }

  /** The attempt takes the streak to the next one unless it raised a fatal error, and the start
      unless it is fatal. */
  ghost predicate StepsTo(a: Attempt, interval: real, k: nat, t: real, k': nat, t': real)
    requires interval > 0.0 && ClockOrdered(a)
  {
    && ((Fatal(a) && a.Raised?) || k' == if Bad(a) then k + 1 else 0)
    && (Fatal(a) || t' == S.Decide(t, interval, LapOf(a, k)).next)
  }

  lemma PrefixSteps(run: seq<Attempt>, start: real, interval: real, i: nat)
    requires interval > 0.0 && AllOrdered(run) && i < |run|
    ensures StepsTo(run[i], interval, BadSuffix(run[..i]), StartOf(start, interval, run[..i]),
                    BadSuffix(run[..i + 1]), StartOf(start, interval, run[..i + 1]))
  {
    assert run[..i] + [run[i]] == run[..i + 1];
    SuffixNext(run[..i], run[i]);
    StartNext(run[..i], run[i], start, interval);
  }

  /** The specified streak and start after each number of attempts. */
  lemma Specified(run: seq<Attempt>, start: real, interval: real) returns (k: nat -> nat, t: nat -> real)
    requires interval > 0.0 && AllOrdered(run)
    ensures k(0) == 0 && t(0) == start
    ensures forall i :: 0 <= i <= |run| ==> k(i) == BadSuffix(run[..i])
    ensures forall i :: 0 <= i <= |run| ==> t(i) == StartOf(start, interval, run[..i])
    ensures forall i :: 0 <= i < |run| ==> StepsTo(run[i], interval, k(i), t(i), k(i + 1), t(i + 1))
  {
    k := (i: nat) => if i <= |run| then BadSuffix(run[..i]) else 0;
    t := (i: nat) => if i <= |run| then StartOf(start, interval, run[..i]) else 0.0;
    forall i | 0 <= i < |run|
      ensures StepsTo(run[i], interval, k(i), t(i), k(i + 1), t(i + 1))
    {
      PrefixSteps(run, start, interval, i);
    }
  }

  class WatchLoop {
    const interval: real
    var streak: nat
    var scheduled: real

    constructor (interval: real, now: real)
      requires interval > 0.0
      ensures this.interval == interval && streak == 0 && scheduled == now
    {
      this.interval, streak, scheduled := interval, 0, now;
    }

    /** A completed iteration: the policy and the schedule are evaluated at the points of the
        log; only the last evaluation decides the streak and the next start. */
    method Complete(a: Attempt, continues: bool) returns (log: seq<Evaluation>, lap: S.Lap)
      requires interval > 0.0 && a.Completed? && ClockOrdered(a)
      modifies this
      ensures log == LogOf(a, old(streak), continues, old(scheduled), interval)
      ensures streak == if Bad(a) then old(streak) + 1 else 0
      ensures streak == log[|log| - 1].policy.failures && lap == S.Lap(a.started, a.times[3], log[|log| - 1].policy.backoff)
      ensures scheduled == if continues then S.Decide(old(scheduled), interval, lap).next else old(scheduled)
    {
      var e1 := EvaluateAt(a, 1, streak, continues, scheduled, interval);
      var e2 := EvaluateAt(a, 2, streak, continues, scheduled, interval);
      log := [e1, e2];
      if !a.tail.manifestOk {
        var e3 := EvaluateAt(a, 3, streak, continues, scheduled, interval);
        log := log + [e3];
      }
      var e4 := EvaluateAt(a, 4, streak, continues, scheduled, interval);
      log := log + [e4];
      streak := e4.policy.failures;
      lap := S.Lap(a.started, a.times[3], e4.policy.backoff);
      if continues { scheduled := e4.next; }
    }

    /** An attempt that raised: one more failure if it may be retried, and the schedule read
        again after the failure was recorded. */
    method Raise(a: Attempt, continues: bool) returns (first: real, lap: S.Lap)
      requires interval > 0.0 && a.Raised? && ClockOrdered(a)
      modifies this
      ensures streak == if Bad(a) then old(streak) + 1 else old(streak)
      ensures lap == S.Lap(a.started, a.recordedAt, RaisedBackoff(a, streak))
      ensures scheduled == if Fatal(a) || !continues then old(scheduled) else S.Decide(old(scheduled), interval, lap).next
      ensures first <= S.Decide(old(scheduled), interval, lap).next
    {
      if a.recoverable { streak := streak + 1; }
      var backoff := RaisedBackoff(a, streak);
      first := S.Decide(scheduled, interval, S.Lap(a.started, a.at, backoff)).next;
      S.NextStartMonotone(scheduled, a.started, a.at, a.recordedAt, interval, backoff, backoff);
      lap := S.Lap(a.started, a.recordedAt, backoff);
      if a.recoverable && continues { scheduled := S.Decide(scheduled, interval, lap).next; }
    }

    /** A fatal storage error after the scan: evaluated once, then the loop is left. */
    method Break(a: Attempt, continues: bool)
      requires interval > 0.0 && a.StorageBroke?
      modifies this`streak
      ensures streak == if Bad(a) then old(streak) + 1 else 0
    {
      streak := RetryPolicyFor(a.x, a.x.phases[R.WatchState := PhaseOf(a.saved)], streak, continues).failures;
    }

    /** One attempt, from the specified streak and start to the next. */
    method Iterate(a: Attempt, continues: bool, ghost k: nat, ghost t: real) returns (fatal: bool)
      requires interval > 0.0 && ClockOrdered(a) && StepsTo(a, interval, streak, scheduled, k, t)
      modifies this
      ensures fatal == Fatal(a)
      ensures !(fatal && a.Raised?) ==> streak == k
      ensures scheduled == if fatal || !continues then old(scheduled) else t
    {
      if a.Completed? {
        var log, last := Complete(a, continues);
      } else if a.Raised? {
        var first, last := Raise(a, continues);
      } else {
        Break(a, continues);
      }
      fatal := Fatal(a);
    }

    /** The attempts up to n or the first fatal one, all of them to be continued; `k` and `t` are
        the streak and the start specified after each number of attempts. */
    method RunFor(run: seq<Attempt>, n: nat, ghost k: nat -> nat, ghost t: nat -> real) returns (done: nat, fatal: bool)
      requires interval > 0.0 && AllOrdered(run) && n <= |run|
      requires streak == k(0) && scheduled == t(0)
      requires forall i :: 0 <= i < n ==> StepsTo(run[i], interval, k(i), t(i), k(i + 1), t(i + 1))
      modifies this
      ensures done <= n && (fatal <==> done < n) && (fatal ==> Fatal(run[done]))
      ensures forall i :: 0 <= i < done ==> !Fatal(run[i])
      ensures !fatal ==> streak == k(done)
      ensures scheduled == t(done)
    {
      done, fatal := 0, false;
      while done < n && !fatal
        invariant done <= n && (fatal ==> done < n && Fatal(run[done]))
        invariant forall i :: 0 <= i < done ==> !Fatal(run[i])
        invariant !fatal ==> streak == k(done)
        invariant scheduled == t(done)
        decreases n - done, !fatal
      {
        fatal := Iterate(run[done], true, k(done + 1), t(done + 1));
        if !fatal { done := done + 1; }
      }
    }

    /** How many attempts precede the one at which the limit stops the loop. */
    static function Continued(limit: Option<nat>, all: nat): (n: nat)
      ensures n <= all
    {
      if limit.None? then all else Min(all, Max(1, limit.value) - 1)
    }

    /** A run up to the last attempt, the iteration limit or the first fatal attempt. */
    method RunAll(run: seq<Attempt>, limit: Option<nat>, ghost k: nat -> nat, ghost t: nat -> real)
      returns (done: nat, fatal: bool)
      requires interval > 0.0 && AllOrdered(run)
      requires streak == k(0) && scheduled == t(0)
      requires forall i :: 0 <= i < |run| ==> StepsTo(run[i], interval, k(i), t(i), k(i + 1), t(i + 1))
      modifies this
      ensures fatal ==> done < |run| && Fatal(run[done])
      ensures !fatal ==> done == Min(|run|, Continued(limit, |run|) + 1)
      ensures done <= |run| && forall i :: 0 <= i < done ==> !Fatal(run[i])
      ensures !fatal ==> streak == k(done)
      ensures scheduled == t(Min(done, Continued(limit, |run|)))
    {
      var n := Continued(limit, |run|);
      done, fatal := RunFor(run, n, k, t);
      assert Min(done, n) == done;
      if !fatal && n < |run| {
        assert StepsTo(run[n], interval, streak, scheduled, k(n + 1), t(n + 1));
        fatal := Iterate(run[n], false, k(n + 1), t(n + 1));
        if !fatal { done := n + 1; }
        assert Min(done, n) == n;
      }
    }

    /** A whole run from a fresh loop: the streak is the longest bad suffix of what was
        attempted, and the scheduled start is the fold of the laps of `past`, the attempts before
        the one that the limit ends. */
    method Run(run: seq<Attempt>, limit: Option<nat>) returns (done: nat, fatal: bool, ghost past: seq<Attempt>)
      requires interval > 0.0 && streak == 0 && AllOrdered(run)
      modifies this
      ensures fatal ==> done < |run| && Fatal(run[done])
      ensures !fatal ==> done == Min(|run|, Continued(limit, |run|) + 1)
      ensures done <= |run| && forall i :: 0 <= i < done ==> !Fatal(run[i])
      ensures !fatal ==> streak == BadSuffix(run[..done])
      ensures past == run[..Min(done, Continued(limit, |run|))] && AllOrdered(past)
      ensures scheduled == StartOf(old(scheduled), interval, past)
    {
      ghost var k, t := Specified(run, scheduled, interval);
      done, fatal := RunAll(run, limit, k, t);
      past := run[..Min(done, Continued(limit, |run|))];
    }

    /** The same run with the bounds on its drift. */
    method RunOnCadence(run: seq<Attempt>, limit: Option<nat>)
      returns (done: nat, fatal: bool, ghost past: seq<Attempt>)
      requires interval > 0.0 && streak == 0 && AllOrdered(run)
      modifies this
      ensures past == run[..Min(done, Continued(limit, |run|))] && done <= |run| && AllOrdered(past)
      ensures OnCadence(past, old(scheduled), interval, scheduled)
    {
      done, fatal, past := Run(run, limit);
      StartsOnCadence(past, old(scheduled), interval);
    }
  }
}
