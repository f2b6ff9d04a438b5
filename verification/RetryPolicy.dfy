/** From delivery summary to counts, phase status and backoff eligibility. */
module RetryPolicy {
  import opened Basics
  import P = Provenance

  // ---------- The delivery summary ----------

  datatype Word =
    | Sent | Skipped | Blocked | BlockedRepeat | Duplicate | DryRun
    | FailedWord | RetryableWord | UncertainWord | OtherWord

  /** A delivery: the word in its status, whether that text carries surrounding blanks, and
      the markers found in its detail. */
  datatype Delivery = Delivery(
    word: Word, padded: bool, retryableMark: bool, uncertainMark: bool, failedFinalMark: bool)

  datatype ProvenanceStatus = Observed | Unavailable | OtherStatus

  /** The provenance mapping of a summary as the policy reads it back. */
  datatype Raw = Raw(
    status: ProvenanceStatus, knownContract: bool, hasError: bool,
    unresolved: Slot<int>, inspected: Slot<int>, limit: Slot<int>, complete: Slot<bool>)

  /** `None` stands for a missing attribute, and for a missing or empty provenance mapping. */
  datatype Summary = Summary(failed: Option<int>, deliveries: Option<seq<Delivery>>, provenance: Option<Raw>)

  /** A collected report as it is stored in the summary. */
  function AsRaw(r: P.Report): Raw {
    Raw(if r.observed then Observed else Unavailable, true, !r.observed,
        if r.unresolved.Some? then Has(r.unresolved.value) else BadType,
        Has(r.inspected), Has(r.inspectionLimit), Has(r.coverageComplete))
  }

  // ---------- Counts and phase status ----------

  datatype Counts = Counts(
    failed: Slot<int>, retryable: Slot<int>, uncertain: Slot<int>, failedFinal: Slot<int>,
    unresolved: Slot<int>, incomplete: Slot<int>)

  predicate IsRetryable(d: Delivery) {
    d.word.RetryableWord? || d.retryableMark
  }

  predicate IsUncertain(d: Delivery) {
    !IsRetryable(d) && (d.word.UncertainWord? || d.uncertainMark)
  }

  predicate IsFailedFinal(d: Delivery) {
    !IsRetryable(d) && !IsUncertain(d) && (d.failedFinalMark || d.word.FailedWord?)
  }

  function CountIf(ds: seq<Delivery>, p: Delivery -> bool): (n: nat)
    ensures n == 0 <==> forall i :: 0 <= i < |ds| ==> !p(ds[i])
  {
    if ds == [] then 0
    else
      var last := ds[|ds| - 1];
      CountIf(ds[..|ds| - 1], p) + if p(last) then 1 else 0
  }

  /** telegram_outbox_status_summary: the loop over deliveries fills three counters. */
  method StatusSummary(summary: Option<Summary>) returns (c: Counts)
    ensures c == CountsOf(summary)
  {
    if summary.None? {
      return Counts(Missing, Missing, Missing, Missing, Has(0), Has(1));
    }
    var s := summary.value;
    var ds := if s.deliveries.Some? then s.deliveries.value else [];
    var retryable, uncertain, failedFinal := 0, 0, 0;
    for i := 0 to |ds|
      invariant retryable == CountIf(ds[..i], IsRetryable)
      invariant uncertain == CountIf(ds[..i], IsUncertain)
      invariant failedFinal == CountIf(ds[..i], IsFailedFinal)
    {
      var d := ds[i];
      assert ds[..i + 1][..i] == ds[..i];
      if d.word.RetryableWord? || d.retryableMark {
        retryable := retryable + 1;
      } else if d.word.UncertainWord? || d.uncertainMark {
        uncertain := uncertain + 1;
      } else if d.failedFinalMark || d.word.FailedWord? {
        failedFinal := failedFinal + 1;
      }
    }
    assert ds[..|ds|] == ds;
    c := Counts(Has(if s.failed.Some? then s.failed.value else 0),
                Has(retryable), Has(uncertain), Has(failedFinal), CountedUnresolved(s), CountedIncomplete(s));
  }

  function CountedUnresolved(s: Summary): Slot<int> {
    Has(if s.provenance.Some? && s.provenance.value.unresolved.Has? then s.provenance.value.unresolved.value else 0)
  }

  function CountedIncomplete(s: Summary): Slot<int> {
    Has(if s.provenance.Some? && s.provenance.value.complete == Has(true) then 0 else 1)
  }

  function CountsOf(summary: Option<Summary>): Counts {
    match summary
    case None => Counts(Missing, Missing, Missing, Missing, Has(0), Has(1))
    case Some(s) =>
      var ds := if s.deliveries.Some? then s.deliveries.value else [];
      Counts(Has(if s.failed.Some? then s.failed.value else 0),
             Has(CountIf(ds, IsRetryable)), Has(CountIf(ds, IsUncertain)), Has(CountIf(ds, IsFailedFinal)),
             CountedUnresolved(s), CountedIncomplete(s))
  }

  /** Phase names: the outbox, the steps after the scan, and all the others. */
  datatype Name = Outbox | WatchState | ScanStorage | ScanManifest | WatchOutput | OtherName(text: string)

  datatype Phase = Success | SkippedPhase | Partial | FailedPhase | OtherPhase

  predicate Healthy(p: Phase) {
    p.Success? || p.SkippedPhase?
  }

  function Value(c: Slot<int>): int {
    if c.Has? then c.value else 0
  }

  function OutboxPhase(c: Counts): Phase {
    var failures := Value(c.failed) + Value(c.retryable) + Value(c.uncertain) + Value(c.failedFinal)
                  + Value(c.unresolved) + Value(c.incomplete);
    if failures != 0 then Partial else Success
  }

  // ---------- Eligibility ----------

  datatype Reason =
    | NoOperationalFailure | OperationalPhaseFailure | FailureCountsUnverified | DeliveryOperationalFailure
    | DeliverySourceUnverified | ProvenanceUnverified | ProvenanceCountsUnverified | ProvenanceOnlyDiagnostic

  datatype Eligibility = Eligibility(eligible: bool, reason: Reason)


  predicate Recognised(d: Delivery) {
    !d.padded && d.word in {Sent, Skipped, Blocked, BlockedRepeat, Duplicate, DryRun}
  }

  predicate HasMark(d: Delivery) {
    d.retryableMark || d.uncertainMark || d.failedFinalMark
  }

  predicate CountVerified(c: Slot<int>) {
    c.Has? && c.value >= 0
  }

  predicate ProvenanceShape(r: Raw) {
    && r.complete.Has? && r.unresolved.Has? && r.inspected.Has? && r.limit.Has?
    && 0 <= r.unresolved.value <= r.inspected.value <= r.limit.value && r.limit.value >= 1
    && (r.complete.value || r.inspected.value == r.limit.value)
    && !(r.complete.value && r.unresolved.value == 0)
  }

  /** watch_backoff_eligibility. */
  function Decide(phases: map<Name, Phase>, c: Counts, summary: Option<Summary>): Eligibility {
    if forall k :: k in phases ==> Healthy(phases[k]) then Eligibility(false, NoOperationalFailure)
    else if Outbox !in phases || phases[Outbox] != Partial
            || exists k :: k in phases && k != Outbox && !Healthy(phases[k]) then
      Eligibility(true, OperationalPhaseFailure)
    else if summary.None? || !CountVerified(c.failed) || !CountVerified(c.retryable)
            || !CountVerified(c.uncertain) || !CountVerified(c.failedFinal) then
      Eligibility(true, FailureCountsUnverified)
    else if c.failed.value != 0 || c.retryable.value != 0 || c.uncertain.value != 0 || c.failedFinal.value != 0 then
      Eligibility(true, DeliveryOperationalFailure)
    else if summary.value.failed != Some(0) || summary.value.deliveries.None? then
      Eligibility(true, DeliverySourceUnverified)
    else if exists i :: 0 <= i < |summary.value.deliveries.value| &&
              (!Recognised(summary.value.deliveries.value[i]) || HasMark(summary.value.deliveries.value[i])) then
      Eligibility(true, DeliveryOperationalFailure)
    else
      match summary.value.provenance
      case None => Eligibility(true, ProvenanceUnverified)
      case Some(r) =>
        if !r.status.Observed? || !r.knownContract || r.hasError || !ProvenanceShape(r) then
          Eligibility(true, ProvenanceUnverified)
        else if c.unresolved != r.unresolved || c.incomplete != Has(if r.complete.value then 0 else 1) then
          Eligibility(true, ProvenanceCountsUnverified)
        else Eligibility(false, ProvenanceOnlyDiagnostic)
  }

  // ---------- End to end ----------

  predicate OperationalFailure(d: Delivery) {
    HasMark(d) || d.word in {FailedWord, RetryableWord, UncertainWord}
  }

  ghost predicate SomeFailure(s: Summary) {
    || s.failed != Some(0)
    || (s.deliveries.Some? && exists i :: 0 <= i < |s.deliveries.value| && OperationalFailure(s.deliveries.value[i]))
  }

  /** A status outside the six healthy words that is no failure either, or one with blanks. */
  ghost predicate SomeUnrecognised(s: Summary) {
    s.deliveries.Some? && exists i :: 0 <= i < |s.deliveries.value| && !Recognised(s.deliveries.value[i])
  }

  ghost predicate OthersHealthy(phases: map<Name, Phase>) {
    forall k :: k in phases && k != Outbox ==> Healthy(phases[k])
  }

  lemma CountsSeeFailures(s: Summary)
    requires s.deliveries.Some?
    ensures var ds := s.deliveries.value;
            CountIf(ds, IsRetryable) + CountIf(ds, IsUncertain) + CountIf(ds, IsFailedFinal) == 0
            <==> forall i :: 0 <= i < |ds| ==> !OperationalFailure(ds[i])
  {
    var ds := s.deliveries.value;
    assert forall d: Delivery :: OperationalFailure(d) <==> IsRetryable(d) || IsUncertain(d) || IsFailedFinal(d);
  }

  /** Each further delivery raises exactly one counter by one, or none: a retryable sign comes
      before an uncertain one, and both before a final failure. */
  lemma CountsStep(s: Summary, d: Delivery)
    requires s.deliveries.Some?
    ensures var c, c' := CountsOf(Some(s)), CountsOf(Some(s.(deliveries := Some(s.deliveries.value + [d]))));
            var again := d.word.RetryableWord? || d.retryableMark;
            var unsure := !again && (d.word.UncertainWord? || d.uncertainMark);
            var final := !again && !unsure && (d.word.FailedWord? || d.failedFinalMark);
            && c'.retryable == Has(c.retryable.value + if again then 1 else 0)
            && c'.uncertain == Has(c.uncertain.value + if unsure then 1 else 0)
            && c'.failedFinal == Has(c.failedFinal.value + if final then 1 else 0)
            && c'.failed == c.failed && c'.unresolved == c.unresolved && c'.incomplete == c.incomplete
  {
    var ds := s.deliveries.value;
    assert (ds + [d])[..|ds|] == ds;
  }

  /** Without deliveries the counters are zero; the others are read off the summary. */
  lemma CountsStart(s: Summary)
    ensures var c := CountsOf(Some(s.(deliveries := Some([]))));
            && c.retryable == Has(0) && c.uncertain == Has(0) && c.failedFinal == Has(0)
            && c.failed == Has(if s.failed.Some? then s.failed.value else 0)
            && c.unresolved == Has(if s.provenance.Some? && s.provenance.value.unresolved.Has?
                                   then s.provenance.value.unresolved.value else 0)
            && (c.incomplete == Has(0) <==> s.provenance.Some? && s.provenance.value.complete == Has(true))
            && (c.incomplete == Has(0) || c.incomplete == Has(1))
    ensures CountsOf(Some(s.(deliveries := None))) == CountsOf(Some(s.(deliveries := Some([]))))
  {}

  /** The outbox phase is partial exactly when some counter is not zero. */
  lemma OutboxPartialIff(c: Counts)
    requires forall v :: v in [c.failed, c.retryable, c.uncertain, c.failedFinal, c.unresolved, c.incomplete] ==>
               v.Has? ==> v.value >= 0
    ensures OutboxPhase(c) in {Success, Partial}
    ensures OutboxPhase(c) == Partial <==>
              exists v :: v in [c.failed, c.retryable, c.uncertain, c.failedFinal, c.unresolved, c.incomplete] &&
                v.Has? && v.value > 0
  {
    var all := [c.failed, c.retryable, c.uncertain, c.failedFinal, c.unresolved, c.incomplete];
    assert all[0] in all && all[1] in all && all[2] in all && all[3] in all && all[4] in all && all[5] in all;
  }

  // ---------- Every phase map ----------

  /** A phase that went wrong, whichever it is, backs off; only the outbox may be partial. */
  lemma FailedPhaseBacksOff(phases: map<Name, Phase>, c: Counts, s: Option<Summary>, k: Name)
    requires k in phases && phases[k] != Success && phases[k] != SkippedPhase
    requires k == Outbox ==> phases[k] != Partial
    ensures Decide(phases, c, s) == Eligibility(true, OperationalPhaseFailure)
  {}

  /** No failure at all is reported exactly when every phase succeeded or was skipped. */
  lemma NoFailureIff(phases: map<Name, Phase>, c: Counts, s: Option<Summary>)
    ensures Decide(phases, c, s).reason == NoOperationalFailure <==>
              forall k :: k in phases ==> phases[k] == Success || phases[k] == SkippedPhase
    ensures Decide(phases, c, s).reason == NoOperationalFailure ==> !Decide(phases, c, s).eligible
  {}

  /** All that a summary and its counts must show for a partial outbox to go without back-off:
      no failed delivery by any count or status, and an inspection that finished, reports a
      consistent picture with something in it, and was counted as such. */
  ghost predicate ProvenanceAlone(c: Counts, s: Summary) {
    && c.failed == Has(0) && c.retryable == Has(0) && c.uncertain == Has(0) && c.failedFinal == Has(0)
    && s.failed == Some(0) && s.deliveries.Some?
    && (forall i :: 0 <= i < |s.deliveries.value| ==>
          var d := s.deliveries.value[i];
          && !d.padded && d.word in {Sent, Skipped, Blocked, BlockedRepeat, Duplicate, DryRun}
          && !d.retryableMark && !d.uncertainMark && !d.failedFinalMark)
    && s.provenance.Some?
    && var r := s.provenance.value;
       && r.status == Observed && r.knownContract && !r.hasError
       && r.unresolved.Has? && r.inspected.Has? && r.limit.Has? && r.complete.Has?
       && 0 <= r.unresolved.value <= r.inspected.value <= r.limit.value && 1 <= r.limit.value
       && (if r.complete.value then r.unresolved.value > 0 else r.inspected.value == r.limit.value)
       && c.unresolved == r.unresolved && c.incomplete == Has(if r.complete.value then 0 else 1)
  }

  /** Only a positively established provenance-only partial outbox avoids the back-off: for
      every phase map, counts and summary, exactly when nothing failed or that is the case. */
  lemma AvoidsBackoffIff(phases: map<Name, Phase>, c: Counts, s: Option<Summary>)
    ensures !Decide(phases, c, s).eligible <==>
              || (forall k :: k in phases ==> phases[k] == Success || phases[k] == SkippedPhase)
              || (&& Outbox in phases && phases[Outbox] == Partial && s.Some? && ProvenanceAlone(c, s.value)
                  && forall k :: k in phases && k != Outbox ==> phases[k] == Success || phases[k] == SkippedPhase)
  {}

  /** Every OBSERVED report passes the policy's own checks unless it has nothing to report. */
  lemma ObservedPassesPolicy(table: seq<P.EventRow>, scope: string, before: seq<P.Fingerprint>, after: seq<P.Fingerprint>,
                             r: P.Report)
    requires P.CacheOk(before) && P.Describes(table, scope, before, after, r) && r.observed
    ensures ProvenanceShape(AsRaw(r)) <==> !(r.coverageComplete && r.unresolved == Some(0))
  {
    P.ReportAccounts(table, scope, before, after, r);
  }

  /** End to end, for any table, any pass and any deliveries, with the other phases healthy:
      counts, phase status and policy together select backoff exactly when the inspection was
      unavailable, a delivery failed, or the phase is partial for its provenance alone while
      some delivery has a status the policy does not know. */
  lemma BackoffEndToEnd(table: seq<P.EventRow>, scope: string, before: seq<P.Fingerprint>, after: seq<P.Fingerprint>,
                        r: P.Report, s: Summary, phases: map<Name, Phase>)
    requires P.CacheOk(before) && P.Describes(table, scope, before, after, r)
    requires s.failed.Some? && s.failed.value >= 0 && s.deliveries.Some? && s.provenance == Some(AsRaw(r))
    requires Outbox in phases && OthersHealthy(phases)
    requires phases[Outbox] == OutboxPhase(CountsOf(Some(s)))
    ensures var d := Decide(phases, CountsOf(Some(s)), Some(s));
            var quiet := r.coverageComplete && r.unresolved == Some(0);
            && (d.eligible <==> !r.observed || SomeFailure(s) || (!quiet && SomeUnrecognised(s)))
            && (!d.eligible ==> d.reason == if quiet then NoOperationalFailure else ProvenanceOnlyDiagnostic)
  {
    P.ReportAccounts(table, scope, before, after, r);
    CountsSeeFailures(s);
    assert forall d: Delivery :: !OperationalFailure(d) ==> !HasMark(d);
    if r.observed {
      ObservedPassesPolicy(table, scope, before, after, r);
    }
  }

  /** With the statuses that the sender produces, unknown words drop out of the condition. */
  lemma BackoffForKnownStatuses(table: seq<P.EventRow>, scope: string, before: seq<P.Fingerprint>, after: seq<P.Fingerprint>,
                                r: P.Report, s: Summary, phases: map<Name, Phase>)
    requires P.CacheOk(before) && P.Describes(table, scope, before, after, r)
    requires s.failed.Some? && s.failed.value >= 0 && s.deliveries.Some? && s.provenance == Some(AsRaw(r))
    requires forall i :: 0 <= i < |s.deliveries.value| ==>
               !s.deliveries.value[i].padded && !s.deliveries.value[i].word.OtherWord?
    requires Outbox in phases && OthersHealthy(phases)
    requires phases[Outbox] == OutboxPhase(CountsOf(Some(s)))
    ensures Decide(phases, CountsOf(Some(s)), Some(s)).eligible <==> !r.observed || SomeFailure(s)
  {
    BackoffEndToEnd(table, scope, before, after, r, s, phases);
    if SomeUnrecognised(s) {
      var i :| 0 <= i < |s.deliveries.value| && !Recognised(s.deliveries.value[i]);
      assert OperationalFailure(s.deliveries.value[i]);
    }
  }

  /** Without a summary or without its provenance the run always backs off. */
  lemma MissingEvidenceBacksOff(summary: Option<Summary>, phases: map<Name, Phase>)
    requires summary.Some? ==> summary.value.provenance.None?
    requires summary.Some? && summary.value.failed.Some? ==> summary.value.failed.value >= 0
    requires Outbox in phases && phases[Outbox] == OutboxPhase(CountsOf(summary))
    ensures Decide(phases, CountsOf(summary), summary).eligible
  {
    assert phases[Outbox] == Partial;
  }

  // ---------- Monotonicity in the phases ----------

  function Rank(p: Phase): nat {
    match p
    case Success => 0
    case SkippedPhase => 0
    case Partial => 1
    case FailedPhase => 2
    case OtherPhase => 2
  }

  /** `q` has every phase of `p`, none of them better. */
  ghost predicate NoBetter(p: map<Name, Phase>, q: map<Name, Phase>) {
    forall k :: k in p ==> k in q && Rank(p[k]) <= Rank(q[k])
  }

  /** Adding or worsening a phase never takes eligibility away. */
  lemma EligibilityMonotone(p: map<Name, Phase>, q: map<Name, Phase>, c: Counts, s: Option<Summary>)
    requires NoBetter(p, q) && Decide(p, c, s).eligible
    ensures Decide(q, c, s).eligible
  {
    if forall k :: k in q ==> Healthy(q[k]) {
      assert forall k :: k in p ==> Healthy(p[k]);
    } else if exists k :: k in p && k != Outbox && !Healthy(p[k]) {
      var k :| k in p && k != Outbox && !Healthy(p[k]);
      assert k in q && !Healthy(q[k]);
    }
  }
}
