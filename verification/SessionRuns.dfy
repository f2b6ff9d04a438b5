/** Safety over every run of sessions, with a crash possible inside every disk effect. */
module SessionRuns {
  import opened Basics
  import opened JournalLines
  import opened Session
  import J = Journal

  predicate ReceiptExhausted(r: Option<Receipt>) {
    r.Some? && IsExhausted(r.value.journal)
  }

  function ReceiptOmitted(r: Option<Receipt>): int {
    if ReceiptExhausted(r) then OmittedTotal(r.value.journal) else 0
  }

  function FirstOmitted(r: Option<Receipt>): Stamp
    requires ReceiptExhausted(r)
  {
    r.value.journal.obs.firstOmittedAt
  }

  predicate ReceiptEstablished(r: Option<Receipt>) {
    r.Some? && EstablishedBy(r.value)
  }

  /** A later session can start from this receipt: the validator accepts it and the instant
      it vouches for is a timestamp. */
  ghost predicate Startable(env: Env, r: Receipt) {
    Accepts(env, r) && !r.journal.NullJournal? && GoodStamp(env, BoundaryStamp(r))
  }

  /** How the disk may change over any stretch of a run. */
  ghost predicate Evolves(env: Env, d: Disk, d': Disk) {
    && J.Grows(env.format, d.journal, d'.journal)
    && (d.receipt.Some? ==> d'.receipt.Some?)
    && (d'.receipt != d.receipt ==> d'.receipt.Some? && Startable(env, d'.receipt.value))
    && (ReceiptExhausted(d.receipt) ==>
          && ReceiptExhausted(d'.receipt) && ReceiptOmitted(d.receipt) <= ReceiptOmitted(d'.receipt)
          && FirstOmitted(d'.receipt) == FirstOmitted(d.receipt))
    && (ReceiptEstablished(d.receipt) ==> ReceiptEstablished(d'.receipt))
  }

  lemma EvolvesTransitive(env: Env, a: Disk, b: Disk, c: Disk)
    requires Evolves(env, a, b) && Evolves(env, b, c)
    ensures Evolves(env, a, c)
  {
    J.GrowsTransitive(env.format, a.journal, b.journal, c.journal);
  }

  /** The session in memory agrees with the validator and is not behind the stored receipt. */
  ghost predicate SessionInv(env: Env, w: World, m: Mem) {
    && WellFormed(env, m.state)
    && !m.state.journal.NullJournal? && GoodStamp(env, BoundaryStamp(m.state))
    && (m.state.latest.Dict? ==> m.state.latest.it.finalizedAt.Absent? || GoodStamp(env, m.state.latest.it.finalizedAt))
    && (ReceiptExhausted(w.disk.receipt) ==>
          && IsExhausted(m.state.journal) && ReceiptOmitted(w.disk.receipt) <= OmittedTotal(m.state.journal)
          && m.state.journal.obs.firstOmittedAt == FirstOmitted(w.disk.receipt))
    && (ReceiptEstablished(w.disk.receipt) ==> m.state.established == Has(true))
    && m.state.established.Has?
    && w.inherited + w.declined <= w.omitted
    && OmittedTotal(m.state.journal) == Min(w.inherited + w.declined, MAX_COUNT)
    && (IsExhausted(m.state.journal) <==> OmittedTotal(m.state.journal) != 0)
    && (m.state.journal.Observation? ==>
          Count(m.state.journal.obs.omittedThisSession) == Min(w.declined, MAX_COUNT))
    && (m.advised <==> w.declined != 0 || w.told)
    && m.advisories == (if m.hook.NoHook? || w.declined == 0 || w.told then 0 else 1)
    && (m.advisories == 1 ==> m.state.journal.Observation? && m.state.journal.obs.advisory == HookOutcome(m.hook))
  }

  function HookOutcome(hook: AdvisoryHook): Advisory {
    if hook.HookReturns? then Emitted else Unverified
  }

  ghost predicate Inv(env: Env, w: World) {
    && J.Size(w.disk.journal) <= MAX_COUNT
    && (w.disk.receipt.Some? ==> Accepts(env, w.disk.receipt.value))
    && ReceiptOmitted(w.disk.receipt) <= w.omitted
    && (w.session.Some? ==> SessionInv(env, w, w.session.value))
  }

  lemma AcquireKeeps(env: Env, w: World, s: Start)
    requires Inv(env, w) && Allowed(env, w, Acquire(s))
    ensures var w' := Step(env, w, Do(Acquire(s)));
            w'.session.Some? ==> SessionInv(env, w', w'.session.value)
  {}

  lemma AnsweredKeeps(env: Env, w: World, m: Mem, result: J.AppendResult, now: string)
    requires SessionInv(env, w, m) && env.validStamp(now) && !result.Refused?
    requires result.bytes <= MAX_COUNT
    requires IsExhausted(m.state.journal) ==> result.Exhausted?
    ensures var one := if result.Exhausted? then 1 else 0;
            SessionInv(env, w.(omitted := w.omitted + one, declined := w.declined + one), Answered(m, result, now))
  {}

  /** Suspension and the byte count: what the session needs to know about an answer. */
  lemma AnswerOfPlan(env: Env, w: World, m: Mem, row: Row)
    requires env.Valid() && J.Size(w.disk.journal) <= MAX_COUNT && w.session == Some(m)
    ensures var p := PlanOf(env, w, row);
            && (IsExhausted(m.state.journal) ==> !p.result.Appended?)
            && (!p.result.Refused? ==> p.result.bytes <= MAX_COUNT)
  {
    J.OpeningRecognized(env.format);
  }

  lemma UnrecordedKeeps(env: Env, w: World, m: Mem, status: JournalStatus)
    requires SessionInv(env, w, m) && (status.NotConfigured? || status.CallbackUnattested?)
    ensures SessionInv(env, w, Unrecorded(m, status))
  {}

  /** The session does not depend on the journal file itself. */
  lemma JournalFrame(env: Env, w: World, w': World, m: Mem)
    requires SessionInv(env, w, m) && w'.disk.receipt == w.disk.receipt && w' == w.(disk := w'.disk)
    ensures SessionInv(env, w', m)
  {}

  lemma ObservedKeeps(env: Env, w: World, m: Mem, result: J.AppendResult, now: string)
    requires SessionInv(env, w, m) && env.validStamp(now)
    requires !result.Refused? ==> result.bytes <= MAX_COUNT
    requires IsExhausted(m.state.journal) ==> !result.Appended?
    ensures var one := if m.callback.JournalCallback? && result.Exhausted? then 1 else 0;
            SessionInv(env, w.(omitted := w.omitted + one, declined := w.declined + one), Observed(m, result, now))
  {
    if !m.callback.JournalCallback? {
      assert w.(omitted := w.omitted + 0, declined := w.declined + 0) == w;
      UnrecordedKeeps(env, w, m, if m.callback.NoCallback? then NotConfigured else CallbackUnattested);
    } else if result.Refused? {
      assert w.(omitted := w.omitted + 0, declined := w.declined + 0) == w;
    } else {
      AnsweredKeeps(env, w, m, result, now);
    }
  }

  lemma ObserveKeepsSession(env: Env, w: World, row: Row, now: string)
    requires env.Valid() && Inv(env, w) && Allowed(env, w, Observe(row, now))
    ensures var w' := Step(env, w, Do(Observe(row, now)));
            SessionInv(env, w'.(disk := w.disk), w'.session.value)
  {
    AnswerOfPlan(env, w, w.session.value, row);
    ObservedKeeps(env, w, w.session.value, PlanOf(env, w, row).result, now);
  }

  lemma ObserveKeeps(env: Env, w: World, row: Row, now: string)
    requires env.Valid() && Inv(env, w) && Allowed(env, w, Observe(row, now))
    ensures Inv(env, Step(env, w, Do(Observe(row, now))))
  {
    var w' := Step(env, w, Do(Observe(row, now)));
    ObserveKeepsSession(env, w, row, now);
    J.AppendGrowsWhole(env.format, w.disk.journal, JournalRowOf(env, w.session.value, row));
    JournalFrame(env, w'.(disk := w.disk), w', w'.session.value);
  }

  lemma IterationKeeps(env: Env, w: World, a: Action)
    requires Inv(env, w) && Allowed(env, w, a) && (a.BeginIteration? || a.CompleteIteration? || a.Close?)
    ensures Inv(env, Step(env, w, Do(a)))
  {}

  /** Every completed action keeps the invariant. */
  lemma DoKeeps(env: Env, w: World, a: Action)
    requires env.Valid() && Inv(env, w) && Allowed(env, w, a)
    ensures Inv(env, Step(env, w, Do(a)))
  {
    match a
    case Acquire(s) => AcquireKeeps(env, w, s);
    case Observe(row, now) => ObserveKeeps(env, w, row, now);
    case Persist(_) =>
    case Release =>
    case _ => IterationKeeps(env, w, a);
  }

  /** Every state of the disk that an action can leave, whole or torn, has evolved. */
  lemma DiskEvolves(env: Env, w: World, a: Action, n: nat, k: nat)
    requires env.Valid() && Inv(env, w) && Allowed(env, w, a)
    ensures Evolves(env, w.disk, Step(env, w, Do(a)).disk)
    ensures Evolves(env, w.disk, Step(env, w, CrashIn(a, n, k)).disk)
  {
    var f := env.format;
    if a.Observe? && w.session.Some? {
      J.AppendGrows(f, w.disk.journal, JournalRowOf(env, w.session.value, a.row));
      var ws := PlanOf(env, w, a.row).writes;
      assert J.Grows(f, w.disk.journal, J.Cut(w.disk.journal, ws, n, k));
    }
  }

  lemma StepSafe(env: Env, w: World, e: Event)
    requires env.Valid() && Inv(env, w) && Allowed(env, w, e.a)
    ensures Inv(env, Step(env, w, e)) && Evolves(env, w.disk, Step(env, w, e).disk)
    ensures w.omitted <= Step(env, w, e).omitted
  {
    match e
    case Do(a) =>
      DoKeeps(env, w, a);
      DiskEvolves(env, w, a, 0, 0);
    case CrashIn(a, n, k) =>
      DiskEvolves(env, w, a, n, k);
    case FailIn(a, n, k) =>
      DiskEvolves(env, w, a, n, k);
      FailKeeps(env, w, a, n, k);
  }

  /** An effect that stops with an error leaves the session as it was and safe. */
  lemma FailKeeps(env: Env, w: World, a: Action, n: nat, k: nat)
    requires env.Valid() && Inv(env, w) && Allowed(env, w, a)
    requires Evolves(env, w.disk, Step(env, w, CrashIn(a, n, k)).disk)
    ensures Inv(env, Step(env, w, FailIn(a, n, k)))
  {
    var w' := Step(env, w, FailIn(a, n, k));
    if w.session.Some? { JournalFrame(env, w, w', w.session.value); }
  }

  /** Main result. Over every run of sessions, crashes and failed writes: each receipt stored is accepted by
      the next session's validator and does not block its start; the journal grows by suffixes,
      within its limit, and is frozen once it ends with the terminal record; once a stored receipt
      says BUDGET_EXHAUSTED all later ones do, with an omitted count that never decreases and
      never exceeds the number of rows omitted; and ownership of the journal is never
      forgotten. */
  lemma {:induction false} RunsAreSafe(env: Env, w: World, es: seq<Event>)
    requires env.Valid() && Inv(env, w) && Feasible(env, w, es)
    ensures Inv(env, Run(env, w, es)) && Evolves(env, w.disk, Run(env, w, es).disk)
    ensures w.omitted <= Run(env, w, es).omitted
    decreases |es|
  {
    if es != [] {
      var w1 := Step(env, w, es[0]);
      StepSafe(env, w, es[0]);
      RunsAreSafe(env, w1, es[1..]);
      EvolvesTransitive(env, w.disk, w1.disk, Run(env, w, es).disk);
    }
  }

  /** What a receipt reports after any run: its omission total never exceeds the rows really
      declined, the session's own counts are exact up to saturation, and the advisory hook was
      called once if this session declined a row and the object had not called it before, and
      not otherwise. */
  lemma CountsAreHonest(env: Env, w: World, es: seq<Event>)
    requires env.Valid() && Inv(env, w) && Feasible(env, w, es)
    ensures var w' := Run(env, w, es);
            && ReceiptOmitted(w'.disk.receipt) <= w'.omitted
            && (w'.session.Some? ==>
                  var m := w'.session.value;
                  && OmittedTotal(m.state.journal) == Min(w'.inherited + w'.declined, MAX_COUNT)
                  && m.advisories == (if m.hook.NoHook? || w'.declined == 0 || w'.told then 0 else 1)
                  && (m.advisories == 1 ==> m.state.journal.obs.advisory == HookOutcome(m.hook)))
  {
    RunsAreSafe(env, w, es);
  }

  /** An established journal that has gone missing is never created again. */
  lemma {:induction false} MissingStaysMissing(env: Env, w: World, es: seq<Event>)
    requires env.Valid() && Inv(env, w) && Feasible(env, w, es)
    requires w.disk.journal.None? && ReceiptEstablished(w.disk.receipt)
    ensures Run(env, w, es).disk.journal.None?
    decreases |es|
  {
    if es != [] {
      StepSafe(env, w, es[0]);
      var a := es[0].a;
      if a.Observe? && w.session.Some? {
        J.MissingIsNotRecreated(env.format, JournalRowOf(env, w.session.value, a.row));
      }
      MissingStaysMissing(env, Step(env, w, es[0]), es[1..]);
    }
  }

  /** A receipt that the validator rejects is never overwritten, and no journal row is written
      on its behalf. */
  lemma {:induction false} RejectedReceiptIsKept(env: Env, w: World, es: seq<Event>)
    requires w.session.None? && w.disk.receipt.Some? && !Accepts(env, w.disk.receipt.value)
    ensures var w' := Run(env, w, es);
            w'.disk.receipt == w.disk.receipt && w'.disk.journal == w.disk.journal && w'.session.None?
    decreases |es|
  {
    if es != [] {
      var w1 := Step(env, w, es[0]);
      assert w1.session.None?;
      assert w1.disk.receipt == w.disk.receipt && w1.disk.journal == w.disk.journal;
      RejectedReceiptIsKept(env, w1, es[1..]);
    }
  }

  /** Rows that were once complete lines of the journal stay there, at the same place, over
      every later run: an acknowledged row is never lost, moved or altered. */
  lemma RecordedRowsSurvive(env: Env, w: World, es: seq<Event>)
    requires env.Valid() && Inv(env, w) && Feasible(env, w, es)
    requires w.disk.journal.Some? && EndsLine(w.disk.journal.value)
    ensures var later := Run(env, w, es).disk.journal;
            later.Some? && SplitLines(w.disk.journal.value) <= SplitLines(later.value)
  {
    RunsAreSafe(env, w, es);
    var before, after := w.disk.journal.value, Run(env, w, es).disk.journal.value;
    SplitConcat(before, after[|before|..]);
    assert before + after[|before|..] == after;
  }

  // ---------- Runs that begin without any files ----------

  const EMPTY_DISK := Disk([], None, None)

  /** An exhausted observation, stored or in memory, is backed by the journal's own marker. */
  ghost predicate OwnMarker(env: Env, w: World) {
    && J.Own(env.format, w.disk.journal)
    && (ReceiptExhausted(w.disk.receipt)
        || (w.session.Some? && IsExhausted(w.session.value.state.journal))
        ==> J.Latched(env.format, w.disk.journal))
  }

  /** Ownership of a journal, stored or in memory, is backed by the file. */
  ghost predicate OwnFile(w: World) {
    ReceiptEstablished(w.disk.receipt) || (w.session.Some? && w.session.value.state.established == Has(true))
    ==> w.disk.journal.Some?
  }

  ghost predicate OwnInv(env: Env, w: World) {
    OwnMarker(env, w) && OwnFile(w)
  }

  /** An answer that is no refusal leaves a file. */
  lemma AnswerLeavesFile(f: J.Format, journal: Option<Bytes>, row: J.JournalRow)
    requires f.Valid() && J.CleanRow(row)
    ensures !J.PlanAppend(f, journal, row).result.Refused? ==> J.AppendTo(f, journal, row).Some?
  {
    J.AnswerIsTrue(f, journal, row);
  }

  /** The journal that any event of an observation leaves is an own one. */
  lemma OwnAfterObserve(env: Env, w: World, e: Event)
    requires env.Valid() && Allowed(env, w, e.a) && J.Own(env.format, w.disk.journal) && e.a.Observe?
    ensures J.Own(env.format, Step(env, w, e).disk.journal)
  {
    var row := JournalRowOf(env, w.session.value, e.a.row);
    assert J.CleanRow(row);
    J.OwnJournal(env.format, w.disk.journal, row);
  }

  lemma ExhaustedBy(m: Mem, result: J.AppendResult, now: string)
    requires IsExhausted(Observed(m, result, now).state.journal)
    ensures IsExhausted(m.state.journal) || (m.callback.JournalCallback? && result.Exhausted?)
  {}

  /** An own journal that answers as exhausted ends with the marker. */
  lemma ExhaustedIsLatched(f: J.Format, journal: Option<Bytes>, row: J.JournalRow)
    requires f.Valid() && J.CleanRow(row) && J.Own(f, journal) && J.PlanAppend(f, journal, row).result.Exhausted?
    ensures J.Latched(f, J.AppendTo(f, journal, row))
  {
    J.OwnJournal(f, journal, row);
  }

  /** An observation that leaves the session exhausted leaves the journal latched. */
  lemma LatchedAfterObserve(env: Env, w: World, row: Row, now: string)
    requires env.Valid() && Inv(env, w) && Allowed(env, w, Observe(row, now)) && OwnMarker(env, w)
    requires !J.Latched(env.format, w.disk.journal)
    ensures var w' := Step(env, w, Do(Observe(row, now)));
            IsExhausted(w'.session.value.state.journal) ==> J.Latched(env.format, w'.disk.journal)
  {
    var m, jr := w.session.value, JournalRowOf(env, w.session.value, row);
    var result := PlanOf(env, w, row).result;
    assert J.CleanRow(jr);
    if IsExhausted(Observed(m, result, now).state.journal) {
      ExhaustedBy(m, result, now);
      ExhaustedIsLatched(env.format, w.disk.journal, jr);
    }
  }

  /** No event takes the marker away. */
  lemma LatchedStays(env: Env, w: World, e: Event)
    requires env.Valid() && Inv(env, w) && Allowed(env, w, e.a) && J.Latched(env.format, w.disk.journal)
    ensures J.Latched(env.format, Step(env, w, e).disk.journal)
  {
    StepSafe(env, w, e);
  }

  lemma OwnMarkerStep(env: Env, w: World, e: Event)
    requires env.Valid() && Inv(env, w) && Allowed(env, w, e.a) && OwnMarker(env, w)
    ensures OwnMarker(env, Step(env, w, e))
  {
    if e.a.Observe? { OwnAfterObserve(env, w, e); }
    if J.Latched(env.format, w.disk.journal) {
      LatchedStays(env, w, e);
    } else if e.a.Observe? {
      LatchedAfterObserve(env, w, e.a.row, e.a.now);
    }
  }

  lemma OwnFileStep(env: Env, w: World, e: Event)
    requires env.Valid() && Inv(env, w) && Allowed(env, w, e.a) && OwnFile(w)
    ensures OwnFile(Step(env, w, e))
  {
    StepSafe(env, w, e);
    if e.a.Observe? {
      var row := JournalRowOf(env, w.session.value, e.a.row);
      assert J.CleanRow(row);
      AnswerLeavesFile(env.format, w.disk.journal, row);
    }
  }

  lemma OwnStep(env: Env, w: World, e: Event)
    requires env.Valid() && Inv(env, w) && Allowed(env, w, e.a) && OwnInv(env, w)
    ensures OwnInv(env, Step(env, w, e))
  {
    OwnMarkerStep(env, w, e);
    OwnFileStep(env, w, e);
  }

  /** From no files at all: the journal begins with its header, fits its limit, and carries at
      most one terminal record, at its end; a receipt says BUDGET_EXHAUSTED only when the
      journal ends with that record. */
  lemma {:induction false} FreshRuns(env: Env, w: World, es: seq<Event>)
    requires env.Valid() && Inv(env, w) && OwnInv(env, w) && Feasible(env, w, es)
    ensures OwnInv(env, Run(env, w, es))
    decreases |es|
  {
    if es != [] {
      StepSafe(env, w, es[0]);
      OwnStep(env, w, es[0]);
      FreshRuns(env, Step(env, w, es[0]), es[1..]);
    }
  }

  lemma EmptyDiskIsFresh(env: Env)
    ensures var w := World(EMPTY_DISK, None, 0, 0, 0, false);
            Inv(env, w) && OwnInv(env, w)
  {}

  /** The size test of an append, for a file that may still have to be created. */
  predicate Fits(env: Env, journal: Option<Bytes>, row: Row) {
    (if journal.None? then |env.format.header| else |journal.value|) + |env.rowPayload(row)| + 1 + RESERVE <= J.MAX_JOURNAL
  }

  lemma OwnRowAnswer(env: Env, w: World, row: Row)
    requires env.Valid() && OwnInv(env, w) && w.session.Some?
    requires |env.format.terminal| <= RESERVE && |env.rowPayload(row)| <= J.MAX_RECORD
    ensures var r, j := PlanOf(env, w, row).result, w.disk.journal;
            var whole := j.None? || EndsLine(j.value);
            && (r.Refused? <==> !whole)
            && (r.Appended? <==> whole && !J.Latched(env.format, j) && Fits(env, j, row))
            && (r.Exhausted? <==> whole && (J.Latched(env.format, j) || !Fits(env, j, row)))
  {
    var f := env.format;
    var jr := JournalRowOf(env, w.session.value, row);
    J.OpeningRecognized(f);
    J.AnswerIff(f, w.disk.journal, jr);
    if w.disk.journal.Some? { J.OwnRecognizedIff(f, w.disk.journal.value); }
  }

  /** Over every run from no files: a row is refused exactly when a write was cut off before,
      declined exactly when the journal has latched or has no room, and recorded otherwise. */
  lemma RowAnswerOverRuns(env: Env, es: seq<Event>, row: Row)
    requires env.Valid() && Feasible(env, World(EMPTY_DISK, None, 0, 0, 0, false), es)
    requires |env.format.terminal| <= RESERVE && |env.rowPayload(row)| <= J.MAX_RECORD
    requires Run(env, World(EMPTY_DISK, None, 0, 0, 0, false), es).session.Some?
    ensures var w := Run(env, World(EMPTY_DISK, None, 0, 0, 0, false), es);
            var r, j := PlanOf(env, w, row).result, w.disk.journal;
            var whole := j.None? || EndsLine(j.value);
            && (r.Refused? <==> !whole)
            && (r.Exhausted? <==> whole && (J.Latched(env.format, j) || !Fits(env, j, row)))
            && (r.Appended? <==> whole && !J.Latched(env.format, j) && Fits(env, j, row))
  {
    var w0 := World(EMPTY_DISK, None, 0, 0, 0, false);
    EmptyDiskIsFresh(env);
    FreshRuns(env, w0, es);
    OwnRowAnswer(env, Run(env, w0, es), row);
  }

  /** The first session of a database owns no journal yet, and its first row makes one. */
  lemma FirstSession(env: Env, s: Start, row: Row, now: string)
    requires env.Valid() && env.validStamp(s.startedAt) && s.callback.JournalCallback?
    requires |env.format.terminal| <= RESERVE && |env.rowPayload(row)| <= J.MAX_RECORD
    ensures var w := Step(env, World(EMPTY_DISK, None, 0, 0, 0, false), Do(Acquire(s)));
            && w.session.Some? && w.session.value.state.established == Has(false)
            && w.session.value.state.journal == NoJournal && w.disk.journal.None?
            && var w' := Step(env, w, Do(Observe(row, now)));
               && w'.disk.journal == Some(env.format.header + env.rowPayload(row) + [LF])
               && w'.session.value.state.established == Has(true)
  {
    var f := env.format;
    var w := Step(env, World(EMPTY_DISK, None, 0, 0, 0, false), Do(Acquire(s)));
    var jr := JournalRowOf(env, w.session.value, row);
    J.OpeningRecognized(f);
    J.AnswerIff(f, None, jr);
    J.ApplyAllAppend(None, [J.Create, J.Extend(f.header)], [J.Extend(jr.payload + [LF])]);
    J.ApplyOne(Some(f.header), J.Extend(jr.payload + [LF]));
    assert f.header + (jr.payload + [LF]) == f.header + env.rowPayload(row) + [LF];
  }

  /** What a session's observation reports is what the disk then shows. */
  lemma ObservationIsTrue(env: Env, w: World, row: Row, now: string)
    requires env.Valid() && Inv(env, w) && Allowed(env, w, Observe(row, now))
    ensures var w' := Step(env, w, Do(Observe(row, now)));
            var m, m' := w.session.value, w'.session.value;
            var r := PlanOf(env, w, row).result;
            && (m.callback.JournalCallback? && !r.Refused? ==>
                  && m'.state.journal.Observation? && m'.state.established == Has(true)
                  && var o := m'.state.journal.obs;
                     && o.bytes == Has(J.Size(w'.disk.journal)) && o.limitBytes == Has(33554432)
                     && (o.status.Recording? <==> r.Appended?) && (o.status.BudgetExhausted? <==> r.Exhausted?)
                     && (o.coverageComplete == Has(true) <==> w'.inherited + w'.declined == 0)
                     && o.advisory == if m'.advisories > m.advisories
                                      then if m.hook.HookReturns? then Emitted else Unverified
                                      else if m.state.journal.Observation? then m.state.journal.obs.advisory
                                      else NotRequested)
            && (m.callback.JournalCallback? && r.Refused? ==> m' == m)
            && (!m.callback.JournalCallback? ==>
                  && w'.disk == w.disk && m'.state.established == m.state.established
                  && (IsExhausted(m.state.journal) ==> m' == m)
                  && (!IsExhausted(m.state.journal) ==>
                        && m'.state.journal.Observation? && m'.state.journal.obs.coverageComplete == Has(false)
                        && m'.state.journal.obs.status
                           == if m.callback.NoCallback? then NotConfigured else CallbackUnattested))
  {
    AnswerOfPlan(env, w, w.session.value, row);
    J.AnswerIsTrue(env.format, w.disk.journal, JournalRowOf(env, w.session.value, row));
  }

  /** A crash after the marker and before the receipt loses nothing: the next observation of
      any session finds the marker, declines the row and is exhausted again. */
  lemma MarkerSurvivesCrash(env: Env, w: World, row: Row, now: string)
    requires env.Valid() && Inv(env, w) && OwnInv(env, w) && Allowed(env, w, Observe(row, now))
    requires J.Latched(env.format, w.disk.journal) && w.session.value.callback.JournalCallback?
    requires |env.format.terminal| <= RESERVE && |env.rowPayload(row)| <= J.MAX_RECORD
    ensures var w' := Step(env, w, Do(Observe(row, now)));
            && w'.disk == w.disk && w'.omitted == w.omitted + 1
            && IsExhausted(w'.session.value.state.journal)
  {
    J.MarkerAnswers(env.format, w.disk.journal, JournalRowOf(env, w.session.value, row));
  }

  // ---------- What the validator accepts ----------

  predicate IsHexDigit(c: char) {
    c in {'0', '1', '2', '3', '4', '5', '6', '7', '8', '9', 'a', 'b', 'c', 'd', 'e', 'f'}
  }

  lemma SessionIdIff(s: string)
    ensures IsSessionId(s) <==> |s| == 32 && forall i :: 0 <= i < |s| ==> IsHexDigit(s[i])
  {
    forall i | 0 <= i < |s|
      ensures IsHexDigit(s[i]) <==> '0' <= s[i] <= '9' || 'a' <= s[i] <= 'f'
    {}
  }

  /** Which value of each identifying field may stand in an accepted receipt in place of its own. */
  lemma FieldAcceptedIff(env: Env, r: Receipt, other: Receipt)
    requires WellFormed(env, r)
    ensures WellFormed(env, r.(contract := other.contract)) <==> other.contract == r.contract
    ensures WellFormed(env, r.(databaseId := other.databaseId)) <==> other.databaseId == r.databaseId
    ensures WellFormed(env, r.(sessionId := other.sessionId)) <==>
              |other.sessionId| == 32 && forall i :: 0 <= i < 32 ==> IsHexDigit(other.sessionId[i])
    ensures WellFormed(env, r.(pid := other.pid)) <==> other.pid.Has? && other.pid.value >= 1
    ensures WellFormed(env, r.(startedAt := other.startedAt)) <==> GoodStamp(env, other.startedAt)
  {
    SessionIdIff(other.sessionId);
  }

  /** The same for the fields of the end, which must agree with each other. */
  lemma EndAcceptedIff(env: Env, r: Receipt, stage: Stage, at: Stamp, outcome: Outcome)
    requires WellFormed(env, r)
    ensures WellFormed(env, r.(stage := stage, finalizedAt := at, outcome := outcome)) <==>
              || (&& stage.Finalized? && at.At? && env.validStamp(at.text)
                  && outcome in {Completed, Cancelled, StartupFailed, Failed})
              || (stage.Starting? && at == NotAvailable && outcome.OutcomeNA?)
              || (stage.Running? && at == NotAvailable && outcome.OutcomeNA? && r.latest.Dict?)
  {}

  /** The same for the iteration. */
  lemma IterationAcceptedIff(env: Env, r: Receipt, latest: Latest)
    requires WellFormed(env, r)
    ensures WellFormed(env, r.(latest := latest)) <==>
              || (latest.Empty? && !r.stage.Running?)
              || (&& latest.Dict? && latest.it.number.Has? && latest.it.number.value >= 1 && latest.it.completed.Has?
                  && GoodStamp(env, latest.it.actualStart) && GoodStamp(env, latest.it.scheduledStart)
                  && (!latest.it.completed.value || GoodStamp(env, latest.it.finalizedAt)))
  {}

  predicate Counted(c: Slot<int>) {
    c.Has? && 0 <= c.value < 0x8000_0000_0000_0000
  }

  /** The same for the journal and its ownership: a recording one has omitted nothing and is
      complete, an exhausted one has omitted something since a known time and is not. */
  lemma JournalAcceptedIff(env: Env, r: Receipt, established: Slot<bool>, j: JournalField)
    requires WellFormed(env, r)
    ensures WellFormed(env, r.(established := established, journal := j)) <==>
              && !established.BadType?
              && (|| j.NoJournal? || j.NullJournal?
                  || (j.Observation? && (j.obs.status.NotConfigured? || j.obs.status.CallbackUnattested?))
                  || (&& j.Observation? && (established.Has? ==> established.value)
                      && Counted(j.obs.bytes) && Counted(j.obs.limitBytes) && Counted(j.obs.omittedThisSession)
                      && j.obs.omittedTotal.Has? && j.obs.coverageComplete.Has?
                      && (|| (j.obs.status.Recording? && j.obs.omittedTotal.value == 0 && j.obs.coverageComplete.value)
                          || (&& j.obs.status.BudgetExhausted? && 0 < j.obs.omittedTotal.value <= MAX_COUNT
                              && !j.obs.coverageComplete.value && GoodStamp(env, j.obs.firstOmittedAt)))))
  {
    if j.Observation? && j.obs.coverageComplete.Has? {
      assert j.obs.coverageComplete == Has(j.obs.coverageComplete.value);
    }
  }

  /** What a session takes over from a receipt that older code wrote without the ownership field:
      ownership unless it names a journal that is not recorded. */
  lemma OlderReceipt(env: Env, s: Start, prior: Receipt)
    requires CanStart(env, s, Some(prior))
    ensures (prior.journal.NoJournal? || prior.journal.Observation?) && !prior.established.BadType?
    ensures var owned := FreshState(env, s, Some(prior)).established;
            && owned.Has?
            && (prior.established.Has? ==> owned.value == prior.established.value)
            && (prior.established.Missing? ==>
                  (owned.value <==> prior.journal.NoJournal? || prior.journal.obs.status in {Recording, BudgetExhausted}))
  {}

  // ---------- The caller's promise that an iteration is started first ----------

  /** Finishing keeps the state acceptable exactly when an iteration had been started. */
  lemma FinishNeedsStart(env: Env, r: Receipt, status: string, now: string)
    requires WellFormed(env, r) && env.validStamp(now)
    ensures WellFormed(env, Finished(r, status, now)) <==> r.latest.Dict?
  {}

  /** Finishing first: the receipt is stored and then no session can ever start again. */
  lemma FinishFirstStrands(env: Env, w: World, status: string, now: string, es: seq<Event>)
    requires Inv(env, w) && w.session.Some? && w.session.value.state.latest.Empty? && env.validStamp(now)
    requires env.receiptSize(Finished(w.session.value.state, status, now)) <= MAX_RECEIPT
    ensures var w' := Run(env, w, [Do(CompleteIteration(status, now)), Do(Persist(true)), Do(Release)] + es);
            w'.session.None? && w'.disk.receipt.Some? && !Accepts(env, w'.disk.receipt.value)
  {
    var first := [Do(CompleteIteration(status, now)), Do(Persist(true)), Do(Release)];
    var w1 := Step(env, w, first[0]);
    var w2 := Step(env, w1, first[1]);
    var w3 := Step(env, w2, first[2]);
    FinishNeedsStart(env, w.session.value.state, status, now);
    var rest1 := first[1..] + es;
    var rest2 := first[2..] + es;
    assert (first + es)[1..] == rest1 && rest1[1..] == rest2 && rest2[1..] == es;
    assert (first + es)[0] == first[0] && rest1[0] == first[1] && rest2[0] == first[2];
    assert Run(env, w, first + es) == Run(env, w1, rest1);
    assert Run(env, w1, rest1) == Run(env, w2, rest2);
    assert Run(env, w2, rest2) == Run(env, w3, es);
    RejectedReceiptIsKept(env, w3, es);
  }
}
