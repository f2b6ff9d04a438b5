/** The session as the source runs it: an object whose methods change its state and three
    files in place. Each method is proved to be a sequence of the primitive steps. */
module WatchSessionObject {
  import opened Basics
  import opened JournalLines
  import opened Session
  import opened SessionRuns
  import J = Journal

  class Files {
    var marker: Bytes
    var journal: Option<Bytes>
    var receipt: Option<Receipt>
    /** Every write made to the journal, in order. */
    ghost var log: seq<J.Write>

    ghost function Disk(): Session.Disk
      reads this
    {
      Session.Disk(marker, journal, receipt)
    }

    method WriteJournal(w: J.Write)
      requires w.Create? || journal.Some?
      modifies this`journal, this`log
      ensures journal == J.Apply(old(journal), w) && log == old(log) + [w]
    {
      match w {
        case Create => if journal.None? { journal := Some([]); }
        case Extend(c) => journal := Some(journal.value + c);
      }
      log := log + [w];
    }

    /** The part of an append that holds the file open: `j` is its recognized content. */
    method AppendOpen(f: J.Format, j: Bytes, row: J.JournalRow) returns (r: J.AppendResult)
      requires j != [] && journal == Some(j)
      modifies this`journal, this`log
      ensures r == J.PlanOpen(f, j, row).result
      ensures log == old(log) + J.PlanOpen(f, j, row).writes
      ensures journal == J.ApplyAll(Some(j), J.PlanOpen(f, j, row).writes)
    {
      var tailLines := SplitLines(Tail(j, RESERVE + 1));
      var present := tailLines[|tailLines| - 1] == f.terminal;
      if row.suspended || present || J.OverBudget(j, row) {
        if !present && |j| + |f.terminal| <= J.MAX_JOURNAL {
          WriteJournal(J.Extend(f.terminal));
          J.ApplyOne(Some(j), J.Extend(f.terminal));
          return J.Exhausted(true, |j| + |f.terminal|);
        }
        return J.Exhausted(present, |j|);
      }
      WriteJournal(J.Extend(row.payload + [LF]));
      J.ApplyOne(Some(j), J.Extend(row.payload + [LF]));
      return J.Appended(|j| + |row.payload| + 1);
    }

    /** Exclusive creation with the header, for a journal that is not known to exist. */
    method CreateIfNew(f: J.Format, established: bool) returns (ghost opening: seq<J.Write>)
      modifies this`journal, this`log
      ensures opening == if !established && old(journal).None? then [J.Create, J.Extend(f.header)] else []
      ensures log == old(log) + opening && journal == J.ApplyAll(old(journal), opening)
    {
      opening := [];
      if !established && journal.None? {
        WriteJournal(J.Create);
        WriteJournal(J.Extend(f.header));
        opening := [J.Create, J.Extend(f.header)];
        J.ApplyOne(old(journal), J.Create);
        J.ApplyOne(Some([]), J.Extend(f.header));
        J.ApplyAllAppend(old(journal), [J.Create], [J.Extend(f.header)]);
        assert [J.Create] + [J.Extend(f.header)] == opening;
      }
    }

    /** append_session_observation. */
    method Append(f: J.Format, row: J.JournalRow) returns (r: J.AppendResult)
      modifies this`journal, this`log
      ensures r == J.PlanAppend(f, old(journal), row).result
      ensures log == old(log) + J.PlanAppend(f, old(journal), row).writes
      ensures journal == J.AppendTo(f, old(journal), row)
      ensures f.Valid() ==> J.Grows(f, old(journal), journal)
      ensures f.Valid() && J.Latched(f, old(journal)) ==> !r.Appended? && journal == old(journal)
    {
      if |f.terminal| > RESERVE { r := J.Refused(J.TerminalTooLong); }
      else if |row.payload| > J.MAX_RECORD { r := J.Refused(J.RecordTooLong); }
      else {
        ghost var before := journal;
        ghost var opening := CreateIfNew(f, row.suspended || row.previouslyEstablished);
        if journal.None? {
          r := J.Refused(J.Unavailable);
        } else if !J.Recognized(f, journal.value) {
          r := J.Refused(J.Corrupt);
        } else {
          J.ApplyAllAppend(before, opening, J.PlanOpen(f, journal.value, row).writes);
          r := AppendOpen(f, journal.value, row);
        }
      }
      if f.Valid() {
        J.AppendGrowsWhole(f, old(journal), row);
        if J.Latched(f, old(journal)) { J.LatchedForever(f, old(journal), row); }
      }
    }

    /** An append whose write or flush raises: some of the planned bytes are there. */
    method AppendFails(f: J.Format, row: J.JournalRow, fault: Fault)
      modifies this`journal
      ensures journal == J.Cut(old(journal), J.PlanAppend(f, old(journal), row).writes, fault.n, fault.k)
      ensures f.Valid() ==> J.Grows(f, old(journal), journal)
    {
      if f.Valid() { J.AppendGrows(f, journal, row); }
      journal := J.Cut(journal, J.PlanAppend(f, journal, row).writes, fault.n, fault.k);
    }
  }

  /** Where a journal write stops: after `n` whole writes and `k` bytes of the next. */
  datatype Fault = Fault(n: nat, k: nat)

  // ---------- The bounded retry of the atomic rename ----------

  /** One rename: it works, is blocked by another process on Windows, or fails otherwise. */
  datatype Rename = Renames | SharingBlocked | OtherError

  const RETRY_DELAYS: seq<real> := [0.01, 0.02, 0.04, 0.08]
  const RETRY_BUDGET: real := 0.25

  /** Attempt i may be followed by another: blocked, a delay is left, and the deadline is not
      reached before or after sleeping. The clock is read once at the start and twice a retry. */
  predicate Retries(windows: bool, outcomes: nat -> Rename, clock: nat -> real, i: nat) {
    && outcomes(i).SharingBlocked? && windows && i < |RETRY_DELAYS|
    && clock(2 * i + 1) + RETRY_DELAYS[i] < clock(0) + RETRY_BUDGET
    && clock(2 * i + 2) < clock(0) + RETRY_BUDGET
  }

  /** How writing and renaming the temporary receipt goes. */
  datatype Replacement = Replacement(written: bool, windows: bool, outcomes: nat -> Rename, clock: nat -> real)

  /** From attempt i on, some attempt works before one may not be followed. */
  predicate RenamesFrom(windows: bool, outcomes: nat -> Rename, clock: nat -> real, i: nat)
    decreases |RETRY_DELAYS| - i
  {
    outcomes(i).Renames? || (Retries(windows, outcomes, clock, i) && RenamesFrom(windows, outcomes, clock, i + 1))
  }

  predicate Works(r: Replacement) {
    r.written && RenamesFrom(r.windows, r.outcomes, r.clock, 0)
  }

  /** _replace_receipt: at most five attempts of the same rename, a further one only while it
      is admitted; it ends at the first attempt that works or may not be followed. */
  method ReplaceReceipt(windows: bool, outcomes: nat -> Rename, clock: nat -> real) returns (ok: bool, attempts: nat)
    ensures 1 <= attempts <= 5
    ensures ok <==> outcomes(attempts - 1).Renames?
    ensures ok <==> RenamesFrom(windows, outcomes, clock, 0)
    ensures forall i :: 0 <= i < attempts - 1 ==> Retries(windows, outcomes, clock, i)
    ensures !ok ==> !Retries(windows, outcomes, clock, attempts - 1)
  {
    var deadline := clock(0) + RETRY_BUDGET;
    attempts := 0;
    while attempts <= |RETRY_DELAYS|
      invariant attempts <= |RETRY_DELAYS|
      invariant forall i :: 0 <= i < attempts ==> Retries(windows, outcomes, clock, i)
      invariant RenamesFrom(windows, outcomes, clock, 0) == RenamesFrom(windows, outcomes, clock, attempts)
      decreases |RETRY_DELAYS| - attempts
    {
      var i := attempts;
      attempts := attempts + 1;
      if outcomes(i).Renames? { return true, attempts; }
      if !outcomes(i).SharingBlocked? || !windows || i == |RETRY_DELAYS| { return false, attempts; }
      var delay := RETRY_DELAYS[i];
      if clock(2 * i + 1) + delay >= deadline { return false, attempts; }
      if clock(2 * i + 2) >= deadline { return false, attempts; }
    }
    return false, attempts;
  }

  class WatchSession {
    const env: Env
    const files: Files
    const callback: Callback
    const hook: AdvisoryHook
    var active: bool
    var state: Receipt
    var advised: bool
    var advisories: nat
    /** How this object came to its present state, as a run of primitive steps. */
    ghost const origin: World
    ghost var omitted: nat
    ghost var inherited: nat
    ghost var declined: nat
    ghost var told: bool
    ghost var trace: seq<Event>

    ghost function Now(): World
      reads this, files
    {
      World(files.Disk(), if active then Some(Mem(state, callback, hook, advised, advisories)) else None,
            omitted, inherited, declined, told)
    }

    ghost predicate Valid()
      reads this, files
    {
      && env.Valid() && Inv(env, origin)
      && Feasible(env, origin, trace)
      && Now() == Run(env, origin, trace)
    }

    constructor (env: Env, files: Files, callback: Callback, hook: AdvisoryHook, blank: Receipt, ghost omitted: nat)
      requires env.Valid() && Inv(env, World(files.Disk(), None, omitted, 0, 0, false))
      ensures Valid() && !active && trace == [] && this.files == files && this.env == env
      ensures this.callback == callback && this.hook == hook
    {
      this.env, this.files, this.callback, this.hook := env, files, callback, hook;
      active, state, advised, advisories := false, blank, false, 0;
      this.omitted, inherited, declined, told, trace := omitted, 0, 0, false, [];
      origin := World(files.Disk(), None, omitted, 0, 0, false);
    }

    /** Records in the trace that the fields now show the event `e`. */
    ghost method Took(before: World, e: Event)
      requires env.Valid() && Inv(env, origin)
      requires Feasible(env, origin, trace) && before == Run(env, origin, trace)
      requires Allowed(env, before, e.a) && Now() == Step(env, before, e)
      modifies this`trace
      ensures Valid() && trace == old(trace) + [e]
    {
      RunSnoc(env, origin, trace, e);
      trace := trace + [e];
    }

    /** Every state of a valid session is safe. */
    lemma Safe()
      requires Valid()
      ensures Inv(env, Now()) && Evolves(env, origin.disk, files.Disk())
    {
      RunsAreSafe(env, origin, trace);
    }

    /** The journal callback and what the session makes of its answer. */
    method Record(row: Row, now: string) returns (ok: bool)
      requires env.Valid() && active && callback.JournalCallback?
      modifies this`state, this`advised, this`advisories, this`omitted, this`declined, files`journal, files`log
      ensures var result := PlanOf(env, old(Now()), row).result;
              && (ok <==> !result.Refused?)
              && Mem(state, callback, hook, advised, advisories)
                 == Observed(Mem(old(state), callback, hook, old(advised), old(advisories)), result, now)
              && omitted == old(omitted) + (if result.Exhausted? then 1 else 0)
              && declined == old(declined) + (if result.Exhausted? then 1 else 0)
      ensures files.journal == J.ApplyAll(old(files.journal), PlanOf(env, old(Now()), row).writes)
    {
      var m := Mem(state, callback, hook, advised, advisories);
      var result := files.Append(env.format, JournalRowOf(env, m, row));
      ok := !result.Refused?;
      if ok {
        var answered := Answered(m, result, now);
        state, advised, advisories := answered.state, answered.advised, answered.advisories;
        if result.Exhausted? { omitted, declined := omitted + 1, declined + 1; }
      }
    }

    /** The observation of a row, with the fault that its journal write meets, if any. */
    static function Observation(row: Row, now: string, callback: Callback, fault: Option<Fault>): Event {
      if callback.JournalCallback? && fault.Some? then FailIn(Action.Observe(row, now), fault.value.n, fault.value.k)
      else Do(Action.Observe(row, now))
    }

    /** A session without an attested journal only notes that. */
    method ObserveUnrecorded(row: Row, now: string)
      requires Valid() && active && env.validStamp(now) && !callback.JournalCallback?
      modifies this`state, this`trace
      ensures Valid() && active && trace == old(trace) + [Do(Action.Observe(row, now))]
      ensures state == old(state).(journal := state.journal, established := state.established)
    {
      ghost var before := Now();
      var status := if callback.NoCallback? then NotConfigured else CallbackUnattested;
      state := Unrecorded(Mem(state, callback, hook, advised, advisories), status).state;
      Took(before, Do(Action.Observe(row, now)));
    }

    method ObserveJournaled(row: Row, now: string) returns (ok: bool)
      requires Valid() && active && env.validStamp(now) && callback.JournalCallback?
      modifies this`state, this`advised, this`advisories, this`omitted, this`declined, this`trace, files`journal, files`log
      ensures Valid() && active && trace == old(trace) + [Do(Action.Observe(row, now))]
      ensures !ok ==> state == old(state) && advised == old(advised) && advisories == old(advisories)
      ensures state == old(state).(journal := state.journal, established := state.established)
      ensures ok <==> !PlanOf(env, old(Now()), row).result.Refused?
    {
      ghost var before := Now();
      ok := Record(row, now);
      Took(before, Do(Action.Observe(row, now)));
    }

    /** A row whose journal write raises: nothing changes in memory. */
    method ObserveFails(row: Row, now: string, fault: Fault)
      requires Valid() && active && env.validStamp(now) && callback.JournalCallback?
      modifies this`trace, files`journal
      ensures Valid() && trace == old(trace) + [FailIn(Action.Observe(row, now), fault.n, fault.k)]
    {
      ghost var before := Now();
      files.AppendFails(env.format, JournalRowOf(env, Mem(state, callback, hook, advised, advisories), row), fault);
      Took(before, FailIn(Action.Observe(row, now), fault.n, fault.k));
    }

    method Observe(row: Row, now: string, fault: Option<Fault>) returns (ok: bool)
      requires Valid() && active && env.validStamp(now)
      modifies this`state, this`advised, this`advisories, this`omitted, this`declined, this`trace, files`journal, files`log
      ensures Valid() && active && trace == old(trace) + [Observation(row, now, callback, fault)]
      ensures !ok ==> state == old(state) && advised == old(advised) && advisories == old(advisories)
      ensures state == old(state).(journal := state.journal, established := state.established)
      ensures ok <==> !(callback.JournalCallback? && (fault.Some? || PlanOf(env, old(Now()), row).result.Refused?))
    {
      if !callback.JournalCallback? {
        ObserveUnrecorded(row, now);
        ok := true;
      } else if fault.Some? {
        ObserveFails(row, now, fault.value);
        ok := false;
      } else {
        ok := ObserveJournaled(row, now);
      }
    }

    method Store(rep: Replacement) returns (ok: bool)
      modifies files`receipt
      ensures ok <==> Works(rep) && env.receiptSize(state) <= MAX_RECEIPT
      ensures files.receipt == if ok then Some(state) else old(files.receipt)
    {
      if env.receiptSize(state) > MAX_RECEIPT || !rep.written { return false; }
      var attempts;
      ok, attempts := ReplaceReceipt(rep.windows, rep.outcomes, rep.clock);
      if ok { files.receipt := Some(state); }
    }

    /** _write: a receipt above its bound is refused; replacement is atomic or does not happen. */
    method Write(rep: Replacement) returns (ok: bool)
      requires Valid() && active
      modifies this`trace, files`receipt
      ensures Valid() && trace == old(trace) + [Do(Persist(Works(rep)))]
      ensures ok <==> Works(rep) && env.receiptSize(state) <= MAX_RECEIPT
      ensures files.receipt == if ok then Some(state) else old(files.receipt)
      ensures ok ==> Startable(env, state)
      ensures ReceiptExhausted(old(files.receipt)) ==> IsExhausted(state.journal)
    {
      ghost var before := Now();
      Safe();
      ok := Store(rep);
      Took(before, Do(Persist(Works(rep))));
    }

    method ReleaseLease()
      requires Valid()
      modifies this`active, this`trace
      ensures Valid() && !active && trace == old(trace) + [Do(Release)]
    {
      ghost var before := Now();
      active := false;
      Took(before, Do(Release));
    }

    static function BoundaryOf(prior: Receipt, sessionId: string): Row {
      BoundaryRow(sessionId,
                  match BoundaryStamp(prior) case At(t) => t case _ => "",
                  prior.finalizedAt == NotAvailable,
                  prior.latest.Dict? && prior.latest.it.completed != Has(true))
    }

    /** The boundary row tells a clean end from a crash, and an iteration cut off from one that
        was finished; it dates the end of what is known. */
    static lemma BoundaryTells(env: Env, prior: Receipt, sessionId: string)
      requires Accepts(env, prior) && GoodStamp(env, BoundaryStamp(prior))
      ensures var row := BoundaryOf(prior, sessionId);
              && row.sessionId == sessionId
              && (row.shutdownUnobserved <==> !prior.stage.Finalized?)
              && (row.completionUnobserved <==> prior.latest.Dict? && !prior.latest.it.completed.value)
              && (prior.latest.Empty? ==> At(row.prior) == prior.startedAt)
              && (prior.latest.Dict? && prior.latest.it.completed == Has(true) && prior.latest.it.finalizedAt != At("") ==>
                    At(row.prior) == prior.latest.it.finalizedAt)
              && (prior.latest.Dict? && prior.latest.it.finalizedAt.Absent? && prior.latest.it.actualStart != At("") ==>
                    At(row.prior) == prior.latest.it.actualStart)
    {}

    /** __enter__ up to its first observation: the lease marker, the prior receipt, the state. */
    method TakeLease(s: Start)
      requires Valid() && !active && IsSessionId(s.sessionId) && s.pid >= 1
      requires s.callback == callback && s.hook == hook && s.advised == advised
      modifies this`active, this`state, this`advisories, this`inherited, this`declined, this`told, this`trace, files`marker
      ensures Valid() && trace == old(trace) + [Do(Acquire(s))]
      ensures active ==> env.validStamp(s.startedAt) && state == FreshState(env, s, files.receipt)
    {
      ghost var before := Now();
      var prior := files.receipt;
      var marked := files.marker;
      if marked == [] {
        files.marker := files.marker + env.marker;
      }
      if (marked == [] || marked == env.marker) && CanStart(env, s, prior) {
        active, state, advisories := true, FreshState(env, s, prior), 0;
      }
      inherited, declined, told := StoredOmitted(files.Disk()), 0, advised;
      Took(before, Do(Acquire(s)));
    }

    /** The observations of a session start: the boundary to a prior session, then the start. */
    static function Announcements(prior: Option<Receipt>, sessionId: string, startedAt: string, pid: int): seq<Event> {
      (if prior.Some? then [Do(Action.Observe(BoundaryOf(prior.value, sessionId), startedAt))] else [])
      + [Do(Action.Observe(StartRow(sessionId, startedAt, pid), startedAt))]
    }

    method Announce(prior: Option<Receipt>, sessionId: string, startedAt: string, pid: int, faults: Row -> Option<Fault>)
      returns (ok: bool)
      requires Valid() && active && env.validStamp(startedAt)
      modifies this`state, this`advised, this`advisories, this`omitted, this`declined, this`trace, files`journal, files`log
      ensures Valid() && active && old(trace) <= trace
      ensures state == old(state).(journal := state.journal, established := state.established)
      ensures ok ==> trace == old(trace) + Announcements(prior, sessionId, startedAt, pid)
    {
      if prior.Some? {
        ok := Observe(BoundaryOf(prior.value, sessionId), startedAt, faults(BoundaryOf(prior.value, sessionId)));
        if !ok { return; }
      }
      ok := Observe(StartRow(sessionId, startedAt, pid), startedAt, faults(StartRow(sessionId, startedAt, pid)));
    }

    /** __enter__: success means that a receipt of this session, acceptable to the next one,
        is stored; failure means that the lease is free and the old receipt still stands. */
    method Enter(sessionId: string, pid: int, startedAt: string, rep: Replacement, faults: Row -> Option<Fault>)
      returns (ok: bool)
      requires Valid() && !active && IsSessionId(sessionId) && pid >= 1
      modifies this`active, this`state, this`advised, this`advisories, this`omitted, this`inherited, this`declined
      modifies this`told, this`trace, files
      ensures Valid() && active == ok && old(trace) <= trace
      ensures ok ==> files.receipt == Some(state) && Startable(env, state) && state.sessionId == sessionId
      ensures !ok ==> files.receipt == old(files.receipt)
      ensures ok && ReceiptExhausted(old(files.receipt)) ==> IsExhausted(state.journal)
      ensures ok ==>
                trace == old(trace) + [Do(Acquire(Start(sessionId, pid, startedAt, callback, hook, old(advised))))]
                       + Announcements(old(files.receipt), sessionId, startedAt, pid) + [Do(Persist(Works(rep)))]
    {
      var prior := files.receipt;
      TakeLease(Start(sessionId, pid, startedAt, callback, hook, advised));
      if !active { return false; }
      ok := Announce(prior, sessionId, startedAt, pid, faults);
      if ok { ok := Write(rep); }
      if !ok { ReleaseLease(); }
    }

    method StartIteration(number: int, actualStart: string, scheduledStart: string, rep: Replacement) returns (ok: bool)
      requires Valid() && active && !state.stage.Finalized? && number >= 1
      modifies this`state, this`trace, files`receipt
      ensures Valid() && active && !state.stage.Finalized?
      ensures ok ==> files.receipt == Some(state) && Startable(env, state)
      ensures ok ==>
                state == old(state).(stage := Running, latest := Dict(
                  Iteration(Has(number), Has(false), At(actualStart), At(scheduledStart), Absent, "STARTED")))
      ensures ok ==>
                trace == old(trace) + [Do(BeginIteration(number, actualStart, scheduledStart)), Do(Persist(Works(rep)))]
      ensures !ok ==> files.receipt == old(files.receipt)
      ensures env.validStamp(actualStart) && env.validStamp(scheduledStart) ==> state.latest.Dict?
    {
      ghost var before := Now();
      state := Started(env, state, number, actualStart, scheduledStart);
      Took(before, Do(BeginIteration(number, actualStart, scheduledStart)));
      if !env.validStamp(actualStart) || !env.validStamp(scheduledStart) { return false; }
      ok := Write(rep);
    }

    /** finish_iteration after start_iteration. */
    method FinishStarted(status: string, now: string, rep: Replacement, fault: Option<Fault>) returns (ok: bool)
      requires Valid() && active && !state.stage.Finalized? && state.latest.Dict? && env.validStamp(now)
      modifies this`state, this`advised, this`advisories, this`omitted, this`declined, this`trace
      modifies files`journal, files`log, files`receipt
      ensures Valid() && active && !state.stage.Finalized? && state.latest.Dict?
      ensures state.latest.it.completed == Has(true) && state.latest.it.number == old(state.latest.it.number)
      ensures ok ==> files.receipt == Some(state) && Startable(env, state)
      ensures !ok ==> files.receipt == old(files.receipt)
      ensures ok ==> exists row :: trace == old(trace)
                       + [Do(CompleteIteration(status, now)), Do(Action.Observe(row, now)), Do(Persist(Works(rep)))]
    {
      ghost var before := Now();
      state := Finished(state, status, now);
      Took(before, Do(CompleteIteration(status, now)));
      var row := FinalRow(state.sessionId, state.latest);
      ok := Observe(row, now, fault);
      if !ok { return; }
      ok := Write(rep);
      assert trace == old(trace)
        + [Do(CompleteIteration(status, now)), Do(Action.Observe(row, now)), Do(Persist(Works(rep)))];
    }

    /** finish_iteration on a session that has started none: what it stores is refused later. */
    method FinishUnstarted(status: string, now: string, rep: Replacement, fault: Option<Fault>) returns (ok: bool)
      requires Valid() && active && !state.latest.Dict? && env.validStamp(now)
      modifies this`state, this`advised, this`advisories, this`omitted, this`declined
      modifies files`journal, files`log, files`receipt
      ensures !WellFormed(env, state)
      ensures files.receipt == if ok then Some(state) else old(files.receipt)
    {
      state := Finished(state, status, now);
      var m := Mem(state, callback, hook, advised, advisories);
      var row := FinalRow(state.sessionId, state.latest);
      ok := true;
      match callback {
        case NoCallback => state := Unrecorded(m, NotConfigured).state;
        case UnattestedCallback => state := Unrecorded(m, CallbackUnattested).state;
        case JournalCallback =>
          if fault.Some? {
            files.AppendFails(env.format, JournalRowOf(env, m, row), fault.value);
            ok := false;
          } else {
            ok := Record(row, now);
          }
      }
      if ok { ok := Store(rep); }
    }

    /** finish_iteration: after a start the session goes on safely; without one it is left with
        a state that no validator accepts, and may have stored it. */
    method FinishIteration(status: string, now: string, rep: Replacement, fault: Option<Fault>) returns (ok: bool)
      requires Valid() && active && !state.stage.Finalized? && env.validStamp(now)
      modifies this`state, this`advised, this`advisories, this`omitted, this`declined, this`trace
      modifies files`journal, files`log, files`receipt
      ensures old(state.latest).Dict? ==>
                && Valid() && active && !state.stage.Finalized? && state.latest.Dict?
                && state.latest.it.completed == Has(true) && state.latest.it.number == old(state.latest.it.number)
                && (ok ==> Startable(env, state))
      ensures !old(state.latest).Dict? ==> !WellFormed(env, state)
      ensures files.receipt == if ok then Some(state) else old(files.receipt)
    {
      if state.latest.Dict? {
        ok := FinishStarted(status, now, rep, fault);
      } else {
        ok := FinishUnstarted(status, now, rep, fault);
      }
    }

    /** __exit__: the lease is freed whatever happens; a stored closing is acceptable. */
    method Exit(now: string, cause: Cause, declared: Outcome, rep: Replacement) returns (ok: bool)
      requires Valid() && active && env.validStamp(now) && declared in {Completed, Cancelled}
      modifies this`active, this`state, this`trace, files`receipt
      ensures Valid() && !active
      ensures trace == old(trace) + [Do(Close(now, cause, declared)), Do(Persist(Works(rep))), Do(Release)]
      ensures ok ==> files.receipt == Some(state) && Startable(env, state) && state.stage.Finalized?
      ensures !ok ==> files.receipt == old(files.receipt)
      ensures state.outcome.StartupFailed? ==> cause.OtherException? && old(state.latest).Empty?
      ensures state.outcome.Failed? ==> cause.OtherException? && !old(state.latest).Empty?
      ensures state.outcome.Cancelled? ==> cause.Cancellation? || (cause.NoException? && declared.Cancelled?)
      ensures state.outcome.Completed? ==> cause.NoException? && declared.Completed?
      ensures state.outcome in {Completed, Cancelled, StartupFailed, Failed} && state.finalizedAt == At(now)
      ensures state == old(state).(stage := state.stage, finalizedAt := state.finalizedAt, outcome := state.outcome)
    {
      ghost var before := Now();
      state := Closed(state, now, cause, declared);
      Took(before, Do(Close(now, cause, declared)));
      ok := Write(rep);
      ReleaseLease();
    }
  }
}
