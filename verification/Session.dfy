/** Watch session observations: the receipt, its strict validator, and every primitive step
    of a session over the lease marker, the journal and the receipt. */
module Session {
  import opened Basics
  import opened JournalLines
  import J = Journal

  const CONTRACT := "cci-watch-session-observation-v1"
  const MAX_RECEIPT: nat := 32768
  const MAX_MARKER: nat := 256
  /** 2**63 - 1 */
  const MAX_COUNT: nat := 0x7fff_ffff_ffff_ffff

  /** A timestamp field: missing, the text "N/A", or some other text. */
  datatype Stamp = Absent | NotAvailable | At(text: string)

  datatype Stage = Starting | Running | Finalized | OtherStage

  datatype Outcome = OutcomeNA | Completed | Cancelled | StartupFailed | Failed | OtherOutcome | OutcomeMissing

  datatype Iteration = Iteration(
    number: Slot<int>, completed: Slot<bool>, actualStart: Stamp, scheduledStart: Stamp,
    finalizedAt: Stamp, status: string)

  /** The latest_iteration field: `{}` until the first iteration starts. */
  datatype Latest = NotADict | Empty | Dict(it: Iteration)

  datatype JournalStatus = Recording | BudgetExhausted | NotConfigured | CallbackUnattested | OtherStatus

  datatype Advisory = NotRequested | Emitted | Unverified

  datatype JournalObs = JournalObs(
    status: JournalStatus, coverageComplete: Slot<bool>, bytes: Slot<int>, limitBytes: Slot<int>,
    omittedTotal: Slot<int>, omittedThisSession: Slot<int>, firstOmittedAt: Stamp, advisory: Advisory)

  datatype JournalField = NoJournal | NullJournal | NotAnObject | Observation(obs: JournalObs)

  datatype Receipt = Receipt(
    contract: string, databaseId: string, sessionId: string, pid: Slot<int>, startedAt: Stamp,
    stage: Stage, latest: Latest, finalizedAt: Stamp, outcome: Outcome,
    established: Slot<bool>, journal: JournalField)

  /** The three kinds of observation rows. */
  datatype Row =
    | BoundaryRow(sessionId: string, prior: string, shutdownUnobserved: bool, completionUnobserved: bool)
    | StartRow(sessionId: string, startedAt: string, pid: int)
    | FinalRow(sessionId: string, latest: Latest)

  /** What the session takes as given: identities, the clock's format and the JSON encodings. */
  datatype Env = Env(
    databaseId: string, format: J.Format, marker: Bytes, validStamp: string -> bool,
    receiptSize: Receipt -> nat, rowPayload: Row -> Bytes)
  {
    ghost predicate Valid() {
      && format.Valid()
      && marker != [] && |marker| <= MAX_MARKER
      && forall r, i {:trigger rowPayload(r)[i]} ::
           0 <= i < |rowPayload(r)| ==> !IsBreak(rowPayload(r)[i])
    }
  }

  // ---------- The strict validator of a stored receipt ----------

  predicate IsSessionId(s: string) {
    |s| == 32 && forall i :: 0 <= i < 32 ==> '0' <= s[i] <= '9' || 'a' <= s[i] <= 'f'
  }

  predicate GoodStamp(env: Env, s: Stamp) {
    s.At? && env.validStamp(s.text)
  }

  predicate GoodIteration(env: Env, it: Iteration) {
    && it.number.Has? && it.number.value >= 1 && it.completed.Has?
    && GoodStamp(env, it.actualStart) && GoodStamp(env, it.scheduledStart)
    && (it.completed.value ==> GoodStamp(env, it.finalizedAt))
  }

  predicate GoodCount(c: Slot<int>) {
    c.Has? && 0 <= c.value <= MAX_COUNT
  }

  predicate GoodJournal(env: Env, established: Slot<bool>, j: JournalField) {
    match j
    case NoJournal => true
    case NullJournal => true
    case NotAnObject => false
    case Observation(o) =>
      && !o.status.OtherStatus?
      && (o.status.Recording? || o.status.BudgetExhausted? ==>
            var exhausted := o.status.BudgetExhausted?;
            && established != Has(false)
            && GoodCount(o.bytes) && GoodCount(o.limitBytes)
            && GoodCount(o.omittedTotal) && GoodCount(o.omittedThisSession)
            && o.coverageComplete == Has(!exhausted)
            && (o.omittedTotal.value != 0 <==> exhausted)
            && (exhausted ==> GoodStamp(env, o.firstOmittedAt)))
  }

  predicate WellFormed(env: Env, r: Receipt) {
    var closed := r.finalizedAt != NotAvailable;
    && r.contract == CONTRACT && r.databaseId == env.databaseId
    && IsSessionId(r.sessionId)
    && r.pid.Has? && r.pid.value >= 1
    && GoodStamp(env, r.startedAt)
    && (closed ==> GoodStamp(env, r.finalizedAt))
    && !r.stage.OtherStage?
    && !r.latest.NotADict? && !r.outcome.OutcomeMissing?
    && (r.stage.Finalized? <==> closed)
    && (closed ==> r.outcome in {Completed, Cancelled, StartupFailed, Failed})
    && (!closed ==> r.outcome.OutcomeNA?)
    && (r.stage.Running? ==> r.latest.Dict?)
    && (r.latest.Dict? ==> GoodIteration(env, r.latest.it))
    && !r.established.BadType?
    && GoodJournal(env, r.established, r.journal)
  }

  /** _read_prior returns the stored receipt instead of refusing it. */
  predicate Accepts(env: Env, r: Receipt) {
    env.receiptSize(r) <= MAX_RECEIPT && WellFormed(env, r)
  }

  // ---------- The session in memory ----------

  /** The journal callback: none, `append_session_observation`, or one whose result is not
      recognised. */
  datatype Callback = NoCallback | JournalCallback | UnattestedCallback

  datatype AdvisoryHook = NoHook | HookReturns | HookRaises

  /** `advisories` counts the calls of the advisory hook. */
  datatype Mem = Mem(state: Receipt, callback: Callback, hook: AdvisoryHook, advised: bool, advisories: nat)

  /** `advised`: the object has called its advisory hook under an earlier lease. */
  datatype Start = Start(
    sessionId: string, pid: int, startedAt: string, callback: Callback, hook: AdvisoryHook, advised: bool)

  predicate IsExhausted(j: JournalField) {
    j.Observation? && j.obs.status.BudgetExhausted?
  }

  function Count(c: Slot<int>): int {
    if c.Has? then c.value else 0
  }

  function OmittedTotal(j: JournalField): int {
    if j.Observation? then Count(j.obs.omittedTotal) else 0
  }

  /** journal_established as __enter__ reads it, with the default for older receipts. */
  predicate EstablishedBy(r: Receipt) {
    if r.established.Has? then r.established.value
    else
      match r.journal
      case NoJournal => true
      case Observation(o) => o.status.Recording? || o.status.BudgetExhausted?
      case _ => false
  }

  function FreshState(env: Env, s: Start, prior: Option<Receipt>): Receipt {
    Receipt(CONTRACT, env.databaseId, s.sessionId, Has(s.pid), At(s.startedAt), Starting, Empty,
            NotAvailable, OutcomeNA,
            Has(prior.Some? && EstablishedBy(prior.value)),
            if prior.Some? && IsExhausted(prior.value.journal)
            then Observation(prior.value.journal.obs.(omittedThisSession := Has(0)))
            else NoJournal)
  }

  predicate Truthy(s: Stamp) {
    s.NotAvailable? || (s.At? && s.text != "")
  }

  /** The last instant that the prior receipt vouches for. */
  function BoundaryStamp(r: Receipt): Stamp {
    if r.latest.Dict? && Truthy(r.latest.it.finalizedAt) then r.latest.it.finalizedAt
    else if r.latest.Dict? && Truthy(r.latest.it.actualStart) then r.latest.it.actualStart
    else r.startedAt
  }

  /** The part of __enter__ after the receipt was read and before the first observation. */
  predicate CanStart(env: Env, s: Start, prior: Option<Receipt>) {
    && env.validStamp(s.startedAt)
    && (prior.Some? ==>
          && Accepts(env, prior.value)
          && !prior.value.journal.NullJournal?
          && GoodStamp(env, BoundaryStamp(prior.value)))
  }

  function JournalRowOf(env: Env, m: Mem, row: Row): J.JournalRow {
    J.JournalRow(env.rowPayload(row), IsExhausted(m.state.journal), m.state.established == Has(true))
  }

  function Bump(c: int): int {
    Min(c + 1, MAX_COUNT)
  }

  /** The state after the callback answered. */
  function Answered(m: Mem, result: J.AppendResult, now: string): Mem
    requires !result.Refused?
  {
    var prior := m.state.journal;
    var priorTotal := OmittedTotal(prior);
    var priorSession := if prior.Observation? then Count(prior.obs.omittedThisSession) else 0;
    var total := if result.Exhausted? then Bump(priorTotal) else priorTotal;
    var session := if result.Exhausted? then Bump(priorSession) else priorSession;
    var advise := total != 0 && !m.advised;
    var kept := if prior.Observation? then prior.obs.advisory else NotRequested;
    var obs := JournalObs(
                 if result.Exhausted? then BudgetExhausted else Recording,
                 Has(result.Appended? && total == 0),
                 Has(result.bytes), Has(J.MAX_JOURNAL), Has(total), Has(session),
                 if total == 0 then NotAvailable
                 else if priorTotal != 0 then prior.obs.firstOmittedAt
                 else At(now),
                 if !advise || m.hook.NoHook? then kept
                 else if m.hook.HookReturns? then Emitted
                 else Unverified);
    m.(state := m.state.(established := Has(true), journal := Observation(obs)),
       advised := m.advised || advise,
       advisories := m.advisories + if advise && !m.hook.NoHook? then 1 else 0)
  }

  /** A state without attested recording: only an exhausted observation is kept. */
  function Unrecorded(m: Mem, status: JournalStatus): Mem {
    if IsExhausted(m.state.journal) then m
    else
      m.(state := m.state.(journal := Observation(
           JournalObs(status, Has(false), Missing, Missing, Missing, Missing, Absent, NotRequested))))
  }

  function Observed(m: Mem, result: J.AppendResult, now: string): Mem {
    match m.callback
    case NoCallback => Unrecorded(m, NotConfigured)
    case UnattestedCallback => Unrecorded(m, CallbackUnattested)
    case JournalCallback => if result.Refused? then m else Answered(m, result, now)
  }

  function Started(env: Env, r: Receipt, number: int, actualStart: string, scheduledStart: string): Receipt {
    if !env.validStamp(actualStart) || !env.validStamp(scheduledStart) then r
    else
      r.(stage := Running,
         latest := Dict(Iteration(Has(number), Has(false), At(actualStart), At(scheduledStart), Absent, "STARTED")))
  }

  /** latest_iteration.update(...): on `{}` this makes a record without a number or starts. */
  function Finished(r: Receipt, status: string, now: string): Receipt {
    var it := if r.latest.Dict? then r.latest.it
              else Iteration(Missing, Missing, Absent, Absent, Absent, "");
    r.(latest := Dict(it.(completed := Has(true), status := status, finalizedAt := At(now))))
  }

  /** Why the with-block ended: normally, by cancellation, or by another exception. */
  datatype Cause = NoException | Cancellation | OtherException

  function Closed(r: Receipt, now: string, cause: Cause, declared: Outcome): Receipt {
    r.(stage := Finalized, finalizedAt := At(now),
       outcome := match cause
                  case Cancellation => Cancelled
                  case OtherException => if r.latest.Empty? then StartupFailed else Failed
                  case NoException => declared)
  }

  // ---------- The disk and the primitive steps ----------

  datatype Disk = Disk(marker: Bytes, journal: Option<Bytes>, receipt: Option<Receipt>)

  /** `omitted` counts the rows that the journal has declined to record so far, `declined` those
      of the present session, `inherited` is the count that the session started from, and `told`
      says that its object had called the advisory hook before. */
  datatype World = World(
    disk: Disk, session: Option<Mem>, omitted: nat, inherited: nat, declined: nat, told: bool)

  datatype Action =
    | Acquire(start: Start)
    | Observe(row: Row, now: string)
    | Persist(replaced: bool)
    | BeginIteration(number: int, actualStart: string, scheduledStart: string)
    | CompleteIteration(status: string, finishedAt: string)
    | Close(closedAt: string, cause: Cause, declared: Outcome)
    | Release

  /** What one action does to the disk. Replacing the receipt is atomic; the other writes
      can be torn. */
  datatype Effect = NoEffect | Mark(bytes: Bytes) | Journaled(writes: seq<J.Write>) | Replaced(receipt: Receipt)

  function Done(d: Disk, e: Effect): Disk {
    match e
    case NoEffect => d
    case Mark(b) => d.(marker := d.marker + b)
    case Journaled(ws) => d.(journal := J.ApplyAll(d.journal, ws))
    case Replaced(r) => d.(receipt := Some(r))
  }

  /** The disk when a crash stops the effect after `n` writes and `k` bytes of the next. */
  function Interrupted(d: Disk, e: Effect, n: nat, k: nat): Disk {
    match e
    case NoEffect => d
    case Mark(b) => d.(marker := d.marker + b[..Min(k, |b|)])
    case Journaled(ws) => d.(journal := J.Cut(d.journal, ws, n, k))
    case Replaced(_) => d
  }

  function PlanOf(env: Env, w: World, row: Row): J.Plan
    requires w.session.Some?
  {
    J.PlanAppend(env.format, w.disk.journal, JournalRowOf(env, w.session.value, row))
  }

  function EffectOf(env: Env, w: World, a: Action): Effect {
    match a
    case Acquire(s) =>
      if w.session.None? && w.disk.marker == [] then Mark(env.marker) else NoEffect
    case Observe(row, _) =>
      if w.session.Some? && w.session.value.callback.JournalCallback?
      then Journaled(PlanOf(env, w, row).writes) else NoEffect
    case Persist(ok) =>
      if ok && w.session.Some? && env.receiptSize(w.session.value.state) <= MAX_RECEIPT
      then Replaced(w.session.value.state) else NoEffect
    case _ => NoEffect
  }

  function AcquiredBy(env: Env, w: World, s: Start): Option<Mem> {
    if w.session.Some? then w.session
    else if (w.disk.marker == [] || w.disk.marker == env.marker) && CanStart(env, s, w.disk.receipt)
    then Some(Mem(FreshState(env, s, w.disk.receipt), s.callback, s.hook, s.advised, 0))
    else None
  }

  function SessionAfter(env: Env, w: World, a: Action): Option<Mem> {
    if a.Acquire? then AcquiredBy(env, w, a.start)
    else if w.session.None? then None
    else
      var m := w.session.value;
      match a
      case Acquire(_) => w.session
      case Observe(row, now) => Some(Observed(m, PlanOf(env, w, row).result, now))
      case Persist(_) => w.session
      case BeginIteration(n, s, p) => Some(m.(state := Started(env, m.state, n, s, p)))
      case CompleteIteration(status, now) => Some(m.(state := Finished(m.state, status, now)))
      case Close(now, cause, declared) => Some(m.(state := Closed(m.state, now, cause, declared)))
      case Release => None
  }

  predicate Declines(env: Env, w: World, a: Action) {
    a.Observe? && w.session.Some? && w.session.value.callback.JournalCallback? && PlanOf(env, w, a.row).result.Exhausted?
  }

  function StoredOmitted(d: Disk): nat {
    if d.receipt.Some? && IsExhausted(d.receipt.value.journal) then Max(0, OmittedTotal(d.receipt.value.journal)) else 0
  }

  /** An event: an action that completes, one in whose effect the process dies, or one whose
      effect stops with an error that the process survives. */
  datatype Event = Do(a: Action) | CrashIn(a: Action, n: nat, k: nat) | FailIn(a: Action, n: nat, k: nat)

  function Step(env: Env, w: World, e: Event): World {
    var effect := EffectOf(env, w, e.a);
    match e
    case Do(a) =>
      var one := if Declines(env, w, a) then 1 else 0;
      var opens := a.Acquire? && w.session.None?;
      World(Done(w.disk, effect), SessionAfter(env, w, a), w.omitted + one,
            if opens then StoredOmitted(w.disk) else w.inherited,
            if opens then 0 else w.declined + one,
            if opens then a.start.advised else w.told)
    case CrashIn(_, n, k) => w.(disk := Interrupted(w.disk, effect, n, k), session := None)
    case FailIn(_, n, k) => w.(disk := Interrupted(w.disk, effect, n, k))
  }

  /** What the callers of a session promise: real identities and clock readings, an iteration
      started before it is finished, and nothing but the final write after closing. */
  predicate Allowed(env: Env, w: World, a: Action) {
    match a
    case Acquire(s) => IsSessionId(s.sessionId) && s.pid >= 1
    case Observe(_, now) => w.session.Some? && env.validStamp(now)
    case Persist(_) => w.session.Some?
    case BeginIteration(n, _, _) => w.session.Some? && !w.session.value.state.stage.Finalized? && n >= 1
    case CompleteIteration(_, now) => w.session.Some? && w.session.value.state.latest.Dict? && env.validStamp(now)
    case Close(now, _, declared) => w.session.Some? && env.validStamp(now) && declared in {Completed, Cancelled}
    case Release => true
  }

  predicate Feasible(env: Env, w: World, es: seq<Event>)
    decreases |es|
  {
    es == [] || (Allowed(env, w, es[0].a) && Feasible(env, Step(env, w, es[0]), es[1..]))
  }

  function Run(env: Env, w: World, es: seq<Event>): World
    decreases |es|
  {
    if es == [] then w else Run(env, Step(env, w, es[0]), es[1..])
  }

  lemma {:induction false} RunSnoc(env: Env, w: World, es: seq<Event>, e: Event)
    ensures Run(env, w, es + [e]) == Step(env, Run(env, w, es), e)
    ensures Feasible(env, w, es + [e]) <==> Feasible(env, w, es) && Allowed(env, Run(env, w, es), e.a)
    decreases |es|
  {
    var all := es + [e];
    if es == [] {
      assert all == [e] && all[1..] == [];
    } else {
      assert all[0] == es[0] && all[1..] == es[1..] + [e];
      RunSnoc(env, Step(env, w, es[0]), es[1..], e);
    }
  }
}
