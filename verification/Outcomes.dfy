/** One explicit outcome per queued symbol: counting, filling and the cancelled summary. */
module Outcomes {
  import opened Basics

  datatype Outcome = Evaluated | Rejected | Errored | TimedOut | NotRun

  /** A symbol's result; an outcome that is not set or not recognised is `None`. */
  datatype SymbolResult = SymbolResult(
    symbol: string, outcome: Option<Outcome>, notRunReason: string, timeoutStatus: string, rejectionStage: Option<string>)

  /** The pipeline status of a result, as far as its outcome depends on it. */
  datatype Pipeline = NeverRun | ScanFailed | GateRejected | OtherPipeline

  /** A result as it is put together, with or without an outcome. */
  datatype Draft = Draft(
    symbol: string, status: Pipeline, timedOut: bool, outcome: Option<Outcome>,
    notRunReason: string, timeoutStatus: string, rejectionStage: Option<string>)

  /** _derive_iteration_outcome: an outcome that was given is kept, a missing one is derived. */
  function Validated(d: Draft): (r: SymbolResult)
    ensures r.symbol == d.symbol && r.outcome.Some? && (d.outcome.Some? ==> r.outcome == d.outcome)
    ensures d.outcome.None? ==>
              && (r.outcome == Some(NotRun) <==> d.status == NeverRun)
              && (r.outcome == Some(TimedOut) <==> d.status != NeverRun && (d.timedOut || d.timeoutStatus != "none"))
              && (!d.timedOut && d.timeoutStatus == "none" ==>
                    && (r.outcome == Some(Errored) <==> d.status == ScanFailed)
                    && (r.outcome == Some(Rejected) <==> d.status == GateRejected)
                    && (r.outcome == Some(Evaluated) <==> d.status == OtherPipeline))
  {
    var derived :=
      if d.status.NeverRun? then NotRun
      else if d.timedOut || d.timeoutStatus != "none" then TimedOut
      else if d.status.ScanFailed? then Errored
      else if d.status.GateRejected? then Rejected
      else Evaluated;
    SymbolResult(d.symbol, if d.outcome.Some? then d.outcome else Some(derived),
                 d.notRunReason, d.timeoutStatus, d.rejectionStage)
  }

  function ValidatedAll(ds: seq<Draft>): (rs: seq<SymbolResult>)
    ensures |rs| == |ds| && forall i :: 0 <= i < |ds| ==> rs[i] == Validated(ds[i])
  {
    seq(|ds|, i requires 0 <= i < |ds| => Validated(ds[i]))
  }

  datatype Counts = Counts(evaluated: nat, rejected: nat, errored: nat, timedOut: nat, notRun: nat) {
    function Total(): nat {
      evaluated + rejected + errored + timedOut + notRun
    }
    function Of(o: Outcome): nat {
      match o
      case Evaluated => evaluated
      case Rejected => rejected
      case Errored => errored
      case TimedOut => timedOut
      case NotRun => notRun
    }
  }

  function Count(os: seq<Option<Outcome>>, o: Option<Outcome>): nat {
    if os == [] then 0 else Count(os[..|os| - 1], o) + if os[|os| - 1] == o then 1 else 0
  }

  function CountAll(os: seq<Option<Outcome>>): Counts {
    Counts(Count(os, Some(Evaluated)), Count(os, Some(Rejected)), Count(os, Some(Errored)),
           Count(os, Some(TimedOut)), Count(os, Some(NotRun)))
  }

  lemma {:induction false} CountsPartition(os: seq<Option<Outcome>>)
    ensures CountAll(os).Total() + Count(os, None) == |os|
    decreases |os|
  {
    if os != [] {
      CountsPartition(os[..|os| - 1]);
      var last := os[|os| - 1];
      if last.Some? {
        match last.value
        case Evaluated =>
        case Rejected =>
        case Errored =>
        case TimedOut =>
        case NotRun =>
      }
    }
  }

  lemma {:induction false} NoneCounted(os: seq<Option<Outcome>>)
    ensures Count(os, None) == 0 <==> forall i :: 0 <= i < |os| ==> os[i].Some?
    decreases |os|
  {
    if os != [] {
      NoneCounted(os[..|os| - 1]);
      assert forall i :: 0 <= i < |os| - 1 ==> os[..|os| - 1][i] == os[i];
    }
  }

  /** The results of queued symbols, in order. */
  function Accounted(rs: seq<SymbolResult>, queued: set<string>): (acc: seq<SymbolResult>)
    ensures forall r :: r in acc <==> r in rs && r.symbol in queued
  {
    if rs == [] then []
    else
      var before := Accounted(rs[..|rs| - 1], queued);
      if rs[|rs| - 1].symbol in queued then before + [rs[|rs| - 1]] else before
  }

  function Symbols(rs: seq<SymbolResult>): (s: seq<string>)
    ensures |s| == |rs| && forall i :: 0 <= i < |rs| ==> s[i] == rs[i].symbol
  {
    seq(|rs|, i requires 0 <= i < |rs| => rs[i].symbol)
  }

  function OutcomesOf(rs: seq<SymbolResult>): (os: seq<Option<Outcome>>)
    ensures |os| == |rs| && forall i :: 0 <= i < |rs| ==> os[i] == rs[i].outcome
  {
    seq(|rs|, i requires 0 <= i < |rs| => rs[i].outcome)
  }

  /** queued_symbol_outcome_counts */
  function OutcomeCounts(rs: seq<SymbolResult>, queue: seq<string>): Result<Counts, string> {
    var queued := ToSet(queue);
    var acc := Accounted(rs, queued);
    var symbols := Symbols(acc);
    if |ToSet(symbols)| != |symbols| then Err("duplicate outcomes")
    else if exists s :: s in queue && s !in symbols then Err("missing outcomes")
    else
      var counts := CountAll(OutcomesOf(acc));
      if counts.Total() != |queue| then Err("does not reconcile") else Ok(counts)
  }

  predicate HaveOutcomes(rs: seq<SymbolResult>, queue: seq<string>) {
    forall i :: 0 <= i < |rs| && rs[i].symbol in queue ==> rs[i].outcome.Some?
  }

  /** Each queued symbol has exactly one result, and that one has an outcome. */
  ghost predicate OneEach(rs: seq<SymbolResult>, queue: seq<string>) {
    && (forall q :: q in queue ==> q in Symbols(rs))
    && OnceEach(Symbols(rs), ToSet(queue))
    && HaveOutcomes(rs, queue)
  }

  lemma {:induction false} AccountedSymbols(rs: seq<SymbolResult>, queued: set<string>)
    ensures Symbols(Accounted(rs, queued)) == Keep(Symbols(rs), queued)
    decreases |rs|
  {
    if rs != [] {
      var n := |rs| - 1;
      AccountedSymbols(rs[..n], queued);
      assert Symbols(rs)[..n] == Symbols(rs[..n]);
    }
  }

  lemma AllHaveOutcome(rs: seq<SymbolResult>, queue: seq<string>)
    ensures Count(OutcomesOf(Accounted(rs, ToSet(queue))), None) == 0 <==> HaveOutcomes(rs, queue)
  {
    var acc := Accounted(rs, ToSet(queue));
    NoneCounted(OutcomesOf(acc));
    if k :| 0 <= k < |acc| && acc[k].outcome.None? {
      assert acc[k] in acc;
    }
    if i :| 0 <= i < |rs| && rs[i].symbol in queue && rs[i].outcome.None? {
      assert rs[i] in rs && rs[i] in acc;
      var k :| 0 <= k < |acc| && acc[k] == rs[i];
      assert OutcomesOf(acc)[k] == None;
    }
  }

  lemma CoverCard(symbols: seq<string>, queue: seq<string>)
    requires NoDup(symbols) && (forall s :: s in symbols ==> s in queue) && (forall q :: q in queue ==> q in symbols)
    ensures |symbols| == |ToSet(queue)|
  {
    NoDupCard(symbols);
    assert ToSet(symbols) == ToSet(queue);
  }

  /** The three tests of the accounting, each against what it says about the results. */
  lemma AccountingTests(rs: seq<SymbolResult>, queue: seq<string>)
    ensures var symbols := Symbols(Accounted(rs, ToSet(queue)));
            && (|ToSet(symbols)| == |symbols| <==> OnceEach(Symbols(rs), ToSet(queue)))
            && (forall s :: s in symbols ==> s in queue)
            && (forall q :: q in queue ==> (q in symbols <==> q in Symbols(rs)))
  {
    var queued := ToSet(queue);
    AccountedSymbols(rs, queued);
    KeepOnce(Symbols(rs), queued);
    NoDupCard(Symbols(Accounted(rs, queued)));
  }

  /** Once each queued symbol has one result, the total tests the queue and the outcomes. */
  lemma TotalTests(rs: seq<SymbolResult>, queue: seq<string>)
    requires var symbols := Symbols(Accounted(rs, ToSet(queue)));
             NoDup(symbols) && (forall s :: s in symbols ==> s in queue) && (forall q :: q in queue ==> q in symbols)
    ensures CountAll(OutcomesOf(Accounted(rs, ToSet(queue)))).Total() == |queue| <==>
              NoDup(queue) && HaveOutcomes(rs, queue)
  {
    var acc := Accounted(rs, ToSet(queue));
    CoverCard(Symbols(acc), queue);
    NoDupCard(queue);
    AllHaveOutcome(rs, queue);
    TotalIs(OutcomesOf(acc), |ToSet(queue)|);
  }

  lemma TotalIs(os: seq<Option<Outcome>>, n: nat)
    requires |os| == n
    ensures CountAll(os).Total() <= n && (CountAll(os).Total() == n <==> Count(os, None) == 0)
  {
    CountsPartition(os);
  }

  /** The accounting succeeds exactly when the queue repeats nothing and every queued symbol
      has exactly one result with an outcome; then the counts add up to the queue. */
  lemma CountsSucceedIff(rs: seq<SymbolResult>, queue: seq<string>)
    ensures OutcomeCounts(rs, queue).Ok? <==> NoDup(queue) && OneEach(rs, queue)
    ensures OutcomeCounts(rs, queue).Ok? ==> OutcomeCounts(rs, queue).value.Total() == |queue|
  {
    var symbols := Symbols(Accounted(rs, ToSet(queue)));
    AccountingTests(rs, queue);
    NoDupCard(symbols);
    if NoDup(symbols) && forall q :: q in queue ==> q in symbols {
      TotalTests(rs, queue);
    }
  }

  // ---------- The not-run fill and the ordered combination ----------

  type ResultMap = map<string, SymbolResult>

  /** Results are stored under their own symbol and carry an outcome. */
  predicate Keyed(m: ResultMap) {
    forall k :: k in m ==> m[k].symbol == k && m[k].outcome.Some?
  }

  function NotRunResult(symbol: string, reason: string): SymbolResult {
    SymbolResult(symbol, Some(NotRun), reason, "none", None)
  }

  /** The results of a scan by symbol; a later one replaces an earlier one. */
  function Collected(rs: seq<SymbolResult>): ResultMap {
    if rs == [] then map[] else Collected(rs[..|rs| - 1])[rs[|rs| - 1].symbol := rs[|rs| - 1]]
  }

  lemma {:induction false} CollectedKeyed(rs: seq<SymbolResult>)
    requires forall i :: 0 <= i < |rs| ==> rs[i].outcome.Some?
    ensures Keyed(Collected(rs)) && forall k :: k in Collected(rs) <==> k in Symbols(rs)
    decreases |rs|
  {
    if rs != [] {
      var n := |rs| - 1;
      CollectedKeyed(rs[..n]);
      assert Symbols(rs) == Symbols(rs[..n]) + [rs[n].symbol];
    }
  }

  lemma {:induction false} CollectedIsLast(rs: seq<SymbolResult>, symbol: string)
    ensures symbol in Collected(rs) <==> Last(rs, symbol).Some?
    ensures symbol in Collected(rs) ==> Collected(rs)[symbol] == Last(rs, symbol).value
    decreases |rs|
  {
    if rs != [] {
      CollectedIsLast(rs[..|rs| - 1], symbol);
    }
  }

  function Filled(m: ResultMap, queue: seq<string>, reason: string): ResultMap {
    map k | k in m.Keys + ToSet(queue) :: if k in m then m[k] else NotRunResult(k, reason)
  }

  /** Every queued symbol without a result is recorded as not run. */
  method FillNotRun(m: ResultMap, queue: seq<string>, reason: string) returns (filled: ResultMap)
    ensures filled == Filled(m, queue, reason)
  {
    filled := m;
    for i := 0 to |queue|
      invariant filled == Filled(m, queue[..i], reason)
    {
      assert ToSet(queue[..i + 1]) == ToSet(queue[..i]) + {queue[i]} by {
        assert queue[..i + 1] == queue[..i] + [queue[i]];
      }
      if queue[i] !in filled {
        filled := filled[queue[i] := NotRunResult(queue[i], reason)];
      }
    }
    assert queue[..|queue|] == queue;
  }

  lemma FilledKeyed(m: ResultMap, queue: seq<string>, reason: string)
    requires Keyed(m)
    ensures Keyed(Filled(m, queue, reason)) && Filled(m, queue, reason).Keys == m.Keys + ToSet(queue)
  {}

  /** _combined_run_result: results in watchlist order. */
  function Combined(watchlist: seq<string>, m: ResultMap): (rs: seq<SymbolResult>)
    ensures forall r :: r in rs <==> exists k :: k in watchlist && k in m && m[k] == r
  {
    if watchlist == [] then []
    else
      var n := |watchlist| - 1;
      var before := Combined(watchlist[..n], m);
      assert watchlist == watchlist[..n] + [watchlist[n]];
      if watchlist[n] in m then before + [m[watchlist[n]]] else before
  }

  lemma {:induction false} CombinedSymbols(watchlist: seq<string>, m: ResultMap)
    requires Keyed(m)
    ensures Symbols(Combined(watchlist, m)) == Keep(watchlist, m.Keys)
    decreases |watchlist|
  {
    if watchlist != [] {
      CombinedSymbols(watchlist[..|watchlist| - 1], m);
    }
  }

  /** After the fill, the ordered combination can be counted exactly when the queue repeats
      nothing and lies, once each, inside the watchlist. */
  lemma FilledCountsSucceedIff(watchlist: seq<string>, queue: seq<string>, m: ResultMap)
    requires Keyed(m) && ToSet(queue) <= m.Keys
    ensures OutcomeCounts(Combined(watchlist, m), queue).Ok? <==>
              NoDup(queue) && (forall q :: q in queue ==> q in watchlist) && OnceEach(watchlist, ToSet(queue))
  {
    var rs := Combined(watchlist, m);
    var queued := ToSet(queue);
    CountsSucceedIff(rs, queue);
    CombinedSymbols(watchlist, m);
    KeepKeep(watchlist, m.Keys, queued);
    KeepOnce(watchlist, queued);
    KeepOnce(Symbols(rs), queued);
    assert forall q :: q in queue ==> q in queued;
    forall i | 0 <= i < |rs|
      ensures rs[i].outcome.Some?
    {
      assert rs[i] in rs;
    }
  }

  // ---------- Per-symbol outcomes ----------

  datatype Shown = Shown(outcome: Option<Outcome>, reason: string)

  function ReasonCode(r: SymbolResult): string {
    match r.outcome
    case Some(NotRun) => r.notRunReason
    case Some(TimedOut) => r.timeoutStatus
    case Some(Errored) => "scan_error"
    case Some(Rejected) => if r.rejectionStage.Some? then r.rejectionStage.value else "scanner_gate_rejection"
    case _ => "evaluated"
  }

  /** The last result for a symbol: later entries of a dictionary replace earlier ones. */
  function Last(rs: seq<SymbolResult>, symbol: string): (r: Option<SymbolResult>)
    ensures r.Some? ==> r.value in rs && r.value.symbol == symbol
    ensures r.None? <==> symbol !in Symbols(rs)
  {
    if rs == [] then None
    else
      var n := |rs| - 1;
      assert Symbols(rs) == Symbols(rs[..n]) + [rs[n].symbol];
      if rs[n].symbol == symbol then Some(rs[n]) else Last(rs[..n], symbol)
  }

  /** The last result named so has no later one of its symbol. */
  lemma {:induction false} LastIsLast(rs: seq<SymbolResult>, symbol: string) returns (i: nat)
    requires Last(rs, symbol).Some?
    ensures i < |rs| && rs[i] == Last(rs, symbol).value && forall j :: i < j < |rs| ==> rs[j].symbol != symbol
    decreases |rs|
  {
    var n := |rs| - 1;
    if rs[n].symbol == symbol {
      i := n;
    } else {
      i := LastIsLast(rs[..n], symbol);
      assert forall j :: i < j < n ==> rs[..n][j] == rs[j];
    }
  }

  /** The outcome and the reason that a cancelled iteration shows for a symbol. */
  lemma ShownMeans(completed: seq<SymbolResult>, symbol: string)
    ensures var shown := ShownFor(completed, symbol);
            && (symbol !in Symbols(completed) ==> shown == Shown(Some(NotRun), "cancelled_not_run"))
            && (symbol in Symbols(completed) ==>
                  var r := Last(completed, symbol).value;
                  && shown.outcome == r.outcome
                  && (r.outcome == Some(Evaluated) ==> shown.reason == "evaluated")
                  && (r.outcome == Some(Errored) ==> shown.reason == "scan_error")
                  && (r.outcome == Some(NotRun) ==> shown.reason == r.notRunReason)
                  && (r.outcome == Some(TimedOut) ==> shown.reason == r.timeoutStatus)
                  && (r.outcome == Some(Rejected) ==>
                        Some(shown.reason) == if r.rejectionStage.Some? then r.rejectionStage
                                              else Some("scanner_gate_rejection")))
  {}

  // ---------- The cancelled iteration ----------

  /** The completed results of queued symbols, one per symbol, in order of first appearance. */
  function CompletedKeys(queue: seq<string>, completed: seq<SymbolResult>): seq<string> {
    Keep(Dedupe(Symbols(completed)), ToSet(queue))
  }

  /** The outcome a completed symbol is counted under: an unset one counts as errored. */
  function Counted(completed: seq<SymbolResult>, symbol: string): Option<Outcome> {
    var last := Last(completed, symbol);
    if last.None? then None else if last.value.outcome.None? then Some(Errored) else last.value.outcome
  }

  /** What the per-symbol map shows for a queued symbol. */
  function ShownFor(completed: seq<SymbolResult>, symbol: string): Shown {
    var last := Last(completed, symbol);
    if last.None? then Shown(Some(NotRun), "cancelled_not_run")
    else Shown(last.value.outcome, ReasonCode(last.value))
  }

  function CountedFn(completed: seq<SymbolResult>): (f: string -> Option<Outcome>)
    ensures forall s :: f(s) == Counted(completed, s)
  {
    s => Counted(completed, s)
  }

  function ShownFn(completed: seq<SymbolResult>): (f: string -> Option<Outcome>)
    ensures forall s :: f(s) == ShownFor(completed, s).outcome
  {
    s => ShownFor(completed, s).outcome
  }

  function Map(s: seq<string>, f: string -> Option<Outcome>): (os: seq<Option<Outcome>>)
    ensures |os| == |s| && forall i :: 0 <= i < |s| ==> os[i] == f(s[i])
  {
    seq(|s|, i requires 0 <= i < |s| => f(s[i]))
  }

  function CancelledCounts(queue: seq<string>, completed: seq<SymbolResult>): Counts {
    var keys := CompletedKeys(queue, completed);
    var c := CountAll(Map(keys, CountedFn(completed)));
    KeysFit(queue, completed);
    c.(notRun := c.notRun + |queue| - |keys|)
  }

  lemma {:induction false} SubsetCard(a: set<string>, b: set<string>)
    requires a <= b
    ensures |a| <= |b|
    decreases a
  {
    if a != {} {
      var x :| x in a;
      SubsetCard(a - {x}, b - {x});
    }
  }

  lemma KeysFit(queue: seq<string>, completed: seq<SymbolResult>)
    ensures |CompletedKeys(queue, completed)| <= |ToSet(queue)| <= |queue|
    ensures NoDup(CompletedKeys(queue, completed))
  {
    var keys := CompletedKeys(queue, completed);
    KeepNoDup(Dedupe(Symbols(completed)), ToSet(queue));
    NoDupCard(keys);
    NoDupCard(queue);
    assert ToSet(keys) <= ToSet(queue);
    SubsetCard(ToSet(keys), ToSet(queue));
  }

  /** _cancelled_watch_iteration_summary: the counter and the dictionary it fills. */
  method Cancelled(queue: seq<string>, completed: seq<SymbolResult>) returns (c: Counts, shown: map<string, Shown>)
    ensures c == CancelledCounts(queue, completed) && c.Total() == |queue|
    ensures shown.Keys == ToSet(queue)
    ensures forall s :: s in shown ==> shown[s] == ShownFor(completed, s)
  {
    c := CancelledCounts(queue, completed);
    CancelledTotal(queue, completed);
    shown := map[];
    for i := 0 to |queue|
      invariant shown.Keys == ToSet(queue[..i])
      invariant forall s :: s in shown ==> shown[s] == ShownFor(completed, s)
    {
      assert queue[..i + 1] == queue[..i] + [queue[i]];
      assert ToSet(queue[..i + 1]) == ToSet(queue[..i]) + {queue[i]};
      shown := shown[queue[i] := ShownFor(completed, queue[i])];
    }
    assert queue[..|queue|] == queue;
  }

  lemma KeysCompleted(queue: seq<string>, completed: seq<SymbolResult>, s: string)
    ensures s in CompletedKeys(queue, completed) <==> s in queue && Last(completed, s).Some?
  {
    assert s in ToSet(queue) <==> s in queue;
  }

  /** Cancellation conserves the queue: the five counts always add up to its length. */
  lemma CancelledTotal(queue: seq<string>, completed: seq<SymbolResult>)
    ensures CancelledCounts(queue, completed).Total() == |queue|
  {
    var keys := CompletedKeys(queue, completed);
    var os := Map(keys, CountedFn(completed));
    CountsPartition(os);
    NoneCounted(os);
    forall i | 0 <= i < |keys|
      ensures os[i].Some?
    {
      KeysCompleted(queue, completed, keys[i]);
    }
    KeysFit(queue, completed);
  }

  // ---------- Counts against the per-symbol map ----------

  /** The elements of s that f maps to o. */
  function Having(s: seq<string>, f: string -> Option<Outcome>, o: Option<Outcome>): (r: set<string>)
    ensures forall x :: x in r <==> x in s && f(x) == o
  {
    if s == [] then {}
    else
      var n := |s| - 1;
      assert s == s[..n] + [s[n]];
      Having(s[..n], f, o) + if f(s[n]) == o then {s[n]} else {}
  }

  /** Without repetition, a count is the size of a set. */
  lemma {:induction false} CountIsCard(s: seq<string>, f: string -> Option<Outcome>, o: Option<Outcome>)
    requires NoDup(s)
    ensures Count(Map(s, f), o) == |Having(s, f, o)|
    decreases |s|
  {
    if s != [] {
      var n := |s| - 1;
      CountIsCard(s[..n], f, o);
      assert Map(s, f)[..n] == Map(s[..n], f);
      assert s[n] !in s[..n];
    }
  }

  function ShownOutcomes(queue: seq<string>, completed: seq<SymbolResult>): seq<Option<Outcome>> {
    Map(Dedupe(queue), ShownFn(completed))
  }

  /** The counts are those one would read off the per-symbol map. */
  ghost predicate Agrees(queue: seq<string>, completed: seq<SymbolResult>) {
    forall o :: CancelledCounts(queue, completed).Of(o) == CountAll(ShownOutcomes(queue, completed)).Of(o)
  }

  ghost predicate OutcomesSet(queue: seq<string>, completed: seq<SymbolResult>) {
    forall q :: q in queue && Last(completed, q).Some? ==> Last(completed, q).value.outcome.Some?
  }

  lemma SameTotal(c: Counts, d: Counts)
    requires forall o :: c.Of(o) == d.Of(o)
    ensures c.Total() == d.Total()
  {
    assert c.Of(Evaluated) == d.Of(Evaluated) && c.Of(Rejected) == d.Of(Rejected) && c.Of(Errored) == d.Of(Errored);
    assert c.Of(TimedOut) == d.Of(TimedOut) && c.Of(NotRun) == d.Of(NotRun);
  }

  lemma DedupeCard(queue: seq<string>)
    ensures |Dedupe(queue)| <= |queue|
    ensures NoDup(queue) <==> |Dedupe(queue)| == |queue|
  {
    NoDupCard(Dedupe(queue));
    NoDupCard(queue);
    assert ToSet(Dedupe(queue)) == ToSet(queue);
  }

  lemma ShownSet(queue: seq<string>, completed: seq<SymbolResult>)
    requires Count(ShownOutcomes(queue, completed), None) == 0
    ensures OutcomesSet(queue, completed)
  {
    var keys := Dedupe(queue);
    var os := ShownOutcomes(queue, completed);
    NoneCounted(os);
    forall q | q in queue && Last(completed, q).Some?
      ensures Last(completed, q).value.outcome.Some?
    {
      assert q in keys;
      var i :| 0 <= i < |keys| && keys[i] == q;
      assert os[i] == ShownFor(completed, q).outcome;
    }
  }

  lemma AgreementNeeds(queue: seq<string>, completed: seq<SymbolResult>)
    requires Agrees(queue, completed)
    ensures NoDup(queue) && OutcomesSet(queue, completed)
  {
    var os := ShownOutcomes(queue, completed);
    SameTotal(CancelledCounts(queue, completed), CountAll(os));
    CancelledTotal(queue, completed);
    CountsPartition(os);
    DedupeCard(queue);
    ShownSet(queue, completed);
  }

  lemma CardSplit(all: set<string>, part: set<string>, n: nat, k: nat)
    requires part <= all && |all| == n && |part| == k
    ensures |all - part| == n - k
  {
    assert all == part + (all - part);
  }

  /** Completed symbols are shown as they are counted, the others as not run. */
  lemma ShownSplits(queue: seq<string>, keys: seq<string>, completed: seq<SymbolResult>, o: Outcome,
                    f: string -> Option<Outcome>, g: string -> Option<Outcome>)
    requires forall x :: x in keys <==> x in queue && Last(completed, x).Some?
    requires forall x :: x in keys ==> g(x) == f(x)
    requires forall x :: x in queue && x !in keys ==> g(x) == Some(NotRun)
    ensures Having(queue, g, Some(o)) == Having(keys, f, Some(o)) + if o.NotRun? then ToSet(queue) - ToSet(keys) else {}
  {}

  /** Counts over two lists, one of them the completed part of the other. */
  lemma CountSplits(queue: seq<string>, keys: seq<string>, completed: seq<SymbolResult>, o: Outcome,
                    f: string -> Option<Outcome>, g: string -> Option<Outcome>)
    requires NoDup(queue) && NoDup(keys)
    requires forall x :: x in keys <==> x in queue && Last(completed, x).Some?
    requires forall x :: x in keys ==> g(x) == f(x)
    requires forall x :: x in queue && x !in keys ==> g(x) == Some(NotRun)
    ensures Count(Map(queue, g), Some(o)) == Count(Map(keys, f), Some(o)) + if o.NotRun? then |queue| - |keys| else 0
  {
    var rest := ToSet(queue) - ToSet(keys);
    var counted := Having(keys, f, Some(o));
    ShownSplits(queue, keys, completed, o, f, g);
    CountIsCard(keys, f, Some(o));
    CountIsCard(queue, g, Some(o));
    NoDupCard(queue);
    NoDupCard(keys);
    assert ToSet(keys) <= ToSet(queue);
    CardSplit(ToSet(queue), ToSet(keys), |queue|, |keys|);
    assert counted !! rest;
    assert |counted + rest| == |counted| + |rest|;
  }

  lemma CountedUnder(os: seq<Option<Outcome>>, o: Outcome)
    ensures CountAll(os).Of(o) == Count(os, Some(o))
  {}

  lemma KeysAre(queue: seq<string>, completed: seq<SymbolResult>)
    ensures forall x :: x in CompletedKeys(queue, completed) <==> x in queue && Last(completed, x).Some?
  {
    forall x: string
      ensures x in CompletedKeys(queue, completed) <==> x in queue && Last(completed, x).Some?
    {
      KeysCompleted(queue, completed, x);
    }
  }

  lemma CancelledSplits(queue: seq<string>, completed: seq<SymbolResult>, o: Outcome)
    requires NoDup(queue) && OutcomesSet(queue, completed)
    ensures var keys := CompletedKeys(queue, completed);
            Count(Map(queue, ShownFn(completed)), Some(o)) ==
            Count(Map(keys, CountedFn(completed)), Some(o)) + if o.NotRun? then |queue| - |keys| else 0
  {
    var keys := CompletedKeys(queue, completed);
    KeysFit(queue, completed);
    KeysAre(queue, completed);
    CountSplits(queue, keys, completed, o, CountedFn(completed), ShownFn(completed));
  }

  lemma CancelledUnder(queue: seq<string>, completed: seq<SymbolResult>, o: Outcome)
    ensures var keys := CompletedKeys(queue, completed);
            CancelledCounts(queue, completed).Of(o) ==
            Count(Map(keys, CountedFn(completed)), Some(o)) + if o.NotRun? then |queue| - |keys| else 0
  {}

  lemma AgreementFor(queue: seq<string>, completed: seq<SymbolResult>, o: Outcome)
    requires NoDup(queue) && OutcomesSet(queue, completed)
    ensures CancelledCounts(queue, completed).Of(o) == CountAll(ShownOutcomes(queue, completed)).Of(o)
  {
    DedupeNoDup(queue);
    CancelledSplits(queue, completed, o);
    CancelledUnder(queue, completed, o);
    CountedUnder(ShownOutcomes(queue, completed), o);
  }

  /** The cancelled counts agree with the per-symbol map exactly when the queue repeats nothing
      and every completed queued symbol has its outcome set. */
  lemma CancelledAgreesIff(queue: seq<string>, completed: seq<SymbolResult>)
    ensures Agrees(queue, completed) <==> NoDup(queue) && OutcomesSet(queue, completed)
  {
    if Agrees(queue, completed) {
      AgreementNeeds(queue, completed);
    }
    if NoDup(queue) && OutcomesSet(queue, completed) {
      forall o: Outcome
        ensures CancelledCounts(queue, completed).Of(o) == CountAll(ShownOutcomes(queue, completed)).Of(o)
      {
        AgreementFor(queue, completed, o);
      }
    }
  }
}
