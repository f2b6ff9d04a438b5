/** From the watchlist to the alerts: what one watch iteration passes on, and whole runs of them. */
module Iteration {
  import opened Basics
  import opened Text
  import O = Outcomes
  import Q = Queue
  import W = WatchState

  /** The scan of one iteration: what it was to cover and what the scanner reported. */
  datatype Scan = Scan(watchlist: seq<string>, queue: seq<string>, reported: seq<O.Draft>, reason: string)

  /** The scanner is given the queue and reports on nothing else. */
  predicate OnQueue(s: Scan) {
    forall i :: 0 <= i < |s.reported| ==> s.reported[i].symbol in s.queue
  }

  function ResultsBySymbol(s: Scan): O.ResultMap {
    O.Filled(O.Collected(O.ValidatedAll(s.reported)), s.queue, s.reason)
  }

  /** The results that the accounting and the alert loop see. */
  function Results(s: Scan): seq<O.SymbolResult> {
    O.Combined(s.watchlist, ResultsBySymbol(s))
  }

  /** The accounting accepts the results; otherwise the iteration raises, which is fatal, before
      any alert is decided. */
  predicate Accounted(s: Scan) {
    O.OutcomeCounts(Results(s), s.queue).Ok?
  }

  lemma ByQueue(s: Scan)
    requires OnQueue(s)
    ensures O.Keyed(ResultsBySymbol(s)) && ResultsBySymbol(s).Keys == ToSet(s.queue)
  {
    var rs := O.ValidatedAll(s.reported);
    O.CollectedKeyed(rs);
    O.FilledKeyed(O.Collected(rs), s.queue, s.reason);
    forall k | k in O.Collected(rs)
      ensures k in s.queue
    {
      var i :| 0 <= i < |O.Symbols(rs)| && O.Symbols(rs)[i] == k;
      assert s.reported[i].symbol == k;
    }
  }

  lemma OnceEachOfAll(symbols: seq<string>, a: set<string>)
    requires OnceEach(symbols, a) && forall s :: s in symbols ==> s in a
    ensures NoDup(symbols)
  {
    KeepAll(symbols, a);
    KeepOnce(symbols, a);
  }

  /** Results that pass the accounting name no symbol twice. */
  lemma AccountedDistinct(s: Scan)
    requires OnQueue(s) && Accounted(s)
    ensures NoDup(O.Symbols(Results(s)))
  {
    ByQueue(s);
    O.CombinedSymbols(s.watchlist, ResultsBySymbol(s));
    O.CountsSucceedIff(Results(s), s.queue);
    OnceEachOfAll(O.Symbols(Results(s)), ToSet(s.queue));
  }

  // ---------- The alert loop on accounted results ----------

  /** What the alert loop reads off a result besides its symbol and outcome. */
  datatype View = View(
    status: string, readiness: string, quality: string, hasIdea: bool, gatePassed: bool, selected: bool, delivered: bool)

  datatype Turn = Turn(scan: Scan, view: O.SymbolResult -> View, enabled: bool, seenAt: string, saved: bool)

  function ReadingOf(r: O.SymbolResult, v: View): W.Reading {
    W.Reading(r.symbol, r.outcome == Some(O.NotRun), v.status, v.readiness, v.quality,
              v.hasIdea, v.gatePassed, v.selected, v.delivered)
  }

  function Readings(rs: seq<O.SymbolResult>, view: O.SymbolResult -> View): (out: seq<W.Reading>)
    ensures |out| == |rs| && forall i :: 0 <= i < |rs| ==> out[i] == ReadingOf(rs[i], view(rs[i]))
  {
    seq(|rs|, i requires 0 <= i < |rs| => ReadingOf(rs[i], view(rs[i])))
  }

  function AsTurn(t: Turn): W.Turn {
    W.Turn(Readings(Results(t.scan), t.view), t.enabled, t.seenAt, t.saved)
  }

  /** Only symbols that ran are alerted, and one that did not keeps its watch state. */
  lemma NotRunIsLeftAlone(t: Turn, start: W.State, symbol: string)
    requires forall i :: 0 <= i < |Results(t.scan)| && Results(t.scan)[i].symbol == symbol ==>
               Results(t.scan)[i].outcome == Some(O.NotRun)
    ensures var next := W.Fold(start, AsTurn(t).rs, t.enabled, t.seenAt);
            && (symbol in next.symbols <==> symbol in start.symbols)
            && (symbol in start.symbols ==> next.symbols[symbol] == start.symbols[symbol])
    ensures W.CountFor(start, AsTurn(t).rs, t.enabled, symbol) == 0
  {
    var rs := AsTurn(t).rs;
    assert forall i :: 0 <= i < |rs| && rs[i].symbol == symbol ==> Results(t.scan)[i].symbol == symbol;
    W.FoldLeavesOthers(start, rs, t.enabled, t.seenAt, symbol);
    if W.CountFor(start, rs, t.enabled, symbol) >= 1 {
      var i := W.CountWitness(start, rs, t.enabled, symbol);
    }
  }

  /** The turns that reach the alert loop: the run ends at the first failed accounting. */
  function Taken(ts: seq<Turn>): seq<W.Turn>
    decreases |ts|
  {
    if ts == [] || !Accounted(ts[0].scan) then [] else [AsTurn(ts[0])] + Taken(ts[1..])
  }

  lemma TurnDistinct(t: Turn)
    requires OnQueue(t.scan) && Accounted(t.scan)
    ensures W.Distinct(AsTurn(t).rs)
  {
    AccountedDistinct(t.scan);
    var rs := Results(t.scan);
    assert forall i :: 0 <= i < |rs| ==> O.Symbols(rs)[i] == AsTurn(t).rs[i].symbol;
  }

  ghost predicate AllDistinct(ws: seq<W.Turn>) {
    forall i :: 0 <= i < |ws| ==> W.Distinct(ws[i].rs)
  }

  lemma ConsDistinct(first: W.Turn, rest: seq<W.Turn>)
    requires W.Distinct(first.rs) && AllDistinct(rest)
    ensures AllDistinct([first] + rest)
  {}

  lemma {:induction false} TakenDistinct(ts: seq<Turn>)
    requires forall i :: 0 <= i < |ts| ==> OnQueue(ts[i].scan)
    ensures AllDistinct(Taken(ts))
    decreases |ts|
  {
    if ts != [] && Accounted(ts[0].scan) {
      TurnDistinct(ts[0]);
      TakenDistinct(ts[1..]);
      ConsDistinct(AsTurn(ts[0]), Taken(ts[1..]));
    }
  }

  /** Over every run of scans, with failed saves and a fatal accounting anywhere: the watch state
      stays sound and only grows, and at most one alert per symbol is ever recorded. */
  lemma RunsStaySound(s: W.State, ts: seq<Turn>, symbol: string)
    requires W.Sound(s) && forall i :: 0 <= i < |ts| ==> OnQueue(ts[i].scan)
    ensures W.Sound(W.Run(s, Taken(ts))) && W.Later(s, W.Run(s, Taken(ts)))
    ensures W.Activations(s, symbol) + W.Delivered(s, Taken(ts), symbol, true) <= 1
  {
    TakenDistinct(ts);
    W.RunKeeps(s, Taken(ts));
    W.AlertedAtMostOnce(s, Taken(ts), symbol);
  }

  /** At most one alert per symbol is ever delivered exactly when no alert whose save failed is
      followed by another. */
  lemma RunsAlertOnceIff(s: W.State, ts: seq<Turn>, symbol: string)
    requires W.Sound(s) && forall i :: 0 <= i < |ts| ==> OnQueue(ts[i].scan)
    ensures W.Total(s, Taken(ts), symbol) <= 1 <==> !W.AlertsAfterLoss(s, Taken(ts), symbol)
  {
    TakenDistinct(ts);
    W.AlertedOnceIff(s, Taken(ts), symbol);
  }

  // ---------- Iterations built from a watchlist source ----------

  function ScanOf(src: Q.Source, reported: seq<O.Draft>, reason: string): Scan
    requires Q.WatchlistOf(src).Ok?
  {
    var wl := Q.WatchlistOf(src).value;
    Scan(wl.symbols, Q.Queued(wl, src.plan), reported, reason)
  }

  lemma NoDupOnceEach(symbols: seq<string>, a: set<string>)
    requires NoDup(symbols)
    ensures OnceEach(symbols, a)
  {
    KeepNoDup(symbols, a);
    KeepOnce(symbols, a);
  }

  /** The accounting of an iteration built from a proper source never fails: every queued symbol
      has one outcome and the counts add up to the queue. */
  lemma AccountingSucceeds(src: Q.Source, cooling: set<string>, reported: seq<O.Draft>, reason: string)
    requires Q.Proper(src, cooling) && OnQueue(ScanOf(src, reported, reason))
    ensures var s := ScanOf(src, reported, reason);
            Accounted(s) && O.OutcomeCounts(Results(s), s.queue).value.Total() == |s.queue|
  {
    var s := ScanOf(src, reported, reason);
    Q.QueueClean(src, cooling);
    ByQueue(s);
    NoDupOnceEach(s.watchlist, ToSet(s.queue));
    O.FilledCountsSucceedIff(s.watchlist, s.queue, ResultsBySymbol(s));
    O.CountsSucceedIff(Results(s), s.queue);
  }

  /** What is recorded for a queued symbol: its last report, or that it was not run. */
  lemma ResultOf(s: Scan, q: string)
    requires OnQueue(s) && q in s.queue
    ensures q in ResultsBySymbol(s)
    ensures var reports := O.ValidatedAll(s.reported);
            ResultsBySymbol(s)[q] == if O.Last(reports, q).Some? then O.Last(reports, q).value
                                     else O.SymbolResult(q, Some(O.NotRun), s.reason, "none", None)
  {
    O.CollectedIsLast(O.ValidatedAll(s.reported), q);
  }

  /** The outcome recorded for a symbol. */
  function OutcomeIn(m: O.ResultMap): (f: string -> Option<O.Outcome>)
    ensures forall q :: f(q) == if q in m then m[q].outcome else None
  {
    q => if q in m then m[q].outcome else None
  }

  lemma {:induction false} CombinedOutcomes(watchlist: seq<string>, m: O.ResultMap)
    requires O.Keyed(m)
    ensures O.OutcomesOf(O.Combined(watchlist, m)) == O.Map(O.Symbols(O.Combined(watchlist, m)), OutcomeIn(m))
  {
    var rs := O.Combined(watchlist, m);
    forall i | 0 <= i < |rs|
      ensures rs[i].outcome == OutcomeIn(m)(rs[i].symbol)
    {
      assert rs[i] in rs;
    }
  }

  lemma AccountedAll(s: Scan)
    requires OnQueue(s)
    ensures O.Accounted(Results(s), ToSet(s.queue)) == Results(s)
  {
    ByQueue(s);
    var rs := Results(s);
    assert forall i :: 0 <= i < |rs| ==> rs[i] in rs;
    AccountedSame(rs, ToSet(s.queue));
  }

  lemma {:induction false} AccountedSame(rs: seq<O.SymbolResult>, queued: set<string>)
    requires forall i :: 0 <= i < |rs| ==> rs[i].symbol in queued
    ensures O.Accounted(rs, queued) == rs
    decreases |rs|
  {
    if rs != [] {
      var before, last := rs[..|rs| - 1], rs[|rs| - 1];
      AccountedSame(before, queued);
      assert O.Accounted(rs, queued) == O.Accounted(before, queued) + [last];
      assert rs == before + [last];
    }
  }

  lemma CountsOfScan(s: Scan, o: O.Outcome)
    requires OnQueue(s) && Accounted(s)
    ensures O.OutcomeCounts(Results(s), s.queue).value.Of(o)
         == |O.Having(O.Symbols(Results(s)), OutcomeIn(ResultsBySymbol(s)), Some(o))|
  {
    AccountedDistinct(s);
    AccountedAll(s);
    ByQueue(s);
    CombinedOutcomes(s.watchlist, ResultsBySymbol(s));
    O.CountedUnder(O.OutcomesOf(Results(s)), o);
    O.CountIsCard(O.Symbols(Results(s)), OutcomeIn(ResultsBySymbol(s)), Some(o));
  }

  /** The queued symbols with an outcome. */
  function QueuedWith(s: Scan, o: O.Outcome): set<string> {
    set q | q in s.queue && q in ResultsBySymbol(s) && ResultsBySymbol(s)[q].outcome == Some(o)
  }

  lemma AllQueuedReported(s: Scan, o: O.Outcome)
    requires OnQueue(s) && forall q :: q in s.queue ==> q in s.watchlist
    ensures O.Having(O.Symbols(Results(s)), OutcomeIn(ResultsBySymbol(s)), Some(o)) == QueuedWith(s, o)
  {
    ByQueue(s);
    O.CombinedSymbols(s.watchlist, ResultsBySymbol(s));
  }

  /** Each count of an iteration is the number of queued symbols with that outcome: the errored
      ones are the failed scans, the not run ones those without a report or reported so. */
  lemma CountsAreSymbols(src: Q.Source, cooling: set<string>, reported: seq<O.Draft>, reason: string, o: O.Outcome)
    requires Q.Proper(src, cooling) && OnQueue(ScanOf(src, reported, reason))
    ensures var s := ScanOf(src, reported, reason);
            Accounted(s) && O.OutcomeCounts(Results(s), s.queue).value.Of(o) == |QueuedWith(s, o)|
  {
    var s := ScanOf(src, reported, reason);
    AccountingSucceeds(src, cooling, reported, reason);
    CountsOfScan(s, o);
    Q.QueueClean(src, cooling);
    AllQueuedReported(s, o);
  }

  /** A cancelled iteration reports counts that agree with the outcomes it shows. */
  lemma CancelledAgrees(src: Q.Source, cooling: set<string>, reported: seq<O.Draft>, reason: string)
    requires Q.Proper(src, cooling)
    ensures O.Agrees(ScanOf(src, reported, reason).queue, O.ValidatedAll(reported))
  {
    var s := ScanOf(src, reported, reason);
    Q.QueueClean(src, cooling);
    forall q | q in s.queue && O.Last(O.ValidatedAll(reported), q).Some?
      ensures O.Last(O.ValidatedAll(reported), q).value.outcome.Some?
    {
      var r := O.Last(O.ValidatedAll(reported), q).value;
      var i :| 0 <= i < |reported| && O.ValidatedAll(reported)[i] == r;
    }
    O.CancelledAgreesIff(s.queue, O.ValidatedAll(reported));
  }

  /** Lifecycle priority on such a watchlist loses and gains no symbol without listing it. */
  lemma PriorityAccounts(src: Q.Source, cooling: set<string>, active: seq<string>)
    requires Q.Proper(src, cooling) && Q.CapOk(src.args)
    ensures var wl := Q.WatchlistOf(src).value;
            var p := Q.Prioritized(src.args, wl, active);
            |wl.symbols| + |Without(p, ToSet(wl.symbols))| == |p| + |Without(wl.symbols, ToSet(p))|
  {
    var wl := Q.WatchlistOf(src).value;
    Q.QueueClean(src, cooling);
    NoDupOnceEach(wl.symbols, ToSet(Q.Prioritized(src.args, wl, active)));
    Q.PriorityConserves(src.args, wl, active);
  }

  /** The turn scans what its source says. */
  ghost predicate Built(t: Turn, src: Q.Source, cooling: set<string>) {
    Q.Proper(src, cooling) && OnQueue(t.scan) && t.scan == ScanOf(src, t.scan.reported, t.scan.reason)
  }

  /** No iteration built from a proper source ends a run by its accounting. */
  lemma {:induction false} EveryTurnTaken(ts: seq<Turn>, srcs: seq<Q.Source>, cooling: seq<set<string>>)
    requires |ts| == |srcs| == |cooling|
    requires forall i :: 0 <= i < |ts| ==> Built(ts[i], srcs[i], cooling[i])
    ensures |Taken(ts)| == |ts|
    decreases |ts|
  {
    if ts != [] {
      AccountingSucceeds(srcs[0], cooling[0], ts[0].scan.reported, ts[0].scan.reason);
      EveryTurnTaken(ts[1..], srcs[1..], cooling[1..]);
    }
  }
}
