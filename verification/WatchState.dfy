/** Per-symbol watch state: activation at most once, absorbing invalidation. */
module WatchState {
  import opened Basics
  import opened Text

  const ALERTABLE_STATUSES := {
    "near_miss", "no_setup", "rejected", "watch", "hot_watch", "watchlist_near_miss",
    "WATCHLIST_NEAR_MISS", "REJECTED_NO_EDGE"}
  const ALERTABLE_LABELS := {"HOT WATCH", "WATCH", "REJECTED"}
  const INVALID_STATUSES := {"no_setup", "rejected", "rejected_no_edge"}
  const VALID_QUALITIES := {"HIGH_QUALITY_TRADE", "VALID_BUT_LOWER_QUALITY"}
  const REJECTED_QUALITY := "REJECTED_NO_EDGE"

  datatype Entry = Entry(seenAt: string, status: string, readiness: string, quality: string, alerted: bool)

  datatype SymbolState = SymbolState(
    lastStatus: string, readiness: string, lastSeenAt: string, alertSent: bool, invalidated: bool,
    activations: nat, history: seq<Entry>)

  type SymbolMap = map<string, SymbolState>

  datatype State = State(updatedAt: string, symbols: SymbolMap, epoch: Option<string>)

  /** What the scanner reports for one symbol in one iteration. */
  datatype Reading = Reading(
    symbol: string, notRun: bool, status: string, readiness: string, quality: string,
    hasIdea: bool, gatePassed: bool, selected: bool, delivered: bool)

  predicate StatusInvalidates(status: string, readiness: string) {
    Normalize(status) in INVALID_STATUSES || readiness == "REJECTED"
  }

  predicate ResultInvalidates(status: string, quality: string) {
    status == "no_setup" || quality == REJECTED_QUALITY
  }

  /** Construction derives the invalidation flag from status and readiness label. */
  function MakeState(status: string, readiness: string, seenAt: string, alertSent: bool, invalidated: bool,
                     activations: nat, history: seq<Entry>): SymbolState {
    SymbolState(status, readiness, seenAt, alertSent, invalidated || StatusInvalidates(status, readiness),
                activations, history)
  }

  predicate AllowsActivation(p: SymbolState) {
    && p.lastStatus != "valid_setup" && p.readiness != "VALID SETUP"
    && (|| p.lastStatus in ALERTABLE_STATUSES || Normalize(p.lastStatus) in ALERTABLE_STATUSES
        || p.readiness in ALERTABLE_LABELS)
  }

  predicate ValidActivation(r: Reading) {
    r.hasIdea && r.quality in VALID_QUALITIES && r.gatePassed && r.status == "valid_setup" && r.selected
  }

  /** should_trigger_activation_alert */
  predicate ShouldAlert(state: State, r: Reading) {
    && r.symbol in state.symbols
    && var p := state.symbols[r.symbol];
       !p.invalidated && !p.alertSent && AllowsActivation(p) && ValidActivation(r)
  }

  /** update_watch_state_for_result */
  function Update(state: State, r: Reading, alerted: bool, seenAt: string): State {
    var prev := if r.symbol in state.symbols then state.symbols[r.symbol]
               else SymbolState("N/A", "N/A", "N/A", false, false, 0, []);
    var entry := Entry(seenAt, r.status, r.readiness, r.quality, alerted);
    var next := MakeState(r.status, r.readiness, seenAt, prev.alertSent || alerted,
                         prev.invalidated || ResultInvalidates(r.status, r.quality),
                         prev.activations + (if alerted then 1 else 0), prev.history + [entry]);
    State(seenAt, state.symbols[r.symbol := next], state.epoch)
  }

  /** Alerts are decided on the state at the start of the iteration. */
  predicate Alerts(start: State, enabled: bool, r: Reading) {
    !r.notRun && enabled && ShouldAlert(start, r) && r.delivered
  }

  function Fold(start: State, rs: seq<Reading>, enabled: bool, seenAt: string): State
    decreases |rs|
  {
    if rs == [] then start
    else
      var r := rs[|rs| - 1];
      var before := Fold(start, rs[..|rs| - 1], enabled, seenAt);
      if r.notRun then before else Update(before, r, Alerts(start, enabled, r), seenAt)
  }

  // ---------- The invariant ----------

  function CountAlerts(history: seq<Entry>): nat {
    if history == [] then 0
    else CountAlerts(history[..|history| - 1]) + if history[|history| - 1].alerted then 1 else 0
  }

  /** Entry i invalidates the symbol; the first one may be a seed, whose quality is ignored. */
  predicate Marks(history: seq<Entry>, i: nat)
    requires i < |history|
  {
    StatusInvalidates(history[i].status, history[i].readiness) || (i > 0 && history[i].quality == REJECTED_QUALITY)
  }

  /** The state's own fields are those of an entry. */
  predicate ShowsEntry(s: SymbolState, e: Entry) {
    s.lastStatus == e.status && s.readiness == e.readiness && s.lastSeenAt == e.seenAt
  }

  ghost predicate SymbolOk(s: SymbolState) {
    && s.activations == CountAlerts(s.history) <= 1
    && (s.alertSent <==> s.activations == 1)
    && (StatusInvalidates(s.lastStatus, s.readiness) ==> s.invalidated)
    && (s.history != [] ==> ShowsEntry(s, s.history[|s.history| - 1]))
    && (forall i :: 0 <= i < |s.history| && Marks(s.history, i) ==> s.invalidated)
    && (forall i, j :: 0 <= i < j < |s.history| && Marks(s.history, i) ==> !s.history[j].alerted)
    && (forall i :: 0 <= i < |s.history| && s.history[i].alerted ==> Worthy(s.history[i]))
  }

  /** An alert is for a valid setup of one of the two tradable qualities. */
  predicate Worthy(e: Entry) {
    e.status == "valid_setup" && (e.quality == "HIGH_QUALITY_TRADE" || e.quality == "VALID_BUT_LOWER_QUALITY")
  }

  ghost predicate Sound(state: State) {
    forall k :: k in state.symbols ==> SymbolOk(state.symbols[k])
  }

  /** Histories only grow, invalidation stays, no symbol is forgotten, the epoch is fixed. */
  ghost predicate Later(a: State, b: State) {
    && a.epoch == b.epoch
    && forall k :: k in a.symbols ==>
         && k in b.symbols
         && a.symbols[k].history <= b.symbols[k].history
         && (a.symbols[k].invalidated ==> b.symbols[k].invalidated)
         && a.symbols[k].activations <= b.symbols[k].activations
  }

  lemma LaterTransitive(a: State, b: State, c: State)
    requires Later(a, b) && Later(b, c)
    ensures Later(a, c)
  {}

  lemma CountSnoc(h: seq<Entry>, e: Entry)
    ensures CountAlerts(h + [e]) == CountAlerts(h) + if e.alerted then 1 else 0
  {
    assert (h + [e])[..|h|] == h;
  }

  lemma UpdateOk(prev: SymbolState, next: SymbolState, e: Entry, alerted: bool)
    requires SymbolOk(prev) && (alerted ==> !prev.alertSent && !prev.invalidated)
    requires e.alerted == alerted && (alerted ==> Worthy(e))
    requires next == MakeState(e.status, e.readiness, e.seenAt, prev.alertSent || alerted,
                              prev.invalidated || ResultInvalidates(e.status, e.quality),
                              prev.activations + (if alerted then 1 else 0), prev.history + [e])
    ensures SymbolOk(next)
  {
    CountSnoc(prev.history, e);
    forall i | 0 <= i < |next.history| && Marks(next.history, i)
      ensures next.invalidated
    {
      if i < |prev.history| { assert Marks(prev.history, i); }
    }
    forall i, j | 0 <= i < j < |next.history| && Marks(next.history, i)
      ensures !next.history[j].alerted
    {
      assert Marks(prev.history, i);
    }
  }

  /** No two results of the iteration are for the same symbol. */
  predicate Distinct(rs: seq<Reading>) {
    forall i, j :: 0 <= i < j < |rs| && rs[i].symbol == rs[j].symbol ==> rs[i].notRun || rs[j].notRun
  }

  lemma {:induction false} FoldLeavesOthers(start: State, rs: seq<Reading>, enabled: bool, seenAt: string, symbol: string)
    requires forall i :: 0 <= i < |rs| ==> rs[i].notRun || rs[i].symbol != symbol
    ensures var s := Fold(start, rs, enabled, seenAt);
            && (symbol in s.symbols <==> symbol in start.symbols)
            && (symbol in start.symbols ==> s.symbols[symbol] == start.symbols[symbol])
    decreases |rs|
  {
    if rs != [] {
      FoldLeavesOthers(start, rs[..|rs| - 1], enabled, seenAt, symbol);
    }
  }

  lemma UpdateKeeps(mid: State, r: Reading, alerted: bool, seenAt: string)
    requires Sound(mid)
    requires alerted ==> r.symbol in mid.symbols && !mid.symbols[r.symbol].alertSent && !mid.symbols[r.symbol].invalidated
    requires alerted ==> Worthy(Entry(seenAt, r.status, r.readiness, r.quality, true))
    ensures Sound(Update(mid, r, alerted, seenAt)) && Later(mid, Update(mid, r, alerted, seenAt))
  {
    var prev := if r.symbol in mid.symbols then mid.symbols[r.symbol]
                else SymbolState("N/A", "N/A", "N/A", false, false, 0, []);
    if r.symbol !in mid.symbols { NotInvalidByDefault(); }
    UpdateOk(prev, Update(mid, r, alerted, seenAt).symbols[r.symbol],
             Entry(seenAt, r.status, r.readiness, r.quality, alerted), alerted);
  }

  /** One iteration over distinct symbols keeps the invariant and only moves forward. */
  lemma {:induction false} FoldKeeps(start: State, rs: seq<Reading>, enabled: bool, seenAt: string)
    requires Sound(start) && Distinct(rs)
    ensures Sound(Fold(start, rs, enabled, seenAt)) && Later(start, Fold(start, rs, enabled, seenAt))
    decreases |rs|
  {
    if rs != [] {
      var before := rs[..|rs| - 1];
      var r := rs[|rs| - 1];
      FoldKeeps(start, before, enabled, seenAt);
      if !r.notRun {
        var mid := Fold(start, before, enabled, seenAt);
        FoldLeavesOthers(start, before, enabled, seenAt, r.symbol);
        UpdateKeeps(mid, r, Alerts(start, enabled, r), seenAt);
        LaterTransitive(start, mid, Fold(start, rs, enabled, seenAt));
      }
    }
  }

  lemma NotInvalidByDefault()
    ensures !StatusInvalidates("N/A", "N/A")
  {
    assert Normalize("N/A")[1] == '/';
    assert |Normalize("N/A")| == 3;
  }

  // ---------- Runs: state and deliveries ----------

  function CountFor(start: State, rs: seq<Reading>, enabled: bool, symbol: string): nat
    decreases |rs|
  {
    if rs == [] then 0
    else
      var r := rs[|rs| - 1];
      CountFor(start, rs[..|rs| - 1], enabled, symbol) + if r.symbol == symbol && Alerts(start, enabled, r) then 1 else 0
  }

  function Activations(s: State, symbol: string): nat {
    if symbol in s.symbols then s.symbols[symbol].activations else 0
  }

  /** Each delivered alert of the iteration is one activation, duplicates included. */
  lemma {:induction false} FoldCounts(start: State, rs: seq<Reading>, enabled: bool, seenAt: string, symbol: string)
    ensures Activations(Fold(start, rs, enabled, seenAt), symbol)
         == Activations(start, symbol) + CountFor(start, rs, enabled, symbol)
    decreases |rs|
  {
    if rs != [] {
      FoldCounts(start, rs[..|rs| - 1], enabled, seenAt, symbol);
    }
  }

  ghost predicate BothAlert(start: State, rs: seq<Reading>, enabled: bool, i: nat, j: nat)
    requires i < j < |rs|
  {
    rs[i].symbol == rs[j].symbol && Alerts(start, enabled, rs[i]) && Alerts(start, enabled, rs[j])
  }

  /** Two results of one iteration alert for the same symbol. */
  ghost predicate DoubleAlert(start: State, rs: seq<Reading>, enabled: bool) {
    exists i, j :: 0 <= i < j < |rs| && BothAlert(start, rs, enabled, i, j)
  }

  lemma {:induction false} CountAtLeast(start: State, rs: seq<Reading>, enabled: bool, symbol: string, i: nat)
    requires i < |rs| && rs[i].symbol == symbol && Alerts(start, enabled, rs[i])
    ensures CountFor(start, rs, enabled, symbol) >= 1
    ensures forall j :: i < j < |rs| && BothAlert(start, rs, enabled, i, j) ==> CountFor(start, rs, enabled, symbol) >= 2
    decreases |rs|
  {
    var before := rs[..|rs| - 1];
    if i < |rs| - 1 {
      CountAtLeast(start, before, enabled, symbol, i);
      forall j | i < j < |rs| && BothAlert(start, rs, enabled, i, j)
        ensures CountFor(start, rs, enabled, symbol) >= 2
      {
        if j < |rs| - 1 { assert BothAlert(start, before, enabled, i, j); }
      }
    }
  }

  lemma {:induction false} CountWitness(start: State, rs: seq<Reading>, enabled: bool, symbol: string) returns (i: int)
    ensures CountFor(start, rs, enabled, symbol) >= 1 ==>
              0 <= i < |rs| && rs[i].symbol == symbol && Alerts(start, enabled, rs[i])
    ensures CountFor(start, rs, enabled, symbol) >= 2 ==> DoubleAlert(start, rs, enabled)
    decreases |rs|
  {
    i := -1;
    if rs != [] {
      var before := rs[..|rs| - 1];
      i := CountWitness(start, before, enabled, symbol);
      if CountFor(start, before, enabled, symbol) >= 2 {
        var a, b :| 0 <= a < b < |before| && BothAlert(start, before, enabled, a, b);
        assert BothAlert(start, rs, enabled, a, b);
      }
      var last := rs[|rs| - 1];
      if last.symbol == symbol && Alerts(start, enabled, last) {
        if CountFor(start, before, enabled, symbol) >= 1 {
          assert BothAlert(start, rs, enabled, i, |rs| - 1);
        }
        i := |rs| - 1;
      }
    }
  }

  /** At most one activation per symbol survives an iteration exactly when no symbol alerts
      twice in it: the decision looks at the state before the iteration, not in between. */
  lemma AtMostOnceIff(start: State, rs: seq<Reading>, enabled: bool, seenAt: string)
    requires Sound(start)
    ensures (forall symbol :: Activations(Fold(start, rs, enabled, seenAt), symbol) <= 1) <==>
              !DoubleAlert(start, rs, enabled)
  {
    if DoubleAlert(start, rs, enabled) {
      var i, j :| 0 <= i < j < |rs| && BothAlert(start, rs, enabled, i, j);
      CountAtLeast(start, rs, enabled, rs[i].symbol, i);
      FoldCounts(start, rs, enabled, seenAt, rs[i].symbol);
    } else {
      forall symbol
        ensures Activations(Fold(start, rs, enabled, seenAt), symbol) <= 1
      {
        FoldCounts(start, rs, enabled, seenAt, symbol);
        var i := CountWitness(start, rs, enabled, symbol);
      }
    }
  }

  /** One iteration of the loop; a failed save rolls the state back. */
  datatype Turn = Turn(rs: seq<Reading>, enabled: bool, seenAt: string, saved: bool)

  function After(s: State, t: Turn): State {
    if t.saved then Fold(s, t.rs, t.enabled, t.seenAt) else s
  }

  function Run(s: State, ts: seq<Turn>): State
    decreases |ts|
  {
    if ts == [] then s else After(Run(s, ts[..|ts| - 1]), ts[|ts| - 1])
  }

  /** Alerts delivered for the symbol in turns that were saved, or in those that were not. */
  function Delivered(s: State, ts: seq<Turn>, symbol: string, saved: bool): nat
    decreases |ts|
  {
    if ts == [] then 0
    else
      var t := ts[|ts| - 1];
      var before := ts[..|ts| - 1];
      Delivered(s, before, symbol, saved)
      + if t.saved == saved then CountFor(Run(s, before), t.rs, t.enabled, symbol) else 0
  }

  /** Over every run, with failed saves and rollback: the invariant holds, histories only grow,
      invalidation is absorbing, and the epoch never changes. */
  lemma {:induction false} RunKeeps(s: State, ts: seq<Turn>)
    requires Sound(s) && forall i :: 0 <= i < |ts| ==> Distinct(ts[i].rs)
    ensures Sound(Run(s, ts)) && Later(s, Run(s, ts))
    decreases |ts|
  {
    if ts != [] {
      var before := ts[..|ts| - 1];
      var t := ts[|ts| - 1];
      RunKeeps(s, before);
      FoldKeeps(Run(s, before), t.rs, t.enabled, t.seenAt);
      LaterTransitive(s, Run(s, before), Run(s, ts));
    }
  }

  /** Conservation of alerts: the recorded activations are exactly the deliveries of saved
      turns, so every further delivery happened in a turn whose save failed. */
  lemma {:induction false} AlertsConserved(s: State, ts: seq<Turn>, symbol: string)
    ensures Activations(Run(s, ts), symbol) == Activations(s, symbol) + Delivered(s, ts, symbol, true)
    decreases |ts|
  {
    if ts != [] {
      var before := ts[..|ts| - 1];
      var t := ts[|ts| - 1];
      AlertsConserved(s, before, symbol);
      FoldCounts(Run(s, before), t.rs, t.enabled, t.seenAt, symbol);
    }
  }

  /** With distinct results and successful saves a symbol is alerted at most once ever, and
      never once it is marked as sent. */
  lemma AlertedAtMostOnce(s: State, ts: seq<Turn>, symbol: string)
    requires Sound(s) && forall i :: 0 <= i < |ts| ==> Distinct(ts[i].rs)
    ensures Activations(s, symbol) + Delivered(s, ts, symbol, true) <= 1
  {
    RunKeeps(s, ts);
    AlertsConserved(s, ts, symbol);
  }

  // ---------- Every delivery, saved or not ----------

  /** Turn i delivers an alert for the symbol. */
  predicate AlertsIn(s: State, ts: seq<Turn>, symbol: string, i: nat)
    requires i < |ts|
  {
    CountFor(Run(s, ts[..i]), ts[i].rs, ts[i].enabled, symbol) >= 1
  }

  function Total(s: State, ts: seq<Turn>, symbol: string): nat {
    Delivered(s, ts, symbol, true) + Delivered(s, ts, symbol, false)
  }

  /** An alert whose state was lost is followed by another one. */
  ghost predicate AlertsAfterLoss(s: State, ts: seq<Turn>, symbol: string) {
    exists i, j :: 0 <= i < j < |ts| && !ts[i].saved && AlertsIn(s, ts, symbol, i) && AlertsIn(s, ts, symbol, j)
  }

  lemma AlertsInPrefix(s: State, ts: seq<Turn>, symbol: string, n: nat, i: nat)
    requires i < n <= |ts|
    ensures AlertsIn(s, ts[..n], symbol, i) <==> AlertsIn(s, ts, symbol, i)
  {
    assert ts[..n][..i] == ts[..i];
  }

  lemma DistinctAlertsOnce(start: State, rs: seq<Reading>, enabled: bool, symbol: string)
    requires Distinct(rs)
    ensures CountFor(start, rs, enabled, symbol) <= 1
  {
    var i := CountWitness(start, rs, enabled, symbol);
  }

  lemma TotalSnoc(s: State, ts: seq<Turn>, symbol: string)
    requires ts != []
    ensures var n := |ts| - 1;
            Total(s, ts, symbol) == Total(s, ts[..n], symbol) + CountFor(Run(s, ts[..n]), ts[n].rs, ts[n].enabled, symbol)
  {}

  lemma {:induction false} SomeAlert(s: State, ts: seq<Turn>, symbol: string) returns (i: nat)
    requires Total(s, ts, symbol) >= 1
    ensures i < |ts| && AlertsIn(s, ts, symbol, i)
    decreases |ts|
  {
    var n := |ts| - 1;
    TotalSnoc(s, ts, symbol);
    if AlertsIn(s, ts, symbol, n) {
      i := n;
    } else {
      i := SomeAlert(s, ts[..n], symbol);
      AlertsInPrefix(s, ts, symbol, n, i);
    }
  }

  lemma {:induction false} TotalAtLeast(s: State, ts: seq<Turn>, symbol: string, i: nat, j: nat)
    requires i <= j < |ts| && AlertsIn(s, ts, symbol, i) && AlertsIn(s, ts, symbol, j)
    ensures Total(s, ts, symbol) >= if i < j then 2 else 1
    decreases |ts|
  {
    var n := |ts| - 1;
    TotalSnoc(s, ts, symbol);
    AlertsInPrefix(s, ts, symbol, |ts|, i);
    if j < n {
      AlertsInPrefix(s, ts, symbol, n, i);
      AlertsInPrefix(s, ts, symbol, n, j);
      TotalAtLeast(s, ts[..n], symbol, i, j);
    } else if i < n {
      AlertsInPrefix(s, ts, symbol, n, i);
      TotalAtLeast(s, ts[..n], symbol, i, i);
    }
  }

  /** No alert is decided for a symbol that is invalidated or marked as sent. */
  lemma SilentSymbol(start: State, rs: seq<Reading>, enabled: bool, symbol: string)
    requires symbol in start.symbols && (start.symbols[symbol].alertSent || start.symbols[symbol].invalidated)
    ensures CountFor(start, rs, enabled, symbol) == 0
  {
    var i := CountWitness(start, rs, enabled, symbol);
  }

  lemma {:induction false} RunSplit(s: State, ts: seq<Turn>, a: nat)
    requires a <= |ts|
    ensures Run(s, ts) == Run(Run(s, ts[..a]), ts[a..])
    decreases |ts|
  {
    if a == |ts| {
      assert ts[..a] == ts;
    } else {
      var n := |ts| - 1;
      RunSplit(s, ts[..n], a);
      assert ts[..n][..a] == ts[..a] && ts[..n][a..] == ts[a..][..n - a];
    }
  }

  lemma RunLater(s: State, ts: seq<Turn>, a: nat)
    requires Sound(s) && (forall i :: 0 <= i < |ts| ==> Distinct(ts[i].rs)) && a <= |ts|
    ensures Sound(Run(s, ts[..a])) && Sound(Run(s, ts)) && Later(Run(s, ts[..a]), Run(s, ts))
  {
    RunSplit(s, ts, a);
    RunKeeps(s, ts[..a]);
    RunKeeps(Run(s, ts[..a]), ts[a..]);
  }

  /** After a saved alert the symbol is silent. */
  lemma SavedAlertIsLast(s: State, ts: seq<Turn>, symbol: string, i: nat, j: nat)
    requires Sound(s) && (forall k :: 0 <= k < |ts| ==> Distinct(ts[k].rs))
    requires i < j < |ts| && ts[i].saved && AlertsIn(s, ts, symbol, i)
    ensures !AlertsIn(s, ts, symbol, j)
  {
    assert ts[..i + 1][..i] == ts[..i] && ts[..j][..i + 1] == ts[..i + 1];
    FoldCounts(Run(s, ts[..i]), ts[i].rs, ts[i].enabled, ts[i].seenAt, symbol);
    RunLater(s, ts[..j], i + 1);
    SilentSymbol(Run(s, ts[..j]), ts[j].rs, ts[j].enabled, symbol);
  }

  /** Over every run a symbol is alerted at most once in all exactly when no alert whose save
      failed is followed by another alert of the symbol. */
  lemma {:induction false} AlertedOnceIff(s: State, ts: seq<Turn>, symbol: string)
    requires Sound(s) && forall i :: 0 <= i < |ts| ==> Distinct(ts[i].rs)
    ensures Total(s, ts, symbol) <= 1 <==> !AlertsAfterLoss(s, ts, symbol)
  {
    if i, j :| 0 <= i < j < |ts| && !ts[i].saved && AlertsIn(s, ts, symbol, i) && AlertsIn(s, ts, symbol, j) {
      TotalAtLeast(s, ts, symbol, i, j);
    }
    if Total(s, ts, symbol) >= 2 {
      var i, j := TwoAlerts(s, ts, symbol);
      if ts[i].saved { SavedAlertIsLast(s, ts, symbol, i, j); }
    }
  }

  lemma {:induction false} TwoAlerts(s: State, ts: seq<Turn>, symbol: string) returns (i: nat, j: nat)
    requires (forall k :: 0 <= k < |ts| ==> Distinct(ts[k].rs)) && Total(s, ts, symbol) >= 2
    ensures i < j < |ts| && AlertsIn(s, ts, symbol, i) && AlertsIn(s, ts, symbol, j)
    decreases |ts|
  {
    var n := |ts| - 1;
    TotalSnoc(s, ts, symbol);
    DistinctAlertsOnce(Run(s, ts[..n]), ts[n].rs, ts[n].enabled, symbol);
    if AlertsIn(s, ts, symbol, n) {
      i := SomeAlert(s, ts[..n], symbol);
      j := n;
      AlertsInPrefix(s, ts, symbol, n, i);
    } else {
      i, j := TwoAlerts(s, ts[..n], symbol);
      AlertsInPrefix(s, ts, symbol, n, i);
      AlertsInPrefix(s, ts, symbol, n, j);
    }
  }

  /** When every save succeeds, at most one alert per symbol is ever delivered. */
  lemma SavedRunsAlertOnce(s: State, ts: seq<Turn>, symbol: string)
    requires Sound(s) && forall i :: 0 <= i < |ts| ==> Distinct(ts[i].rs) && ts[i].saved
    ensures Total(s, ts, symbol) <= 1
  {
    AlertedOnceIff(s, ts, symbol);
  }

  /** An invalidated symbol is never alerted again, whatever is saved or lost. */
  lemma InvalidatedNeverAlerts(s: State, ts: seq<Turn>, symbol: string)
    requires Sound(s) && forall i :: 0 <= i < |ts| ==> Distinct(ts[i].rs)
    requires symbol in s.symbols && s.symbols[symbol].invalidated
    ensures Total(s, ts, symbol) == 0
  {
    if Total(s, ts, symbol) >= 1 {
      var i := SomeAlert(s, ts, symbol);
      RunKeeps(s, ts[..i]);
      SilentSymbol(Run(s, ts[..i]), ts[i].rs, ts[i].enabled, symbol);
    }
  }

  // ---------- Alert sources ----------

  const SOURCE_STATUSES := {"near_miss", "watch", "hot_watch", "watchlist_near_miss", "WATCHLIST_NEAR_MISS"}

  lemma NormalizedNoSetup()
    ensures Normalize("no_setup") == "no_setup"
  {}

  lemma NormalizedRejected()
    ensures Normalize("rejected") == "rejected"
  {}

  lemma NormalizedNoEdge()
    ensures Normalize("REJECTED_NO_EDGE") == "rejected_no_edge"
  {}

  /** The rejected and no-setup members of the alertable sets are never the source of an
      alert: a constructed state with such a status or label is already invalidated. */
  lemma AlertSources(state: State, r: Reading)
    requires Sound(state) && ShouldAlert(state, r)
    ensures var p := state.symbols[r.symbol];
            || p.lastStatus in SOURCE_STATUSES || Normalize(p.lastStatus) in SOURCE_STATUSES
            || p.readiness in {"HOT WATCH", "WATCH"}
  {
    NormalizedNoSetup();
    NormalizedRejected();
    NormalizedNoEdge();
    assert IsUpperChar("REJECTED_NO_EDGE"[0]);
  }

  /** In a sound state a reading is alerted exactly when alerts are on and delivered, it is a
      selected valid setup of tradable quality with an idea past its gate, and the symbol is
      tracked, not invalidated, not alerted before, not at a valid setup already, and last seen
      as a near miss or on watch. */
  lemma AlertsIff(state: State, enabled: bool, r: Reading)
    requires Sound(state)
    ensures Alerts(state, enabled, r) <==>
              && enabled && !r.notRun && r.delivered && r.hasIdea && r.gatePassed && r.selected
              && Worthy(Entry("", r.status, r.readiness, r.quality, true))
              && r.symbol in state.symbols
              && var p := state.symbols[r.symbol];
                 && !p.invalidated && !p.alertSent && p.lastStatus != "valid_setup" && p.readiness != "VALID SETUP"
                 && (|| p.lastStatus in SOURCE_STATUSES || Normalize(p.lastStatus) in SOURCE_STATUSES
                     || p.readiness in {"HOT WATCH", "WATCH"})
  {
    if ShouldAlert(state, r) { AlertSources(state, r); }
  }

  /** A symbol alerted in an iteration had a result that deserved it. */
  lemma AlertedDeservedIt(start: State, rs: seq<Reading>, enabled: bool, symbol: string) returns (i: nat)
    requires Sound(start) && CountFor(start, rs, enabled, symbol) >= 1
    ensures i < |rs| && rs[i].symbol == symbol && enabled && !rs[i].notRun && rs[i].delivered
    ensures rs[i].hasIdea && rs[i].gatePassed && rs[i].selected && rs[i].status == "valid_setup"
    ensures rs[i].quality == "HIGH_QUALITY_TRADE" || rs[i].quality == "VALID_BUT_LOWER_QUALITY"
  {
    i := CountWitness(start, rs, enabled, symbol);
    AlertsIff(start, enabled, rs[i]);
  }

  // ---------- What a run records ----------

  function HistoryOf(s: State, symbol: string): seq<Entry> {
    if symbol in s.symbols then s.symbols[symbol].history else []
  }

  predicate InvalidIn(s: State, symbol: string) {
    symbol in s.symbols && s.symbols[symbol].invalidated
  }

  /** The entries that the results of one iteration make for a symbol. */
  function EntriesFor(start: State, rs: seq<Reading>, enabled: bool, seenAt: string, symbol: string): seq<Entry>
    decreases |rs|
  {
    if rs == [] then []
    else
      var r := rs[|rs| - 1];
      var before := EntriesFor(start, rs[..|rs| - 1], enabled, seenAt, symbol);
      if r.notRun || r.symbol != symbol then before
      else before + [Entry(seenAt, r.status, r.readiness, r.quality, Alerts(start, enabled, r))]
  }

  /** Each result that ran adds its own entry to its symbol's history, and nothing else does. */
  lemma {:induction false} FoldHistory(start: State, rs: seq<Reading>, enabled: bool, seenAt: string, symbol: string)
    ensures HistoryOf(Fold(start, rs, enabled, seenAt), symbol)
         == HistoryOf(start, symbol) + EntriesFor(start, rs, enabled, seenAt, symbol)
    ensures Fold(start, rs, enabled, seenAt).epoch == start.epoch
    decreases |rs|
  {
    if rs != [] {
      FoldHistory(start, rs[..|rs| - 1], enabled, seenAt, symbol);
    }
  }

  /** The entry ends the watch of its symbol. */
  predicate Voids(e: Entry) {
    || e.status == "no_setup" || e.quality == "REJECTED_NO_EDGE" || e.readiness == "REJECTED"
    || Normalize(e.status) in {"no_setup", "rejected", "rejected_no_edge"}
  }

  predicate VoidsSome(es: seq<Entry>) {
    exists i :: 0 <= i < |es| && Voids(es[i])
  }

  lemma VoidsAppend(a: seq<Entry>, b: seq<Entry>)
    ensures VoidsSome(a + b) <==> VoidsSome(a) || VoidsSome(b)
  {
    if i :| 0 <= i < |a| && Voids(a[i]) { assert (a + b)[i] == a[i]; }
    if i :| 0 <= i < |b| && Voids(b[i]) { assert (a + b)[|a| + i] == b[i]; }
    if i :| 0 <= i < |a + b| && Voids((a + b)[i]) {
      if i >= |a| { assert b[i - |a|] == (a + b)[i]; }
    }
  }

  lemma {:induction false} FoldInvalidatedIff(start: State, rs: seq<Reading>, enabled: bool, seenAt: string, symbol: string)
    ensures InvalidIn(Fold(start, rs, enabled, seenAt), symbol) <==>
              InvalidIn(start, symbol) || VoidsSome(EntriesFor(start, rs, enabled, seenAt, symbol))
    decreases |rs|
  {
    if rs != [] {
      var before, r := rs[..|rs| - 1], rs[|rs| - 1];
      FoldInvalidatedIff(start, before, enabled, seenAt, symbol);
      if !r.notRun && r.symbol == symbol {
        var e := Entry(seenAt, r.status, r.readiness, r.quality, Alerts(start, enabled, r));
        VoidsAppend(EntriesFor(start, before, enabled, seenAt, symbol), [e]);
        assert VoidsSome([e]) <==> Voids(e) by { assert [e][0] == e; }
      }
    }
  }

  /** The entries a run adds, those of iterations whose save failed left out. */
  function RunEntries(s: State, ts: seq<Turn>, symbol: string): seq<Entry>
    decreases |ts|
  {
    if ts == [] then []
    else
      var n := |ts| - 1;
      var before := RunEntries(s, ts[..n], symbol);
      if ts[n].saved then before + EntriesFor(Run(s, ts[..n]), ts[n].rs, ts[n].enabled, ts[n].seenAt, symbol) else before
  }

  lemma {:induction false} RunHistory(s: State, ts: seq<Turn>, symbol: string)
    ensures HistoryOf(Run(s, ts), symbol) == HistoryOf(s, symbol) + RunEntries(s, ts, symbol)
    decreases |ts|
  {
    if ts != [] {
      var n := |ts| - 1;
      RunHistory(s, ts[..n], symbol);
      if ts[n].saved {
        var mid, t := Run(s, ts[..n]), ts[n];
        FoldHistory(mid, t.rs, t.enabled, t.seenAt, symbol);
        var first, before := HistoryOf(s, symbol), RunEntries(s, ts[..n], symbol);
        var added := EntriesFor(mid, t.rs, t.enabled, t.seenAt, symbol);
        assert first + before + added == first + (before + added);
      }
    }
  }

  lemma {:induction false} RunInvalidatedIff(s: State, ts: seq<Turn>, symbol: string)
    ensures InvalidIn(Run(s, ts), symbol) <==> InvalidIn(s, symbol) || VoidsSome(RunEntries(s, ts, symbol))
    decreases |ts|
  {
    if ts != [] {
      var n := |ts| - 1;
      RunInvalidatedIff(s, ts[..n], symbol);
      if ts[n].saved {
        var mid, t := Run(s, ts[..n]), ts[n];
        FoldInvalidatedIff(mid, t.rs, t.enabled, t.seenAt, symbol);
        VoidsAppend(RunEntries(s, ts[..n], symbol), EntriesFor(mid, t.rs, t.enabled, t.seenAt, symbol));
      }
    }
  }

  /** Over every run: a symbol's history grows by exactly the results of the saved iterations, and
      it is invalidated exactly when it was before or one of those results ended its watch. */
  lemma RunRecords(s: State, ts: seq<Turn>, symbol: string)
    ensures HistoryOf(Run(s, ts), symbol) == HistoryOf(s, symbol) + RunEntries(s, ts, symbol)
    ensures InvalidIn(Run(s, ts), symbol) <==> InvalidIn(s, symbol) || VoidsSome(RunEntries(s, ts, symbol))
  {
    RunHistory(s, ts, symbol);
    RunInvalidatedIff(s, ts, symbol);
  }

  /** In a sound state no alert follows an entry that ended the watch, the quality of a first
      entry left aside. */
  lemma NoAlertAfterVerdict(state: State, symbol: string, i: nat, j: nat)
    requires Sound(state) && symbol in state.symbols && i < j < |state.symbols[symbol].history|
    requires var e := state.symbols[symbol].history[i];
             Voids(if i == 0 then e.(quality := "") else e)
    ensures !state.symbols[symbol].history[j].alerted && state.symbols[symbol].invalidated
  {
    NormalizedNoSetup();
    assert Marks(state.symbols[symbol].history, i);
  }

  // ---------- What the conditions guard against ----------

  const EXAMPLE_STATE := State("t0", map["BTC" := SymbolState("near_miss", "WATCH", "t0", false, false, 0, [])], None)
  const EXAMPLE_READING := Reading("BTC", false, "valid_setup", "VALID SETUP", "HIGH_QUALITY_TRADE", true, true, true, true)

  lemma ExampleAlerts()
    ensures Sound(EXAMPLE_STATE) && Alerts(EXAMPLE_STATE, true, EXAMPLE_READING)
  {
    assert Normalize("near_miss")[1] == 'e' && |Normalize("near_miss")| == 9;
  }

  /** A failed save forgets a delivered alert, and the next iteration delivers it again. */
  lemma FailedSaveAlertsAgain()
    ensures var lost := Turn([EXAMPLE_READING], true, "t1", false);
            var kept := Turn([EXAMPLE_READING], true, "t2", true);
            && Delivered(EXAMPLE_STATE, [lost, kept], "BTC", false) == 1
            && Delivered(EXAMPLE_STATE, [lost, kept], "BTC", true) == 1
  {
    ExampleAlerts();
    var lost := Turn([EXAMPLE_READING], true, "t1", false);
    var kept := Turn([EXAMPLE_READING], true, "t2", true);
    var ts := [lost, kept];
    assert ts[..1] == [lost] && [lost][..0] == [] && [EXAMPLE_READING][..0] == [];
    assert Run(EXAMPLE_STATE, [lost]) == EXAMPLE_STATE;
    assert CountFor(EXAMPLE_STATE, [EXAMPLE_READING], true, "BTC") == 1;
    assert Delivered(EXAMPLE_STATE, [lost], "BTC", false) == 1;
    assert Delivered(EXAMPLE_STATE, [lost], "BTC", true) == 0;
  }

  // ---------- The loops over results, payloads and symbols ----------

  /** The result loop of one iteration: which symbols were alerted, and the new state. */
  method ApplyResults(start: State, rs: seq<Reading>, enabled: bool, seenAt: string)
    returns (updated: State, alerted: seq<string>)
    ensures updated == Fold(start, rs, enabled, seenAt)
    ensures forall symbol :: multiset(alerted)[symbol] == CountFor(start, rs, enabled, symbol)
  {
    updated, alerted := start, [];
    for i := 0 to |rs|
      invariant updated == Fold(start, rs[..i], enabled, seenAt)
      invariant forall symbol :: multiset(alerted)[symbol] == CountFor(start, rs[..i], enabled, symbol)
    {
      var r := rs[i];
      assert rs[..i + 1][..i] == rs[..i];
      if !r.notRun {
        var alert := enabled && ShouldAlert(start, r) && r.delivered;
        if alert { alerted := alerted + [r.symbol]; }
        updated := Update(updated, r, alert, seenAt);
      }
    }
    assert rs[..|rs|] == rs;
  }

  /** A saved run: its epoch and, per result, the symbol and its snapshot; a result that is not
      a mapping is left out. */
  datatype Snapshot = Snapshot(symbol: string, status: string, readiness: string, quality: string)
  datatype Payload = Payload(epoch: Option<string>, results: Option<seq<Snapshot>>)

  function SeedState(s: Snapshot, seenAt: string): SymbolState {
    MakeState(s.status, s.readiness, seenAt, false, false, 0, [Entry(seenAt, s.status, s.readiness, s.quality, false)])
  }

  /** The first result of each target symbol that the map does not hold yet. */
  function SeedMap(symbols: SymbolMap, results: seq<Snapshot>, targets: set<string>, seenAt: string): SymbolMap
    decreases |results|
  {
    if results == [] then symbols
    else
      var s := results[|results| - 1];
      var before := SeedMap(symbols, results[..|results| - 1], targets, seenAt);
      if s.symbol !in targets || s.symbol in before then before else before[s.symbol := SeedState(s, seenAt)]
  }

  predicate FirstFor(results: seq<Snapshot>, i: nat, k: string)
    requires i < |results|
  {
    results[i].symbol == k && forall j :: 0 <= j < i ==> results[j].symbol != k
  }

  lemma {:induction false} SeedMapKeys(symbols: SymbolMap, results: seq<Snapshot>, targets: set<string>,
                                       seenAt: string, k: string)
    ensures var m := SeedMap(symbols, results, targets, seenAt);
            && (k in symbols ==> k in m && m[k] == symbols[k])
            && (k !in symbols ==> (k in m <==> k in targets && exists i :: 0 <= i < |results| && results[i].symbol == k))
    decreases |results|
  {
    if results != [] {
      var n := |results| - 1;
      SeedMapKeys(symbols, results[..n], targets, seenAt, k);
      assert forall i :: 0 <= i < n ==> results[..n][i] == results[i];
    }
  }

  lemma {:induction false} SeedMapFirst(symbols: SymbolMap, results: seq<Snapshot>, targets: set<string>,
                                        seenAt: string, k: string)
    returns (i: nat)
    requires k !in symbols && k in SeedMap(symbols, results, targets, seenAt)
    ensures i < |results| && FirstFor(results, i, k)
    ensures SeedMap(symbols, results, targets, seenAt)[k] == SeedState(results[i], seenAt)
    decreases |results|
  {
    var n := |results| - 1;
    var before := results[..n];
    if k in SeedMap(symbols, before, targets, seenAt) {
      i := SeedMapFirst(symbols, before, targets, seenAt, k);
      assert forall j :: 0 <= j <= i ==> before[j] == results[j];
    } else {
      SeedMapKeys(symbols, before, targets, seenAt, k);
      assert forall j :: 0 <= j < n ==> before[j] == results[j];
      i := n;
    }
  }

  /** Seeding keeps what is there and gives a new symbol the state of its first result. */
  lemma SeedMapMeans(symbols: SymbolMap, results: seq<Snapshot>, targets: set<string>, seenAt: string, k: string)
    ensures var m := SeedMap(symbols, results, targets, seenAt);
            && (k in symbols ==> k in m && m[k] == symbols[k])
            && (k !in symbols ==> (k in m <==> k in targets && exists i :: 0 <= i < |results| && results[i].symbol == k))
            && (k !in symbols && k in m ==>
                  exists i :: 0 <= i < |results| && FirstFor(results, i, k) && m[k] == SeedState(results[i], seenAt))
  {
    SeedMapKeys(symbols, results, targets, seenAt, k);
    if k !in symbols && k in SeedMap(symbols, results, targets, seenAt) {
      var i := SeedMapFirst(symbols, results, targets, seenAt, k);
    }
  }

  /** seed_watch_state_from_run_payload */
  method Seed(state: State, payload: Payload, symbols: seq<string>, seenAt: string) returns (r: Result<State, string>)
    ensures r.Err? <==> symbols != [] && payload.epoch != state.epoch
    ensures r.Ok? ==>
              r.value == if symbols == [] || payload.results.None? then state
                         else State(seenAt, SeedMap(state.symbols, payload.results.value, UpperAll(symbols), seenAt),
                                    state.epoch)
  {
    if symbols == [] { return Ok(state); }
    if payload.epoch != state.epoch { return Err("pre-epoch or mismatched run payload"); }
    if payload.results.None? { return Ok(state); }
    var results, targets := payload.results.value, UpperAll(symbols);
    var updated := state.symbols;
    for i := 0 to |results|
      invariant updated == SeedMap(state.symbols, results[..i], targets, seenAt)
    {
      assert results[..i + 1][..i] == results[..i];
      if results[i].symbol in targets && results[i].symbol !in updated {
        updated := updated[results[i].symbol := SeedState(results[i], seenAt)];
      }
    }
    assert results[..|results|] == results;
    return Ok(State(seenAt, updated, state.epoch));
  }

  /** A seeded state keeps the invariant and everything that was there. */
  lemma SeedKeeps(state: State, results: seq<Snapshot>, targets: set<string>, seenAt: string)
    requires Sound(state)
    ensures var seeded := State(seenAt, SeedMap(state.symbols, results, targets, seenAt), state.epoch);
            Sound(seeded) && Later(state, seeded)
  {
    var m := SeedMap(state.symbols, results, targets, seenAt);
    forall k: string
      ensures k in m ==> SymbolOk(m[k])
      ensures k in state.symbols ==> k in m && m[k] == state.symbols[k]
    {
      SeedMapMeans(state.symbols, results, targets, seenAt, k);
      if k in m && k !in state.symbols {
        var i :| 0 <= i < |results| && FirstFor(results, i, k) && m[k] == SeedState(results[i], seenAt);
        SeedOk(results[i], seenAt);
      }
    }
  }

  function UpperAll(symbols: seq<string>): set<string> {
    set s | s in symbols :: Upper(s)
  }

  lemma SeedOk(s: Snapshot, seenAt: string)
    ensures SymbolOk(SeedState(s, seenAt))
  {
    var h := [Entry(seenAt, s.status, s.readiness, s.quality, false)];
    assert h[..0] == [];
  }

  // ---------- A verdict that seeding loses ----------

  /** A saved result read as if it came from the scanner. */
  function AsReading(s: Snapshot): Reading {
    Reading(s.symbol, false, s.status, s.readiness, s.quality, false, false, false, false)
  }

  /** Rejected for its quality alone. */
  predicate LosesVerdict(s: Snapshot) {
    s.quality == REJECTED_QUALITY && !StatusInvalidates(s.status, s.readiness)
  }

  /** Seeding a new symbol and updating it with the same result give the same state, except
      for a result rejected for its quality alone: only updating invalidates that. */
  lemma SeedDisagreesIff(state: State, s: Snapshot, seenAt: string)
    requires s.symbol !in state.symbols
    ensures var seeded, updated := SeedState(s, seenAt), Update(state, AsReading(s), false, seenAt).symbols[s.symbol];
            && (seeded == updated <==> !LosesVerdict(s))
            && (LosesVerdict(s) ==> updated == seeded.(invalidated := true) && !seeded.invalidated)
  {
    NormalizedNoSetup();
  }

  lemma SeedOne(state: State, s: Snapshot, seenAt: string)
    requires s.symbol !in state.symbols
    ensures SeedMap(state.symbols, [s], {s.symbol}, seenAt) == state.symbols[s.symbol := SeedState(s, seenAt)]
  {
    assert [s][..0] == [];
  }

  /** Such a result, seeded, is alerted by the next valid reading; after an update it is never
      alerted in any run. */
  lemma LostVerdictAlerts(state: State, s: Snapshot, seenAt: string, ts: seq<Turn>)
    requires Sound(state) && s.symbol !in state.symbols && LosesVerdict(s) && AllowsActivation(SeedState(s, seenAt))
    requires forall i :: 0 <= i < |ts| ==> Distinct(ts[i].rs)
    ensures var seeded := State(seenAt, SeedMap(state.symbols, [s], {s.symbol}, seenAt), state.epoch);
            Alerts(seeded, true, EXAMPLE_READING.(symbol := s.symbol))
    ensures Total(Update(state, AsReading(s), false, seenAt), ts, s.symbol) == 0
  {
    SeedOne(state, s, seenAt);
    SeedDisagreesIff(state, s, seenAt);
    UpdateKeeps(state, AsReading(s), false, seenAt);
    InvalidatedNeverAlerts(Update(state, AsReading(s), false, seenAt), ts, s.symbol);
  }

  /** A near miss with a rejected quality is such a result. */
  lemma RejectedNearMiss(seenAt: string)
    ensures var s := Snapshot("BTC", "near_miss", "WATCH", REJECTED_QUALITY);
            LosesVerdict(s) && AllowsActivation(SeedState(s, seenAt))
  {
    assert Normalize("near_miss")[1] == 'e' && |Normalize("near_miss")| == 9;
  }

  predicate WatchCandidate(s: SymbolState) {
    !s.invalidated && (s.lastStatus in {"near_miss", "WATCHLIST_NEAR_MISS"} || s.readiness in {"HOT WATCH", "WATCH"})
  }

  predicate Watched(state: State, symbol: string) {
    symbol in state.symbols && WatchCandidate(state.symbols[symbol])
  }

  /** A symbol on watch is one that the next valid reading alerts, unless it was alerted before or
      is at a valid setup. */
  lemma WatchedMayAlert(state: State, r: Reading)
    requires Sound(state) && Watched(state, r.symbol) && !state.symbols[r.symbol].alertSent
    requires state.symbols[r.symbol].readiness != "VALID SETUP" && state.symbols[r.symbol].lastStatus != "valid_setup"
    requires !r.notRun && r.delivered && r.hasIdea && r.gatePassed && r.selected
    requires Worthy(Entry("", r.status, r.readiness, r.quality, true))
    ensures Alerts(state, true, r)
  {
    AlertsIff(state, true, r);
  }

  /** Every tracked near miss and every watch label is on watch until it is invalidated. */
  lemma NearMissesAreWatched(state: State, symbol: string)
    requires symbol in state.symbols && !state.symbols[symbol].invalidated
    requires state.symbols[symbol].lastStatus == "near_miss" || state.symbols[symbol].readiness in {"HOT WATCH", "WATCH"}
    ensures Watched(state, symbol)
  {}

  /** state_watch_symbols: upper-cased, without repetition, in order of first occurrence. */
  method WatchSymbols(state: State, symbols: seq<string>) returns (out: seq<string>)
    ensures out == Candidates(state, symbols)
  {
    out := [];
    for i := 0 to |symbols|
      invariant out == Candidates(state, symbols[..i])
    {
      assert symbols[..i + 1][..i] == symbols[..i];
      var normalized := Upper(symbols[i]);
      if normalized in state.symbols && !state.symbols[normalized].invalidated {
        if WatchCandidate(state.symbols[normalized]) && normalized !in out {
          out := out + [normalized];
        }
      }
    }
    assert symbols[..|symbols|] == symbols;
  }

  function Candidates(state: State, symbols: seq<string>): (out: seq<string>)
    ensures NoDup(out)
    ensures forall s :: s in out <==> Watched(state, s) && exists i :: 0 <= i < |symbols| && Upper(symbols[i]) == s
  {
    if symbols == [] then []
    else
      var n := |symbols| - 1;
      var before := Candidates(state, symbols[..n]);
      var u := Upper(symbols[n]);
      if Watched(state, u) && u !in before then before + [u] else before
  }
}
