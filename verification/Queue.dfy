/** Watchlist resolution, lifecycle priority and the final queue. */
module Queue {
  import opened Basics
  import opened Text
  import M = MarketCap
  import W = WatchState

  datatype Universe = Universe(strict: bool, resolved: seq<string>)

  datatype Watchlist = Watchlist(
    symbols: seq<string>, universe: Universe, preCap: Option<nat>, capApplied: bool,
    added: seq<string>, dropped: seq<string>, active: seq<string>, overCap: nat,
    boundaryIgnored: seq<string>, lifecycleIgnored: seq<string>)

  /** The command-line switches that steer resolution. */
  datatype Args = Args(
    maxSymbols: Option<int>, includes: seq<string>, excludes: seq<string>,
    watch: bool, fromLatestRun: bool, onlyNearMisses: bool, continueWatch: bool, lifecycle: bool)

  type Resolution = Result<Watchlist, string>

  function Plain(symbols: seq<string>, u: Universe, preCap: nat, ignored: seq<string>): Watchlist {
    Watchlist(symbols, u, Some(preCap), |symbols| < preCap, [], [], [], 0, ignored, [])
  }

  function Cap(args: Args, symbols: seq<string>): Result<seq<string>, string> {
    match args.maxSymbols
    case None => Ok(symbols)
    case Some(m) => if m < 1 then Err("--max-symbols must be at least 1.") else Ok(symbols[..Min(m, |symbols|)])
  }

  /** _resolve_universe_watchlist */
  function ResolveUniverse(args: Args, u: Universe): Resolution {
    var pre := if u.strict then u.resolved else Dedupe(u.resolved + args.includes);
    var ignored := if u.strict then Without(args.includes, ToSet(u.resolved)) else [];
    var kept := Without(pre, ToSet(args.excludes));
    match Cap(args, kept)
    case Err(e) => Err(e)
    case Ok(capped) =>
      if capped == [] then Err("Resolved watchlist is empty.")
      else Ok(Plain(capped, u.(resolved := capped), |kept|, ignored))
  }

  function UpperSeq(symbols: seq<string>): seq<string> {
    seq(|symbols|, i requires 0 <= i < |symbols| => Upper(symbols[i]))
  }

  /** _watch_resolution_from_symbols: a manual universe, never a strict one. */
  function ResolveSymbols(args: Args, symbols: seq<string>): Resolution {
    var normalized := UpperSeq(symbols);
    var kept := Without(Dedupe(normalized), ToSet(args.excludes));
    match Cap(args, kept)
    case Err(e) => Err(e)
    case Ok(capped) =>
      if capped == [] then Err("Resolved watch mode symbol list is empty.")
      else Ok(Plain(capped, Universe(false, capped), |kept|, []))
  }

  /** _resolve_watchlist_from_latest_run */
  function ResolveLatest(args: Args, latest: seq<string>, boundary: Option<Watchlist>): Resolution {
    if latest == [] then Err("No symbols found in latest saved run file.")
    else
      match boundary
      case None => ResolveSymbols(args, latest)
      case Some(b) =>
        var allowed := ToSet(b.symbols);
        var filtered := Keep(Dedupe(latest), allowed);
        if filtered == [] then Err("Latest saved-run symbols do not intersect the universe.")
        else
          var ignored := Dedupe(b.boundaryIgnored + Without(Dedupe(latest), allowed));
          Ok(Watchlist(filtered, b.universe.(resolved := filtered), b.preCap, b.capApplied, [], [], [], 0, ignored, []))
  }

  /** The symbols on watch, or the saved near misses when there are none. */
  function PriorSymbols(base: seq<string>, state: W.State, latest: Option<seq<string>>): seq<string> {
    var prior := W.Candidates(state, base);
    if prior == [] && latest.Some? then Keep(latest.value, ToSet(base)) else prior
  }

  /** _filter_watchlist_to_prior_watch_symbols */
  function FilterPrior(args: Args, wl: Watchlist, state: W.State, latest: Option<seq<string>>): Resolution {
    var symbols := PriorSymbols(wl.symbols, state, latest);
    if symbols == [] then Err("no prior near misses")
    else if wl.universe.strict then
      Ok(Watchlist(symbols, wl.universe.(resolved := symbols), wl.preCap, wl.capApplied,
                   [], [], [], 0, wl.boundaryIgnored, []))
    else ResolveSymbols(args, symbols)
  }

  /** _extend_watchlist_for_continue_watch; `tracked` are the watched symbols of the state. */
  function ExtendContinue(args: Args, wl: Watchlist, tracked: seq<string>, latest: seq<string>): Resolution {
    var continued := Dedupe(tracked + latest);
    if wl.universe.strict then
      var ignored := Without(continued, ToSet(wl.symbols));
      if ignored == [] then Ok(wl)
      else Ok(wl.(boundaryIgnored := Dedupe(wl.boundaryIgnored + ignored)))
    else if continued == [] then Ok(wl)
    else
      var combined := Dedupe(wl.symbols + continued);
      match Cap(args, combined)
      case Err(e) => Err(e)
      case Ok(capped) =>
        if capped == wl.symbols then
          Ok(if |capped| < |combined| then wl.(preCap := Some(|combined|), capApplied := true) else wl)
        else Ok(Plain(capped, Universe(false, capped), |combined|, []))
  }

  /** One result of the saved run: its symbol, if it has one, and whether it is a near miss. */
  datatype SavedRow = SavedRow(symbol: Option<string>, near: bool)

  function SavedUpper(rows: seq<SavedRow>, nearOnly: bool): seq<string>
    decreases |rows|
  {
    if rows == [] then []
    else
      var r := rows[|rows| - 1];
      var before := SavedUpper(rows[..|rows| - 1], nearOnly);
      if r.symbol.Some? && (nearOnly ==> r.near) then before + [Upper(r.symbol.value)] else before
  }

  /** symbols_from_run_payload */
  function LatestSymbols(rows: seq<SavedRow>, nearOnly: bool): seq<string> {
    Dedupe(SavedUpper(rows, nearOnly))
  }

  method LoadSymbols(rows: seq<SavedRow>, nearOnly: bool) returns (symbols: seq<string>)
    ensures symbols == LatestSymbols(rows, nearOnly)
  {
    symbols := [];
    for i := 0 to |rows|
      invariant symbols == LatestSymbols(rows[..i], nearOnly)
    {
      assert rows[..i + 1][..i] == rows[..i];
      ghost var before := SavedUpper(rows[..i], nearOnly);
      if rows[i].symbol.Some? && (!nearOnly || rows[i].near) {
        var symbol := Upper(rows[i].symbol.value);
        assert (before + [symbol])[..|before|] == before;
        if symbol !in symbols { symbols := symbols + [symbol]; }
      }
    }
    assert rows[..|rows|] == rows;
  }

  /** What the resolution reads besides its arguments: the saved run, if there is one, and the
      stored watch state with its symbols in order. */
  datatype Inputs = Inputs(saved: Option<seq<SavedRow>>, state: W.State, stateOrder: seq<string>)

  /** The symbols of the saved run, none when there is no such run. */
  function SavedSymbols(x: Inputs, nearOnly: bool): seq<string> {
    if x.saved.Some? then LatestSymbols(x.saved.value, nearOnly) else []
  }

  function NearMisses(x: Inputs): Option<seq<string>> {
    if x.saved.Some? then Some(LatestSymbols(x.saved.value, true)) else None
  }

  /** _resolve_watchlist_for_args, for a universe `u` resolved by the given mode. */
  function Resolve(args: Args, u: Universe, x: Inputs): Resolution {
    var base := ResolveUniverse(args, u);
    if args.watch && args.fromLatestRun then
      var latest := SavedSymbols(x, args.onlyNearMisses);
      if !u.strict then ResolveLatest(args, latest, None)
      else if base.Err? then base
      else ResolveLatest(args, latest, Some(base.value))
    else if base.Err? then base
    else if args.watch && args.onlyNearMisses then FilterPrior(args, base.value, x.state, NearMisses(x))
    else if args.continueWatch && !args.watch then
      ExtendContinue(args, base.value, W.Candidates(x.state, x.stateOrder), SavedSymbols(x, true))
    else base
  }

  // ---------- Lifecycle priority ----------

  /** The active symbols that the universe admits. */
  function Admitted(wl: Watchlist, active: seq<string>): seq<string> {
    if wl.universe.strict then Keep(active, ToSet(wl.universe.resolved)) else active
  }

  function Discovery(wl: Watchlist, active: seq<string>): seq<string> {
    Without(wl.symbols, ToSet(Admitted(wl, active)))
  }

  function Capacity(args: Args, n: nat, all: nat): nat
    requires args.maxSymbols.Some? ==> args.maxSymbols.value >= 1
  {
    match args.maxSymbols
    case None => all
    case Some(m) => Min(Max(0, m - n), all)
  }

  function Prioritized(args: Args, wl: Watchlist, active: seq<string>): seq<string>
    requires args.maxSymbols.Some? ==> args.maxSymbols.value >= 1
  {
    var first := Admitted(wl, active);
    var rest := Discovery(wl, active);
    Dedupe(first + rest[..Capacity(args, |first|, |rest|)])
  }

  /** _watchlist_with_lifecycle_priority for a given list of active symbols. */
  function Prioritize(args: Args, wl: Watchlist, active: seq<string>): Resolution {
    if !args.lifecycle then Ok(wl)
    else if args.maxSymbols.Some? && args.maxSymbols.value < 1 then Err("--max-symbols must be at least 1.")
    else
      var first := Admitted(wl, active);
      var uncapped := Dedupe(first + Discovery(wl, active));
      var prioritized := Prioritized(args, wl, active);
      var refused := if wl.universe.strict then Without(active, ToSet(wl.universe.resolved)) else [];
      var lifecycleIgnored := Dedupe(wl.lifecycleIgnored + refused);
      if prioritized == wl.symbols && wl.active == first && wl.lifecycleIgnored == lifecycleIgnored then Ok(wl)
      else
        Ok(Watchlist(
             prioritized, wl.universe,
             Some(Max(if wl.preCap.Some? && wl.preCap.value != 0 then wl.preCap.value else |wl.symbols|, |uncapped|)),
             wl.capApplied || |prioritized| < |uncapped|,
             Without(prioritized, ToSet(wl.symbols)), Without(wl.symbols, ToSet(prioritized)), first,
             if args.maxSymbols.Some? then Max(0, |first| - args.maxSymbols.value) else 0,
             Dedupe(wl.boundaryIgnored + refused), lifecycleIgnored))
  }

  /** _queued_symbols_for_scan; the plan is given when adaptive priority is enabled. */
  function Queued(wl: Watchlist, plan: Option<seq<string>>): seq<string> {
    var queued := if plan.Some? then plan.value else wl.symbols;
    if wl.universe.strict then Keep(queued, ToSet(wl.universe.resolved)) else queued
  }

  // ---------- Strict membership ----------

  /** Nothing outside `base` can be scanned from this watchlist. */
  predicate Inside(wl: Watchlist, base: set<string>) {
    && wl.universe.strict
    && (forall s :: s in wl.symbols ==> s in base) && (forall s :: s in wl.universe.resolved ==> s in base)
  }

  /** In an upper-case watchlist every prior near miss is one of its own symbols. */
  lemma NearMissesListed(wl: Watchlist, state: W.State)
    requires AllUpper(wl.symbols)
    ensures forall s :: s in W.Candidates(state, wl.symbols) ==> s in wl.symbols
  {
    forall s | s in W.Candidates(state, wl.symbols)
      ensures s in wl.symbols
    {
      var i :| 0 <= i < |wl.symbols| && Upper(wl.symbols[i]) == s;
      assert wl.symbols[i] in wl.symbols;
    }
  }

  lemma CapPrefix(args: Args, symbols: seq<string>)
    ensures Cap(args, symbols).Ok? ==> forall s :: s in Cap(args, symbols).value ==> s in symbols
  {}

  lemma UniverseInside(args: Args, u: Universe)
    requires u.strict && ResolveUniverse(args, u).Ok?
    ensures Inside(ResolveUniverse(args, u).value, ToSet(u.resolved))
    ensures forall s :: s in ResolveUniverse(args, u).value.symbols ==> s !in args.excludes
  {
    CapPrefix(args, Without(u.resolved, ToSet(args.excludes)));
  }

  lemma NearMissInside(args: Args, wl: Watchlist, state: W.State, latest: Option<seq<string>>, base: set<string>)
    requires wl.universe.strict && Inside(wl, base) && AllUpper(wl.symbols)
    requires FilterPrior(args, wl, state, latest).Ok?
    ensures Inside(FilterPrior(args, wl, state, latest).value, base)
  {
    NearMissesListed(wl, state);
  }

  /** Every resolution path of a strict universe stays inside the symbols it resolved to. */
  lemma ResolveInside(args: Args, u: Universe, x: Inputs)
    requires u.strict && AllUpper(u.resolved) && Resolve(args, u, x).Ok?
    ensures Inside(Resolve(args, u, x).value, ToSet(u.resolved))
  {
    UniverseInside(args, u);
    if args.watch && !args.fromLatestRun && args.onlyNearMisses {
      NearMissInside(args, ResolveUniverse(args, u).value, x.state, NearMisses(x), ToSet(u.resolved));
    }
  }

  lemma PrioritizeInside(args: Args, wl: Watchlist, active: seq<string>, base: set<string>)
    requires Inside(wl, base) && Prioritize(args, wl, active).Ok?
    ensures Inside(Prioritize(args, wl, active).value, base)
  {
    if args.lifecycle {
      var first := Admitted(wl, active);
      var rest := Discovery(wl, active);
      var taken := rest[..Capacity(args, |first|, |rest|)];
      forall s | s in Prioritized(args, wl, active)
        ensures s in base
      {
        assert s in first + taken;
        if s !in first { assert s in taken && s in rest; }
      }
    }
  }

  /** Lifecycle priority applied once per iteration, with whatever is active then. */
  function PrioritizeAll(args: Args, wl: Watchlist, rounds: seq<seq<string>>): Resolution
    decreases |rounds|
  {
    if rounds == [] then Ok(wl)
    else
      match Prioritize(args, wl, rounds[0])
      case Err(e) => Err(e)
      case Ok(next) => PrioritizeAll(args, next, rounds[1..])
  }

  lemma {:induction false} RoundsInside(args: Args, wl: Watchlist, rounds: seq<seq<string>>, base: set<string>)
    requires Inside(wl, base) && PrioritizeAll(args, wl, rounds).Ok?
    ensures Inside(PrioritizeAll(args, wl, rounds).value, base)
    decreases |rounds|
  {
    if rounds != [] {
      PrioritizeInside(args, wl, rounds[0], base);
      RoundsInside(args, Prioritize(args, wl, rounds[0]).value, rounds[1..], base);
    }
  }

  /** Strict membership end to end: includes, saved runs, watch state, active plans and the
      adaptive plan, in any number of iterations, can reorder or shrink the queue of a strict
      universe but never put a symbol into it that the universe did not resolve to. */
  lemma StrictMembership(args: Args, u: Universe, x: Inputs, rounds: seq<seq<string>>, plan: Option<seq<string>>)
    requires u.strict && AllUpper(u.resolved)
    requires Resolve(args, u, x).Ok? && PrioritizeAll(args, Resolve(args, u, x).value, rounds).Ok?
    ensures forall s :: s in Queued(PrioritizeAll(args, Resolve(args, u, x).value, rounds).value, plan) ==> s in u.resolved
  {
    ResolveInside(args, u, x);
    RoundsInside(args, Resolve(args, u, x).value, rounds, ToSet(u.resolved));
  }

  /** The same for the universe the market-cap mode resolves to. */
  lemma MarketCapMembership(raws: seq<M.RawContract>, excluded: string -> bool, cohort: seq<M.Asset>, liquid: set<string>,
                            args: Args, u: Universe, x: Inputs, rounds: seq<seq<string>>, plan: Option<seq<string>>)
    requires u.strict && multiset(u.resolved) == multiset(Dedupe(M.Matched(cohort, M.Contracts(raws, excluded), liquid)))
    requires Resolve(args, u, x).Ok? && PrioritizeAll(args, Resolve(args, u, x).value, rounds).Ok?
    ensures var queue := Queued(PrioritizeAll(args, Resolve(args, u, x).value, rounds).value, plan);
            forall s :: s in queue ==> s in u.resolved && s in M.Contracts(raws, excluded) && s in liquid
  {
    M.StrictUniverseClean(raws, excluded, cohort, liquid, u.resolved);
    ReorderedNoDup(Dedupe(M.Matched(cohort, M.Contracts(raws, excluded), liquid)), u.resolved);
    StrictMembership(args, u, x, rounds, plan);
  }

  // ---------- No symbol is ever listed twice ----------

  lemma CleanKeep(symbols: seq<string>, a: set<string>)
    requires Clean(symbols)
    ensures Clean(Keep(symbols, a)) && Clean(Without(symbols, a))
  {
    KeepNoDup(symbols, a);
  }

  lemma CleanCap(args: Args, symbols: seq<string>)
    requires Clean(symbols)
    ensures Cap(args, symbols).Ok? ==> Clean(Cap(args, symbols).value)
  {
    CapPrefix(args, symbols);
  }

  lemma {:induction false} SavedIsUpper(rows: seq<SavedRow>, nearOnly: bool)
    ensures AllUpper(SavedUpper(rows, nearOnly))
    decreases |rows|
  {
    if rows != [] {
      var n := |rows| - 1;
      SavedIsUpper(rows[..n], nearOnly);
      if rows[n].symbol.Some? { UpperIdempotent(rows[n].symbol.value); }
    }
  }

  predicate SavedAt(rows: seq<SavedRow>, nearOnly: bool, s: string, i: nat)
    requires i < |rows|
  {
    rows[i].symbol.Some? && (!nearOnly || rows[i].near) && Upper(rows[i].symbol.value) == s
  }

  /** The saved run gives exactly the upper-cased symbols of its results, or of its near misses. */
  lemma {:induction false} SavedIff(rows: seq<SavedRow>, nearOnly: bool, s: string)
    ensures s in LatestSymbols(rows, nearOnly) <==> exists i :: 0 <= i < |rows| && SavedAt(rows, nearOnly, s, i)
    decreases |rows|
  {
    if rows != [] {
      var n := |rows| - 1;
      SavedIff(rows[..n], nearOnly, s);
      if i :| 0 <= i < n && SavedAt(rows[..n], nearOnly, s, i) { assert SavedAt(rows, nearOnly, s, i); }
      if i :| 0 <= i < |rows| && SavedAt(rows, nearOnly, s, i) {
        if i < n { assert SavedAt(rows[..n], nearOnly, s, i); }
      }
      if SavedAt(rows, nearOnly, s, n) { assert Upper(rows[n].symbol.value) in SavedUpper(rows, nearOnly); }
    }
  }

  lemma SavedClean(x: Inputs, nearOnly: bool)
    ensures Clean(SavedSymbols(x, nearOnly))
  {
    if x.saved.Some? { SavedIsUpper(x.saved.value, nearOnly); }
  }

  lemma CandidatesClean(state: W.State, symbols: seq<string>)
    ensures Clean(W.Candidates(state, symbols))
  {
    forall s | s in W.Candidates(state, symbols)
      ensures Upper(s) == s
    {
      var i :| 0 <= i < |symbols| && Upper(symbols[i]) == s;
      UpperIdempotent(symbols[i]);
    }
  }

  /** Upper-case symbols; a strict universe, which is not de-duplicated again, lists each once. */
  ghost predicate ProperUniverse(u: Universe) {
    AllUpper(u.resolved) && (u.strict ==> NoDup(u.resolved))
  }

  lemma UniverseClean(args: Args, u: Universe)
    requires ProperUniverse(u) && AllUpper(args.includes) && ResolveUniverse(args, u).Ok?
    ensures Clean(ResolveUniverse(args, u).value.symbols)
  {
    var pre := if u.strict then u.resolved else Dedupe(u.resolved + args.includes);
    CleanKeep(pre, ToSet(args.excludes));
    CleanCap(args, Without(pre, ToSet(args.excludes)));
  }

  lemma SymbolsClean(args: Args, symbols: seq<string>)
    requires ResolveSymbols(args, symbols).Ok?
    ensures Clean(ResolveSymbols(args, symbols).value.symbols)
  {
    var normalized := UpperSeq(symbols);
    forall s | s in normalized
      ensures Upper(s) == s
    {
      var i :| 0 <= i < |normalized| && normalized[i] == s;
      UpperIdempotent(symbols[i]);
    }
    CleanKeep(Dedupe(normalized), ToSet(args.excludes));
    CleanCap(args, Without(Dedupe(normalized), ToSet(args.excludes)));
  }

  lemma ResolveLatestClean(args: Args, latest: seq<string>, boundary: Option<Watchlist>)
    requires Clean(latest) && ResolveLatest(args, latest, boundary).Ok?
    ensures Clean(ResolveLatest(args, latest, boundary).value.symbols)
  {
    if boundary.None? {
      SymbolsClean(args, latest);
    } else {
      CleanKeep(Dedupe(latest), ToSet(boundary.value.symbols));
    }
  }

  lemma FilterClean(args: Args, wl: Watchlist, state: W.State, latest: Option<seq<string>>)
    requires (latest.Some? ==> Clean(latest.value)) && FilterPrior(args, wl, state, latest).Ok?
    ensures Clean(FilterPrior(args, wl, state, latest).value.symbols)
  {
    var prior := W.Candidates(state, wl.symbols);
    CandidatesClean(state, wl.symbols);
    if latest.Some? { CleanKeep(latest.value, ToSet(wl.symbols)); }
    var symbols := if prior == [] && latest.Some? then Keep(latest.value, ToSet(wl.symbols)) else prior;
    if !wl.universe.strict { SymbolsClean(args, symbols); }
  }

  lemma ExtendClean(args: Args, wl: Watchlist, tracked: seq<string>, latest: seq<string>)
    requires Clean(wl.symbols) && Clean(tracked) && Clean(latest) && ExtendContinue(args, wl, tracked, latest).Ok?
    ensures Clean(ExtendContinue(args, wl, tracked, latest).value.symbols)
  {
    CleanCap(args, Dedupe(wl.symbols + Dedupe(tracked + latest)));
  }

  /** Every way of resolving lists upper-case symbols, each once. */
  lemma ResolveClean(args: Args, u: Universe, x: Inputs)
    requires ProperUniverse(u) && AllUpper(args.includes) && Resolve(args, u, x).Ok?
    ensures Clean(Resolve(args, u, x).value.symbols)
  {
    var base := ResolveUniverse(args, u);
    if base.Ok? { UniverseClean(args, u); }
    if args.watch && args.fromLatestRun {
      SavedClean(x, args.onlyNearMisses);
      ResolveLatestClean(args, SavedSymbols(x, args.onlyNearMisses), if u.strict then Some(base.value) else None);
    } else if args.watch && args.onlyNearMisses {
      SavedClean(x, true);
      FilterClean(args, base.value, x.state, NearMisses(x));
    } else if args.continueWatch && !args.watch {
      SavedClean(x, true);
      CandidatesClean(x.state, x.stateOrder);
      ExtendClean(args, base.value, W.Candidates(x.state, x.stateOrder), SavedSymbols(x, true));
    }
  }

  lemma PrioritizeClean(args: Args, wl: Watchlist, active: seq<string>)
    requires Clean(wl.symbols) && AllUpper(active) && Prioritize(args, wl, active).Ok?
    ensures Clean(Prioritize(args, wl, active).value.symbols)
  {}

  lemma {:induction false} RoundsClean(args: Args, wl: Watchlist, rounds: seq<seq<string>>)
    requires Clean(wl.symbols) && PrioritizeAll(args, wl, rounds).Ok?
    requires forall i :: 0 <= i < |rounds| ==> AllUpper(rounds[i])
    ensures Clean(PrioritizeAll(args, wl, rounds).value.symbols)
    decreases |rounds|
  {
    if rounds != [] {
      PrioritizeClean(args, wl, rounds[0]);
      RoundsClean(args, Prioritize(args, wl, rounds[0]).value, rounds[1..]);
    }
  }

  /** build_symbol_priority_plan: the symbols that are not cooling down, in some order of
      priority. */
  ghost predicate PlannedFrom(plan: seq<string>, symbols: seq<string>, cooling: set<string>) {
    multiset(plan) == multiset(Without(Dedupe(UpperSeq(symbols)), cooling))
  }

  /** What one iteration scans, from the switches to the queue. */
  datatype Source = Source(
    args: Args, universe: Universe, inputs: Inputs, rounds: seq<seq<string>>, plan: Option<seq<string>>)

  function WatchlistOf(src: Source): Resolution {
    match Resolve(src.args, src.universe, src.inputs)
    case Err(e) => Err(e)
    case Ok(wl) => PrioritizeAll(src.args, wl, src.rounds)
  }

  /** What the readers of the universe, the switches, the lifecycle records and the symbol
      health give: upper-case symbols, a proper universe, a plan made from the watchlist. */
  ghost predicate Proper(src: Source, cooling: set<string>) {
    && ProperUniverse(src.universe) && AllUpper(src.args.includes)
    && (forall i :: 0 <= i < |src.rounds| ==> AllUpper(src.rounds[i]))
    && WatchlistOf(src).Ok?
    && (src.plan.Some? ==> PlannedFrom(src.plan.value, WatchlistOf(src).value.symbols, cooling))
  }

  lemma PlanClean(plan: seq<string>, symbols: seq<string>, cooling: set<string>)
    requires Clean(symbols) && PlannedFrom(plan, symbols, cooling)
    ensures NoDup(plan) && forall s :: s in plan ==> s in symbols
  {
    assert UpperSeq(symbols) == symbols by {
      assert forall i :: 0 <= i < |symbols| ==> symbols[i] in symbols;
    }
    DedupeNoDup(symbols);
    CleanKeep(symbols, cooling);
    ReorderedNoDup(Without(symbols, cooling), plan);
  }

  /** The queue of every iteration lists symbols of its watchlist, which lists none twice, and
      itself lists none twice. */
  lemma QueueClean(src: Source, cooling: set<string>)
    requires Proper(src, cooling)
    ensures var wl := WatchlistOf(src).value;
            Clean(wl.symbols) && NoDup(Queued(wl, src.plan)) && forall s :: s in Queued(wl, src.plan) ==> s in wl.symbols
  {
    ResolveClean(src.args, src.universe, src.inputs);
    RoundsClean(src.args, Resolve(src.args, src.universe, src.inputs).value, src.rounds);
    var wl := WatchlistOf(src).value;
    var queued := if src.plan.Some? then src.plan.value else wl.symbols;
    if src.plan.Some? { PlanClean(src.plan.value, wl.symbols, cooling); }
    KeepNoDup(queued, ToSet(wl.universe.resolved));
  }

  // ---------- What is listed, and what is queued ----------

  /** A strict watchlist lists only symbols that its universe still resolves to. */
  ghost predicate Listed(wl: Watchlist) {
    wl.universe.strict ==> forall s :: s in wl.symbols ==> s in wl.universe.resolved
  }

  lemma PrioritizeListed(args: Args, wl: Watchlist, active: seq<string>)
    requires Listed(wl) && Prioritize(args, wl, active).Ok?
    ensures Listed(Prioritize(args, wl, active).value)
  {}

  lemma {:induction false} RoundsListed(args: Args, wl: Watchlist, rounds: seq<seq<string>>)
    requires Listed(wl) && PrioritizeAll(args, wl, rounds).Ok?
    ensures Listed(PrioritizeAll(args, wl, rounds).value)
    decreases |rounds|
  {
    if rounds != [] {
      PrioritizeListed(args, wl, rounds[0]);
      RoundsListed(args, Prioritize(args, wl, rounds[0]).value, rounds[1..]);
    }
  }

  lemma UniverseListed(args: Args, u: Universe)
    requires ResolveUniverse(args, u).Ok?
    ensures Listed(ResolveUniverse(args, u).value)
  {}

  lemma SymbolsListed(args: Args, symbols: seq<string>)
    requires ResolveSymbols(args, symbols).Ok?
    ensures Listed(ResolveSymbols(args, symbols).value)
  {}

  lemma LatestListed(args: Args, latest: seq<string>, boundary: Option<Watchlist>)
    requires ResolveLatest(args, latest, boundary).Ok?
    ensures Listed(ResolveLatest(args, latest, boundary).value)
  {
    if latest != [] && boundary.None? { SymbolsListed(args, latest); }
  }

  lemma FilterListed(args: Args, wl: Watchlist, state: W.State, latest: Option<seq<string>>)
    requires FilterPrior(args, wl, state, latest).Ok?
    ensures Listed(FilterPrior(args, wl, state, latest).value)
  {
    var prior := W.Candidates(state, wl.symbols);
    var symbols := if prior == [] && latest.Some? then Keep(latest.value, ToSet(wl.symbols)) else prior;
    if !wl.universe.strict && symbols != [] { SymbolsListed(args, symbols); }
  }

  lemma ExtendListed(args: Args, wl: Watchlist, tracked: seq<string>, latest: seq<string>)
    requires Listed(wl) && ExtendContinue(args, wl, tracked, latest).Ok?
    ensures Listed(ExtendContinue(args, wl, tracked, latest).value)
  {}

  lemma ResolveListed(args: Args, u: Universe, x: Inputs)
    requires Resolve(args, u, x).Ok?
    ensures Listed(Resolve(args, u, x).value)
  {
    var base := ResolveUniverse(args, u);
    if base.Ok? { UniverseListed(args, u); }
    if args.watch && args.fromLatestRun {
      LatestListed(args, SavedSymbols(x, args.onlyNearMisses), if u.strict then Some(base.value) else None);
    } else if args.watch && args.onlyNearMisses {
      FilterListed(args, base.value, x.state, NearMisses(x));
    } else if args.continueWatch && !args.watch {
      ExtendListed(args, base.value, W.Candidates(x.state, x.stateOrder), SavedSymbols(x, true));
    }
  }

  /** From switches to queue: without a plan the queue is the watchlist itself, in its order;
      with a plan a symbol is queued exactly when it is in the watchlist and not cooling down. */
  lemma QueueIs(src: Source, cooling: set<string>)
    requires Proper(src, cooling)
    ensures var wl := WatchlistOf(src).value;
            && (src.plan.None? ==> Queued(wl, src.plan) == wl.symbols)
            && (src.plan.Some? ==>
                  forall s :: s in Queued(wl, src.plan) <==> s in wl.symbols && s !in cooling)
  {
    ResolveListed(src.args, src.universe, src.inputs);
    RoundsListed(src.args, Resolve(src.args, src.universe, src.inputs).value, src.rounds);
    QueueClean(src, cooling);
    var wl := WatchlistOf(src).value;
    if src.plan.None? {
      KeepAll(wl.symbols, ToSet(wl.universe.resolved));
    } else {
      PlanIs(src.plan.value, wl.symbols, cooling);
    }
  }

  lemma PlanIs(plan: seq<string>, symbols: seq<string>, cooling: set<string>)
    requires Clean(symbols) && PlannedFrom(plan, symbols, cooling)
    ensures forall s :: s in plan <==> s in symbols && s !in cooling
  {
    assert UpperSeq(symbols) == symbols by {
      assert forall i :: 0 <= i < |symbols| ==> symbols[i] in symbols;
    }
    DedupeNoDup(symbols);
    CleanKeep(symbols, cooling);
    ReorderedNoDup(Without(symbols, cooling), plan);
  }

  /** What the queue of any watchlist holds. */
  lemma QueuedIff(wl: Watchlist, plan: Option<seq<string>>, s: string)
    ensures s in Queued(wl, plan) <==>
              && (if plan.Some? then s in plan.value else s in wl.symbols)
              && (wl.universe.strict ==> s in wl.universe.resolved)
  {}

  /** A symbol of the universe, or an included one unless it is strict, that is not excluded. */
  predicate Offers(args: Args, u: Universe, s: string) {
    (s in u.resolved || (!u.strict && s in args.includes)) && s !in args.excludes
  }

  /** A universe without a cap resolves to all that it offers and fails only when that is
      nothing; a strict one reports the included symbols outside it. */
  lemma UniverseIs(args: Args, u: Universe)
    requires args.maxSymbols.None?
    ensures var r := ResolveUniverse(args, u);
            && (r.Ok? <==> exists s :: Offers(args, u, s))
            && (r.Ok? ==> forall s :: s in r.value.symbols <==> Offers(args, u, s))
            && (r.Ok? && u.strict ==>
                  forall s :: s in r.value.boundaryIgnored <==> s in args.includes && s !in u.resolved)
  {
    var pre := if u.strict then u.resolved else Dedupe(u.resolved + args.includes);
    var kept := Without(pre, ToSet(args.excludes));
    assert forall s :: s in kept <==> Offers(args, u, s);
    if kept != [] { assert Offers(args, u, kept[0]); }
  }

  /** A cap keeps the first symbols and nothing else, and must be positive. */
  lemma CapKeepsFirst(args: Args, u: Universe, m: int)
    requires args.maxSymbols == Some(m) && ResolveUniverse(args.(maxSymbols := None), u).Ok?
    ensures var all := ResolveUniverse(args.(maxSymbols := None), u).value.symbols;
            var r := ResolveUniverse(args, u);
            && (r.Ok? <==> m >= 1)
            && (r.Ok? ==> r.value.symbols == all[..Min(m, |all|)] && r.value.preCap == Some(|all|)
                          && (r.value.capApplied <==> m < |all|))
  {}

  /** Without the switches that narrow or extend it, the watchlist is the universe's. */
  lemma PlainResolve(args: Args, u: Universe, x: Inputs)
    requires !(args.watch && (args.fromLatestRun || args.onlyNearMisses)) && (args.watch || !args.continueWatch)
    ensures Resolve(args, u, x) == ResolveUniverse(args, u)
  {}

  lemma UpperSame(symbols: seq<string>)
    requires AllUpper(symbols)
    ensures UpperSeq(symbols) == symbols
  {
    assert forall i :: 0 <= i < |symbols| ==> symbols[i] in symbols;
  }

  lemma SymbolsAre(args: Args, symbols: seq<string>)
    requires AllUpper(symbols) && args.maxSymbols.None?
    ensures ResolveSymbols(args, symbols).Ok? <==> exists s :: s in symbols && s !in args.excludes
    ensures ResolveSymbols(args, symbols).Ok? ==>
              forall s :: s in ResolveSymbols(args, symbols).value.symbols <==> s in symbols && s !in args.excludes
  {
    UpperSame(symbols);
    var kept := Without(Dedupe(symbols), ToSet(args.excludes));
    assert forall s :: s in kept <==> s in symbols && s !in args.excludes;
    if kept != [] { assert kept[0] in kept; }
  }

  /** A cap on a list of symbols keeps the first ones and must be positive. */
  lemma SymbolsCapped(args: Args, symbols: seq<string>, m: int)
    requires args.maxSymbols == Some(m) && ResolveSymbols(args.(maxSymbols := None), symbols).Ok?
    ensures var all := ResolveSymbols(args.(maxSymbols := None), symbols).value.symbols;
            var r := ResolveSymbols(args, symbols);
            && (r.Ok? <==> m >= 1)
            && (r.Ok? ==>
                  && r.value.symbols == all[..Min(m, |all|)] && r.value.preCap == Some(|all|)
                  && (r.value.capApplied <==> m < |all|))
  {}

  lemma WithinBoundary(args: Args, latest: seq<string>, boundary: Watchlist)
    ensures var r := ResolveLatest(args, latest, Some(boundary));
            && (r.Ok? <==> exists s :: s in latest && s in boundary.symbols)
            && (r.Ok? ==> forall s :: s in r.value.symbols <==> s in latest && s in boundary.symbols)
            && (r.Ok? ==>
                  forall s :: s in r.value.boundaryIgnored <==>
                    s in boundary.boundaryIgnored || (s in latest && s !in boundary.symbols))
  {
    var kept := Keep(Dedupe(latest), ToSet(boundary.symbols));
    if kept != [] { assert kept[0] in kept; }
  }

  /** A symbol of the saved run, not excluded, and inside a strict universe. */
  predicate SavedListed(args: Args, u: Universe, x: Inputs, s: string) {
    s in SavedSymbols(x, args.onlyNearMisses) && s !in args.excludes && (u.strict ==> s in u.resolved)
  }

  /** Watching the saved run lists exactly its symbols that are not excluded and that a strict
      universe lists too, and fails exactly when there is none. */
  lemma SavedRunIs(args: Args, u: Universe, x: Inputs)
    requires args.watch && args.fromLatestRun && args.maxSymbols.None?
    ensures Resolve(args, u, x).Ok? <==> exists s :: SavedListed(args, u, x, s)
    ensures Resolve(args, u, x).Ok? ==>
              forall s :: s in Resolve(args, u, x).value.symbols <==> SavedListed(args, u, x, s)
  {
    var saved := SavedSymbols(x, args.onlyNearMisses);
    if u.strict {
      UniverseIs(args, u);
      var base := ResolveUniverse(args, u);
      if base.Ok? {
        WithinBoundary(args, saved, base.value);
        assert forall s :: SavedListed(args, u, x, s) <==> s in saved && s in base.value.symbols;
      }
    } else {
      SavedClean(x, args.onlyNearMisses);
      SymbolsAre(args, saved);
      assert forall s :: SavedListed(args, u, x, s) <==> s in saved && s !in args.excludes;
    }
  }

  /** On watch, or, if nothing is, a near miss of the saved run. */
  ghost predicate NearMissListed(base: seq<string>, x: Inputs, s: string) {
    s in base && if SomeWatched(base, x.state) then W.Watched(x.state, s) else s in SavedSymbols(x, true)
  }

  ghost predicate SomeWatched(base: seq<string>, state: W.State) {
    exists t :: t in base && W.Watched(state, t)
  }

  lemma CandidatesOf(state: W.State, base: seq<string>, s: string)
    requires AllUpper(base)
    ensures s in W.Candidates(state, base) <==> s in base && W.Watched(state, s)
  {
    if s in base {
      var i :| 0 <= i < |base| && base[i] == s;
      assert Upper(base[i]) == s;
    }
  }

  lemma PriorIs(base: seq<string>, x: Inputs)
    requires AllUpper(base)
    ensures forall s :: s in PriorSymbols(base, x.state, NearMisses(x)) <==> NearMissListed(base, x, s)
  {
    var prior := W.Candidates(x.state, base);
    forall s
      ensures s in prior <==> s in base && W.Watched(x.state, s)
    {
      CandidatesOf(x.state, base, s);
    }
    if prior != [] { assert prior[0] in prior; }
  }

  lemma FilterPriorIs(args: Args, wl: Watchlist, state: W.State, latest: Option<seq<string>>)
    requires args.maxSymbols.None? && AllUpper(PriorSymbols(wl.symbols, state, latest))
    requires forall s :: s in PriorSymbols(wl.symbols, state, latest) ==> s !in args.excludes
    ensures var symbols, r := PriorSymbols(wl.symbols, state, latest), FilterPrior(args, wl, state, latest);
            && (r.Ok? <==> symbols != [])
            && (r.Ok? ==> forall s :: s in r.value.symbols <==> s in symbols)
  {
    var symbols := PriorSymbols(wl.symbols, state, latest);
    if symbols != [] && !wl.universe.strict {
      SymbolsAre(args, symbols);
      assert symbols[0] in symbols;
    }
  }

  /** Watching near misses lists the symbols on watch, or the saved near misses if there are
      none, within the universe's watchlist, and fails exactly when there is none of these. */
  lemma NearMissRunIs(args: Args, u: Universe, x: Inputs)
    requires args.watch && !args.fromLatestRun && args.onlyNearMisses && args.maxSymbols.None?
    requires AllUpper(u.resolved) && AllUpper(args.includes)
    ensures var base, r := ResolveUniverse(args, u), Resolve(args, u, x);
            && (r.Ok? <==> base.Ok? && exists s :: NearMissListed(base.value.symbols, x, s))
            && (r.Ok? ==> forall s :: s in r.value.symbols <==> NearMissListed(base.value.symbols, x, s))
  {
    UniverseIs(args, u);
    var base := ResolveUniverse(args, u);
    if base.Ok? {
      PriorIs(base.value.symbols, x);
      var symbols := PriorSymbols(base.value.symbols, x.state, NearMisses(x));
      FilterPriorIs(args, base.value, x.state, NearMisses(x));
      if symbols != [] { assert symbols[0] in symbols; }
    }
  }

  predicate Continued(x: Inputs, s: string) {
    s in W.Candidates(x.state, x.stateOrder) || s in SavedSymbols(x, true)
  }

  lemma ExtendIs(args: Args, wl: Watchlist, tracked: seq<string>, latest: seq<string>)
    requires args.maxSymbols.None?
    ensures var r := ExtendContinue(args, wl, tracked, latest);
            && r.Ok?
            && (!wl.universe.strict ==>
                  forall s :: s in r.value.symbols <==> s in wl.symbols || s in tracked || s in latest)
            && (wl.universe.strict ==>
                  && r.value.symbols == wl.symbols
                  && forall s :: s in r.value.boundaryIgnored <==>
                       s in wl.boundaryIgnored || ((s in tracked || s in latest) && s !in wl.symbols))
  {
    var continued := Dedupe(tracked + latest);
    assert forall s :: s in continued <==> s in tracked || s in latest;
    assert forall s :: s in Without(continued, ToSet(wl.symbols)) <==> s in continued && s !in wl.symbols;
  }

  /** Continuing a watch adds the tracked and the saved candidates, or, under a strict universe,
      reports those outside it; it fails only when the universe cannot be resolved. */
  lemma ContinuedIs(args: Args, u: Universe, x: Inputs)
    requires !args.watch && args.continueWatch && args.maxSymbols.None?
    ensures var base, r := ResolveUniverse(args, u), Resolve(args, u, x);
            && (r.Ok? <==> base.Ok?)
            && (r.Ok? && !u.strict ==> forall s :: s in r.value.symbols <==> s in base.value.symbols || Continued(x, s))
            && (r.Ok? && u.strict ==>
                  && r.value.symbols == base.value.symbols
                  && forall s :: s in r.value.boundaryIgnored <==>
                       s in base.value.boundaryIgnored || (Continued(x, s) && s !in base.value.symbols))
  {
    var base := ResolveUniverse(args, u);
    if base.Ok? { ExtendIs(args, base.value, W.Candidates(x.state, x.stateOrder), SavedSymbols(x, true)); }
  }

  /** With a cap, continuing keeps the first symbols, those of the watchlist before the others, and
      reports the cap as applied exactly when it cost one its place. */
  lemma ExtendCapped(args: Args, wl: Watchlist, tracked: seq<string>, latest: seq<string>, m: nat)
    requires args.maxSymbols == Some(m) && !wl.universe.strict && m >= 1 && tracked + latest != []
    ensures var r := ExtendContinue(args, wl, tracked, latest);
            var all := Dedupe(wl.symbols + Dedupe(tracked + latest));
            && r.Ok? && r.value.symbols == all[..Min(m, |all|)]
            && (m < |all| ==> r.value.capApplied && r.value.preCap == Some(|all|))
            && (m >= |all| && r.value.symbols == wl.symbols ==> r.value == wl)
            && (m >= |all| && r.value.symbols != wl.symbols ==> !r.value.capApplied)
  {
    assert (tracked + latest)[0] in Dedupe(tracked + latest);
  }

  lemma ResolvedUniverse(args: Args, u: Universe)
    requires ResolveUniverse(args, u).Ok?
    ensures var wl := ResolveUniverse(args, u).value;
            wl.universe.strict == u.strict && wl.universe.resolved == wl.symbols
  {}

  lemma ResolvedSymbols(args: Args, symbols: seq<string>)
    requires ResolveSymbols(args, symbols).Ok?
    ensures var wl := ResolveSymbols(args, symbols).value;
            !wl.universe.strict && wl.universe.resolved == wl.symbols
  {}

  /** No way of resolving makes a universe strict or takes its strictness away, and the universe
      that is kept lists the symbols of the watchlist. */
  lemma ResolveKeepsKind(args: Args, u: Universe, x: Inputs)
    requires Resolve(args, u, x).Ok?
    ensures var wl := Resolve(args, u, x).value;
            wl.universe.strict == u.strict && wl.universe.resolved == wl.symbols
  {
    if args.watch && args.fromLatestRun && !u.strict {
      ResolvedSymbols(args, SavedSymbols(x, args.onlyNearMisses));
    } else {
      ResolvedUniverse(args, u);
      var base := ResolveUniverse(args, u).value;
      if args.watch && args.onlyNearMisses && !args.fromLatestRun && !u.strict {
        ResolvedSymbols(args, PriorSymbols(base.symbols, x.state, NearMisses(x)));
      }
    }
  }

  // ---------- What lifecycle priority does to the queue ----------

  predicate CapOk(args: Args) {
    args.maxSymbols.Some? ==> args.maxSymbols.value >= 1
  }

  lemma AppendNoDup(a: seq<string>, b: seq<string>)
    requires NoDup(a) && NoDup(b) && forall s :: s in a ==> s !in b
    ensures NoDup(a + b)
  {
    forall i, j | 0 <= i < j < |a + b|
      ensures (a + b)[i] != (a + b)[j]
    {
      if i < |a| <= j { assert a[i] in a && b[j - |a|] in b; }
    }
  }

  /** With no repetitions: the admitted active symbols, then a prefix of the rest in order. */
  lemma PriorityShape(args: Args, wl: Watchlist, active: seq<string>)
    requires CapOk(args) && NoDup(active) && NoDup(wl.symbols)
    ensures var first, rest := Admitted(wl, active), Discovery(wl, active);
            var k := Capacity(args, |first|, |rest|);
            && Prioritized(args, wl, active) == first + rest[..k] && NoDup(first + rest[..k])
            && (forall s :: s in rest <==> s in wl.symbols && s !in first)
  {
    var first, rest := Admitted(wl, active), Discovery(wl, active);
    var k := Capacity(args, |first|, |rest|);
    KeepNoDup(active, ToSet(wl.universe.resolved));
    KeepNoDup(wl.symbols, ToSet(first));
    assert forall s :: s in rest[..k] ==> s in rest;
    AppendNoDup(first, rest[..k]);
    DedupeNoDup(first + rest[..k]);
  }

  /** The cap binds discovery only: active symbols are never dropped for it. */
  lemma PriorityLength(args: Args, wl: Watchlist, active: seq<string>)
    requires CapOk(args) && args.maxSymbols.Some?
    ensures |Prioritized(args, wl, active)| <= Max(args.maxSymbols.value, |Admitted(wl, active)|)
    ensures forall s :: s in Admitted(wl, active) ==> s in Prioritized(args, wl, active)
  {}

  /** Every active symbol that the universe admits is queued; without a cap so is every listed
      one; with a cap the queue is filled up to it. */
  lemma PriorityFills(args: Args, wl: Watchlist, active: seq<string>)
    requires CapOk(args) && NoDup(active) && NoDup(wl.symbols)
    ensures var p := Prioritized(args, wl, active);
            && (forall s :: s in active && (wl.universe.strict ==> s in wl.universe.resolved) ==> s in p)
            && (args.maxSymbols.None? ==> forall s :: s in wl.symbols ==> s in p)
            && (forall s :: s in p ==> s in active || s in wl.symbols)
            && (args.maxSymbols.Some? && |p| < args.maxSymbols.value ==> forall s :: s in wl.symbols ==> s in p)
  {
    PriorityShape(args, wl, active);
  }

  /** A round changes nothing. */
  ghost predicate Settled(args: Args, wl: Watchlist, active: seq<string>)
    requires CapOk(args)
  {
    && Prioritized(args, wl, active) == wl.symbols && wl.active == Admitted(wl, active)
    && (wl.universe.strict ==> forall s :: s in active && s !in wl.universe.resolved ==> s in wl.lifecycleIgnored)
  }

  /** A round fails exactly when it has a cap below one, and leaves a settled watchlist alone. */
  lemma PriorityOkIff(args: Args, wl: Watchlist, active: seq<string>)
    requires NoDup(wl.lifecycleIgnored)
    ensures Prioritize(args, wl, active).Ok? <==> !args.lifecycle || CapOk(args)
    ensures !args.lifecycle ==> Prioritize(args, wl, active) == Ok(wl)
    ensures CapOk(args) && Settled(args, wl, active) ==> Prioritize(args, wl, active) == Ok(wl)
  {
    if args.lifecycle && CapOk(args) && Settled(args, wl, active) {
      var refused := if wl.universe.strict then Without(active, ToSet(wl.universe.resolved)) else [];
      DedupeAbsorbs(wl.lifecycleIgnored, refused);
    }
  }

  lemma {:induction false} DedupeAbsorbs(a: seq<string>, b: seq<string>)
    requires NoDup(a) && forall s :: s in b ==> s in a
    ensures Dedupe(a + b) == a
    decreases |b|
  {
    if b == [] {
      DedupeNoDup(a);
      assert a + b == a;
    } else {
      DedupeAbsorbs(a, b[..|b| - 1]);
      assert (a + b)[..|a + b| - 1] == a + b[..|b| - 1];
    }
  }

  /** The reports of a round that is due: who was added, dropped, monitored and ignored, and that
      the cap was applied exactly when it cost a symbol its place. */
  lemma PriorityReports(args: Args, wl: Watchlist, active: seq<string>)
    requires args.lifecycle && CapOk(args) && !Settled(args, wl, active)
    requires NoDup(active) && NoDup(wl.symbols)
    ensures Prioritize(args, wl, active).Ok?
    ensures var n := Prioritize(args, wl, active).value;
            && n.symbols == Prioritized(args, wl, active) && n.universe == wl.universe
            && (forall s :: s in n.added <==> s in n.symbols && s !in wl.symbols)
            && (forall s :: s in n.dropped <==> s in wl.symbols && s !in n.symbols)
            && (forall s :: s in n.active <==> s in active && (wl.universe.strict ==> s in wl.universe.resolved))
            && (forall s :: s in n.lifecycleIgnored <==>
                  s in wl.lifecycleIgnored || (s in active && wl.universe.strict && s !in wl.universe.resolved))
            && (forall s :: s in n.boundaryIgnored <==>
                  s in wl.boundaryIgnored || (s in active && wl.universe.strict && s !in wl.universe.resolved))
            && (n.capApplied <==> wl.capApplied || n.dropped != [])
            && n.overCap == (if args.maxSymbols.Some? then Max(0, |n.active| - args.maxSymbols.value) else 0)
            && n.preCap.Some? && n.preCap.value >= if wl.preCap.Some? then wl.preCap.value else |wl.symbols|
  {
    PriorityShape(args, wl, active);
    CapCosts(args, wl, active);
  }

  lemma CutCosts(symbols: seq<string>, first: seq<string>, rest: seq<string>, k: nat)
    requires k <= |rest| && NoDup(first + rest) && rest == Without(symbols, ToSet(first))
    ensures k < |rest| <==> Without(symbols, ToSet(first + rest[..k])) != []
  {
    var p := first + rest[..k];
    if k < |rest| {
      assert rest[k] in rest && rest[k] !in p by {
        assert (first + rest)[|first| + k] == rest[k];
        assert forall i :: 0 <= i < |p| ==> p[i] == (first + rest)[i];
      }
      assert rest[k] in Without(symbols, ToSet(p));
    } else {
      assert rest[..k] == rest;
      WithoutAll(symbols, ToSet(p));
    }
  }

  lemma CapCosts(args: Args, wl: Watchlist, active: seq<string>)
    requires CapOk(args) && NoDup(active) && NoDup(wl.symbols)
    ensures var p := Prioritized(args, wl, active);
            |p| < |Dedupe(Admitted(wl, active) + Discovery(wl, active))| <==> Without(wl.symbols, ToSet(p)) != []
  {
    var first, rest := Admitted(wl, active), Discovery(wl, active);
    PriorityShape(args, wl, active);
    PriorityShape(args.(maxSymbols := None), wl, active);
    assert rest[..|rest|] == rest;
    CutCosts(wl.symbols, first, rest, Capacity(args, |first|, |rest|));
  }

  lemma MovesConserve(o: seq<string>, p: seq<string>)
    requires NoDup(p)
    ensures |o| + |Without(p, ToSet(o))| == |p| + |Without(o, ToSet(p))| <==> OnceEach(o, ToSet(p))
  {
    var stayed, found := Keep(o, ToSet(p)), Keep(p, ToSet(o));
    KeepSplits(o, ToSet(p));
    KeepSplits(p, ToSet(o));
    KeepOnce(o, ToSet(p));
    KeepNoDup(p, ToSet(o));
    NoDupCard(stayed);
    NoDupCard(found);
    assert ToSet(stayed) == ToSet(found);
  }

  /** Conservation: what came in and was added is what stays and was dropped, exactly when no
      symbol that stays was listed twice. */
  lemma PriorityConserves(args: Args, wl: Watchlist, active: seq<string>)
    requires CapOk(args)
    ensures var p := Prioritized(args, wl, active);
            |wl.symbols| + |Without(p, ToSet(wl.symbols))| == |p| + |Without(wl.symbols, ToSet(p))|
            <==> OnceEach(wl.symbols, ToSet(p))
  {
    MovesConserve(wl.symbols, Prioritized(args, wl, active));
  }

  lemma WithoutAll(a: seq<string>, x: set<string>)
    requires forall s :: s in a ==> s in x
    ensures Without(a, x) == []
  {
    if Without(a, x) != [] {
      assert Without(a, x)[0] in Without(a, x);
    }
  }

  lemma DiscoveryOnceMore(first: seq<string>, taken: seq<string>)
    requires forall s :: s in taken ==> s !in first
    ensures Without(first + taken, ToSet(first)) == taken
  {
    WithoutAppend(first, taken, ToSet(first));
    WithoutAll(first, ToSet(first));
    KeepAll(taken, ToSet(first));
    assert [] + taken == taken;
  }

  lemma QueueTwice(args: Args, first: seq<string>, taken: seq<string>)
    requires CapOk(args) && NoDup(first + taken) && (forall s :: s in taken ==> s !in first)
    requires args.maxSymbols.Some? ==> |taken| <= Max(0, args.maxSymbols.value - |first|)
    ensures var rest := Without(first + taken, ToSet(first));
            Dedupe(first + rest[..Capacity(args, |first|, |rest|)]) == first + taken
  {
    DiscoveryOnceMore(first, taken);
    assert taken[..|taken|] == taken;
    DedupeNoDup(first + taken);
  }

  lemma PrioritizedTwice(args: Args, wl: Watchlist, once: Watchlist, active: seq<string>)
    requires CapOk(args) && NoDup(active) && NoDup(wl.symbols)
    requires once.universe == wl.universe && once.symbols == Prioritized(args, wl, active)
    ensures Prioritized(args, once, active) == once.symbols
  {
    var first, rest := Admitted(wl, active), Discovery(wl, active);
    var k := Capacity(args, |first|, |rest|);
    PriorityShape(args, wl, active);
    assert forall s :: s in rest[..k] ==> s in rest;
    QueueTwice(args, first, rest[..k]);
  }

  /** A second application with the same active symbols changes nothing. */
  lemma PriorityIdempotent(args: Args, wl: Watchlist, active: seq<string>)
    requires args.lifecycle && NoDup(active) && NoDup(wl.symbols) && Prioritize(args, wl, active).Ok?
    ensures var once := Prioritize(args, wl, active).value;
            Prioritize(args, once, active).Ok? && Prioritize(args, once, active).value.symbols == once.symbols
  {
    PrioritizedTwice(args, wl, Prioritize(args, wl, active).value, active);
  }
}
