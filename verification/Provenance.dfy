/** Bounded oldest-first inspection of unresolved public events, with warn-once logging. */
module Provenance {
  import opened Basics

  const CACHE_LIMIT: nat := 1024
  const WARNING_BUDGET: nat := 10
  const PAGE_SIZE: nat := 64

  /** A table row with the facts that the read-only ownership guard reports about it. `open`:
      a known public family that is pending, retryable or in flight. */
  datatype EventRow = EventRow(
    id: int, open: bool, updatedAt: string,
    ownershipAllowed: bool, ownershipReason: string, reservationReason: Option<string>)

  datatype Issue = Issue(eventId: int, ownershipReason: string, reservationReason: Option<string>)

  /** The hashed triple; hashing is taken to be injective. */
  datatype Fingerprint = Fingerprint(scope: string, issue: Issue, updatedAt: string)

  function IssueOf(r: EventRow): Option<Issue> {
    if r.ownershipAllowed && r.reservationReason.None? then None
    else Some(Issue(r.id, r.ownershipReason, r.reservationReason))
  }

  function ReasonOf(i: Issue): string {
    if i.reservationReason.Some? then i.reservationReason.value else i.ownershipReason
  }

  predicate SortedById(rows: seq<EventRow>) {
    forall i, j :: 0 <= i < j < |rows| ==> rows[i].id < rows[j].id
  }

  function UpperId(table: seq<EventRow>): int {
    if table == [] then 0 else table[|table| - 1].id
  }

  /** SELECT ... WHERE id > after AND id <= upper AND (open) ORDER BY id. */
  function Select(table: seq<EventRow>, after: int, upper: int): seq<EventRow> {
    if table == [] then []
    else
      var rest := Select(table[1..], after, upper);
      if table[0].open && after < table[0].id <= upper then [table[0]] + rest else rest
  }

  /** The rows a whole inspection is about. */
  function Matching(table: seq<EventRow>): seq<EventRow> {
    Select(table, 0, UpperId(table))
  }

  lemma {:induction false} SelectMembers(table: seq<EventRow>, after: int, upper: int, r: EventRow)
    ensures r in Select(table, after, upper) <==> r in table && r.open && after < r.id <= upper
    decreases |table|
  {
    if table != [] {
      assert table == [table[0]] + table[1..];
      SelectMembers(table[1..], after, upper, r);
    }
  }

  lemma {:induction false} SelectSorted(table: seq<EventRow>, after: int, upper: int)
    requires SortedById(table)
    ensures SortedById(Select(table, after, upper))
    decreases |table|
  {
    if table != [] {
      var tail := table[1..];
      var rest := Select(tail, after, upper);
      SelectSorted(tail, after, upper);
      forall i | 0 <= i < |rest|
        ensures table[0].id < rest[i].id
      {
        SelectMembers(tail, after, upper, rest[i]);
      }
    }
  }

  /** The inspected population: exactly the open rows with a positive id, oldest first. */
  lemma MatchingRows(table: seq<EventRow>, r: EventRow)
    requires SortedById(table)
    ensures r in Matching(table) <==> r in table && r.open && 0 < r.id
    ensures SortedById(Matching(table))
  {
    SelectMembers(table, 0, UpperId(table), r);
    SelectSorted(table, 0, UpperId(table));
  }

  lemma {:induction false} SelectFromBelow(table: seq<EventRow>, after: int, last: int, upper: int)
    requires after <= last && forall i :: 0 <= i < |table| ==> last < table[i].id
    ensures Select(table, after, upper) == Select(table, last, upper)
    decreases |table|
  {
    if table != [] {
      SelectFromBelow(table[1..], after, last, upper);
    }
  }

  /** The cursor: what is left after the k-th selected row is the rest of the selection. */
  lemma {:induction false} SelectAfter(table: seq<EventRow>, after: int, upper: int, k: nat)
    requires SortedById(table) && 0 < k <= |Select(table, after, upper)|
    ensures Select(table, Select(table, after, upper)[k - 1].id, upper) == Select(table, after, upper)[k..]
    decreases |table|
  {
    var m := Select(table, after, upper);
    var tail := table[1..];
    var rest := Select(tail, after, upper);
    var last := m[k - 1];
    if table[0].open && after < table[0].id <= upper {
      if k == 1 {
        SelectFromBelow(tail, after, last.id, upper);
        assert m[1..] == rest;
      } else {
        assert last == rest[k - 2];
        SelectMembers(tail, after, upper, last);
        SelectAfter(tail, after, upper, k - 1);
        assert rest[k - 1..] == m[k..];
      }
    } else {
      SelectMembers(tail, after, upper, last);
      SelectAfter(tail, after, upper, k);
    }
  }

  // ---------- Warn-once ----------

  /** OrderedDict.move_to_end works on the one occurrence of a key. */
  function RemoveOne(s: seq<Fingerprint>, x: Fingerprint): (r: seq<Fingerprint>)
    ensures x in s ==> |r| == |s| - 1
    ensures forall y :: y != x ==> (y in r <==> y in s)
    ensures NoDup(s) ==> NoDup(r) && x !in r
  {
    if s == [] then []
    else
      assert s == [s[0]] + s[1..];
      if s[0] == x then s[1..]
      else
        var r := RemoveOne(s[1..], x);
        assert NoDup(s) ==> s[0] !in s[1..] && s[0] !in r;
        [s[0]] + r
  }

  function Evict(cache: seq<Fingerprint>): seq<Fingerprint> {
    if |cache| <= CACHE_LIMIT then cache else cache[|cache| - CACHE_LIMIT..]
  }

  datatype Warning = Warning(cache: seq<Fingerprint>, emitted: bool)

  function Warn(cache: seq<Fingerprint>, fp: Fingerprint, budget: int): Warning {
    if fp in cache then Warning(RemoveOne(cache, fp) + [fp], false)
    else if budget <= 0 then Warning(cache, false)
    else Warning(Evict(cache + [fp]), true)
  }

  predicate CacheOk(cache: seq<Fingerprint>) {
    NoDup(cache) && |cache| <= CACHE_LIMIT
  }

  lemma WarnKeepsCache(cache: seq<Fingerprint>, fp: Fingerprint, budget: int)
    requires CacheOk(cache)
    ensures CacheOk(Warn(cache, fp, budget).cache)
  {
    if fp in cache {
      var r := RemoveOne(cache, fp);
      assert fp !in r;
    }
  }

  // ---------- The cache over any sequence of warnings ----------

  /** One call of the warning with the budget left then. */
  datatype Call = Call(fp: Fingerprint, budget: int)

  /** The cache after the calls, from an empty one. */
  function CacheAfter(calls: seq<Call>): seq<Fingerprint>
    decreases |calls|
  {
    if calls == [] then []
    else Warn(CacheAfter(calls[..|calls| - 1]), calls[|calls| - 1].fp, calls[|calls| - 1].budget).cache
  }

  /** The fingerprints that were found or newly warned about, in order. */
  function Seen(calls: seq<Call>): seq<Fingerprint>
    decreases |calls|
  {
    if calls == [] then []
    else
      var before, c := calls[..|calls| - 1], calls[|calls| - 1];
      if c.fp in CacheAfter(before) || c.budget > 0 then Seen(before) + [c.fp] else Seen(before)
  }

  /** The distinct elements, ordered by their last occurrence. */
  function Recent(s: seq<Fingerprint>): (r: seq<Fingerprint>)
    ensures forall x :: x in r <==> x in s
    decreases |s|
  {
    if s == [] then []
    else
      assert s == s[..|s| - 1] + [s[|s| - 1]];
      Without(Recent(s[..|s| - 1]), {s[|s| - 1]}) + [s[|s| - 1]]
  }

  function LastOf(s: seq<Fingerprint>, n: nat): seq<Fingerprint> {
    if |s| <= n then s else s[|s| - n..]
  }

  lemma {:induction false} RecentNoDup(s: seq<Fingerprint>)
    ensures NoDup(Recent(s))
    decreases |s|
  {
    if s != [] {
      var before, x := s[..|s| - 1], s[|s| - 1];
      RecentNoDup(before);
      KeepNoDup(Recent(before), {x});
      NoDupSnoc(Without(Recent(before), {x}), x);
    }
  }

  lemma {:induction false} RemoveIsWithout(s: seq<Fingerprint>, x: Fingerprint)
    requires NoDup(s)
    ensures RemoveOne(s, x) == Without(s, {x})
    decreases |s|
  {
    if s != [] {
      if s[0] == x {
        assert forall y :: y in s[1..] ==> y !in {x};
        KeepAll(s[1..], {x});
        WithoutHead(s, x);
      } else {
        RemoveIsWithout(s[1..], x);
        WithoutHead(s, x);
      }
    }
  }

  lemma {:induction false} WithoutHead(s: seq<Fingerprint>, x: Fingerprint)
    requires s != []
    ensures Without(s, {x}) == (if s[0] == x then [] else [s[0]]) + Without(s[1..], {x})
    decreases |s|
  {
    var n := |s| - 1;
    if n > 0 {
      WithoutHead(s[..n], x);
      assert s[..n][1..] == s[1..][..n - 1];
    }
  }

  /** The cache and what was seen before it. */
  ghost predicate Cached(gone: seq<Fingerprint>, cache: seq<Fingerprint>) {
    NoDup(cache) && |cache| <= CACHE_LIMIT && (gone != [] ==> |cache| == CACHE_LIMIT)
  }

  lemma SeenAgain(gone: seq<Fingerprint>, cache: seq<Fingerprint>, x: Fingerprint)
    requires Cached(gone, cache) && x in cache && x !in gone
    ensures LastOf(Without(gone + cache, {x}) + [x], CACHE_LIMIT) == RemoveOne(cache, x) + [x]
  {
    var rest := RemoveOne(cache, x);
    WithoutAppend(gone, cache, {x});
    RemoveIsWithout(cache, x);
    assert forall y :: y in gone ==> y !in {x};
    KeepAll(gone, {x});
    assert gone + rest + [x] == gone + (rest + [x]);
    LastOfAppend(gone, rest + [x], CACHE_LIMIT);
  }

  lemma WithoutNew(gone: seq<Fingerprint>, cache: seq<Fingerprint>, x: Fingerprint)
    requires x !in cache
    ensures Without(gone + cache, {x}) == Without(gone, {x}) + cache
  {
    WithoutAppend(gone, cache, {x});
    KeepAll(cache, {x});
  }

  lemma SeenNew(gone: seq<Fingerprint>, cache: seq<Fingerprint>, x: Fingerprint)
    requires Cached(gone, cache) && x !in cache
    ensures LastOf(Without(gone + cache, {x}) + [x], CACHE_LIMIT) == Evict(cache + [x])
  {
    var first, last := Without(gone, {x}), cache + [x];
    WithoutNew(gone, cache, x);
    assert first + cache + [x] == first + last;
    LastOfAppend(first, last, CACHE_LIMIT);
  }

  lemma LastOfAppend(a: seq<Fingerprint>, b: seq<Fingerprint>, n: nat)
    requires |b| >= n || a == []
    ensures LastOf(a + b, n) == LastOf(b, n)
  {
    if a == [] { assert a + b == b; }
  }

  lemma SeenNext(recent: seq<Fingerprint>, x: Fingerprint)
    requires NoDup(recent)
    ensures var cache := LastOf(recent, CACHE_LIMIT);
            LastOf(Without(recent, {x}) + [x], CACHE_LIMIT)
            == if x in cache then RemoveOne(cache, x) + [x] else Evict(cache + [x])
  {
    var cache := LastOf(recent, CACHE_LIMIT);
    var gone := recent[..|recent| - |cache|];
    assert recent == gone + cache;
    if x in cache {
      SeenAgain(gone, cache, x);
    } else {
      SeenNew(gone, cache, x);
    }
  }

  /** The cache always holds the 1024 most recently seen fingerprints, oldest first: one is warned
      about again only after 1024 others have been seen since. */
  lemma {:induction false} CacheIsMostRecent(calls: seq<Call>)
    ensures CacheAfter(calls) == LastOf(Recent(Seen(calls)), CACHE_LIMIT)
    decreases |calls|
  {
    if calls != [] {
      var before, c := calls[..|calls| - 1], calls[|calls| - 1];
      CacheIsMostRecent(before);
      RecentNoDup(Seen(before));
      SeenNext(Recent(Seen(before)), c.fp);
      assert (Seen(before) + [c.fp])[..|Seen(before)|] == Seen(before);
    }
  }

  /** The counters of the report while it is being collected. */
  datatype Tally = Tally(unresolved: nat, reasons: multiset<string>, details: seq<Issue>, emitted: nat, suppressed: nat)

  /** What one inspection pass has produced so far. `log` lists the warnings it emitted. */
  datatype Pass = Pass(tally: Tally, cache: seq<Fingerprint>, log: seq<Fingerprint>) {
    predicate Shows(t: Tally, cache: seq<Fingerprint>) {
      t == tally && cache == this.cache
    }
  }

  function FingerprintOf(scope: string, r: EventRow, issue: Issue): Fingerprint {
    Fingerprint(scope, issue, r.updatedAt)
  }

  function Inspect(p: Pass, scope: string, detailLimit: nat, r: EventRow): Pass {
    match IssueOf(r)
    case None => p
    case Some(issue) =>
      var fp := FingerprintOf(scope, r, issue);
      var t := p.tally;
      var w := Warn(p.cache, fp, WARNING_BUDGET - t.emitted);
      Pass(Tally(t.unresolved + 1, t.reasons + multiset{ReasonOf(issue)},
                 if |t.details| < detailLimit then t.details + [issue] else t.details,
                 if w.emitted then t.emitted + 1 else t.emitted,
                 if w.emitted then t.suppressed else t.suppressed + 1),
           w.cache, if w.emitted then p.log + [fp] else p.log)
  }

  function InspectAll(cache: seq<Fingerprint>, scope: string, detailLimit: nat, rows: seq<EventRow>): Pass
    decreases |rows|
  {
    if rows == [] then Pass(Tally(0, multiset{}, [], 0, 0), cache, [])
    else Inspect(InspectAll(cache, scope, detailLimit, rows[..|rows| - 1]), scope, detailLimit, rows[|rows| - 1])
  }

  lemma InspectNext(cache: seq<Fingerprint>, scope: string, detailLimit: nat, rows: seq<EventRow>, r: EventRow)
    ensures InspectAll(cache, scope, detailLimit, rows + [r])
         == Inspect(InspectAll(cache, scope, detailLimit, rows), scope, detailLimit, r)
  {
    assert (rows + [r])[..|rows|] == rows;
  }

  lemma InspectOneMore(cache: seq<Fingerprint>, scope: string, detailLimit: nat, earlier: seq<EventRow>,
                       rows: seq<EventRow>, n: nat)
    requires n < |rows|
    ensures InspectAll(cache, scope, detailLimit, earlier + rows[..n + 1])
         == Inspect(InspectAll(cache, scope, detailLimit, earlier + rows[..n]), scope, detailLimit, rows[n])
  {
    assert earlier + rows[..n] + [rows[n]] == earlier + rows[..n + 1];
    InspectNext(cache, scope, detailLimit, earlier + rows[..n], rows[n]);
  }

  /** The issues of the rows, in order: the reference for all counts of a pass. */
  function Issues(rows: seq<EventRow>): seq<Issue>
    decreases |rows|
  {
    if rows == [] then []
    else
      var before := Issues(rows[..|rows| - 1]);
      match IssueOf(rows[|rows| - 1]) case None => before case Some(i) => before + [i]
  }

  function Reasons(issues: seq<Issue>): multiset<string>
    decreases |issues|
  {
    if issues == [] then multiset{}
    else Reasons(issues[..|issues| - 1]) + multiset{ReasonOf(issues[|issues| - 1])}
  }

  /** Each unresolved row is counted once: by reason, in the details up to their limit, and
      as warned or suppressed. */
  ghost predicate Accounts(p: Pass, issues: seq<Issue>, detailLimit: nat) {
    && p.tally.unresolved == |issues| && p.tally.reasons == Reasons(issues) && |p.tally.reasons| == |issues|
    && p.tally.details == issues[..Min(detailLimit, |issues|)]
    && p.tally.emitted + p.tally.suppressed == |issues|
    && |p.log| == p.tally.emitted <= WARNING_BUDGET
  }

  lemma InspectAccounts(p: Pass, issues: seq<Issue>, scope: string, detailLimit: nat, r: EventRow)
    requires CacheOk(p.cache) && Accounts(p, issues, detailLimit) && IssueOf(r).Some?
    ensures CacheOk(Inspect(p, scope, detailLimit, r).cache)
    ensures Accounts(Inspect(p, scope, detailLimit, r), issues + [IssueOf(r).value], detailLimit)
  {
    var issue := IssueOf(r).value;
    var more := issues + [issue];
    WarnKeepsCache(p.cache, FingerprintOf(scope, r, issue), WARNING_BUDGET - p.tally.emitted);
    assert more[..|issues|] == issues;
    if |issues| >= detailLimit {
      assert more[..detailLimit] == issues[..detailLimit];
    } else {
      assert issues[..|issues|] == issues && more[..|more|] == more;
    }
  }

  /** Conservation inside a pass: every unresolved row has one reason, is either detailed or
      omitted, and is either warned about or suppressed. */
  lemma {:induction false} PassAccounts(cache: seq<Fingerprint>, scope: string, detailLimit: nat, rows: seq<EventRow>)
    requires CacheOk(cache)
    ensures var p := InspectAll(cache, scope, detailLimit, rows);
            Accounts(p, Issues(rows), detailLimit) && CacheOk(p.cache) && |Issues(rows)| <= |rows|
    decreases |rows|
  {
    if rows != [] {
      var before := rows[..|rows| - 1];
      PassAccounts(cache, scope, detailLimit, before);
      if IssueOf(rows[|rows| - 1]).Some? {
        var seen := InspectAll(cache, scope, detailLimit, before);
        InspectAccounts(seen, Issues(before), scope, detailLimit, rows[|rows| - 1]);
      }
    }
  }

  /** The row is unresolved for the reason x: the reservation's if there is one, else the
      owner's. */
  predicate HasReason(r: EventRow, x: string) {
    || r.reservationReason == Some(x)
    || (r.reservationReason.None? && !r.ownershipAllowed && r.ownershipReason == x)
  }

  lemma ReasonsNext(rows: seq<EventRow>, r: EventRow, x: string)
    ensures Reasons(Issues(rows + [r]))[x] == Reasons(Issues(rows))[x] + if HasReason(r, x) then 1 else 0
  {
    assert (rows + [r])[..|rows|] == rows;
    var issues := Issues(rows);
    if IssueOf(r).Some? { assert (issues + [IssueOf(r).value])[..|issues|] == issues; }
  }

  function RowsWith(rows: seq<EventRow>, x: string): set<EventRow> {
    set r | r in rows && HasReason(r, x)
  }

  lemma RowsWithNext(rows: seq<EventRow>, r: EventRow, x: string)
    requires r !in rows
    ensures |RowsWith(rows + [r], x)| == |RowsWith(rows, x)| + if HasReason(r, x) then 1 else 0
  {
    assert RowsWith(rows + [r], x) == RowsWith(rows, x) + if HasReason(r, x) then {r} else {};
  }

  /** The counts by reason count the rows themselves. */
  lemma {:induction false} ReasonsCountRows(rows: seq<EventRow>, x: string)
    requires SortedById(rows)
    ensures Reasons(Issues(rows))[x] == |RowsWith(rows, x)|
    decreases |rows|
  {
    if rows != [] {
      var before, r := rows[..|rows| - 1], rows[|rows| - 1];
      assert rows == before + [r] && r !in before;
      ReasonsCountRows(before, x);
      ReasonsNext(before, r, x);
      RowsWithNext(before, r, x);
    }
  }

  // ---------- The collected report ----------

  datatype Report = Report(
    observed: bool, coverageComplete: bool, inspected: nat, inspectionLimit: nat, detailLimit: nat,
    unresolved: Option<nat>, omittedDetails: int, emitted: nat, suppressed: nat,
    byReason: multiset<string>, details: seq<Issue>)

  /** The report's counts are those of the pass over `rows`. */
  predicate CountsOf(r: Report, p: Pass) {
    && r.omittedDetails == p.tally.unresolved - |p.tally.details|
    && r.emitted == p.tally.emitted && r.suppressed == p.tally.suppressed
    && r.byReason == p.tally.reasons && r.details == p.tally.details
    && r.unresolved == (if !r.observed && r.inspected == 0 then None else Some(p.tally.unresolved))
  }

  /** A report of the first rows of the table: all of them up to the limit when it is OBSERVED,
      some prefix (the last row possibly unclassified) when the database failed. */
  ghost predicate Describes(table: seq<EventRow>, scope: string, before: seq<Fingerprint>, after: seq<Fingerprint>,
                            r: Report) {
    var m := Matching(table);
    && r.inspected <= |m| && r.inspected <= r.inspectionLimit && 1 <= r.inspectionLimit
    && (r.observed ==>
          && r.inspected == Min(r.inspectionLimit, |m|)
          && (r.coverageComplete <==> |m| <= r.inspectionLimit)
          && var p := InspectAll(before, scope, r.detailLimit, m[..r.inspected]);
             CountsOf(r, p) && after == p.cache)
    && (!r.observed ==>
          && !r.coverageComplete
          && exists n: nat :: n <= r.inspected <= n + 1 && n <= |m| &&
               var p := InspectAll(before, scope, r.detailLimit, m[..n]);
               CountsOf(r, p) && after == p.cache)
  }

  class Diagnostics {
    /** _WARNED, oldest first. */
    var warned: seq<Fingerprint>

    method WarnOnce(fp: Fingerprint, budget: int) returns (emitted: bool)
      requires CacheOk(warned)
      modifies this
      ensures warned == Warn(old(warned), fp, budget).cache && emitted == Warn(old(warned), fp, budget).emitted
      ensures CacheOk(warned)
    {
      WarnKeepsCache(warned, fp, budget);
      if fp in warned {
        warned := RemoveOne(warned, fp) + [fp];
        return false;
      }
      if budget <= 0 { return false; }
      warned := warned + [fp];
      ghost var full := warned;
      while |warned| > CACHE_LIMIT
        invariant |warned| <= |full| && warned == full[|full| - |warned|..]
        invariant |warned| >= Min(CACHE_LIMIT, |full|)
      {
        warned := warned[1..];
      }
      return true;
    }

    method InspectRow(row: EventRow, scope: string, detailLimit: nat, before: Tally, ghost p: Pass) returns (t: Tally)
      requires CacheOk(warned) && p.Shows(before, warned)
      modifies this
      ensures CacheOk(warned) && Inspect(p, scope, detailLimit, row).Shows(t, warned)
    {
      t := before;
      var issue := IssueOf(row);
      if issue.None? { return; }
      var emitted := WarnOnce(FingerprintOf(scope, row, issue.value), WARNING_BUDGET - t.emitted);
      t := Tally(t.unresolved + 1, t.reasons + multiset{ReasonOf(issue.value)},
                 if |t.details| < detailLimit then t.details + [issue.value] else t.details,
                 if emitted then t.emitted + 1 else t.emitted,
                 if emitted then t.suppressed else t.suppressed + 1);
    }

    /** The rows of one page. `calls` numbers the database calls; `done` rows were classified. */
    method InspectPage(rows: seq<EventRow>, scope: string, detailLimit: nat, failAt: Option<nat>, start: nat,
                       before: Tally, ghost cache: seq<Fingerprint>, ghost earlier: seq<EventRow>)
      returns (t: Tally, seen: nat, failed: bool, calls: nat, ghost done: nat)
      requires CacheOk(warned)
      requires InspectAll(cache, scope, detailLimit, earlier).Shows(before, warned)
      modifies this
      ensures CacheOk(warned)
      ensures done <= seen <= |rows| && seen <= done + 1
      ensures InspectAll(cache, scope, detailLimit, earlier + rows[..done]).Shows(t, warned)
      ensures !failed ==> done == seen == |rows|
      ensures failAt.None? ==> !failed
    {
      t, seen, failed, calls, done := before, 0, false, start, 0;
      ghost var p := InspectAll(cache, scope, detailLimit, earlier);
      assert earlier + rows[..0] == earlier;
      while seen < |rows| && !failed
        invariant seen <= |rows| && done <= seen <= done + 1 && (!failed ==> done == seen)
        invariant p == InspectAll(cache, scope, detailLimit, earlier + rows[..done])
        invariant CacheOk(warned) && p.Shows(t, warned)
        invariant failAt.None? ==> !failed
        decreases |rows| - seen
      {
        var row := rows[seen];
        seen := seen + 1;
        if failAt == Some(calls) {
          failed := true;
        } else {
          calls := calls + 1;
          t := InspectRow(row, scope, detailLimit, t, p);
          InspectOneMore(cache, scope, detailLimit, earlier, rows, done);
          p := Inspect(p, scope, detailLimit, row);
          done := done + 1;
        }
      }
    }

    /** A page of the rows `m`, from position `from` on. */
    method VisitPage(rows: seq<EventRow>, batch: nat, scope: string, detailLimit: nat, failAt: Option<nat>,
                     start: nat, before: Tally, from: nat, cursor: int,
                     ghost cache: seq<Fingerprint>, ghost m: seq<EventRow>)
      returns (t: Tally, inspected: nat, lastId: int, short: bool, failed: bool, calls: nat, ghost done: nat)
      requires CacheOk(warned) && from <= |m| && batch > 0 && rows == m[from..from + Min(batch, |m| - from)]
      requires cursor == IdBefore(m, from) && Reached(m, cache, scope, detailLimit, from, before, warned)
      modifies this
      ensures CacheOk(warned)
      ensures done <= inspected <= |m| && inspected <= from + batch && inspected <= done + 1
      ensures Reached(m, cache, scope, detailLimit, done, t, warned)
      ensures !failed ==> done == inspected && lastId == IdBefore(m, inspected)
      ensures short ==> inspected == |m| && !failed
      ensures from <= inspected && (!failed && !short ==> from < inspected)
      ensures failAt.None? ==> !failed
    {
      var seen;
      ghost var classified;
      t, seen, failed, calls, classified :=
        InspectPage(rows, scope, detailLimit, failAt, start, before, cache, m[..from]);
      PagePrefix(m, from, rows, classified);
      PagePrefix(m, from, rows, seen);
      done, inspected := from + classified, from + seen;
      lastId := if seen > 0 then rows[seen - 1].id else cursor;
      short := !failed && |rows| < batch;
    }

    /** One page: query after the cursor, inspect, and note a page that came back short. */
    method NextPage(table: seq<EventRow>, scope: string, limit: nat, detailLimit: nat, failAt: Option<nat>,
                    start: nat, before: Tally, from: nat, cursor: int, ghost cache: seq<Fingerprint>)
      returns (t: Tally, inspected: nat, lastId: int, short: bool, failed: bool, calls: nat, ghost done: nat)
      requires SortedById(table) && CacheOk(warned) && from < limit && from <= |Matching(table)|
      requires cursor == IdBefore(Matching(table), from)
      requires Reached(Matching(table), cache, scope, detailLimit, from, before, warned)
      modifies this
      ensures CacheOk(warned)
      ensures done <= inspected <= |Matching(table)| && inspected <= limit && inspected <= done + 1
      ensures Reached(Matching(table), cache, scope, detailLimit, done, t, warned)
      ensures !failed ==> done == inspected && lastId == IdBefore(Matching(table), inspected)
      ensures short ==> inspected == |Matching(table)| && !failed
      ensures from <= inspected && (!failed && !short ==> from < inspected)
      ensures failAt.None? ==> !failed
    {
      var batch := Min(PAGE_SIZE, limit - from);
      var rows := Query(table, cursor, UpperId(table), batch);
      QueryIsNext(table, from, batch);
      t, inspected, lastId, short, failed, calls, done :=
        VisitPage(rows, batch, scope, detailLimit, failAt, start, before, from, cursor, cache, Matching(table));
    }

    /** collect_provenance_diagnostics. `failAt` is the database call that raises, if any. */
    method Collect(table: seq<EventRow>, scope: string, limit: int, detailLimit: int, failAt: Option<nat>)
      returns (r: Result<Report, string>)
      requires SortedById(table) && CacheOk(warned)
      modifies this
      ensures CacheOk(warned)
      ensures r.Err? <==> limit < 1 || detailLimit < 0
      ensures r.Err? ==> warned == old(warned)
      ensures r.Ok? ==> r.value.inspectionLimit == limit && r.value.detailLimit == detailLimit
      ensures r.Ok? ==> Describes(table, scope, old(warned), warned, r.value)
      ensures r.Ok? && failAt.None? ==> r.value.observed
    {
      if limit < 1 || detailLimit < 0 {
        return Err("positive inspection and nonnegative detail limits required");
      }
      ghost var m := Matching(table);
      var lastId, calls: nat, coverage, short := 0, 1, false, false;
      var inspected: nat := 0;
      var t := Tally(0, multiset{}, [], 0, 0);
      var failed := failAt == Some(0);
      ghost var done: nat := 0;
      while inspected < limit && !failed && !short
        invariant done <= inspected <= |m| && inspected <= limit && inspected <= done + 1
        invariant !failed ==> done == inspected && lastId == IdBefore(m, inspected)
        invariant short ==> inspected == |m| && !failed
        invariant Reached(m, old(warned), scope, detailLimit, done, t, warned)
        invariant CacheOk(warned)
        invariant failAt.None? ==> !failed
        decreases limit - inspected, !short, !failed
      {
        if failAt == Some(calls) {
          failed := true;
        } else {
          t, inspected, lastId, short, failed, calls, done :=
            NextPage(table, scope, limit, detailLimit, failAt, calls + 1, t, inspected, lastId, old(warned));
        }
      }
      coverage := short;
      if !failed && !short {
        if failAt == Some(calls) {
          failed := true;
        } else {
          CursorRest(table, inspected);
          coverage := Select(table, lastId, UpperId(table)) == [];
        }
      }
      ReportDescribes(table, scope, old(warned), warned, failed, coverage, inspected, limit, detailLimit, t, done);
      return Ok(MakeReport(failed, coverage, inspected, limit, detailLimit, t));
    }

    /** k inspections of one table by a fresh process: the warnings are those of the oldest
        min(10k, n) unresolved rows within the limit, each exactly once. */
    method CollectTimes(table: seq<EventRow>, scope: string, limit: nat, detailLimit: nat, k: nat) returns (emitted: nat)
      requires SortedById(table) && warned == [] && limit >= 1
      requires |Issues(Within(table, limit))| <= CACHE_LIMIT
      modifies this
      ensures var all := Fingerprints(scope, Within(table, limit));
              emitted == Min(WARNING_BUDGET * k, |all|) && NoDup(all) && Caches(warned, all, emitted)
    {
      emitted := 0;
      ghost var rows := Within(table, limit);
      WithinSorted(table, limit);
      for i := 0 to k
        invariant CacheOk(warned)
        invariant warned == Repeat(scope, detailLimit, rows, i).cache
        invariant emitted == |Repeat(scope, detailLimit, rows, i).log|
      {
        ghost var before := warned;
        PassAccounts(before, scope, detailLimit, rows);
        var r := Collect(table, scope, limit, detailLimit, None);
        emitted := emitted + r.value.emitted;
      }
      WarnOnceIsFair(scope, detailLimit, rows, k);
    }
  }

  /** The rows an inspection with this limit looks at. */
  function Within(table: seq<EventRow>, limit: nat): seq<EventRow> {
    Matching(table)[..Min(limit, |Matching(table)|)]
  }

  lemma WithinSorted(table: seq<EventRow>, limit: nat)
    requires SortedById(table)
    ensures SortedById(Within(table, limit))
  {
    SelectSorted(table, 0, UpperId(table));
  }

  function MakeReport(failed: bool, coverage: bool, inspected: nat, limit: nat, detailLimit: nat, t: Tally): Report {
    Report(!failed, !failed && coverage, inspected, limit, detailLimit,
           if failed && inspected == 0 then None else Some(t.unresolved),
           t.unresolved - |t.details|, t.emitted, t.suppressed, t.reasons, t.details)
  }

  /** The counters show the pass over the first `done` rows. */
  ghost predicate Reached(m: seq<EventRow>, before: seq<Fingerprint>, scope: string, detailLimit: nat, done: nat,
                          t: Tally, after: seq<Fingerprint>) {
    done <= |m| && InspectAll(before, scope, detailLimit, m[..done]).Shows(t, after)
  }

  function IdBefore(m: seq<EventRow>, n: nat): int
    requires n <= |m|
  {
    if n == 0 then 0 else m[n - 1].id
  }

  lemma CursorRest(table: seq<EventRow>, n: nat)
    requires SortedById(table) && n <= |Matching(table)|
    ensures Select(table, IdBefore(Matching(table), n), UpperId(table)) == Matching(table)[n..]
  {
    if n > 0 { SelectAfter(table, 0, UpperId(table), n); }
  }

  /** The same SELECT with LIMIT batch. */
  function Query(table: seq<EventRow>, after: int, upper: int, batch: nat): seq<EventRow> {
    var left := Select(table, after, upper);
    left[..Min(batch, |left|)]
  }

  lemma QueryIsNext(table: seq<EventRow>, n: nat, batch: nat)
    requires SortedById(table) && n <= |Matching(table)|
    ensures var m := Matching(table);
            Query(table, IdBefore(m, n), UpperId(table), batch) == m[n..n + Min(batch, |m| - n)]
  {
    CursorRest(table, n);
  }

  lemma PagePrefix(m: seq<EventRow>, from: nat, rows: seq<EventRow>, k: nat)
    requires from + |rows| <= |m| && rows == m[from..from + |rows|] && k <= |rows|
    ensures m[..from] + rows[..k] == m[..from + k]
    ensures IdBefore(m, from + k) == if k > 0 then rows[k - 1].id else IdBefore(m, from)
  {}

  lemma ReportDescribes(table: seq<EventRow>, scope: string, before: seq<Fingerprint>, after: seq<Fingerprint>,
                        failed: bool, coverage: bool, inspected: nat, limit: nat, detailLimit: nat, t: Tally, done: nat)
    requires 1 <= limit && done <= inspected <= |Matching(table)| && inspected <= limit && inspected <= done + 1
    requires Reached(Matching(table), before, scope, detailLimit, done, t, after)
    requires !failed ==> done == inspected == Min(limit, |Matching(table)|) && (coverage <==> |Matching(table)| <= limit)
    ensures Describes(table, scope, before, after, MakeReport(failed, coverage, inspected, limit, detailLimit, t))
  {
    var p := InspectAll(before, scope, detailLimit, Matching(table)[..done]);
    assert CountsOf(MakeReport(failed, coverage, inspected, limit, detailLimit, t), p);
  }

  /** The totals that a reader of any report may rely on, with or without database errors. */
  lemma ReportAccounts(table: seq<EventRow>, scope: string, before: seq<Fingerprint>, after: seq<Fingerprint>, r: Report)
    requires CacheOk(before) && Describes(table, scope, before, after, r)
    ensures CacheOk(after)
    ensures |r.byReason| == r.emitted + r.suppressed == |r.details| + r.omittedDetails <= r.inspected
    ensures r.unresolved.Some? ==> r.unresolved.value == |r.byReason|
    ensures r.observed ==> r.unresolved.Some?
    ensures r.observed && !r.coverageComplete ==> r.inspected == r.inspectionLimit
    ensures |r.details| <= r.detailLimit && r.omittedDetails >= 0 && r.emitted <= WARNING_BUDGET
  {
    var m := Matching(table);
    if r.observed {
      PassAccounts(before, scope, r.detailLimit, m[..r.inspected]);
    } else {
      var n: nat :| n <= r.inspected <= n + 1 && n <= |m| &&
        var p := InspectAll(before, scope, r.detailLimit, m[..n]);
        CountsOf(r, p) && after == p.cache;
      PassAccounts(before, scope, r.detailLimit, m[..n]);
    }
  }

  // ---------- Fairness of the warning budget over passes ----------

  function Fingerprints(scope: string, rows: seq<EventRow>): (fps: seq<Fingerprint>)
    ensures |fps| == |Issues(rows)|
    decreases |rows|
  {
    if rows == [] then []
    else
      var r := rows[|rows| - 1];
      var before := Fingerprints(scope, rows[..|rows| - 1]);
      match IssueOf(r) case None => before case Some(i) => before + [FingerprintOf(scope, r, i)]
  }

  lemma {:induction false} FingerprintsDiffer(scope: string, rows: seq<EventRow>)
    requires SortedById(rows)
    ensures NoDup(Fingerprints(scope, rows))
    ensures forall f :: f in Fingerprints(scope, rows) ==> exists r :: r in rows && r.id == f.issue.eventId
    decreases |rows|
  {
    if rows != [] {
      var before := rows[..|rows| - 1];
      FingerprintsDiffer(scope, before);
      var fps := Fingerprints(scope, rows);
      forall f | f in fps
        ensures exists r :: r in rows && r.id == f.issue.eventId
      {
        if f in Fingerprints(scope, before) {
          var r :| r in before && r.id == f.issue.eventId;
          assert r in rows;
        } else {
          assert rows[|rows| - 1] in rows;
        }
      }
      assert forall f :: f in Fingerprints(scope, before) ==> f.issue.eventId < rows[|rows| - 1].id;
    }
  }

  /** The warnings of the first i unresolved rows in a pass that starts with m of them cached. */
  function Due(m: nat, i: nat): nat {
    if i <= m then 0 else Min(i - m, WARNING_BUDGET)
  }

  /** The cache holds exactly the first m fingerprints, in whatever order. */
  ghost predicate Caches(cache: seq<Fingerprint>, all: seq<Fingerprint>, m: nat)
    requires m <= |all|
  {
    |cache| == m && forall f :: f in cache <==> f in all[..m]
  }

  lemma WarnKnown(cache: seq<Fingerprint>, all: seq<Fingerprint>, m: nat, i: nat, budget: int)
    requires i < m <= |all| && Caches(cache, all, m)
    ensures var w := Warn(cache, all[i], budget);
            !w.emitted && Caches(w.cache, all, m)
  {
    assert all[..m][i] == all[i];
  }

  lemma WarnNext(cache: seq<Fingerprint>, all: seq<Fingerprint>, m: nat, i: nat, budget: int)
    requires NoDup(all) && |all| <= CACHE_LIMIT && m <= i < |all| && Caches(cache, all, m)
    requires budget > 0 ==> i == m
    ensures var w := Warn(cache, all[i], budget);
            w.emitted == (budget > 0) && Caches(w.cache, all, if w.emitted then m + 1 else m)
  {
    assert all[i] !in all[..m];
    assert all[..m + 1] == all[..m] + [all[m]];
  }

  /** A pass that began with m cached fingerprints and has met i unresolved rows. */
  ghost predicate MidPass(p: Pass, all: seq<Fingerprint>, m: nat, i: nat) {
    var e := Due(m, i);
    m + e <= |all| && p.tally.emitted == e && p.log == all[m..m + e] && Caches(p.cache, all, m + e)
  }

  lemma MidPassStep(p: Pass, scope: string, detailLimit: nat, r: EventRow, all: seq<Fingerprint>, m: nat, i: nat)
    requires NoDup(all) && |all| <= CACHE_LIMIT && i < |all| && MidPass(p, all, m, i)
    requires IssueOf(r).Some? && all[i] == FingerprintOf(scope, r, IssueOf(r).value)
    ensures MidPass(Inspect(p, scope, detailLimit, r), all, m, i + 1)
  {
    var e := Due(m, i);
    if i < m {
      WarnKnown(p.cache, all, m, i, WARNING_BUDGET - e);
    } else {
      WarnNext(p.cache, all, m + e, i, WARNING_BUDGET - e);
      if e < WARNING_BUDGET {
        assert all[m..i + 1] == all[m..i] + [all[i]];
      }
    }
  }

  lemma {:induction false} PassEmitsNext(cache: seq<Fingerprint>, scope: string, detailLimit: nat,
                                         rows: seq<EventRow>, all: seq<Fingerprint>, m: nat)
    requires NoDup(all) && |all| <= CACHE_LIMIT && m <= |all|
    requires Fingerprints(scope, rows) <= all && Caches(cache, all, m)
    ensures MidPass(InspectAll(cache, scope, detailLimit, rows), all, m, |Fingerprints(scope, rows)|)
    decreases |rows|
  {
    if rows == [] {
      assert all[m..m] == [];
    } else {
      var before := rows[..|rows| - 1];
      var r := rows[|rows| - 1];
      PassEmitsNext(cache, scope, detailLimit, before, all, m);
      if IssueOf(r).Some? {
        var i := |Fingerprints(scope, before)|;
        assert Fingerprints(scope, rows)[i] == FingerprintOf(scope, r, IssueOf(r).value);
        MidPassStep(InspectAll(cache, scope, detailLimit, before), scope, detailLimit, r, all, m, i);
      }
    }
  }

  datatype Passes = Passes(cache: seq<Fingerprint>, log: seq<Fingerprint>)

  /** k inspections of the same unchanged rows, from an empty cache. */
  function Repeat(scope: string, detailLimit: nat, rows: seq<EventRow>, k: nat): Passes {
    if k == 0 then Passes([], [])
    else
      var before := Repeat(scope, detailLimit, rows, k - 1);
      var p := InspectAll(before.cache, scope, detailLimit, rows);
      Passes(p.cache, before.log + p.log)
  }

  lemma FairStep(before: Passes, scope: string, detailLimit: nat, rows: seq<EventRow>, all: seq<Fingerprint>, m: nat)
    requires all == Fingerprints(scope, rows) && NoDup(all) && |all| <= CACHE_LIMIT && m <= |all|
    requires before.log == all[..m] && Caches(before.cache, all, m)
    ensures var p := InspectAll(before.cache, scope, detailLimit, rows);
            var n := m + Due(m, |all|);
            n <= |all| && before.log + p.log == all[..n] && Caches(p.cache, all, n)
  {
    PassEmitsNext(before.cache, scope, detailLimit, rows, all, m);
    var e := Due(m, |all|);
    assert all[..m] + all[m..m + e] == all[..m + e];
  }

  lemma DueNext(k: nat, size: nat)
    requires k > 0
    ensures var m := Min(WARNING_BUDGET * (k - 1), size);
            m + Due(m, size) == Min(WARNING_BUDGET * k, size)
  {}

  /** Fair warn-once: after k passes over n unchanged unresolved rows the warnings emitted are
      those of the oldest min(10k, n) rows, each exactly once and in order. */
  lemma {:induction false} WarnOnceIsFair(scope: string, detailLimit: nat, rows: seq<EventRow>, k: nat)
    requires SortedById(rows) && |Issues(rows)| <= CACHE_LIMIT
    ensures var all := Fingerprints(scope, rows);
            var n := Min(WARNING_BUDGET * k, |all|);
            var done := Repeat(scope, detailLimit, rows, k);
            done.log == all[..n] && Caches(done.cache, all, n)
    ensures NoDup(Fingerprints(scope, rows))
  {
    var all := Fingerprints(scope, rows);
    FingerprintsDiffer(scope, rows);
    if k > 0 {
      WarnOnceIsFair(scope, detailLimit, rows, k - 1);
      DueNext(k, |all|);
      var sent := Min(WARNING_BUDGET * (k - 1), |all|);
      FairStep(Repeat(scope, detailLimit, rows, k - 1), scope, detailLimit, rows, all, sent);
    }
  }
}
