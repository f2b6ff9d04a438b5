/** The bounded append-only observation journal and its reserved terminal marker. */
module Journal {
  import opened Basics
  import opened JournalLines

  /** MAX_JOURNAL_BYTES, MAX_RECEIPT_BYTES and MAX_HEADER_BYTES */
  const MAX_JOURNAL: nat := 33554432
  const MAX_RECORD: nat := 32768
  const MAX_HEADER: nat := 256

  /** How one database's journal is encoded. `accepts` is the JSON comparison of a stored
      header line with the expected header. */
  datatype Format = Format(header: Bytes, terminal: Bytes, accepts: Bytes -> bool) {
    /** Facts of the encoding: each record is one line and an empty string is not JSON. */
    ghost predicate Valid() {
      && EndsLine(header) && OneLine(header) && |header| <= MAX_HEADER
      && accepts(header) && !accepts([])
      && EndsLine(terminal) && OneLine(terminal) && terminal != header
    }
  }

  /** An encoded observation with the two flags that the session adds to it. */
  datatype JournalRow = JournalRow(payload: Bytes, suspended: bool, previouslyEstablished: bool)

  datatype Refusal = TerminalTooLong | RecordTooLong | Unavailable | Corrupt

  datatype AppendResult =
    | Appended(bytes: nat)
    | Exhausted(terminalPresent: bool, bytes: nat)
    | Refused(why: Refusal)

  /** One effect on the journal file: exclusive creation, or a write at its end. */
  datatype Write = Create | Extend(chunk: Bytes)

  datatype Plan = Plan(writes: seq<Write>, result: AppendResult)

  function Apply(journal: Option<Bytes>, w: Write): Option<Bytes> {
    match w
    case Create => if journal.None? then Some([]) else journal
    case Extend(c) => if journal.None? then None else Some(journal.value + c)
  }

  function ApplyAll(journal: Option<Bytes>, ws: seq<Write>): Option<Bytes>
    decreases |ws|
  {
    if ws == [] then journal else ApplyAll(Apply(journal, ws[0]), ws[1..])
  }

  /** The write `w` stopped by a crash after `k` of its bytes. */
  function Torn(journal: Option<Bytes>, w: Write, k: nat): Option<Bytes> {
    match w
    case Create => journal
    case Extend(c) => Apply(journal, Extend(c[..Min(k, |c|)]))
  }

  /** The file after a crash that let `n` writes through and tore the next one. */
  function Cut(journal: Option<Bytes>, ws: seq<Write>, n: nat, k: nat): Option<Bytes>
    decreases |ws|
  {
    if ws == [] then journal
    else if n == 0 then Torn(journal, ws[0], k)
    else Cut(Apply(journal, ws[0]), ws[1..], n - 1, k)
  }

  /** handle.readline(limit): up to and including the first line feed. */
  function ReadLine(s: Bytes, limit: nat): Bytes {
    if s == [] || limit == 0 then []
    else if s[0] == LF then [LF]
    else [s[0]] + ReadLine(s[1..], limit - 1)
  }

  predicate Recognized(f: Format, j: Bytes) {
    var stored := ReadLine(j, MAX_HEADER + 1);
    |stored| <= MAX_HEADER && f.accepts(stored) && EndsLine(j)
  }

  predicate OverBudget(j: Bytes, row: JournalRow) {
    || |j| + RESERVE >= MAX_JOURNAL
    || |j| + |row.payload| + 1 + RESERVE > MAX_JOURNAL
  }

  /** What an append does to a recognized journal. */
  function PlanOpen(f: Format, j: Bytes, row: JournalRow): Plan
    requires j != []
  {
    var present := TerminalPresent(j, f.terminal);
    if row.suspended || present || OverBudget(j, row) then
      if !present && |j| + |f.terminal| <= MAX_JOURNAL then
        Plan([Extend(f.terminal)], Exhausted(true, |j| + |f.terminal|))
      else
        Plan([], Exhausted(present, |j|))
    else
      Plan([Extend(row.payload + [LF])], Appended(|j| + |row.payload| + 1))
  }

  function PlanAppend(f: Format, journal: Option<Bytes>, row: JournalRow): Plan {
    if |f.terminal| > RESERVE then Plan([], Refused(TerminalTooLong))
    else if |row.payload| > MAX_RECORD then Plan([], Refused(RecordTooLong))
    else
      var established := row.suspended || row.previouslyEstablished;
      var opening := if !established && journal.None? then [Create, Extend(f.header)] else [];
      match ApplyAll(journal, opening)
      case None => Plan(opening, Refused(Unavailable))
      case Some(j) =>
        if !Recognized(f, j) then Plan(opening, Refused(Corrupt))
        else
          var p := PlanOpen(f, j, row);
          Plan(opening + p.writes, p.result)
  }

  function AppendTo(f: Format, journal: Option<Bytes>, row: JournalRow): Option<Bytes> {
    ApplyAll(journal, PlanAppend(f, journal, row).writes)
  }

  // ---------- What every call keeps, a crash inside a write included ----------

  /** The journal already ends with the terminal record. */
  predicate Latched(f: Format, journal: Option<Bytes>) {
    journal.Some? && journal.value != [] && LastLine(journal.value) == f.terminal
  }

  function Size(journal: Option<Bytes>): nat {
    if journal.None? then 0 else |journal.value|
  }

  /** How a journal may change: by a suffix, within the limit, not at all once latched. */
  predicate Grows(f: Format, before: Option<Bytes>, after: Option<Bytes>) {
    && (before.Some? ==> after.Some? && before.value <= after.value)
    && (Latched(f, before) ==> after == before)
    && Size(after) <= Max(Size(before), MAX_JOURNAL)
  }

  lemma GrowsTransitive(f: Format, a: Option<Bytes>, b: Option<Bytes>, c: Option<Bytes>)
    requires Grows(f, a, b) && Grows(f, b, c)
    ensures Grows(f, a, c)
  {}

  /** Rows are JSON, so they hold no raw line break. */
  predicate CleanRow(row: JournalRow) {
    forall i :: 0 <= i < |row.payload| ==> !IsBreak(row.payload[i])
  }

  lemma {:induction false} ReadLineOf(line: Bytes, rest: Bytes, limit: nat)
    requires EndsLine(line) && OneLine(line) && |line| <= limit
    ensures ReadLine(line + rest, limit) == line
    decreases |line|
  {
    var s := line + rest;
    if |line| == 1 {
      assert s[0] == LF;
    } else {
      assert !IsBreak(line[0]);
      assert s[1..] == line[1..] + rest;
      ReadLineOf(line[1..], rest, limit - 1);
    }
  }

  lemma OpeningRecognized(f: Format)
    requires f.Valid()
    ensures ApplyAll(None, [Create, Extend(f.header)]) == Some(f.header)
    ensures Recognized(f, f.header)
    ensures !Latched(f, Some(f.header))
  {
    var ws := [Create, Extend(f.header)];
    assert ws[1..] == [Extend(f.header)] && ws[1..][1..] == [];
    assert [] + f.header == f.header;
    assert ApplyAll(Some(f.header), []) == Some(f.header);
    ReadLineOf(f.header, [], MAX_HEADER + 1);
    assert f.header + [] == f.header;
    OneLineSplits(f.header);
  }

  lemma {:induction false} ApplyAllAppend(journal: Option<Bytes>, a: seq<Write>, b: seq<Write>)
    ensures ApplyAll(journal, a + b) == ApplyAll(ApplyAll(journal, a), b)
    decreases |a|
  {
    if a == [] {
      assert a + b == b;
    } else {
      assert (a + b)[1..] == a[1..] + b;
      ApplyAllAppend(Apply(journal, a[0]), a[1..], b);
    }
  }

  lemma ApplyOne(journal: Option<Bytes>, w: Write)
    ensures ApplyAll(journal, [w]) == Apply(journal, w)
  {
    assert [w][1..] == [];
  }

  /** Every state a list of writes can leave behind, torn or complete, has grown from the first. */
  ghost predicate AllGrow(f: Format, journal: Option<Bytes>, ws: seq<Write>) {
    && Grows(f, journal, ApplyAll(journal, ws))
    && forall n: nat, k: nat :: Grows(f, journal, Cut(journal, ws, n, k))
  }

  lemma AllGrowOne(f: Format, journal: Option<Bytes>, c: Bytes)
    requires journal.Some? && !Latched(f, journal) && |journal.value| + |c| <= MAX_JOURNAL
    ensures AllGrow(f, journal, [Extend(c)])
  {
    var ws := [Extend(c)];
    ApplyOne(journal, Extend(c));
    forall n: nat, k: nat
      ensures Grows(f, journal, Cut(journal, ws, n, k))
    {
      if n > 0 {
        assert Cut(journal, ws, n, k) == Cut(Apply(journal, ws[0]), ws[1..], n - 1, k);
        assert ws[1..] == [];
      }
    }
  }

  lemma {:induction false} AllGrowCons(f: Format, journal: Option<Bytes>, w: Write, ws: seq<Write>)
    requires forall k: nat :: Grows(f, journal, Torn(journal, w, k))
    requires Grows(f, journal, Apply(journal, w))
    requires AllGrow(f, Apply(journal, w), ws)
    ensures AllGrow(f, journal, [w] + ws)
  {
    var all := [w] + ws;
    var next := Apply(journal, w);
    assert all[0] == w && all[1..] == ws;
    GrowsTransitive(f, journal, next, ApplyAll(next, ws));
    forall n: nat, k: nat
      ensures Grows(f, journal, Cut(journal, all, n, k))
    {
      if n == 0 {
        assert Cut(journal, all, n, k) == Torn(journal, w, k);
      } else {
        assert Cut(journal, all, n, k) == Cut(next, ws, n - 1, k);
        GrowsTransitive(f, journal, next, Cut(next, ws, n - 1, k));
      }
    }
  }

  lemma OpenGrows(f: Format, j: Bytes, row: JournalRow)
    requires j != [] && |f.terminal| <= RESERVE
    ensures AllGrow(f, Some(j), PlanOpen(f, j, row).writes)
  {
    TailDecides(j, f.terminal);
    var ws := PlanOpen(f, j, row).writes;
    if ws != [] {
      AllGrowOne(f, Some(j), ws[0].chunk);
    }
  }

  lemma HeaderedGrows(f: Format, ws: seq<Write>)
    requires f.Valid() && AllGrow(f, Some(f.header), ws)
    ensures AllGrow(f, None, [Create] + ([Extend(f.header)] + ws))
  {
    assert [] + f.header == f.header;
    AllGrowCons(f, Some([]), Extend(f.header), ws);
    AllGrowCons(f, None, Create, [Extend(f.header)] + ws);
  }

  lemma CreationGrows(f: Format, row: JournalRow)
    requires f.Valid() && |f.terminal| <= RESERVE
    ensures AllGrow(f, None, [Create] + ([Extend(f.header)] + PlanOpen(f, f.header, row).writes))
  {
    OpenGrows(f, f.header, row);
    HeaderedGrows(f, PlanOpen(f, f.header, row).writes);
  }

  /** For every format, file and row: the file only ever grows, stays within the limit unless
      it was above it, and never changes again once it ends with the terminal record. */
  lemma AppendGrows(f: Format, journal: Option<Bytes>, row: JournalRow)
    requires f.Valid()
    ensures AllGrow(f, journal, PlanAppend(f, journal, row).writes)
  {
    var p := PlanAppend(f, journal, row);
    if p.writes != [] {
      OpeningRecognized(f);
      if journal.None? {
        var open := PlanOpen(f, f.header, row);
        assert p.writes == [Create] + ([Extend(f.header)] + open.writes);
        CreationGrows(f, row);
      } else {
        OpenGrows(f, journal.value, row);
        assert [] + PlanOpen(f, journal.value, row).writes == PlanOpen(f, journal.value, row).writes;
      }
    }
  }

  lemma AppendGrowsWhole(f: Format, journal: Option<Bytes>, row: JournalRow)
    requires f.Valid()
    ensures Grows(f, journal, AppendTo(f, journal, row))
  {
    AppendGrows(f, journal, row);
  }

  lemma RowIsOneLine(row: JournalRow)
    requires CleanRow(row)
    ensures EndsLine(row.payload + [LF]) && OneLine(row.payload + [LF])
  {}

  lemma ExtendedByLine(j: Bytes, c: Bytes)
    requires EndsLine(j) && EndsLine(c) && OneLine(c)
    ensures ApplyAll(Some(j), [Extend(c)]) == Some(j + c)
    ensures EndsLine(j + c) && SplitLines(j + c) == SplitLines(j) + [c]
  {
    ApplyOne(Some(j), Extend(c));
    SplitAppend(j, c);
  }

  lemma OpenAnswerIsTrue(f: Format, j: Bytes, row: JournalRow)
    requires f.Valid() && CleanRow(row) && EndsLine(j)
    ensures var p := PlanOpen(f, j, row);
            var after := ApplyAll(Some(j), p.writes);
            && after.Some? && EndsLine(after.value) && !p.result.Refused? && p.result.bytes == |after.value|
            && (p.result.Appended? ==> SplitLines(after.value) == SplitLines(j) + [row.payload + [LF]])
  {
    var p := PlanOpen(f, j, row);
    if p.writes != [] {
      var c := if p.result.Appended? then row.payload + [LF] else f.terminal;
      RowIsOneLine(row);
      ExtendedByLine(j, c);
      assert p.writes == [Extend(c)];
    }
  }

  // ---------- Which answer a row gets ----------

  lemma {:induction false} ReadLineMeans(s: Bytes, limit: nat)
    ensures var l := ReadLine(s, limit);
            && l <= s && |l| <= limit && (forall i :: 0 <= i < |l| - 1 ==> l[i] != 10)
            && (|l| < limit && |l| < |s| ==> l != [] && l[|l| - 1] == 10)
    decreases |s|
  {
    if s != [] && limit > 0 && s[0] != LF {
      ReadLineMeans(s[1..], limit - 1);
      var l, rest := ReadLine(s, limit), ReadLine(s[1..], limit - 1);
      assert forall i :: 0 < i < |l| ==> l[i] == rest[i - 1];
    }
  }

  /** A journal is recognized exactly when it ends with a line feed and its first line, line feed
      included, has at most 256 bytes and is the header. */
  lemma RecognizedIff(f: Format, j: Bytes)
    ensures Recognized(f, j) <==>
              && j != [] && j[|j| - 1] == 10
              && exists n :: 0 < n <= |j| && n <= 256 && j[n - 1] == 10 && 10 !in j[..n - 1] && f.accepts(j[..n])
  {
    var l := ReadLine(j, MAX_HEADER + 1);
    ReadLineMeans(j, MAX_HEADER + 1);
    if Recognized(f, j) {
      assert l == j[..|l|] && l != [];
      assert |l| < |j| || l == j;
      assert 10 !in j[..|l| - 1];
    }
    if n :| 0 < n <= |j| && n <= 256 && j[n - 1] == 10 && 10 !in j[..n - 1] && f.accepts(j[..n]) {
      assert forall i :: 0 <= i < n - 1 ==> j[i] in j[..n - 1];
      assert |l| >= n && |l| <= n;
      assert l == j[..n];
    }
  }

  /** A recognized journal takes the row exactly when recording is not suspended, the file does
      not end with the terminal record, and the row with its line feed leaves the reserve free. */
  lemma AppendedIff(f: Format, j: Bytes, row: JournalRow)
    requires f.Valid() && Recognized(f, j) && |f.terminal| <= RESERVE
    ensures var r := PlanOpen(f, j, row).result;
            && (r.Appended? <==>
                  !row.suspended && LastLine(j) != f.terminal && |j + row.payload + [LF]| + RESERVE <= MAX_JOURNAL)
            && (r.Exhausted? <==> !r.Appended?)
            && (r.Exhausted? ==>
                  (r.terminalPresent <==> LastLine(j) == f.terminal || |j + f.terminal| <= MAX_JOURNAL))
  {
    TailDecides(j, f.terminal);
  }

  /** A declined row leaves the file with the terminal record as its last line when there is room
      for it, and otherwise as it was; the answer says which. */
  lemma DeclinedFile(f: Format, j: Bytes, row: JournalRow)
    requires f.Valid() && EndsLine(j) && |f.terminal| <= RESERVE && PlanOpen(f, j, row).result.Exhausted?
    ensures var p := PlanOpen(f, j, row);
            var after := ApplyAll(Some(j), p.writes);
            && after == Some(if LastLine(j) != f.terminal && |j + f.terminal| <= MAX_JOURNAL then j + f.terminal else j)
            && (p.result.terminalPresent <==> Latched(f, after))
  {
    TailDecides(j, f.terminal);
    if PlanOpen(f, j, row).writes != [] {
      ApplyOne(Some(j), Extend(f.terminal));
      AppendedLineIsLast(j, f.terminal);
    }
  }

  /** The file that an append works on: a journal not known to exist is created. */
  function Opened(f: Format, journal: Option<Bytes>, row: JournalRow): Option<Bytes> {
    if journal.None? && !row.suspended && !row.previouslyEstablished then Some(f.header) else journal
  }

  /** Which answer any row gets from any file, refusals included. */
  lemma AnswerIff(f: Format, journal: Option<Bytes>, row: JournalRow)
    requires f.Valid()
    ensures var r, j := PlanAppend(f, journal, row).result, Opened(f, journal, row);
            && (r == Refused(TerminalTooLong) <==> |f.terminal| > RESERVE)
            && (r == Refused(RecordTooLong) <==> |f.terminal| <= RESERVE && |row.payload| > MAX_RECORD)
            && (|f.terminal| <= RESERVE && |row.payload| <= MAX_RECORD ==>
                  && (r == Refused(Unavailable) <==> j.None?)
                  && (r == Refused(Corrupt) <==> j.Some? && !Recognized(f, j.value))
                  && (r.Appended? <==>
                        && j.Some? && Recognized(f, j.value) && !row.suspended && !Latched(f, j)
                        && |j.value + row.payload + [LF]| + RESERVE <= MAX_JOURNAL))
  {
    OpeningRecognized(f);
    var j := Opened(f, journal, row);
    if |f.terminal| <= RESERVE && j.Some? && Recognized(f, j.value) {
      AppendedIff(f, j.value, row);
    }
  }

  /** The lines an append starts from. */
  function LinesBefore(f: Format, journal: Option<Bytes>): seq<Bytes> {
    if journal.None? then [f.header] else SplitLines(journal.value)
  }

  /** What the answer says happened has happened: the reported size is the file's, and an
      appended row is the one new line at its end. */
  lemma AnswerIsTrue(f: Format, journal: Option<Bytes>, row: JournalRow)
    requires f.Valid() && CleanRow(row)
    ensures var r, after := PlanAppend(f, journal, row).result, AppendTo(f, journal, row);
            && (!r.Refused? ==> after.Some? && EndsLine(after.value) && r.bytes == |after.value|)
            && (r.Appended? ==> SplitLines(after.value) == LinesBefore(f, journal) + [row.payload + [LF]])
  {
    if !PlanAppend(f, journal, row).result.Refused? {
      if journal.None? {
        OpeningRecognized(f);
        OneLineSplits(f.header);
        OpenAnswerIsTrue(f, f.header, row);
        ApplyAllAppend(None, [Create, Extend(f.header)], PlanOpen(f, f.header, row).writes);
      } else {
        OpenAnswerIsTrue(f, journal.value, row);
        assert [] + PlanOpen(f, journal.value, row).writes == PlanOpen(f, journal.value, row).writes;
      }
    }
  }

  /** Once latched: no call changes the file or appends a row. */
  lemma LatchedForever(f: Format, journal: Option<Bytes>, row: JournalRow)
    requires f.Valid() && Latched(f, journal)
    ensures PlanAppend(f, journal, row).writes == []
    ensures !PlanAppend(f, journal, row).result.Appended?
  {
    if |f.terminal| <= RESERVE {
      TailDecides(journal.value, f.terminal);
    }
  }

  /** Exhaustion latches for every file, also one too full for the marker itself. */
  lemma ExhaustionIsFinal(f: Format, journal: Option<Bytes>, row: JournalRow, later: JournalRow)
    requires f.Valid() && PlanAppend(f, journal, row).result.Exhausted?
    ensures var after := AppendTo(f, journal, row);
            && PlanAppend(f, after, later).writes == []
            && !PlanAppend(f, after, later).result.Appended?
  {
    var start := if journal.None? then Some(f.header) else journal;
    OpeningRecognized(f);
    var j := start.value;
    var open := PlanOpen(f, j, row);
    var after := AppendTo(f, journal, row);
    assert after == ApplyAll(start, open.writes) by {
      if journal.None? {
        ApplyAllAppend(None, [Create, Extend(f.header)], open.writes);
      } else {
        assert [] + open.writes == open.writes;
      }
    }
    TailDecides(j, f.terminal);
    if open.writes != [] {
      ApplyOne(start, open.writes[0]);
      AppendedLineIsLast(j, f.terminal);
      LatchedForever(f, after, later);
    }
  }

  /** An established journal that has gone missing is refused and not created again. */
  lemma MissingIsNotRecreated(f: Format, row: JournalRow)
    requires row.suspended || row.previouslyEstablished
    ensures PlanAppend(f, None, row).writes == []
    ensures PlanAppend(f, None, row).result.Refused?
  {}

  // ---------- A journal that this code created ----------

  function CountTerminal(f: Format, lines: seq<Bytes>): nat {
    if lines == [] then 0
    else CountTerminal(f, lines[..|lines| - 1]) + if lines[|lines| - 1] == f.terminal then 1 else 0
  }

  /** Reachable from a missing file. `complete` is false after a torn write: such a file is
      refused by every later call. Until the marker is written, its reserve is free. */
  ghost predicate Own(f: Format, journal: Option<Bytes>) {
    journal.Some? ==>
      var j := journal.value;
      && |j| <= MAX_JOURNAL
      && (f.header <= j || (j <= f.header && !EndsLine(j)))
      && CountTerminal(f, SplitLines(j)) == (if Latched(f, journal) then 1 else 0)
      && (EndsLine(j) && !Latched(f, journal) ==> |j| + RESERVE <= MAX_JOURNAL)
  }

  lemma CountSnoc(f: Format, lines: seq<Bytes>, l: Bytes)
    ensures CountTerminal(f, lines + [l])
         == CountTerminal(f, lines) + if l == f.terminal then 1 else 0
  {
    assert (lines + [l])[..|lines|] == lines;
  }

  lemma CountSingle(f: Format, l: Bytes)
    ensures CountTerminal(f, [l]) == if l == f.terminal then 1 else 0
  {
    assert [l][..0] == [];
  }

  /** One line, whole or torn, written after a complete unlatched journal. */
  lemma OwnExtend(f: Format, j: Bytes, c: Bytes, k: nat)
    requires f.Valid() && |f.terminal| <= RESERVE && Own(f, Some(j)) && EndsLine(j) && !Latched(f, Some(j))
    requires EndsLine(c) && OneLine(c)
    requires c == f.terminal || |j| + |c| + RESERVE <= MAX_JOURNAL
    requires k <= |c|
    ensures Own(f, Some(j + c[..k]))
  {
    var piece := c[..k];
    var after := j + piece;
    if piece == [] {
      assert after == j;
    } else {
      assert OneLine(piece);
      SplitAppend(j, piece);
      CountSnoc(f, SplitLines(j), piece);
      if k < |c| {
        assert !EndsLine(after);
        assert piece[k - 1] != LF;
        assert piece != f.terminal;
      } else {
        assert piece == c;
      }
      assert f.header <= after by {
        assert f.header <= j;
      }
    }
  }

  lemma OwnOpening(f: Format, k: nat)
    requires f.Valid() && k <= |f.header|
    ensures Own(f, Some(f.header[..k]))
  {
    var j := f.header[..k];
    if k == 0 {
      assert SplitLines(j) == [];
    } else {
      assert OneLine(j);
      OneLineSplits(j);
      CountSingle(f, j);
      if k < |f.header| {
        assert j[k - 1] != LF;
      } else {
        assert j == f.header;
      }
    }
  }

  ghost predicate AllOwn(f: Format, journal: Option<Bytes>, ws: seq<Write>) {
    && Own(f, ApplyAll(journal, ws))
    && forall n: nat, k: nat :: Own(f, Cut(journal, ws, n, k))
  }

  lemma AllOwnCons(f: Format, journal: Option<Bytes>, w: Write, ws: seq<Write>)
    requires forall k: nat :: Own(f, Torn(journal, w, k))
    requires AllOwn(f, Apply(journal, w), ws)
    ensures AllOwn(f, journal, [w] + ws)
  {
    var all := [w] + ws;
    assert all[0] == w && all[1..] == ws;
    forall n: nat, k: nat
      ensures Own(f, Cut(journal, all, n, k))
    {
      if n == 0 {
        assert Cut(journal, all, n, k) == Torn(journal, w, k);
      } else {
        assert Cut(journal, all, n, k) == Cut(Apply(journal, w), ws, n - 1, k);
      }
    }
  }

  lemma AllOwnNil(f: Format, journal: Option<Bytes>)
    requires Own(f, journal)
    ensures AllOwn(f, journal, [])
  {}

  lemma OwnOpen(f: Format, j: Bytes, row: JournalRow)
    requires f.Valid() && |f.terminal| <= RESERVE && CleanRow(row) && |row.payload| <= MAX_RECORD
    requires Own(f, Some(j)) && EndsLine(j)
    ensures AllOwn(f, Some(j), PlanOpen(f, j, row).writes)
    ensures PlanOpen(f, j, row).result.Exhausted? ==>
              && PlanOpen(f, j, row).result.terminalPresent
              && Latched(f, ApplyAll(Some(j), PlanOpen(f, j, row).writes))
  {
    TailDecides(j, f.terminal);
    var ws := PlanOpen(f, j, row).writes;
    if ws != [] {
      var c := ws[0].chunk;
      assert EndsLine(c) && OneLine(c);
      forall k: nat
        ensures Own(f, Torn(Some(j), ws[0], k))
      {
        OwnExtend(f, j, c, Min(k, |c|));
      }
      OwnExtend(f, j, c, |c|);
      assert c[..|c|] == c;
      AllOwnNil(f, Apply(Some(j), ws[0]));
      AllOwnCons(f, Some(j), ws[0], []);
      assert ws == [ws[0]] + [];
      ApplyOne(Some(j), ws[0]);
      AppendedLineIsLast(j, c);
    }
  }

  /** A journal that starts out missing always begins with its header line (or is a torn piece
      of it that is never touched again), stays within the limit and holds the terminal record
      at most once, as its last line; the reserve always leaves room for that record, so an
      exhausted answer means that the file now ends with it. */
  lemma OwnJournal(f: Format, journal: Option<Bytes>, row: JournalRow)
    requires f.Valid() && CleanRow(row) && Own(f, journal)
    ensures AllOwn(f, journal, PlanAppend(f, journal, row).writes)
    ensures PlanAppend(f, journal, row).result.Exhausted? ==>
              && PlanAppend(f, journal, row).result.terminalPresent
              && Latched(f, AppendTo(f, journal, row))
  {
    var p := PlanAppend(f, journal, row);
    if p.writes == [] && !p.result.Exhausted? {
      AllOwnNil(f, journal);
    } else if journal.None? {
      OpeningRecognized(f);
      OwnOpening(f, |f.header|);
      assert f.header[..|f.header|] == f.header;
      OwnOpen(f, f.header, row);
      var open := PlanOpen(f, f.header, row);
      var rest := [Extend(f.header)] + open.writes;
      assert p.writes == [Create] + rest;
      forall k: nat
        ensures Own(f, Torn(Some([]), Extend(f.header), k))
      {
        OwnOpening(f, Min(k, |f.header|));
        assert [] + f.header[..Min(k, |f.header|)] == f.header[..Min(k, |f.header|)];
      }
      assert [] + f.header == f.header;
      AllOwnCons(f, Some([]), Extend(f.header), open.writes);
      AllOwnCons(f, None, Create, rest);
      ApplyAllAppend(None, [Create, Extend(f.header)], open.writes);
    } else {
      var j := journal.value;
      OwnOpen(f, j, row);
      assert [] + PlanOpen(f, j, row).writes == PlanOpen(f, j, row).writes;
    }
  }

  lemma LatchedEndsLine(f: Format, j: Bytes)
    requires f.Valid() && Latched(f, Some(j))
    ensures EndsLine(j)
  {
    var whole, seen := LastLines(j, 0);
  }

  /** An own journal is recognized exactly when its last write was not cut off. */
  lemma OwnRecognizedIff(f: Format, j: Bytes)
    requires f.Valid() && Own(f, Some(j))
    ensures Recognized(f, j) <==> EndsLine(j)
  {
    if EndsLine(j) {
      ReadLineOf(f.header, j[|f.header|..], MAX_HEADER + 1);
      assert f.header + j[|f.header|..] == j;
    }
  }

  lemma LatchedRecognized(f: Format, j: Bytes)
    requires f.Valid() && Own(f, Some(j)) && Latched(f, Some(j))
    ensures Recognized(f, j)
  {
    LatchedEndsLine(f, j);
    OwnRecognizedIff(f, j);
  }

  /** Any acceptable row sent to a journal that ends with its marker is answered as exhausted
      and leaves the file alone. */
  lemma MarkerAnswers(f: Format, journal: Option<Bytes>, row: JournalRow)
    requires f.Valid() && Own(f, journal) && Latched(f, journal)
    requires |f.terminal| <= RESERVE && |row.payload| <= MAX_RECORD
    ensures PlanAppend(f, journal, row) == Plan([], Exhausted(true, |journal.value|))
  {
    LatchedRecognized(f, journal.value);
    TailDecides(journal.value, f.terminal);
    assert [] + PlanOpen(f, journal.value, row).writes == [];
  }
}
