/** The order-independent summary of supplied execution evidence. */
module Evidence {
  import opened Basics
  import opened Text

  /** A retained row is identified by its canonical JSON text. */
  type Row = string

  /** The integrity status as supplied: none, a text, or something else. */
  datatype Status = NoStatus | NotText | Text(text: string)

  /** What a row says about its integrity; `diagnosed` when it carries a diagnostic. */
  datatype Fields = Fields(status: Status, diagnosed: bool)

  datatype Stratum =
    | Unavailable | Unrecognized | ReportedVerified | VerifiedWithDiagnostic | ReportedUnverified | ReportedFailed

  /** text.strip().casefold() */
  function Token(text: string): string {
    var t := StripRight(StripLeft(text));
    seq(|t|, i requires 0 <= i < |t| => ToLower(t[i]))
  }

  /** _reported_stratum */
  function Reported(f: Fields): Stratum {
    match f.status
    case NoStatus => Unavailable
    case NotText => Unrecognized
    case Text(text) =>
      var token := Token(text);
      if token == "" || token == "n/a" then Unavailable
      else if token == "verified" then if f.diagnosed then VerifiedWithDiagnostic else ReportedVerified
      else if token == "unverified" then ReportedUnverified
      else if token == "failed" then ReportedFailed
      else Unrecognized
  }

  ghost predicate SaysAt(text: string, word: string, a: int, b: int) {
    && 0 <= a <= b <= |text| && b - a == |word|
    && (forall i :: 0 <= i < a || b <= i < |text| ==> IsBlank(text[i]))
    && (forall i :: a <= i < b ==> ToLower(text[i]) == word[i - a])
  }

  /** The word, in whatever case and between whatever blanks. */
  ghost predicate Says(text: string, word: string) {
    exists a, b :: SaysAt(text, word, a, b)
  }

  lemma StripBetween(s: string, a: nat, b: nat)
    requires a < b <= |s| && !IsBlank(s[a]) && !IsBlank(s[b - 1])
    requires forall i :: 0 <= i < a || b <= i < |s| ==> IsBlank(s[i])
    ensures StripRight(StripLeft(s)) == s[a..b]
  {
    StripLeftMeans(s);
    var t := StripLeft(s);
    assert |s| - |t| == a;
    StripRightMeans(t);
    var u := StripRight(t);
    assert |u| == b - a;
    assert u == t[..b - a] == s[a..b];
  }

  lemma TokenIsSaid(text: string)
    ensures Says(text, Token(text))
  {
    var a, b := StripMeans(text);
    var word := Token(text);
    assert forall i :: a <= i < b ==> text[a..b][i - a] == text[i];
    assert SaysAt(text, word, a, b);
  }

  lemma SaidIsToken(text: string, word: string, a: int, b: int)
    requires SaysAt(text, word, a, b)
    requires word != [] && !IsBlank(word[0]) && !IsBlank(word[|word| - 1])
    ensures Token(text) == word
  {
    assert ToLower(text[a]) == word[0] && ToLower(text[b - 1]) == word[|word| - 1];
    StripBetween(text, a, b);
  }

  lemma SaysIff(text: string, word: string)
    requires word != [] && !IsBlank(word[0]) && !IsBlank(word[|word| - 1])
    ensures Says(text, word) <==> Token(text) == word
  {
    TokenIsSaid(text);
    if a, b :| SaysAt(text, word, a, b) { SaidIsToken(text, word, a, b); }
  }

  predicate AllBlank(text: string) {
    forall i :: 0 <= i < |text| ==> IsBlank(text[i])
  }

  lemma BlankIff(text: string)
    ensures Token(text) == "" <==> AllBlank(text)
  {
    StripLeftMeans(text);
    var t := StripLeft(text);
    StripRightMeans(t);
    assert t != [] ==> t[0] == text[|text| - |t|] && !IsBlank(t[0]);
  }

  /** Which supplied status gives which stratum. */
  lemma ReportedIff(f: Fields)
    ensures Reported(f) == ReportedVerified <==> f.status.Text? && Says(f.status.text, "verified") && !f.diagnosed
    ensures Reported(f) == VerifiedWithDiagnostic <==> f.status.Text? && Says(f.status.text, "verified") && f.diagnosed
    ensures Reported(f) == ReportedUnverified <==> f.status.Text? && Says(f.status.text, "unverified")
    ensures Reported(f) == ReportedFailed <==> f.status.Text? && Says(f.status.text, "failed")
    ensures Reported(f) == Unavailable <==>
              f.status.NoStatus? || (f.status.Text? && (AllBlank(f.status.text) || Says(f.status.text, "n/a")))
  {
    if f.status.Text? {
      SaysIff(f.status.text, "verified");
      SaysIff(f.status.text, "unverified");
      SaysIff(f.status.text, "failed");
      SaysIff(f.status.text, "n/a");
      BlankIff(f.status.text);
    }
  }

  datatype Overall = NoProgress | Mixed | Only(stratum: Stratum)

  datatype Summary = Summary(overall: Overall, counts: multiset<Stratum>, rows: seq<Row>)

  predicate Sorted(s: seq<Row>) {
    forall i, j :: 0 <= i < j < |s| ==> AtMost(s[i], s[j])
  }

  function Insert(x: Row, s: seq<Row>): (r: seq<Row>)
    ensures multiset(r) == multiset(s) + multiset{x}
  {
    if s == [] || AtMost(x, s[0]) then [x] + s
    else
      assert s == [s[0]] + s[1..];
      [s[0]] + Insert(x, s[1..])
  }

  function Sort(s: seq<Row>): (r: seq<Row>)
    ensures multiset(r) == multiset(s)
  {
    if s == [] then []
    else
      assert s == [s[0]] + s[1..];
      Insert(s[0], Sort(s[1..]))
  }

  lemma {:induction false} InsertSorted(x: Row, s: seq<Row>)
    requires Sorted(s)
    ensures Sorted(Insert(x, s))
  {
    if s != [] {
      var r := Insert(x, s);
      if AtMost(x, s[0]) {
        forall j | 0 <= j < |s|
          ensures AtMost(x, s[j])
        {
          if j > 0 { AtMostTransitive(x, s[0], s[j]); }
        }
      } else {
        var t := Insert(x, s[1..]);
        InsertSorted(x, s[1..]);
        LessTotal(x, s[0]);
        forall j | 0 <= j < |t|
          ensures AtMost(s[0], t[j])
        {
          assert t[j] in multiset(t);
          assert t[j] == x || t[j] in s[1..];
        }
      }
    }
  }

  lemma {:induction false} SortSorted(s: seq<Row>)
    ensures Sorted(Sort(s))
  {
    if s != [] {
      SortSorted(s[1..]);
      InsertSorted(s[0], Sort(s[1..]));
    }
  }

  lemma HeadIsLeast(a: seq<Row>, x: Row)
    requires Sorted(a) && x in multiset(a)
    ensures a != [] && AtMost(a[0], x)
  {
    var j :| 0 <= j < |a| && a[j] == x;
    LessTotal(x, x);
    if j > 0 { assert AtMost(a[0], a[j]); }
  }

  lemma TailElements(a: seq<Row>)
    requires a != []
    ensures multiset(a[1..]) == multiset(a) - multiset{a[0]}
  {
    assert a == [a[0]] + a[1..];
  }

  lemma SameHead(a: seq<Row>, b: seq<Row>)
    requires Sorted(a) && Sorted(b) && multiset(a) == multiset(b) && a != [] && b != []
    ensures a[0] == b[0]
  {
    assert b[0] in multiset(b) && a[0] in multiset(a);
    HeadIsLeast(a, b[0]);
    HeadIsLeast(b, a[0]);
    LessTotal(a[0], b[0]);
  }

  /** A sorted list is determined by its elements. */
  lemma {:induction false} SortedUnique(a: seq<Row>, b: seq<Row>)
    requires Sorted(a) && Sorted(b) && multiset(a) == multiset(b)
    ensures a == b
    decreases |a|
  {
    assert |a| == |multiset(a)| == |multiset(b)| == |b|;
    if a != [] {
      SameHead(a, b);
      TailElements(a);
      TailElements(b);
      SortedUnique(a[1..], b[1..]);
      assert a == [a[0]] + a[1..] && b == [b[0]] + b[1..];
    }
  }

  function Strata(fields: Row -> Fields, rows: seq<Row>): multiset<Stratum> {
    if rows == [] then multiset{} else Strata(fields, rows[1..]) + multiset{Reported(fields(rows[0]))}
  }

  /** summarize_execution_evidence: sort canonically, then count the strata. */
  function Summarize(fields: Row -> Fields, rows: seq<Row>): Summary {
    var sorted := Sort(rows);
    var counts := Strata(fields, sorted);
    var overall :=
      if sorted == [] then NoProgress
      else
        var s := Reported(fields(sorted[0]));
        if counts[s] == |counts| then Only(s) else Mixed;
    Summary(overall, counts, sorted)
  }

  /** The summary does not depend on the order of the supplied rows. */
  lemma OrderDoesNotMatter(fields: Row -> Fields, a: seq<Row>, b: seq<Row>)
    requires multiset(a) == multiset(b)
    ensures Summarize(fields, a) == Summarize(fields, b)
  {
    SortSorted(a);
    SortSorted(b);
    SortedUnique(Sort(a), Sort(b));
  }

  lemma {:induction false} StrataCount(fields: Row -> Fields, rows: seq<Row>)
    ensures |Strata(fields, rows)| == |rows|
    ensures forall s: Stratum :: Strata(fields, rows)[s] == |rows| <==>
              forall i :: 0 <= i < |rows| ==> Reported(fields(rows[i])) == s
    ensures forall s: Stratum :: Strata(fields, rows)[s] <= |rows|
    decreases |rows|
  {
    if rows != [] {
      var rest := rows[1..];
      StrataCount(fields, rest);
      var r := Reported(fields(rows[0]));
      forall s: Stratum
        ensures Strata(fields, rows)[s] == |rows| <==> forall i :: 0 <= i < |rows| ==> Reported(fields(rows[i])) == s
        ensures Strata(fields, rows)[s] <= |rows|
      {
        assert Strata(fields, rows)[s] == Strata(fields, rest)[s] + if r == s then 1 else 0;
        assert forall i :: 0 <= i < |rest| ==> rest[i] == rows[i + 1];
        if forall i :: 0 <= i < |rows| ==> Reported(fields(rows[i])) == s {
          assert Reported(fields(rows[0])) == s;
        }
      }
    }
  }

  /** The counts add up to the rows, and the stratum is mixed exactly when two of the supplied
      rows report different strata. */
  lemma MixedIff(fields: Row -> Fields, rows: seq<Row>)
    ensures |Summarize(fields, rows).counts| == |rows|
    ensures Summarize(fields, rows).overall.NoProgress? <==> rows == []
    ensures Summarize(fields, rows).overall.Mixed? <==>
              exists x, y :: x in rows && y in rows && Reported(fields(x)) != Reported(fields(y))
    ensures forall s :: Summarize(fields, rows).overall == Only(s) <==>
              rows != [] && forall x :: x in rows ==> Reported(fields(x)) == s
  {
    var sorted := Sort(rows);
    StrataCount(fields, sorted);
    assert |sorted| == |multiset(sorted)| == |multiset(rows)| == |rows|;
    assert forall x :: x in sorted <==> x in rows by {
      assert forall x :: x in sorted <==> x in multiset(sorted);
      assert forall x :: x in rows <==> x in multiset(rows);
    }
    if rows != [] {
      var s := Reported(fields(sorted[0]));
      assert sorted[0] in sorted;
      if i :| 0 <= i < |sorted| && Reported(fields(sorted[i])) != s {
        assert sorted[i] in rows && sorted[0] in rows;
      }
    }
  }
}
