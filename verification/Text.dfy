/** Text normalisation as the watch state and the symbol lists use it, for ASCII letters. */
module Text {
  import opened Basics

  predicate IsUpperChar(c: char) {
    'A' <= c <= 'Z'
  }

  predicate IsLowerChar(c: char) {
    'a' <= c <= 'z'
  }

  function ToLower(c: char): char {
    if IsUpperChar(c) then ((c as int) + 32) as char else c
  }

  function ToUpper(c: char): char {
    if IsLowerChar(c) then ((c as int) - 32) as char else c
  }

  /** value.upper() */
  function Upper(s: string): (u: string)
    ensures |u| == |s|
  {
    seq(|s|, i requires 0 <= i < |s| => ToUpper(s[i]))
  }

  predicate IsBlank(c: char) {
    c == ' ' || '\t' <= c <= '\r'
  }

  function StripLeft(s: string): string {
    if s != [] && IsBlank(s[0]) then StripLeft(s[1..]) else s
  }

  function StripRight(s: string): string {
    if s != [] && IsBlank(s[|s| - 1]) then StripRight(s[..|s| - 1]) else s
  }

  function FoldChar(c: char): (f: char)
    ensures !IsUpperChar(f) && f != ' ' && f != '-'
  {
    if c == ' ' || c == '-' then '_' else ToLower(c)
  }

  /** status.strip().lower().replace(" ", "_").replace("-", "_") */
  function Normalize(s: string): (n: string)
    ensures forall i :: 0 <= i < |n| ==> !IsUpperChar(n[i])
  {
    var t := StripRight(StripLeft(s));
    seq(|t|, i requires 0 <= i < |t| => FoldChar(t[i]))
  }

  /** Upper-casing leaves no small letter and changes nothing else. */
  lemma UpperMeans(s: string, i: nat)
    requires i < |s|
    ensures !('a' <= Upper(s)[i] <= 'z')
    ensures 'a' <= s[i] <= 'z' ==> Upper(s)[i] as int == s[i] as int - 32
    ensures !('a' <= s[i] <= 'z') ==> Upper(s)[i] == s[i]
  {}

  /** Lower-casing undoes the upper-casing of a small letter, and leaves no capital. */
  lemma LowerMeans(c: char)
    ensures 'a' <= c <= 'z' ==> ToLower(ToUpper(c)) == c
    ensures !('A' <= ToLower(c) <= 'Z') && (!('A' <= c <= 'Z') ==> ToLower(c) == c)
  {}

  lemma {:induction false} StripRightMeans(s: string)
    ensures var t := StripRight(s);
            t <= s && (t != [] ==> !IsBlank(t[|t| - 1])) && forall i :: |t| <= i < |s| ==> IsBlank(s[i])
    decreases |s|
  {
    if s != [] && IsBlank(s[|s| - 1]) { StripRightMeans(s[..|s| - 1]); }
  }

  lemma {:induction false} StripLeftMeans(s: string)
    ensures var t := StripLeft(s);
            && |t| <= |s| && t == s[|s| - |t|..] && (t != [] ==> !IsBlank(t[0]))
            && forall i :: 0 <= i < |s| - |t| ==> IsBlank(s[i])
    decreases |s|
  {
    if s != [] && IsBlank(s[0]) { StripLeftMeans(s[1..]); }
  }

  /** strip(): what is left starts and ends without a blank, and only blanks are gone. */
  lemma StripMeans(s: string) returns (a: nat, b: nat)
    ensures a <= b <= |s| && StripRight(StripLeft(s)) == s[a..b]
    ensures forall i :: 0 <= i < a || b <= i < |s| ==> s[i] in {' ', '\t', '\n', (11 as char), (12 as char), '\r'}
    ensures a < b ==> s[a] != ' ' && s[b - 1] != ' '
  {
    var t := StripLeft(s);
    StripLeftMeans(s);
    StripRightMeans(t);
    a := |s| - |t|;
    b := a + |StripRight(t)|;
    assert forall i :: b <= i < |s| ==> s[i] == t[i - a];
    if a < b { assert s[a] == t[0] && s[b - 1] == t[b - 1 - a]; }
  }

  lemma UpperIdempotent(s: string)
    ensures Upper(Upper(s)) == Upper(s)
  {}

  ghost predicate AllUpper(symbols: seq<string>) {
    forall s :: s in symbols ==> Upper(s) == s
  }

  /** Upper-case symbols without repetition. */
  ghost predicate Clean(symbols: seq<string>) {
    NoDup(symbols) && AllUpper(symbols)
  }

  /** a < b, character by character. */
  predicate Less(a: string, b: string) {
    b != [] && (a == [] || a[0] < b[0] || (a[0] == b[0] && Less(a[1..], b[1..])))
  }

  lemma {:induction false} LessTotal(a: string, b: string)
    ensures a == b || Less(a, b) || Less(b, a)
    ensures !(Less(a, b) && Less(b, a))
  {
    if a != [] && b != [] && a[0] == b[0] {
      LessTotal(a[1..], b[1..]);
      assert a == [a[0]] + a[1..] && b == [b[0]] + b[1..];
    }
  }

  lemma {:induction false} LessTransitive(a: string, b: string, c: string)
    requires Less(a, b) && Less(b, c)
    ensures Less(a, c)
  {
    if a != [] && a[0] == b[0] == c[0] {
      LessTransitive(a[1..], b[1..], c[1..]);
    }
  }

  predicate AtMost(a: string, b: string) {
    !Less(b, a)
  }

  lemma AtMostTransitive(a: string, b: string, c: string)
    requires AtMost(a, b) && AtMost(b, c)
    ensures AtMost(a, c)
  {
    LessTotal(a, b);
    LessTotal(b, c);
    LessTotal(a, c);
    if Less(c, a) && a != b && b != c {
      LessTransitive(a, b, c);
    }
  }
}
