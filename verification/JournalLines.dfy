/** Lines of the observation journal, as `bytes.splitlines(keepends=True)` sees them, and
    the tail window that the append path reads instead of the whole file. */
module JournalLines {
  newtype Byte = b: int | 0 <= b < 256
  type Bytes = seq<Byte>

  const LF: Byte := 10
  const CR: Byte := 13
  /** JOURNAL_TERMINAL_RESERVE_BYTES */
  const RESERVE: nat := 256

  predicate IsBreak(b: Byte) {
    b == LF || b == CR
  }

  /** Length of the first line of `s`, its line break included. */
  function FirstLineLength(s: Bytes): (n: nat)
    ensures n <= |s|
    ensures s != [] ==> 0 < n
  {
    if s == [] then 0
    else if s[0] == LF then 1
    else if s[0] == CR then if |s| > 1 && s[1] == LF then 2 else 1
    else 1 + FirstLineLength(s[1..])
  }

  /** The first line ends where the next one starts. */
  lemma {:induction false} FirstLineEnds(s: Bytes)
    ensures forall i :: 0 < i < FirstLineLength(s) ==> !StartsLine(s, i)
    ensures FirstLineLength(s) < |s| ==> StartsLine(s, FirstLineLength(s))
  {
    if s != [] && !IsBreak(s[0]) {
      FirstLineEnds(s[1..]);
      assert forall i :: 1 < i < |s| ==> StartsLine(s, i) == StartsLine(s[1..], i - 1);
    }
  }

  /** A text with a line start only at n has its first line end there. */
  lemma FirstLineIs(s: Bytes, n: nat)
    requires 0 < n <= |s| && (forall i :: 0 < i < n ==> !StartsLine(s, i)) && (n < |s| ==> StartsLine(s, n))
    ensures FirstLineLength(s) == n
  {
    FirstLineEnds(s);
  }

  function SplitLines(s: Bytes): (lines: seq<Bytes>)
    ensures s != [] ==> lines != []
  {
    if s == [] then []
    else
      var n := FirstLineLength(s);
      [s[..n]] + SplitLines(s[n..])
  }

  function Joined(lines: seq<Bytes>): Bytes {
    if lines == [] then [] else lines[0] + Joined(lines[1..])
  }

  /** A break ends the line before position p of `s`; carriage return and line feed in sequence
      are one break. */
  predicate Breaks(s: Bytes, p: nat)
    requires 0 < p < |s|
  {
    s[p - 1] == 10 || (s[p - 1] == 13 && s[p] != 10)
  }

  /** No line is empty or has a break inside, and there is one between any two. */
  ghost predicate AreLines(lines: seq<Bytes>) {
    && (forall i :: 0 <= i < |lines| ==> lines[i] != [])
    && (forall i, p :: 0 <= i < |lines| && 0 < p < |lines[i]| ==> !Breaks(lines[i], p))
    && (forall i :: 0 <= i < |lines| - 1 && lines[i + 1] != [] ==> Breaks(lines[i] + lines[i + 1], |lines[i]|))
  }

  lemma ConsLines(line: Bytes, rest: seq<Bytes>)
    requires line != [] && (forall p :: 0 < p < |line| ==> !Breaks(line, p)) && AreLines(rest)
    requires rest != [] ==> Breaks(line + rest[0], |line|)
    ensures AreLines([line] + rest)
  {
    var lines := [line] + rest;
    assert forall i :: 0 < i < |lines| ==> lines[i] == rest[i - 1];
  }

  /** splitlines(keepends=True): the lines put together are the text, and they are its lines. */
  lemma {:induction false} SplitLinesMeans(s: Bytes)
    ensures Joined(SplitLines(s)) == s && AreLines(SplitLines(s))
    decreases |s|
  {
    if s != [] {
      var n := FirstLineLength(s);
      FirstLineEnds(s);
      SplitLinesMeans(s[n..]);
      assert s[..n] + s[n..] == s;
      var rest := SplitLines(s[n..]);
      assert forall p :: 0 < p < n ==> Breaks(s[..n], p) == StartsLine(s, p);
      if rest != [] {
        assert Joined(rest)[0] == rest[0][0] == s[n];
        assert Breaks(s[..n] + rest[0], n) == StartsLine(s, n);
      }
      ConsLines(s[..n], rest);
    }
  }

  function LastLine(s: Bytes): Bytes
    requires s != []
  {
    var lines := SplitLines(s);
    lines[|lines| - 1]
  }

  /** A line starts at `p`; apart from `p == 0` this depends on two neighbouring bytes only. */
  predicate StartsLine(s: Bytes, p: nat)
    requires p < |s|
  {
    p == 0 || s[p - 1] == LF || (s[p - 1] == CR && s[p] != LF)
  }

  function LastStart(s: Bytes, from: nat): (p: nat)
    requires from < |s|
    ensures p <= from && StartsLine(s, p)
    ensures forall i :: p < i <= from ==> !StartsLine(s, i)
  {
    if StartsLine(s, from) then from else LastStart(s, from - 1)
  }

  /** The last line is what follows the last line start. */
  lemma {:induction false} LastLineFrom(s: Bytes, p: nat)
    requires p < |s| && StartsLine(s, p)
    requires forall i :: p < i < |s| ==> !StartsLine(s, i)
    ensures LastLine(s) == s[p..]
    decreases |s|
  {
    var n := FirstLineLength(s);
    var rest := s[n..];
    FirstLineEnds(s);
    if n == |s| {
      assert SplitLines(rest) == [];
      assert s[..n] == s;
    } else {
      assert p >= n;
      forall i | 0 < i < |rest|
        ensures StartsLine(rest, i) == StartsLine(s, n + i)
      {}
      LastLineFrom(rest, p - n);
      assert rest[p - n..] == s[p..];
      assert SplitLines(s) == [s[..n]] + SplitLines(rest);
    }
  }

  /** The last `window` bytes: seek(max(0, size - window)) and read. */
  function Tail(s: Bytes, window: nat): (t: Bytes)
  {
    if |s| <= window then s else s[|s| - window..]
  }

  /** terminal_present: the last line of the last RESERVE + 1 bytes is the terminal record. */
  predicate TerminalPresent(s: Bytes, terminal: Bytes)
    requires s != []
  {
    LastLine(Tail(s, RESERVE + 1)) == terminal
  }

  /** Away from its first byte, a window sees the line starts of the whole. */
  lemma WindowStarts(s: Bytes, k: nat, i: nat)
    requires k + i < |s| && 0 < i
    ensures StartsLine(s[k..], i) == StartsLine(s, k + i)
  {}

  lemma LastLineInWindow(s: Bytes, k: nat, p: nat)
    requires k <= p < |s| && StartsLine(s, p)
    requires forall i :: p < i < |s| ==> !StartsLine(s, i)
    ensures LastLine(s[k..]) == s[p..]
  {
    var w := s[k..];
    forall i | p - k <= i < |w| && 0 < i
      ensures StartsLine(w, i) == StartsLine(s, k + i)
    {
      WindowStarts(s, k, i);
    }
    LastLineFrom(w, p - k);
    assert w[p - k..] == s[p..];
  }

  lemma LongLineFillsWindow(s: Bytes, k: nat, p: nat)
    requires p < k < |s| && forall i :: p < i < |s| ==> !StartsLine(s, i)
    ensures LastLine(s[k..]) == s[k..]
  {
    var w := s[k..];
    forall i | 0 < i < |w|
      ensures !StartsLine(w, i)
    {
      WindowStarts(s, k, i);
    }
    LastLineFrom(w, 0);
    assert w[0..] == w;
  }

  /** The last lines of a text and of a window of it: the same, or both at least as long as
      the window. */
  lemma LastLines(s: Bytes, k: nat) returns (whole: Bytes, seen: Bytes)
    requires k < |s|
    ensures whole == LastLine(s) && seen == LastLine(s[k..])
    ensures whole == seen || (|whole| > |s| - k && |seen| == |s| - k)
    ensures whole != [] && whole[|whole| - 1] == s[|s| - 1]
  {
    var p := LastStart(s, |s| - 1);
    LastLineFrom(s, p);
    whole := s[p..];
    if p >= k {
      LastLineInWindow(s, k, p);
      seen := s[p..];
    } else {
      LongLineFillsWindow(s, k, p);
      seen := s[k..];
    }
  }

  /** The windowed test agrees with reading the whole last line, whatever the line lengths. */
  lemma TailDecides(s: Bytes, terminal: Bytes)
    requires s != [] && |terminal| <= RESERVE
    ensures TerminalPresent(s, terminal) <==> LastLine(s) == terminal
  {
    var t := Tail(s, RESERVE + 1);
    var whole, seen := LastLines(s, |s| - |t|);
    assert s[|s| - |t|..] == t;
    assert LastLine(t) == seen && LastLine(s) == whole;
    if whole != seen {
      assert |seen| == |t| && |whole| > |t|;
      assert |t| > RESERVE;
    }
  }

  /** A window of RESERVE bytes alone would mistake the end of a longer line for the marker. */
  lemma WindowNeedsExtraByte()
    ensures exists s: Bytes, terminal: Bytes ::
              && s != [] && |terminal| == RESERVE
              && LastLine(Tail(s, RESERVE)) == terminal
              && LastLine(s) != terminal
  {
    var terminal: Bytes := seq(RESERVE - 1, (_: nat) => 65 as Byte) + [LF];
    var s := [65 as Byte] + terminal;
    assert Tail(s, RESERVE) == terminal;
    LastLineFrom(terminal, 0);
    LastLineFrom(s, 0);
    assert terminal[0..] == terminal && s[0..] == s;
  }

  /** No line break inside, except possibly one line feed at the very end. */
  predicate OneLine(c: Bytes) {
    forall i :: 0 <= i < |c| && IsBreak(c[i]) ==> i == |c| - 1 && c[i] == LF
  }

  predicate EndsLine(s: Bytes) {
    s != [] && s[|s| - 1] == LF
  }

  lemma {:induction false} OneLineSplits(c: Bytes)
    requires c != [] && OneLine(c)
    ensures SplitLines(c) == [c]
  {
    FirstLineIs(c, |c|);
    assert SplitLines(c[|c|..]) == [];
    assert c[..|c|] == c;
  }

  lemma FirstLineOfConcat(s: Bytes, c: Bytes)
    requires EndsLine(s) && c != []
    ensures FirstLineLength(s + c) == FirstLineLength(s)
  {
    var t := s + c;
    FirstLineEnds(s);
    forall i | 0 < i < |s|
      ensures StartsLine(t, i) == StartsLine(s, i)
    {}
    assert StartsLine(t, |s|);
    FirstLineIs(t, FirstLineLength(s));
  }

  lemma SplitFirst(s: Bytes, first: Bytes, rest: Bytes)
    requires s == first + rest && first != [] && FirstLineLength(s) == |first|
    ensures SplitLines(s) == [first] + SplitLines(rest)
  {
    assert s[..|first|] == first && s[|first|..] == rest;
  }

  /** After a complete line the rest is split on its own. */
  lemma {:induction false} SplitConcat(s: Bytes, c: Bytes)
    requires EndsLine(s)
    ensures SplitLines(s + c) == SplitLines(s) + SplitLines(c)
    decreases |s|
  {
    if c == [] {
      assert s + c == s;
    } else {
      var n := FirstLineLength(s);
      var first, rest := s[..n], s[n..];
      FirstLineOfConcat(s, c);
      assert s == first + rest && s + c == first + (rest + c);
      SplitFirst(s, first, rest);
      SplitFirst(s + c, first, rest + c);
      if rest == [] {
        assert rest + c == c;
      } else {
        SplitConcat(rest, c);
      }
      SeqAssoc([first], SplitLines(rest), SplitLines(c));
    }
  }

  lemma SeqAssoc(a: seq<Bytes>, b: seq<Bytes>, c: seq<Bytes>)
    ensures a + (b + c) == (a + b) + c
  {}

  /** Writing one more line, or a torn piece of it, after a complete line adds one element. */
  lemma SplitAppend(s: Bytes, c: Bytes)
    requires EndsLine(s) && c != [] && OneLine(c)
    ensures SplitLines(s + c) == SplitLines(s) + [c]
  {
    SplitConcat(s, c);
    OneLineSplits(c);
  }

  lemma AppendedLineIsLast(s: Bytes, c: Bytes)
    requires EndsLine(s) && c != [] && OneLine(c)
    ensures LastLine(s + c) == c
  {
    SplitAppend(s, c);
  }
}
