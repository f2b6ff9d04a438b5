/** Small datatypes shared by the modules of the watch runtime. */
module Basics {
  datatype Option<+T> = None | Some(value: T)

  datatype Result<+T, +E> = Ok(value: T) | Err(error: E)

  /** A field of a decoded JSON object: missing, of the wrong type, or a value. */
  datatype Slot<+T> = Missing | BadType | Has(value: T)

  function Max(a: int, b: int): int {
    if a < b then b else a
  }

  function Min(a: int, b: int): int {
    if a < b then a else b
  }

  predicate NoDup<T(==)>(s: seq<T>) {
    forall i, j :: 0 <= i < j < |s| ==> s[i] != s[j]
  }

  function ToSet<T>(s: seq<T>): set<T> {
    set x | x in s
  }

  /** The elements of s inside a, in order. */
  function Keep<T(==,!new)>(s: seq<T>, a: set<T>): (r: seq<T>)
    ensures |r| <= |s|
    ensures forall x :: x in r <==> x in s && x in a
  {
    if s == [] then []
    else
      var n := |s| - 1;
      if s[n] in a then Keep(s[..n], a) + [s[n]] else Keep(s[..n], a)
  }

  /** The elements of s outside a, in order. */
  function Without<T(==,!new)>(s: seq<T>, a: set<T>): (r: seq<T>)
    ensures |r| <= |s|
    ensures forall x :: x in r <==> x in s && x !in a
  {
    if s == [] then []
    else
      var n := |s| - 1;
      if s[n] !in a then Without(s[..n], a) + [s[n]] else Without(s[..n], a)
  }

  lemma {:induction false} KeepSplits<T(!new)>(s: seq<T>, a: set<T>)
    ensures |Keep(s, a)| + |Without(s, a)| == |s|
    decreases |s|
  {
    if s != [] { KeepSplits(s[..|s| - 1], a); }
  }

  lemma {:induction false} KeepNoDup<T(!new)>(s: seq<T>, a: set<T>)
    requires NoDup(s)
    ensures NoDup(Keep(s, a)) && NoDup(Without(s, a))
    decreases |s|
  {
    if s != [] { KeepNoDup(s[..|s| - 1], a); }
  }

  lemma {:induction false} KeepKeep<T(!new)>(s: seq<T>, a: set<T>, b: set<T>)
    requires b <= a
    ensures Keep(Keep(s, a), b) == Keep(s, b)
    decreases |s|
  {
    if s != [] {
      var n := |s| - 1;
      KeepKeep(s[..n], a, b);
      if s[n] in a {
        var k := Keep(s[..n], a);
        assert (k + [s[n]])[..|k|] == k;
      }
    }
  }

  /** No two positions of s hold the same element of a. */
  predicate OnceEach<T(==)>(s: seq<T>, a: set<T>) {
    forall i, j :: 0 <= i < j < |s| && s[i] == s[j] ==> s[i] !in a
  }

  lemma OnceEachSnoc<T>(s: seq<T>, x: T, a: set<T>)
    ensures OnceEach(s + [x], a) <==> OnceEach(s, a) && (x in a ==> x !in s)
  {
    var t := s + [x];
    assert forall i :: 0 <= i < |s| ==> t[i] == s[i];
    assert t[|s|] == x;
    if OnceEach(t, a) {
      forall i, j | 0 <= i < j < |s| && s[i] == s[j]
        ensures s[i] !in a
      {
        assert t[i] == t[j];
      }
      forall i | 0 <= i < |s| && s[i] == x
        ensures x !in a
      {
        assert t[i] == t[|s|];
      }
    }
  }

  lemma NoDupSnoc<T>(s: seq<T>, x: T)
    ensures NoDup(s + [x]) <==> NoDup(s) && x !in s
  {
    var t := s + [x];
    assert forall i :: 0 <= i < |s| ==> t[i] == s[i];
    assert t[|s|] == x;
    if NoDup(t) {
      forall i, j | 0 <= i < j < |s|
        ensures s[i] != s[j]
      {
        assert t[i] != t[j];
      }
      forall i | 0 <= i < |s|
        ensures s[i] != x
      {
        assert t[i] != t[|s|];
      }
    }
  }

  lemma {:induction false} KeepOnce<T(!new)>(s: seq<T>, a: set<T>)
    ensures NoDup(Keep(s, a)) <==> OnceEach(s, a)
    decreases |s|
  {
    if s != [] {
      var n := |s| - 1;
      KeepOnce(s[..n], a);
      assert s == s[..n] + [s[n]];
      OnceEachSnoc(s[..n], s[n], a);
      NoDupSnoc(Keep(s[..n], a), s[n]);
    }
  }

  lemma {:induction false} KeepAll<T(!new)>(s: seq<T>, a: set<T>)
    ensures (forall x :: x in s ==> x in a) ==> Keep(s, a) == s
    ensures (forall x :: x in s ==> x !in a) ==> Without(s, a) == s
    decreases |s|
  {
    if s != [] {
      KeepAll(s[..|s| - 1], a);
      assert s == s[..|s| - 1] + [s[|s| - 1]];
    }
  }

  /** A sequence has as many elements as its set exactly when nothing is repeated. */
  lemma {:induction false} NoDupCard<T>(s: seq<T>)
    ensures |ToSet(s)| <= |s|
    ensures NoDup(s) <==> |ToSet(s)| == |s|
    decreases |s|
  {
    if s == [] {
      assert ToSet(s) == {};
    } else {
      var n := |s| - 1;
      var before := s[..n];
      NoDupCard(before);
      assert s == before + [s[n]];
      assert ToSet(s) == ToSet(before) + {s[n]};
      if s[n] in before {
        assert ToSet(s) == ToSet(before);
        var i :| 0 <= i < n && before[i] == s[n];
        assert s[i] == s[n];
      } else {
        assert s[n] !in ToSet(before);
        assert NoDup(before) <==> NoDup(s);
      }
    }
  }

  lemma {:induction false} WithoutAppend<T(!new)>(a: seq<T>, b: seq<T>, x: set<T>)
    ensures Without(a + b, x) == Without(a, x) + Without(b, x)
    decreases |b|
  {
    if b == [] {
      assert a + b == a;
    } else {
      var n := |b| - 1;
      assert (a + b)[..|a + b| - 1] == a + b[..n];
      WithoutAppend(a, b[..n], x);
    }
  }

  lemma {:induction false} NoDupMultiset<T>(s: seq<T>)
    ensures NoDup(s) <==> forall x :: multiset(s)[x] <= 1
    decreases |s|
  {
    if s != [] {
      var before, last := s[..|s| - 1], s[|s| - 1];
      assert s == before + [last];
      assert multiset(s) == multiset(before) + multiset{last};
      NoDupMultiset(before);
      NoDupSnoc(before, last);
      assert last in before <==> multiset(before)[last] >= 1;
      if forall x :: multiset(s)[x] <= 1 {
        assert forall x :: multiset(before)[x] <= multiset(s)[x];
      }
    }
  }

  /** Reordering keeps the elements and their being distinct. */
  lemma ReorderedNoDup<T>(a: seq<T>, b: seq<T>)
    requires multiset(a) == multiset(b) && NoDup(a)
    ensures NoDup(b) && forall x :: x in b <==> x in a
  {
    NoDupMultiset(a);
    NoDupMultiset(b);
    forall x
      ensures x in b <==> x in a
    {
      assert x in b <==> x in multiset(b);
    }
  }

  /** dedupe_symbols: first occurrences, in order. */
  function Dedupe<T(==,!new)>(s: seq<T>): (r: seq<T>)
    ensures NoDup(r) && |r| <= |s|
    ensures forall x :: x in r <==> x in s
  {
    if s == [] then []
    else
      var n := |s| - 1;
      var before := Dedupe(s[..n]);
      if s[n] in before then before else before + [s[n]]
  }

  /** Later elements only add to the end, so what is kept is each first occurrence, in order. */
  lemma {:induction false} DedupePrefix<T(!new)>(s: seq<T>, n: nat)
    requires n <= |s|
    ensures Dedupe(s[..n]) <= Dedupe(s)
    decreases |s|
  {
    if n == |s| {
      assert s[..n] == s;
    } else {
      DedupePrefix(s[..|s| - 1], n);
      assert s[..|s| - 1][..n] == s[..n];
    }
  }

  lemma {:induction false} DedupeNoDup<T(!new)>(s: seq<T>)
    requires NoDup(s)
    ensures Dedupe(s) == s
    decreases |s|
  {
    if s != [] {
      DedupeNoDup(s[..|s| - 1]);
      assert s == s[..|s| - 1] + [s[|s| - 1]];
    }
  }

  method DedupeLoop<T(==,!new)>(values: seq<T>) returns (output: seq<T>)
    ensures output == Dedupe(values)
  {
    var seen: set<T> := {};
    output := [];
    for i := 0 to |values|
      invariant output == Dedupe(values[..i]) && seen == ToSet(output)
    {
      assert values[..i + 1][..i] == values[..i];
      if values[i] !in seen {
        seen := seen + {values[i]};
        output := output + [values[i]];
      }
    }
    assert values[..|values|] == values;
  }
}
