/** The optimistic save of the watch state file, shared by writers without a common lock. */
module WatchStore {
  import opened Basics
  import opened Text
  import W = WatchState

  const NA := "N/A"

  /** The two stamp checks against the stored state. */
  predicate Refuses(current: string, stamp: string, expected: Option<string>) {
    || (&& expected.Some? && expected.value != NA && current != NA && current != expected.value
        && Less(expected.value, current))
    || (current != NA && stamp != NA && Less(stamp, current))
  }

  // ---------- Interleavings of writers ----------

  /** The stamp of the stored state, the stamp each writer last loaded or saved, and the stamps
      of the saves that have passed their check and not yet renamed their file. */
  datatype World = World(stored: Option<string>, loaded: map<nat, string>, pending: map<nat, string>)

  /** Nothing locks the file between the check and the rename; the write of the temporary file
      in between may fail. */
  datatype Event = Load(w: nat) | Check(w: nat, stamp: string, guarded: bool) | Rename(w: nat) | Abandon(w: nat)

  function StampOf(stored: Option<string>): string {
    if stored.Some? then stored.value else NA
  }

  predicate Passes(x: World, w: nat, stamp: string, guarded: bool) {
    x.stored.None? ||
    !Refuses(x.stored.value, stamp, if guarded && w in x.loaded then Some(x.loaded[w]) else None)
  }

  function Step(x: World, e: Event): World {
    match e
    case Load(w) => x.(loaded := x.loaded[w := StampOf(x.stored)])
    case Check(w, stamp, guarded) =>
      if w !in x.pending && Passes(x, w, stamp, guarded) then x.(pending := x.pending[w := stamp]) else x
    case Rename(w) =>
      if w !in x.pending then x
      else World(Some(x.pending[w]), x.loaded[w := x.pending[w]], x.pending - {w})
    case Abandon(w) => x.(pending := x.pending - {w})
  }

  function Run(x: World, es: seq<Event>): World
    decreases |es|
  {
    if es == [] then x else Step(Run(x, es[..|es| - 1]), es[|es| - 1])
  }

  /** The world after the first i events. */
  function At(x: World, es: seq<Event>, i: nat): World
    requires i <= |es|
  {
    Run(x, es[..i])
  }

  lemma AtNext(x: World, es: seq<Event>, i: nat)
    requires i < |es|
    ensures At(x, es, i + 1) == Step(At(x, es, i), es[i])
  {
    assert es[..i + 1][..i] == es[..i];
  }

  /** b is an older stamp than a; a state without a stamp is older than any with one. */
  predicate Older(b: string, a: string) {
    a != NA && (b == NA || Less(b, a))
  }

  lemma NotOlderTransitive(a: string, b: string, c: string)
    requires !Older(b, a) && !Older(c, b)
    ensures !Older(c, a)
  {
    if a != NA {
      LessTotal(a, b);
      LessTotal(b, c);
      LessTotal(a, c);
      AtMostTransitive(a, b, c);
    }
  }

  /** Event i replaces the stored state by an older one. */
  predicate BackAt(x: World, es: seq<Event>, i: nat)
    requires i < |es|
  {
    Older(StampOf(At(x, es, i + 1).stored), StampOf(At(x, es, i).stored))
  }

  ghost predicate GoesBack(x: World, es: seq<Event>) {
    exists i :: 0 <= i < |es| && BackAt(x, es, i)
  }

  /** Event i renames a checked file over the stored one. */
  predicate Renames(x: World, es: seq<Event>, i: nat)
    requires i < |es|
  {
    es[i].Rename? && es[i].w in At(x, es, i).pending
  }

  function RenamedStamp(x: World, es: seq<Event>, i: nat): string
    requires i < |es| && Renames(x, es, i)
  {
    At(x, es, i).pending[es[i].w]
  }

  /** The save that renames at j had passed its check before the rename at i, with i < j. */
  ghost predicate Overlaps(x: World, es: seq<Event>, i: nat, j: nat)
    requires i < j < |es|
  {
    && Renames(x, es, i) && Renames(x, es, j)
    && forall k :: i <= k <= j ==> es[j].w in At(x, es, k).pending
  }

  /** What makes a schedule unsafe: a newer save slips in between an older save's check and its
      rename, or a state without a stamp is saved after one with a stamp. */
  ghost predicate LosesNewer(x: World, es: seq<Event>, i: nat, j: nat)
    requires i < j < |es|
  {
    && Overlaps(x, es, i, j)
    && RenamedStamp(x, es, i) != NA && RenamedStamp(x, es, j) != NA
    && Less(RenamedStamp(x, es, j), RenamedStamp(x, es, i))
  }

  ghost predicate DropsStamp(x: World, es: seq<Event>, j: nat)
    requires j < |es|
  {
    && Renames(x, es, j) && RenamedStamp(x, es, j) == NA
    && (StampOf(x.stored) != NA || exists i :: 0 <= i < j && Renames(x, es, i) && RenamedStamp(x, es, i) != NA)
  }

  ghost predicate Unsafe(x: World, es: seq<Event>) {
    || (exists i, j :: 0 <= i < j < |es| && LosesNewer(x, es, i, j))
    || (exists j :: 0 <= j < |es| && DropsStamp(x, es, j))
  }

  lemma RenameStores(x: World, es: seq<Event>, i: nat)
    requires i < |es|
    ensures Renames(x, es, i) ==> At(x, es, i + 1).stored == Some(RenamedStamp(x, es, i))
    ensures !Renames(x, es, i) ==> At(x, es, i + 1).stored == At(x, es, i).stored
  {
    AtNext(x, es, i);
  }

  /** Between two points the stored stamp is unchanged or that of a rename in between. */
  lemma {:induction false} StoredSince(x: World, es: seq<Event>, c: nat, n: nat) returns (i: nat)
    requires c <= n <= |es|
    ensures c <= i <= n
    ensures i == n ==> At(x, es, n).stored == At(x, es, c).stored
    ensures i < n ==> Renames(x, es, i) && At(x, es, n).stored == Some(RenamedStamp(x, es, i))
    decreases n
  {
    i := n;
    if c < n {
      RenameStores(x, es, n - 1);
      if Renames(x, es, n - 1) {
        i := n - 1;
      } else {
        i := StoredSince(x, es, c, n - 1);
        if i == n - 1 { i := n; }
      }
    }
  }

  /** A pending save has passed its check at some earlier event and been pending ever since. */
  lemma {:induction false} CheckedAt(x: World, es: seq<Event>, w: nat, n: nat) returns (c: nat)
    requires x.pending == map[] && n <= |es| && w in At(x, es, n).pending
    ensures c < n && es[c].Check? && es[c].w == w && es[c].stamp == At(x, es, n).pending[w]
    ensures Passes(At(x, es, c), w, es[c].stamp, es[c].guarded)
    ensures forall k :: c < k <= n ==> w in At(x, es, k).pending
    decreases n
  {
    AtNext(x, es, n - 1);
    if w in At(x, es, n - 1).pending {
      c := CheckedAt(x, es, w, n - 1);
    } else {
      c := n - 1;
    }
  }

  lemma {:induction false} NeverBackChain(x: World, es: seq<Event>, a: nat, b: nat)
    requires a <= b <= |es| && forall i :: a <= i < b ==> !BackAt(x, es, i)
    ensures !Older(StampOf(At(x, es, b).stored), StampOf(At(x, es, a).stored))
    decreases b
  {
    if a == b {
      LessTotal(StampOf(At(x, es, a).stored), StampOf(At(x, es, a).stored));
    } else {
      NeverBackChain(x, es, a, b - 1);
      assert !BackAt(x, es, b - 1);
      NotOlderTransitive(StampOf(At(x, es, a).stored), StampOf(At(x, es, b - 1).stored), StampOf(At(x, es, b).stored));
    }
  }

  /** Two points in order with an older stamp at the second. */
  lemma FoundBack(x: World, es: seq<Event>, a: nat, b: nat)
    requires a <= b <= |es| && Older(StampOf(At(x, es, b).stored), StampOf(At(x, es, a).stored))
    ensures GoesBack(x, es)
  {
    if forall i :: a <= i < b ==> !BackAt(x, es, i) {
      NeverBackChain(x, es, a, b);
    }
  }

  lemma LosingGoesBack(x: World, es: seq<Event>, i: nat, j: nat)
    requires i < j < |es| && LosesNewer(x, es, i, j)
    ensures GoesBack(x, es)
  {
    RenameStores(x, es, i);
    RenameStores(x, es, j);
    FoundBack(x, es, i + 1, j + 1);
  }

  lemma DroppingGoesBack(x: World, es: seq<Event>, j: nat)
    requires j < |es| && DropsStamp(x, es, j)
    ensures GoesBack(x, es)
  {
    RenameStores(x, es, j);
    if StampOf(x.stored) != NA {
      FoundBack(x, es, 0, j + 1);
    } else {
      var i :| 0 <= i < j && Renames(x, es, i) && RenamedStamp(x, es, i) != NA;
      RenameStores(x, es, i);
      FoundBack(x, es, i + 1, j + 1);
    }
  }

  lemma BackIsRename(x: World, es: seq<Event>, j: nat)
    requires j < |es| && BackAt(x, es, j)
    ensures Renames(x, es, j) && Older(RenamedStamp(x, es, j), StampOf(At(x, es, j).stored))
  {
    RenameStores(x, es, j);
    LessTotal(StampOf(At(x, es, j).stored), StampOf(At(x, es, j).stored));
  }

  lemma BackIsUnsafe(x: World, es: seq<Event>, j: nat)
    requires x.pending == map[] && j < |es| && BackAt(x, es, j)
    ensures Unsafe(x, es)
  {
    BackIsRename(x, es, j);
    var w, stamp := es[j].w, RenamedStamp(x, es, j);
    if stamp == NA {
      var i := StoredSince(x, es, 0, j);
      assert DropsStamp(x, es, j);
    } else {
      var c := CheckedAt(x, es, w, j);
      AtNext(x, es, c);
      var i := StoredSince(x, es, c + 1, j);
      assert i < j;
      assert LosesNewer(x, es, i, j);
    }
  }

  /** Over every interleaving of loads, checks, renames and failed writes by any number of
      writers: the stored state goes back exactly when the schedule lets a newer save slip in
      between an older save's check and rename, or saves a state without a stamp after one with
      a stamp. */
  lemma GoesBackIff(x: World, es: seq<Event>)
    requires x.pending == map[]
    ensures GoesBack(x, es) <==> Unsafe(x, es)
  {
    if GoesBack(x, es) {
      var j :| 0 <= j < |es| && BackAt(x, es, j);
      BackIsUnsafe(x, es, j);
    }
    if Unsafe(x, es) {
      if i, j :| 0 <= i < j < |es| && LosesNewer(x, es, i, j) {
        LosingGoesBack(x, es, i, j);
      } else {
        var j :| 0 <= j < |es| && DropsStamp(x, es, j);
        DroppingGoesBack(x, es, j);
      }
    }
  }

  // ---------- Writers that exclude each other ----------

  /** At most one save is between its check and its rename at any time. */
  ghost predicate Exclusive(x: World, es: seq<Event>) {
    forall i, v, w :: 0 <= i <= |es| && v in At(x, es, i).pending && w in At(x, es, i).pending ==> v == w
  }

  ghost predicate Stamped(es: seq<Event>) {
    forall i :: 0 <= i < |es| && es[i].Check? ==> es[i].stamp != NA
  }

  /** Writers that exclude each other and stamp their states never put the stored state back. */
  lemma ExclusiveNeverGoesBack(x: World, es: seq<Event>)
    requires x.pending == map[] && Exclusive(x, es) && Stamped(es)
    ensures !GoesBack(x, es)
  {
    GoesBackIff(x, es);
    if i, j :| 0 <= i < j < |es| && LosesNewer(x, es, i, j) {
      assert es[i].w in At(x, es, i).pending && es[j].w in At(x, es, i).pending;
      AtNext(x, es, i);
    }
    if j :| 0 <= j < |es| && DropsStamp(x, es, j) {
      var c := CheckedAt(x, es, es[j].w, j);
    }
  }

  lemma RaceStamps()
    ensures !Refuses("a", "b", Some("a")) && !Refuses("a", "c", Some("a"))
    ensures Older("b", "c")
  {
    assert Less("a", "b") && Less("a", "c") && Less("b", "c");
    LessTotal("a", "b");
    LessTotal("a", "c");
  }

  /** From stored "a", writers 1 and 2 check "b" and "c"; 2 renames first and its newer state is
      lost. */
  lemma RacingSavesLoseTheNewer()
    ensures var x := World(Some("a"), map[1 := "a", 2 := "a"], map[]);
            var es := [Check(1, "b", true), Check(2, "c", true), Rename(2), Rename(1)];
            At(x, es, 3).stored == Some("c") && At(x, es, 4).stored == Some("b") && GoesBack(x, es)
  {
    var x := World(Some("a"), map[1 := "a", 2 := "a"], map[]);
    var es := [Check(1, "b", true), Check(2, "c", true), Rename(2), Rename(1)];
    RaceStamps();
    AtNext(x, es, 0);
    assert At(x, es, 1) == x.(pending := map[1 := "b"]);
    AtNext(x, es, 1);
    assert At(x, es, 2) == x.(pending := map[1 := "b", 2 := "c"]);
    AtNext(x, es, 2);
    AtNext(x, es, 3);
    FoundBack(x, es, 3, 4);
  }

  // ---------- The guard against a stale writer ----------

  lemma {:induction false} OthersKeepLoaded(x: World, es: seq<Event>, w: nat)
    requires forall i :: 0 <= i < |es| ==> es[i].w != w
    ensures w in x.loaded ==> w in Run(x, es).loaded && Run(x, es).loaded[w] == x.loaded[w]
    decreases |es|
  {
    if es != [] {
      OthersKeepLoaded(x, es[..|es| - 1], w);
    }
  }

  /** Once the file holds something strictly newer than what writer w loaded, a guarded check by
      w fails however the others go on, unless they put the file back. */
  lemma StaleSaveRefused(x: World, es: seq<Event>, w: nat, stamp: string)
    requires forall i :: 0 <= i < |es| ==> es[i].w != w
    requires w in x.loaded && x.loaded[w] != NA && x.stored.Some? && Older(x.loaded[w], x.stored.value)
    requires !GoesBack(x, es)
    ensures !Passes(Run(x, es), w, stamp, true)
  {
    OthersKeepLoaded(x, es, w);
    assert At(x, es, |es|) == Run(x, es) by { assert es[..|es|] == es; }
    NeverBackChain(x, es, 0, |es|);
    var e, m, n := x.loaded[w], x.stored.value, StampOf(Run(x, es).stored);
    LessTotal(e, m);
    LessTotal(m, n);
    LessTotal(e, n);
    if m != n { LessTransitive(e, m, n); }
  }

  /** A check passes exactly when the file has no stamp yet, or it is not newer than the state to
      save nor, for a guarded writer, than what that writer loaded. */
  lemma PassesIff(x: World, w: nat, stamp: string, guarded: bool)
    ensures Passes(x, w, stamp, guarded) <==>
              || StampOf(x.stored) == NA
              || (&& (stamp != NA ==> !Older(stamp, x.stored.value))
                  && (guarded && w in x.loaded && x.loaded[w] != NA ==> !Older(x.loaded[w], x.stored.value)))
  {
    if guarded && w in x.loaded && x.stored.Some? { LessTotal(x.loaded[w], x.stored.value); }
  }

  /** A writer that is up to date and does not go back in time is never refused. */
  lemma CurrentWriterPasses(x: World, w: nat, stamp: string, guarded: bool)
    requires w in x.loaded && x.loaded[w] == StampOf(x.stored) && !Older(stamp, StampOf(x.stored))
    ensures Passes(x, w, stamp, guarded)
  {
    PassesIff(x, w, stamp, guarded);
    LessTotal(x.loaded[w], x.loaded[w]);
  }

  lemma PassedIsNotOlder(x: World, w: nat, stamp: string, guarded: bool)
    ensures Passes(x, w, stamp, guarded) && stamp != NA ==> !Older(stamp, StampOf(x.stored))
    ensures !Older(StampOf(x.stored), StampOf(x.stored))
  {
    LessTotal(StampOf(x.stored), StampOf(x.stored));
  }

  // ---------- The file itself ----------

  /** The state file as its writers use it, each under its own number. */
  class StateFile {
    var stored: Option<W.State>
    var loaded: map<nat, string>
    var pending: map<nat, W.State>
    ghost const origin: World
    ghost var trace: seq<Event>

    ghost function Now(): World
      reads this
    {
      World(if stored.Some? then Some(stored.value.updatedAt) else None, loaded,
            map w | w in pending :: pending[w].updatedAt)
    }

    ghost predicate Valid()
      reads this
    {
      origin.pending == map[] && Now() == Run(origin, trace)
    }

    constructor (stored: Option<W.State>)
      ensures Valid() && this.stored == stored && pending == map[] && loaded == map[] && trace == []
    {
      this.stored, loaded, pending, trace := stored, map[], map[], [];
      origin := World(if stored.Some? then Some(stored.value.updatedAt) else None, map[], map[]);
      new;
      assert Now() == origin;
    }

    ghost method Took(before: World, e: Event)
      requires origin.pending == map[] && before == Run(origin, trace) && Now() == Step(before, e)
      modifies this`trace
      ensures Valid() && trace == old(trace) + [e]
    {
      trace := trace + [e];
      assert trace[..|trace| - 1] == old(trace);
    }

    /** load_watch_state: a missing file is an empty state without a stamp. */
    method Open(w: nat) returns (state: Option<W.State>)
      requires Valid()
      modifies this`loaded, this`trace
      ensures Valid() && trace == old(trace) + [Load(w)] && state == stored
    {
      ghost var before := Now();
      state := stored;
      loaded := loaded[w := if stored.Some? then stored.value.updatedAt else NA];
      Took(before, Load(w));
    }

    /** The part of save_watch_state before the rename. An unreadable file is an error. */
    method Verify(w: nat, state: W.State, guarded: bool, legacyPath: bool, readable: bool) returns (ok: bool)
      requires Valid() && w !in pending
      modifies this`pending, this`trace
      ensures Valid()
      ensures ok <==> !legacyPath && (stored.Some? ==> readable) && Passes(old(Now()), w, state.updatedAt, guarded)
      ensures pending == if ok then old(pending)[w := state] else old(pending)
      ensures ok ==> trace == old(trace) + [Check(w, state.updatedAt, guarded)]
      ensures !ok ==> trace == old(trace)
    {
      ghost var before := Now();
      if legacyPath { return false; }
      if stored.Some? {
        if !readable { return false; }
        var current := stored.value.updatedAt;
        if guarded && w in loaded && loaded[w] != NA && current != NA && current != loaded[w] && Less(loaded[w], current) {
          return false;
        }
        if current != NA && state.updatedAt != NA && Less(state.updatedAt, current) { return false; }
      }
      pending := pending[w := state];
      assert Now().pending == before.pending[w := state.updatedAt];
      Took(before, Check(w, state.updatedAt, guarded));
      return true;
    }

    /** The temporary file replaces the stored one, or could not be written. */
    method Finish(w: nat, writes: bool)
      requires Valid() && w in pending
      modifies this`stored, this`loaded, this`pending, this`trace
      ensures Valid() && pending == old(pending) - {w}
      ensures stored == if writes then Some(old(pending)[w]) else old(stored)
      ensures trace == old(trace) + [if writes then Rename(w) else Abandon(w)]
    {
      ghost var before := Now();
      if writes {
        stored, loaded := Some(pending[w]), loaded[w := pending[w].updatedAt];
      }
      pending := pending - {w};
      assert Now().pending == before.pending - {w};
      Took(before, if writes then Rename(w) else Abandon(w));
    }

    /** save_watch_state without another writer in between: replaced as a whole or not at all,
        and never by an older state. */
    method Save(w: nat, state: W.State, guarded: bool, legacyPath: bool, readable: bool, writes: bool) returns (ok: bool)
      requires Valid() && w !in pending
      modifies this`stored, this`loaded, this`pending, this`trace
      ensures Valid() && pending == old(pending)
      ensures ok <==>
                && !legacyPath && (old(stored).Some? ==> readable) && writes
                && Passes(old(Now()), w, state.updatedAt, guarded)
      ensures stored == if ok then Some(state) else old(stored)
      ensures state.updatedAt != NA ==> !Older(StampOf(Now().stored), StampOf(old(Now()).stored))
    {
      PassedIsNotOlder(Now(), w, state.updatedAt, guarded);
      ok := Verify(w, state, guarded, legacyPath, readable);
      if ok {
        Finish(w, writes);
        ok := writes;
      }
    }
  }
}
