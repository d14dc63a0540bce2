/**
 * The remote-cursor map the whiteboard rebuilds on every presence sync.
 *
 * The component keeps a JavaScript `Map` keyed by user id. Such a map
 * remembers insertion order (the redraw walks it in that order), and
 * `set` on a key already present overwrites the value in place. It is
 * modelled as a sequence of cursors whose user ids are pairwise distinct.
 */
module Cursors {
  import opened Wrappers
  import opened Shapes

  /** An insertion-ordered map from user id to cursor. */
  type CursorMap = seq<RemoteCursor>

  /** No user id occurs twice. */
  predicate UniqueKeys(m: CursorMap)
  {
    forall i, j :: 0 <= i < j < |m| ==> m[i].userId != m[j].userId
  }

  /** `m.has(k)` */
  predicate HasKey(m: CursorMap, k: string)
  {
    exists i :: 0 <= i < |m| && m[i].userId == k
  }

  /** The position of key `k` in `m`, if it is there (the first one, should it occur twice). */
  function IndexOf(m: CursorMap, k: string): (r: Option<nat>)
    ensures r.Some? ==> r.value < |m| && m[r.value].userId == k
    ensures r.Some? ==> forall j :: 0 <= j < r.value ==> m[j].userId != k
    ensures r.None? <==> !HasKey(m, k)
  {
    if m == [] then None
    else if m[0].userId == k then Some(0)
    else
      match IndexOf(m[1..], k)
      case None => None
      case Some(i) => Some(i + 1)
  }

  /** `m.get(k)` */
  function Get(m: CursorMap, k: string): (r: Option<RemoteCursor>)
    ensures r.Some? <==> HasKey(m, k)
    ensures r.Some? ==> r.value.userId == k && r.value in m
  {
    match IndexOf(m, k)
    case None => None
    case Some(i) => Some(m[i])
  }

  /**
   * `m.set(c.userId, c)`: a new key goes at the end, an existing key keeps
   * its position and takes the new value; every other entry is untouched.
   */
  function Set(m: CursorMap, c: RemoteCursor): (r: CursorMap)
    ensures Get(r, c.userId) == Some(c)
    ensures forall k :: k != c.userId ==> Get(r, k) == Get(m, k)
    ensures |r| == if HasKey(m, c.userId) then |m| else |m| + 1
    ensures forall i :: 0 <= i < |m| ==> r[i].userId == m[i].userId
    ensures !HasKey(m, c.userId) ==> r == m + [c]
    ensures UniqueKeys(m) ==> UniqueKeys(r)
  {
    match IndexOf(m, c.userId)
    case Some(i) =>
      var r := m[i := c];
      forall k ensures IndexOf(r, k) == IndexOf(m, k) {
        SameKeysSameIndex(m, r, k);
      }
      r
    case None =>
      var r := m + [c];
      forall k | k != c.userId ensures IndexOf(r, k) == IndexOf(m, k) {
        IndexOfAppend(m, c, k);
      }
      IndexOfAppend(m, c, c.userId);
      r
  }

  /** Lookup positions depend on the sequence of keys alone. */
  lemma {:induction false} SameKeysSameIndex(m: CursorMap, m': CursorMap, k: string)
    requires |m| == |m'| && forall i :: 0 <= i < |m| ==> m[i].userId == m'[i].userId
    ensures IndexOf(m, k) == IndexOf(m', k)
  {
  }

  /** Appending an entry leaves the positions of the keys already present alone. */
  lemma {:induction false} IndexOfAppend(m: CursorMap, c: RemoteCursor, k: string)
    requires !HasKey(m, c.userId)
    ensures IndexOf(m + [c], k) == if k == c.userId then Some(|m|) else IndexOf(m, k)
  {
    var r := m + [c];
    assert forall i :: 0 <= i < |m| ==> r[i] == m[i];
    assert r[|m|] == c;
    if k == c.userId {
      assert HasKey(r, k);
    } else {
      var b := IndexOf(m, k);
      if b.Some? {
        assert HasKey(r, k);
      }
    }
  }

  /** The cursor the sync handler builds from a presence. */
  function ToCursor(p: Presence): RemoteCursor
  {
    RemoteCursor(p.userId, p.userName, p.userColor, p.x, p.y, p.timestamp)
  }

  /** A snapshot entry adds a cursor when it has a first presence and that presence is not the local user's. */
  predicate Contributes(entry: (string, seq<Presence>), localId: string)
  {
    |entry.1| > 0 && entry.1[0].userId != localId
  }

  /** One iteration of the handler's `forEach`. */
  function SyncStep(m: CursorMap, entry: (string, seq<Presence>), localId: string): CursorMap
  {
    if Contributes(entry, localId) then Set(m, ToCursor(entry.1[0])) else m
  }

  /** The map after the handler has visited the entries of `s`, in order, starting from `acc`. */
  function CursorsFrom(acc: CursorMap, s: Snapshot, localId: string): (r: CursorMap)
    ensures UniqueKeys(acc) ==> UniqueKeys(r)
    ensures !HasKey(acc, localId) ==> !HasKey(r, localId)
    decreases |s|
  {
    if s == [] then acc
    else
      var prev := CursorsFrom(acc, s[..|s| - 1], localId);
      var r := SyncStep(prev, s[|s| - 1], localId);
      assert !HasKey(prev, localId) ==> !HasKey(r, localId) by {
        if !HasKey(prev, localId) && Contributes(s[|s| - 1], localId) {
          assert Get(r, localId) == Get(prev, localId);
        }
      }
      r
  }

  /**
   * The remote-cursor map a sync produces: built from an empty map, so it
   * depends on the snapshot and the local identity alone. Its keys are
   * distinct and never the local user's.
   */
  function CursorsOf(s: Snapshot, localId: string): (r: CursorMap)
    ensures UniqueKeys(r)
    ensures !HasKey(r, localId)
  {
    CursorsFrom([], s, localId)
  }

  /** The presence sync handler's loop (`Object.keys(state).forEach(...)` filling a fresh map). */
  method BuildCursors(s: Snapshot, localId: string) returns (cursors: CursorMap)
    ensures cursors == CursorsOf(s, localId)
  {
    cursors := [];
    var i := 0;
    while i < |s|
      invariant 0 <= i <= |s|
      invariant cursors == CursorsFrom([], s[..i], localId)
    {
      var presences := s[i].1;
      if |presences| > 0 {
        var presence := presences[0];
        if presence.userId != localId {
          cursors := Set(cursors, ToCursor(presence));
        }
      }
      assert s[..i + 1][..i] == s[..i];
      i := i + 1;
    }
    assert s[..|s|] == s;
  }

  /** Visiting two runs of entries is visiting the second from the map the first left. */
  lemma {:induction false} CursorsFromConcat(acc: CursorMap, a: Snapshot, b: Snapshot, localId: string)
    ensures CursorsFrom(acc, a + b, localId) == CursorsFrom(CursorsFrom(acc, a, localId), b, localId)
    decreases |b|
  {
    if b == [] {
      assert a + b == a;
    } else {
      var ab := a + b;
      assert ab[..|ab| - 1] == a + b[..|b| - 1];
      assert ab[|ab| - 1] == b[|b| - 1];
      CursorsFromConcat(acc, a, b[..|b| - 1], localId);
    }
  }

  /**
   * The keys of the map are exactly the user ids of the first presences
   * of the contributing entries.
   */
  lemma {:induction false} CursorKeys(s: Snapshot, localId: string, k: string)
    ensures HasKey(CursorsOf(s, localId), k) <==>
      exists i :: 0 <= i < |s| && Contributes(s[i], localId) && s[i].1[0].userId == k
    decreases |s|
  {
    if s != [] {
      var init := s[..|s| - 1];
      var last := s[|s| - 1];
      CursorKeys(init, localId, k);
      var prev := CursorsOf(init, localId);
      assert CursorsOf(s, localId) == SyncStep(prev, last, localId);
      if Contributes(last, localId) {
        var c := ToCursor(last.1[0]);
        if k == c.userId {
          assert Get(Set(prev, c), k).Some?;
        } else {
          assert Get(Set(prev, c), k) == Get(prev, k);
        }
      }
      if exists i :: 0 <= i < |s| && Contributes(s[i], localId) && s[i].1[0].userId == k {
        var i :| 0 <= i < |s| && Contributes(s[i], localId) && s[i].1[0].userId == k;
        if i < |s| - 1 {
          assert init[i] == s[i];
        }
      }
      if exists i :: 0 <= i < |init| && Contributes(init[i], localId) && init[i].1[0].userId == k {
        var i :| 0 <= i < |init| && Contributes(init[i], localId) && init[i].1[0].userId == k;
        assert s[i] == init[i];
      }
    }
  }

  /**
   * The cursor kept under a user id is built from the first presence of the
   * LAST entry that contributes that id: a later entry overwrites.
   */
  lemma {:induction false} LastEntryWins(s: Snapshot, localId: string, i: nat)
    requires i < |s| && Contributes(s[i], localId)
    requires forall j :: i < j < |s| && Contributes(s[j], localId) ==> s[j].1[0].userId != s[i].1[0].userId
    ensures Get(CursorsOf(s, localId), s[i].1[0].userId) == Some(ToCursor(s[i].1[0]))
    decreases |s|
  {
    var k := s[i].1[0].userId;
    var init := s[..|s| - 1];
    var last := s[|s| - 1];
    var prev := CursorsOf(init, localId);
    assert CursorsOf(s, localId) == SyncStep(prev, last, localId);
    if i < |s| - 1 {
      assert init[i] == s[i];
      forall j | i < j < |init| && Contributes(init[j], localId)
        ensures init[j].1[0].userId != init[i].1[0].userId
      {
        assert init[j] == s[j];
      }
      LastEntryWins(init, localId, i);
    }
  }

  /** A snapshot in which only the local user has a first presence yields no remote cursor. */
  lemma OnlySelfYieldsNoCursors(s: Snapshot, localId: string)
    requires forall i :: 0 <= i < |s| && |s[i].1| > 0 ==> s[i].1[0].userId == localId
    ensures CursorsOf(s, localId) == []
  {
    var m := CursorsOf(s, localId);
    if m != [] {
      assert HasKey(m, m[0].userId);
      CursorKeys(s, localId, m[0].userId);
      assert false;
    }
  }

  /** An entry whose presence list is empty contributes nothing, wherever it stands. */
  lemma EmptyEntryIgnored(a: Snapshot, key: string, b: Snapshot, localId: string)
    ensures CursorsOf(a + [(key, [])] + b, localId) == CursorsOf(a + b, localId)
  {
    var none: seq<Presence> := [];
    var e: Snapshot := [(key, none)];
    CursorsFromConcat([], a + e, b, localId);
    CursorsFromConcat([], a, e, localId);
    CursorsFromConcat([], a, b, localId);
    assert e[..0] == [];
  }
}
