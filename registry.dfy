/** The connection registry: the process-wide `Map` from connection to
    `{ clientId, roomId, language }`. A JavaScript `Map` iterates its keys in
    insertion order; setting an existing key keeps its position, deleting a
    key drops it, and a key set again after deletion goes to the end. The
    class keeps that order explicitly beside the key-to-entry map. */
module Registry {
  import opened JsValues
  import opened Protocol

  ghost predicate Distinct(s: seq<ConnId>) {
    forall i, j | 0 <= i < j < |s| :: s[i] != s[j]
  }

  /** The position of the first occurrence of `c` in `s`. */
  function Pos(s: seq<ConnId>, c: ConnId): (p: nat)
    requires c in s
    ensures p < |s| && s[p] == c
    ensures forall k | 0 <= k < p :: s[k] != c
  {
    if s[0] == c then 0 else 1 + Pos(s[1..], c)
  }

  lemma PosOfDistinct(s: seq<ConnId>, k: nat)
    requires Distinct(s) && k < |s|
    ensures Pos(s, s[k]) == k
  {
  }

  /** The iteration order lists each key of the map exactly once. */
  ghost predicate WellFormed(order: seq<ConnId>, sessions: map<ConnId, Meta>) {
    && Distinct(order)
    && (forall c :: c in order <==> c in sessions)
  }

  /** The iteration order after `set(c, …)`: a new key goes last, an existing
      key keeps its place. */
  function UpsertOrder(order: seq<ConnId>, sessions: map<ConnId, Meta>, c: ConnId): (r: seq<ConnId>)
    requires WellFormed(order, sessions)
    ensures order <= r
    ensures forall x :: x in r <==> x in order || x == c
    ensures |r| == if c in sessions then |order| else |order| + 1
  {
    if c in sessions then order else order + [c]
  }

  /** The iteration order after `delete(c)`: `c` is gone, the others keep
      their relative order. */
  function Without(s: seq<ConnId>, c: ConnId): (r: seq<ConnId>)
    ensures forall x :: x in r <==> x in s && x != c
    ensures |r| <= |s|
    ensures Distinct(s) ==> Distinct(r)
  {
    if s == [] then []
    else if s[0] == c then Without(s[1..], c)
    else
      var rest := Without(s[1..], c);
      assert Distinct(s) ==> s[0] !in s[1..];
      [s[0]] + rest
  }

  /** Deleting a key does not reorder the keys that remain. */
  lemma {:induction false} WithoutKeepsOrder(s: seq<ConnId>, c: ConnId, x: ConnId, y: ConnId)
    requires x in Without(s, c) && y in Without(s, c)
    ensures Pos(Without(s, c), x) < Pos(Without(s, c), y) <==> Pos(s, x) < Pos(s, y)
  {
    if s[0] == c {
      WithoutKeepsOrder(s[1..], c, x, y);
    } else if x != s[0] && y != s[0] {
      WithoutKeepsOrder(s[1..], c, x, y);
    }
  }

  lemma UpsertWellFormed(order: seq<ConnId>, sessions: map<ConnId, Meta>, c: ConnId, m: Meta)
    requires WellFormed(order, sessions)
    ensures WellFormed(UpsertOrder(order, sessions, c), sessions[c := m])
  {
  }

  lemma DeleteWellFormed(order: seq<ConnId>, sessions: map<ConnId, Meta>, c: ConnId)
    requires WellFormed(order, sessions)
    ensures WellFormed(Without(order, c), sessions - {c})
  {
  }

  function Elements(s: seq<ConnId>): set<ConnId> {
    set x | x in s
  }

  lemma {:induction false} DistinctCard(s: seq<ConnId>)
    requires Distinct(s)
    ensures |Elements(s)| == |s|
  {
    if s != [] {
      var rest := s[1..];
      assert Distinct(rest) by {
        forall i, j | 0 <= i < j < |rest| ensures rest[i] != rest[j] {
          assert rest[i] == s[i + 1] && rest[j] == s[j + 1];
        }
      }
      DistinctCard(rest);
      assert s[0] !in Elements(rest) by {
        forall k | 0 <= k < |rest| ensures rest[k] != s[0] {
          assert rest[k] == s[k + 1];
        }
      }
      assert Elements(s) == Elements(rest) + {s[0]} by {
        assert s == [s[0]] + rest;
      }
    }
  }

  /** The registry holds as many entries as its iteration order lists. */
  lemma RegistrySize(order: seq<ConnId>, sessions: map<ConnId, Meta>)
    requires WellFormed(order, sessions)
    ensures |sessions| == |order|
  {
    DistinctCard(order);
    assert sessions.Keys == Elements(order);
  }

  class Registry {
    var order: seq<ConnId>
    var sessions: map<ConnId, Meta>

    ghost predicate Valid()
      reads this
    {
      WellFormed(order, sessions)
    }

    /** `new Map()` */
    constructor ()
      ensures Valid() && order == [] && sessions == map[]
    {
      order := [];
      sessions := map[];
    }

    /** `clients.get(ws)`: the entry, or `undefined` when there is none. */
    function Get(ws: ConnId): (r: Option<Meta>)
      reads this
      ensures r.Some? <==> ws in sessions
      ensures r.Some? ==> r.value == sessions[ws]
    {
      if ws in sessions then Some(sessions[ws]) else None
    }

    /** `clients.set(ws, meta)`: overwrite or add the entry for `ws`. */
    method Set(ws: ConnId, meta: Meta)
      requires Valid()
      modifies this
      ensures Valid()
      ensures sessions == old(sessions)[ws := meta]
      ensures order == UpsertOrder(old(order), old(sessions), ws)
    {
      UpsertWellFormed(order, sessions, ws, meta);
      order := UpsertOrder(order, sessions, ws);
      sessions := sessions[ws := meta];
    }

    /** `clients.delete(ws)`: a no-op when `ws` has no entry. */
    method Delete(ws: ConnId)
      requires Valid()
      modifies this
      ensures Valid()
      ensures sessions == old(sessions) - {ws}
      ensures order == Without(old(order), ws)
      ensures ws !in old(sessions) ==> order == old(order)
    {
      DeleteWellFormed(order, sessions, ws);
      if ws !in sessions {
        WithoutAbsent(order, ws);
      }
      order := Without(order, ws);
      sessions := sessions - {ws};
    }
  }

  lemma {:induction false} WithoutAbsent(s: seq<ConnId>, c: ConnId)
    requires c !in s
    ensures Without(s, c) == s
  {
    if s != [] {
      WithoutAbsent(s[1..], c);
    }
  }
}
