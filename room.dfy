/** Room membership: a room is not stored anywhere; it is the registry
    entries whose room id, as a string, equals the requested one, listed in
    registry iteration order. */
module Room {
  import opened JsValues
  import opened Protocol
  import opened Registry

  /** One element of the query's result, `{ ws, meta }`. */
  datatype Member = Member(ws: ConnId, meta: Meta)

  /** Every connection of the order has an entry. */
  ghost predicate InDomain(order: seq<ConnId>, sessions: map<ConnId, Meta>) {
    forall i | 0 <= i < |order| :: order[i] in sessions
  }

  /** The members of room `key` (an already normalised room id): the
      entries, in iteration order, whose `String(roomId)` is `key`. */
  function RoomMembers(order: seq<ConnId>, sessions: map<ConnId, Meta>, key: string): (r: seq<Member>)
    requires InDomain(order, sessions)
    ensures |r| <= |order|
    ensures forall i | 0 <= i < |r| ::
      && r[i].ws in order
      && r[i].ws in sessions
      && r[i].meta == sessions[r[i].ws]
      && ToStr(r[i].meta.roomId) == key
    decreases |order|
  {
    if order == [] then []
    else
      var last := order[|order| - 1];
      var rest := RoomMembers(order[..|order| - 1], sessions, key);
      if ToStr(sessions[last].roomId) == key then rest + [Member(last, sessions[last])] else rest
  }

  /** `getClientsInRoom(clients, roomId)`: walk the registry in iteration
      order and collect the entries of the room. Only reads the registry. */
  method GetClientsInRoom(clients: Registry, roomId: Value) returns (result: seq<Member>)
    requires clients.Valid()
    ensures result == RoomMembers(clients.order, clients.sessions, ToStr(roomId))
  {
    var normalizedRoom := ToStr(roomId);
    var order, sessions := clients.order, clients.sessions;
    result := [];
    var i := 0;
    while i < |order|
      invariant 0 <= i <= |order|
      invariant result == RoomMembers(order[..i], sessions, normalizedRoom)
    {
      var ws := order[i];
      var meta := sessions[ws];
      RoomMembersStep(order, sessions, normalizedRoom, i);
      if ToStr(meta.roomId) == normalizedRoom {
        result := result + [Member(ws, meta)];
      }
      i := i + 1;
    }
    assert order[..i] == order;
  }

  /** Walking one more connection of the order adds it to the result when
      it belongs to the room. */
  lemma RoomMembersStep(order: seq<ConnId>, sessions: map<ConnId, Meta>, key: string, i: nat)
    requires InDomain(order, sessions) && i < |order|
    ensures InDomain(order[..i], sessions) && InDomain(order[..i + 1], sessions)
    ensures var c := order[i];
      RoomMembers(order[..i + 1], sessions, key)
      == RoomMembers(order[..i], sessions, key) + (if ToStr(sessions[c].roomId) == key then [Member(c, sessions[c])] else [])
  {
    assert order[..i + 1][..i] == order[..i];
  }

  /** Every entry of the room is returned. */
  lemma {:induction false} RoomMembersComplete(order: seq<ConnId>, sessions: map<ConnId, Meta>, key: string, c: ConnId)
    requires InDomain(order, sessions)
    requires c in order && ToStr(sessions[c].roomId) == key
    ensures Member(c, sessions[c]) in RoomMembers(order, sessions, key)
    decreases |order|
  {
    var n := |order|;
    var prefix := order[..n - 1];
    if order[n - 1] != c {
      assert order == prefix + [order[n - 1]];
      RoomMembersComplete(prefix, sessions, key, c);
    }
  }

  /** Over a well-formed registry, the query returns exactly the entries of
      the room: a pair is in the result if and only if it is an entry of the
      registry whose room id normalises to `key`. */
  lemma RoomMembership(order: seq<ConnId>, sessions: map<ConnId, Meta>, key: string, c: ConnId, m: Meta)
    requires WellFormed(order, sessions)
    ensures InDomain(order, sessions)
    ensures Member(c, m) in RoomMembers(order, sessions, key)
        <==> c in sessions && sessions[c] == m && ToStr(m.roomId) == key
  {
    if c in sessions && sessions[c] == m && ToStr(m.roomId) == key {
      RoomMembersComplete(order, sessions, key, c);
    }
  }

  /** The connections of `r` occur in `order`, and in the same order. */
  ghost predicate FollowsOrder(order: seq<ConnId>, r: seq<Member>) {
    && (forall i | 0 <= i < |r| :: r[i].ws in order)
    && (forall i, j | 0 <= i < j < |r| :: Pos(order, r[i].ws) < Pos(order, r[j].ws))
  }

  /** The result keeps iteration order. */
  lemma {:induction false} RoomMembersOrdered(order: seq<ConnId>, sessions: map<ConnId, Meta>, key: string)
    requires InDomain(order, sessions) && Distinct(order)
    ensures FollowsOrder(order, RoomMembers(order, sessions, key))
    decreases |order|
  {
    if order != [] {
      var n := |order|;
      var prefix := order[..n - 1];
      var last := order[n - 1];
      DistinctPrefix(order, n - 1);
      RoomMembersOrdered(prefix, sessions, key);
      FollowsOrderExtend(order, RoomMembers(prefix, sessions, key), Member(last, sessions[last]));
    }
  }

  /** A result that follows a prefix of the order follows the whole order,
      and still does once the next connection of the order is appended. */
  lemma FollowsOrderExtend(order: seq<ConnId>, rest: seq<Member>, m: Member)
    requires Distinct(order) && |order| > 0
    requires FollowsOrder(order[..|order| - 1], rest)
    ensures FollowsOrder(order, rest)
    ensures m.ws == order[|order| - 1] ==> FollowsOrder(order, rest + [m])
  {
    var n := |order|;
    var prefix := order[..n - 1];
    forall i | 0 <= i < |rest|
      ensures rest[i].ws in order && Pos(order, rest[i].ws) == Pos(prefix, rest[i].ws) < n - 1
    {
      PosInPrefix(order, n - 1, rest[i].ws);
    }
    if m.ws == order[n - 1] {
      var r := rest + [m];
      PosOfDistinct(order, n - 1);
      forall i, j | 0 <= i < j < |r|
        ensures Pos(order, r[i].ws) < Pos(order, r[j].ws)
      {
        assert r[i] == rest[i];
        if j < |rest| {
          assert r[j] == rest[j];
        }
      }
    }
  }

  /** Each connection appears in the result at most once. */
  lemma RoomMembersDistinct(order: seq<ConnId>, sessions: map<ConnId, Meta>, key: string)
    requires InDomain(order, sessions) && Distinct(order)
    ensures var r := RoomMembers(order, sessions, key);
      forall i, j | 0 <= i < j < |r| :: r[i].ws != r[j].ws
  {
    RoomMembersOrdered(order, sessions, key);
  }

  lemma DistinctPrefix(s: seq<ConnId>, m: nat)
    requires Distinct(s) && m <= |s|
    ensures Distinct(s[..m])
  {
    forall i, j | 0 <= i < j < m ensures s[..m][i] != s[..m][j] {
      assert s[..m][i] == s[i] && s[..m][j] == s[j];
    }
  }

  /** In a list without repeats, a connection of a prefix sits at the same
      position in the whole list. */
  lemma PosInPrefix(s: seq<ConnId>, m: nat, x: ConnId)
    requires Distinct(s) && m <= |s| && x in s[..m]
    ensures x in s && Pos(s, x) == Pos(s[..m], x) < m
  {
    var k := Pos(s[..m], x);
    assert s[k] == x;
    PosOfDistinct(s, k);
  }

  /** The result is never longer than the registry, and an empty registry
      has no room members. */
  lemma RoomMembersSize(order: seq<ConnId>, sessions: map<ConnId, Meta>, key: string)
    requires WellFormed(order, sessions)
    ensures InDomain(order, sessions)
    ensures |RoomMembers(order, sessions, key)| <= |sessions|
    ensures |sessions| == 0 ==> RoomMembers(order, sessions, key) == []
  {
    RegistrySize(order, sessions);
  }

  /** A room no entry belongs to has no members. */
  lemma EmptyRoom(order: seq<ConnId>, sessions: map<ConnId, Meta>, key: string)
    requires InDomain(order, sessions)
    requires forall c | c in sessions :: ToStr(sessions[c].roomId) != key
    ensures RoomMembers(order, sessions, key) == []
  {
  }

  /** Room ids are compared as strings: an entry that joined with the number
      `n` as its room id is a member of the room queried as the text of `n`,
      and of no room named by a different number. */
  lemma NumericRoomIdMatchesText(order: seq<ConnId>, sessions: map<ConnId, Meta>, c: ConnId, n: SafeInt, k: SafeInt)
    requires WellFormed(order, sessions)
    requires c in sessions && sessions[c].roomId == Num(n)
    ensures InDomain(order, sessions)
    ensures Member(c, sessions[c]) in RoomMembers(order, sessions, Decimal(n))
    ensures Member(c, sessions[c]) in RoomMembers(order, sessions, ToStr(Num(k))) <==> k == n
  {
    RoomMembership(order, sessions, Decimal(n), c, sessions[c]);
    RoomMembership(order, sessions, ToStr(Num(k)), c, sessions[c]);
    if ToStr(Num(k)) == ToStr(Num(n)) {
      NumberTextInjective(k, n);
    }
  }
}
