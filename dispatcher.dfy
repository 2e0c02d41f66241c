/** The message dispatcher: `handleMessage` routes on the `type` field to the
    join handler (store the sender's entry, acknowledge it), the utterance
    handler (one transcription per room member, translated when the member's
    language differs), or an error reply; `handleDisconnect` drops the
    sender's entry. `Dispatch` states the whole effect of one message as a
    value; the handlers are proved to have exactly that effect. */
module Dispatcher {
  import opened JsValues
  import opened Protocol
  import opened Registry
  import opened Room
  import opened Translation
  import opened Transport

  /** The fields the utterance handler reads from the message. */
  datatype Utterance = Utterance(utteranceId: Value, speakerId: Value, roomId: Value, language: Value, text: Value)

  function UtteranceOf(msg: Json): Utterance {
    Utterance(Get(msg, "utteranceId"), Get(msg, "speakerId"), Get(msg, "roomId"),
              Get(msg, "language"), Get(msg, "text"))
  }

  /** The entry a join stores: the message's three fields, unvalidated. */
  function JoinMeta(msg: Json): Meta {
    Meta(Get(msg, "clientId"), Get(msg, "roomId"), Get(msg, "language"))
  }

  /** The text for a member whose language is `target`: the original when the
      languages are identical, otherwise whatever the adapter returns. */
  function MemberText(u: Utterance, target: Value, cfg: Config, gateway: Request -> Response): (a: Attempt)
    ensures target == u.language ==> a == Attempt(u.text, None)
    ensures a.call.Some? <==>
      target != u.language && Truthy(u.text) && Truthy(target) && Configured(cfg) && u.text.Str?
    ensures a.call.Some? ==> u.text.Str? && a.call.value == Request(u.text.s, u.language, target)
  {
    if u.language == target then Attempt(u.text, None)
    else TranslateText(cfg, u.text, u.language, target, gateway)
  }

  /** The payload sent to a member whose language is `target`. */
  function TranscriptionFor(u: Utterance, target: Value, cfg: Config, gateway: Request -> Response): (p: Outbound)
    ensures p.Transcription? && p.targetLanguage == target && p.originalLanguage == u.language
    ensures p.utteranceId == Null || Truthy(p.utteranceId)
    ensures target == u.language ==> p.text == u.text
  {
    Transcription(Or(u.utteranceId, Null), u.speakerId, u.roomId, u.language, target,
                  MemberText(u, target, cfg, gateway).text)
  }

  /** The fan-out of an utterance: one transcription per member, addressed to
      that member, in membership order. */
  function FanOut(u: Utterance, members: seq<Member>, cfg: Config, gateway: Request -> Response): (d: seq<Delivery>)
    ensures |d| == |members|
    ensures forall i | 0 <= i < |d| ::
      d[i] == Delivery(members[i].ws, TranscriptionFor(u, members[i].meta.language, cfg, gateway))
    decreases |members|
  {
    if members == [] then []
    else
      var last := members[|members| - 1];
      FanOut(u, members[..|members| - 1], cfg, gateway)
        + [Delivery(last.ws, TranscriptionFor(u, last.meta.language, cfg, gateway))]
  }

  /** The requests the fan-out sends to the translation service, in order.
      There is at most one per member, each carries the utterance's text and
      language, and none is for a member that shares the utterance's
      language; without complete configuration there are none. */
  function FanOutCalls(u: Utterance, members: seq<Member>, cfg: Config, gateway: Request -> Response): (calls: seq<Request>)
    ensures |calls| <= |members|
    ensures forall k | 0 <= k < |calls| ::
      && Str(calls[k].text) == u.text
      && calls[k].from == u.language
      && calls[k].to != u.language
    ensures |calls| > 0 ==> Configured(cfg)
    decreases |members|
  {
    if members == [] then []
    else
      var last := members[|members| - 1];
      var a := MemberText(u, last.meta.language, cfg, gateway);
      FanOutCalls(u, members[..|members| - 1], cfg, gateway)
        + (if a.call.Some? then [a.call.value] else [])
  }

  /** The members the service is asked about when the text can be
      translated at all: those whose language is set and differs from the
      utterance's, in membership order. */
  function NeedsTranslation(u: Utterance, members: seq<Member>): (r: seq<Member>)
    ensures |r| <= |members|
    ensures forall m :: m in r <==> m in members && Truthy(m.meta.language) && m.meta.language != u.language
    decreases |members|
  {
    if members == [] then []
    else
      var last := members[|members| - 1];
      NeedsTranslation(u, members[..|members| - 1])
        + (if Truthy(last.meta.language) && last.meta.language != u.language then [last] else [])
  }

  /** One request for each of `ms`, from `from` into that member's language. */
  function RequestsFor(text: string, from: Value, ms: seq<Member>): seq<Request> {
    seq(|ms|, k requires 0 <= k < |ms| => Request(text, from, ms[k].meta.language))
  }

  /** The requests of a fan-out are exactly one per member that needs a
      translation, in membership order, each for that member's language,
      provided the adapter is configured and the text is a non-empty
      string; otherwise there are none. */
  lemma {:induction false} FanOutCallsExact(u: Utterance, members: seq<Member>, cfg: Config, gateway: Request -> Response)
    ensures FanOutCalls(u, members, cfg, gateway)
         == if Configured(cfg) && Truthy(u.text) && u.text.Str?
            then RequestsFor(u.text.s, u.language, NeedsTranslation(u, members))
            else []
    decreases |members|
  {
    if members != [] {
      var prefix := members[..|members| - 1];
      var last := members[|members| - 1];
      FanOutCallsExact(u, prefix, cfg, gateway);
      if Configured(cfg) && Truthy(u.text) && u.text.Str? {
        var before := NeedsTranslation(u, prefix);
        var asked := Truthy(last.meta.language) && last.meta.language != u.language;
        var extra := if asked then [last] else [];
        var a := MemberText(u, last.meta.language, cfg, gateway);
        assert a.call.Some? <==> asked;
        assert FanOutCalls(u, members, cfg, gateway)
            == FanOutCalls(u, prefix, cfg, gateway) + (if a.call.Some? then [a.call.value] else []);
        assert NeedsTranslation(u, members) == before + extra;
        assert RequestsFor(u.text.s, u.language, before + extra)
            == RequestsFor(u.text.s, u.language, before) + RequestsFor(u.text.s, u.language, extra);
      }
    }
  }

  /** A member whose language is set and differs from the utterance's is
      asked for, once the adapter is configured and the text is a non-empty
      string. */
  lemma CallForDifferingMember(u: Utterance, members: seq<Member>, i: nat, cfg: Config, gateway: Request -> Response)
    requires i < |members|
    requires Configured(cfg) && u.text.Str? && u.text.s != ""
    requires Truthy(members[i].meta.language) && members[i].meta.language != u.language
    ensures Request(u.text.s, u.language, members[i].meta.language) in FanOutCalls(u, members, cfg, gateway)
  {
    FanOutCallsExact(u, members, cfg, gateway);
    var needing := NeedsTranslation(u, members);
    assert members[i] in needing;
    var k :| 0 <= k < |needing| && needing[k] == members[i];
    assert RequestsFor(u.text.s, u.language, needing)[k] == Request(u.text.s, u.language, members[i].meta.language);
  }

  /** The effect of one message: the registry afterwards, what was sent and
      what was asked of the translation service. */
  datatype Effect = Effect(order: seq<ConnId>, sessions: map<ConnId, Meta>,
                           sent: seq<Delivery>, calls: seq<Request>)

  /** `handleMessage(ws, msg, clients)` as a value. */
  function Dispatch(ws: ConnId, msg: Json, order: seq<ConnId>, sessions: map<ConnId, Meta>,
                    cfg: Config, gateway: Request -> Response): (e: Effect)
    requires WellFormed(order, sessions)
    requires Dereferenceable(msg)
    ensures WellFormed(e.order, e.sessions)
  {
    var kind := Get(msg, "type");
    if kind == Str("join") then
      var meta := JoinMeta(msg);
      UpsertWellFormed(order, sessions, ws, meta);
      Effect(UpsertOrder(order, sessions, ws), sessions[ws := meta],
             [Delivery(ws, Joined(meta.clientId, meta.roomId))], [])
    else if kind == Str("utterance") then
      var u := UtteranceOf(msg);
      var members := RoomMembers(order, sessions, ToStr(u.roomId));
      Effect(order, sessions, FanOut(u, members, cfg, gateway), FanOutCalls(u, members, cfg, gateway))
    else
      Effect(order, sessions, [Delivery(ws, Error(UnknownType))], [])
  }

  /** `handleMessage`: route on `msg.type`. */
  method HandleMessage(ws: ConnId, msg: Json, clients: Registry, out: Outbox,
                       cfg: Config, gateway: Request -> Response) returns (calls: seq<Request>)
    requires clients.Valid() && Dereferenceable(msg)
    modifies clients, out
    ensures clients.Valid()
    ensures var e := Dispatch(ws, msg, old(clients.order), old(clients.sessions), cfg, gateway);
      && clients.order == e.order
      && clients.sessions == e.sessions
      && out.sent == old(out.sent) + e.sent
      && calls == e.calls
  {
    var kind := Get(msg, "type");
    if kind == Str("join") {
      HandleJoin(ws, msg, clients, out);
      calls := [];
    } else if kind == Str("utterance") {
      calls := HandleUtterance(msg, clients, out, cfg, gateway);
    } else {
      out.Send(ws, Error(UnknownType));
      calls := [];
    }
  }

  /** `handleDisconnect`: forget the connection's entry; nothing is sent. */
  method HandleDisconnect(ws: ConnId, clients: Registry)
    requires clients.Valid()
    modifies clients
    ensures clients.Valid()
    ensures clients.sessions == old(clients.sessions) - {ws}
    ensures clients.order == Without(old(clients.order), ws)
  {
    clients.Delete(ws);
  }

  /** `handleJoin`: store `{ clientId, roomId, language }` for the sender
      without checking them, and acknowledge the sender alone. */
  method HandleJoin(ws: ConnId, msg: Json, clients: Registry, out: Outbox)
    requires clients.Valid()
    modifies clients, out
    ensures clients.Valid()
    ensures clients.sessions == old(clients.sessions)[ws := JoinMeta(msg)]
    ensures clients.order == UpsertOrder(old(clients.order), old(clients.sessions), ws)
    ensures out.sent == old(out.sent) + [Delivery(ws, Joined(Get(msg, "clientId"), Get(msg, "roomId")))]
  {
    var clientId, roomId, language := Get(msg, "clientId"), Get(msg, "roomId"), Get(msg, "language");
    clients.Set(ws, Meta(clientId, roomId, language));
    out.Send(ws, Joined(clientId, roomId));
  }

  /** `handleUtterance`: send one transcription to every member of the
      message's room, in membership order. The sender's own entry is not
      consulted and the registry is not changed. */
  method HandleUtterance(msg: Json, clients: Registry, out: Outbox,
                         cfg: Config, gateway: Request -> Response) returns (calls: seq<Request>)
    requires clients.Valid()
    modifies out
    ensures var u := UtteranceOf(msg);
      var members := RoomMembers(clients.order, clients.sessions, ToStr(u.roomId));
      && out.sent == old(out.sent) + FanOut(u, members, cfg, gateway)
      && calls == FanOutCalls(u, members, cfg, gateway)
  {
    var u := UtteranceOf(msg);
    // stands for `getRoomClients(roomId, clients)` and the `[clientWs, meta]`
    // destructuring, reconciled with room.js's query as the README describes
    var roomClients := GetClientsInRoom(clients, u.roomId);
    calls := [];
    if |roomClients| == 0 {
      return;
    }
    calls := Broadcast(u, roomClients, out, cfg, gateway);
  }

  /** The loop of `handleUtterance`: one transcription to each member in
      turn, each translated into that member's language. */
  method Broadcast(u: Utterance, roomClients: seq<Member>, out: Outbox,
                   cfg: Config, gateway: Request -> Response) returns (calls: seq<Request>)
    modifies out
    ensures out.sent == old(out.sent) + FanOut(u, roomClients, cfg, gateway)
    ensures calls == FanOutCalls(u, roomClients, cfg, gateway)
  {
    calls := [];
    var i := 0;
    while i < |roomClients|
      invariant 0 <= i <= |roomClients|
      invariant out.sent == old(out.sent) + FanOut(u, roomClients[..i], cfg, gateway)
      invariant calls == FanOutCalls(u, roomClients[..i], cfg, gateway)
    {
      var member := roomClients[i];
      var call := SendTranscription(u, member, out, cfg, gateway);
      if call.Some? {
        calls := calls + [call.value];
      }
      FanOutStep(u, roomClients, i, cfg, gateway);
      i := i + 1;
    }
    assert roomClients[..i] == roomClients;
  }

  /** The body of `handleUtterance`'s loop for one member: translate the
      text into the member's language unless it is the speaker's, and send
      the transcription. Returns the request made to the service, if any. */
  method SendTranscription(u: Utterance, member: Member, out: Outbox,
                           cfg: Config, gateway: Request -> Response) returns (call: Option<Request>)
    modifies out
    ensures out.sent == old(out.sent) + [Delivery(member.ws, TranscriptionFor(u, member.meta.language, cfg, gateway))]
    ensures call == MemberText(u, member.meta.language, cfg, gateway).call
  {
    var targetLanguage := member.meta.language;
    var sameLanguage := u.language == targetLanguage;
    var translatedText := u.text;
    call := None;
    if !sameLanguage {
      var attempt := TranslateText(cfg, u.text, u.language, targetLanguage, gateway);
      translatedText := attempt.text;
      call := attempt.call;
    }
    var payload := Transcription(if Truthy(u.utteranceId) then u.utteranceId else Null,
                                 u.speakerId, u.roomId, u.language, targetLanguage, translatedText);
    out.Send(member.ws, payload);
  }

  /** Extending the members by one extends the fan-out and its requests by
      that member's part. */
  lemma FanOutStep(u: Utterance, members: seq<Member>, i: nat, cfg: Config, gateway: Request -> Response)
    requires i < |members|
    ensures var m := members[i];
      var a := MemberText(u, m.meta.language, cfg, gateway);
      && FanOut(u, members[..i + 1], cfg, gateway)
         == FanOut(u, members[..i], cfg, gateway) + [Delivery(m.ws, TranscriptionFor(u, m.meta.language, cfg, gateway))]
      && FanOutCalls(u, members[..i + 1], cfg, gateway)
         == FanOutCalls(u, members[..i], cfg, gateway) + (if a.call.Some? then [a.call.value] else [])
  {
    assert members[..i + 1][..i] == members[..i];
  }

  // ----- properties of one message -----

  /** A type other than `"join"` or `"utterance"` gets exactly one
      `Unknown type` error, to the sender, and changes nothing. */
  lemma UnknownTypeReply(ws: ConnId, msg: Json, order: seq<ConnId>, sessions: map<ConnId, Meta>,
                         cfg: Config, gateway: Request -> Response)
    requires WellFormed(order, sessions) && Dereferenceable(msg)
    requires Get(msg, "type") != Str("join") && Get(msg, "type") != Str("utterance")
    ensures Dispatch(ws, msg, order, sessions, cfg, gateway)
         == Effect(order, sessions, [Delivery(ws, Error(UnknownType))], [])
  {
  }

  /** A join stores the message's fields for the sender, overwriting any
      earlier entry and touching no other, and acknowledges the sender only. */
  lemma JoinEffect(ws: ConnId, msg: Json, order: seq<ConnId>, sessions: map<ConnId, Meta>,
                   cfg: Config, gateway: Request -> Response)
    requires WellFormed(order, sessions) && Dereferenceable(msg)
    requires Get(msg, "type") == Str("join")
    ensures var e := Dispatch(ws, msg, order, sessions, cfg, gateway);
      var meta := Meta(Get(msg, "clientId"), Get(msg, "roomId"), Get(msg, "language"));
      && e.sessions.Keys == sessions.Keys + {ws}
      && e.sessions[ws] == meta
      && (forall c | c in sessions && c != ws :: e.sessions[c] == sessions[c])
      && (ws in sessions ==> e.order == order)
      && e.sent == [Delivery(ws, Joined(meta.clientId, meta.roomId))]
      && e.calls == []
  {
  }

  /** After a join the sender belongs to the joined room, with the stored
      entry, and to no other room. */
  lemma JoinMembership(ws: ConnId, msg: Json, order: seq<ConnId>, sessions: map<ConnId, Meta>,
                       cfg: Config, gateway: Request -> Response, key: string, m: Meta)
    requires WellFormed(order, sessions) && Dereferenceable(msg)
    requires Get(msg, "type") == Str("join")
    ensures var e := Dispatch(ws, msg, order, sessions, cfg, gateway);
      && InDomain(e.order, e.sessions)
      && (Member(ws, m) in RoomMembers(e.order, e.sessions, key)
          <==> m == JoinMeta(msg) && key == ToStr(Get(msg, "roomId")))
  {
    var e := Dispatch(ws, msg, order, sessions, cfg, gateway);
    assert e.sessions == sessions[ws := JoinMeta(msg)];
    RoomMembership(e.order, e.sessions, key, ws, m);
  }

  /** An utterance changes no entry and sends, in membership order, exactly
      one transcription to each member of its room (the sender included when
      it is one): the target language is the member's, the other fields come
      from the message, and the text is the original when the languages are
      the same, otherwise the adapter's result. A room without members gets
      nothing and the service is not asked. */
  lemma UtteranceEffect(ws: ConnId, msg: Json, order: seq<ConnId>, sessions: map<ConnId, Meta>,
                        cfg: Config, gateway: Request -> Response)
    requires WellFormed(order, sessions) && Dereferenceable(msg)
    requires Get(msg, "type") == Str("utterance")
    ensures var e := Dispatch(ws, msg, order, sessions, cfg, gateway);
      var u := UtteranceOf(msg);
      && InDomain(order, sessions)
      && var members := RoomMembers(order, sessions, ToStr(u.roomId));
      && e.order == order && e.sessions == sessions
      && |e.sent| == |members|
      && (members == [] ==> e.sent == [] && e.calls == [])
      && forall i | 0 <= i < |members| ::
        var target := members[i].meta.language;
        && e.sent[i].to == members[i].ws
        && e.sent[i].msg.Transcription?
        && e.sent[i].msg.utteranceId == (if Truthy(u.utteranceId) then u.utteranceId else Null)
        && e.sent[i].msg.speakerId == u.speakerId
        && e.sent[i].msg.roomId == u.roomId
        && e.sent[i].msg.originalLanguage == u.language
        && e.sent[i].msg.targetLanguage == target
        && (target == u.language ==> e.sent[i].msg.text == u.text)
        && (target != u.language ==>
              e.sent[i].msg.text == TranslateText(cfg, u.text, u.language, target, gateway).text)
  {
  }

  /** With a truthy text and the translation service unconfigured, every
      member receives the original text, and the service is never asked. */
  lemma UnconfiguredFanOut(u: Utterance, members: seq<Member>, cfg: Config, gateway: Request -> Response)
    requires !Configured(cfg) && Truthy(u.text)
    ensures FanOutCalls(u, members, cfg, gateway) == []
    ensures forall i | 0 <= i < |members| :: FanOut(u, members, cfg, gateway)[i].msg.text == u.text
  {
  }

  /** A falsy text reaches members of the utterance's own language as it is
      and every other member as `""`, configured or not, and the service is
      never asked. */
  lemma FalsyTextFanOut(u: Utterance, members: seq<Member>, cfg: Config, gateway: Request -> Response)
    requires !Truthy(u.text)
    ensures FanOutCalls(u, members, cfg, gateway) == []
    ensures forall i | 0 <= i < |members| ::
      FanOut(u, members, cfg, gateway)[i].msg.text
        == if members[i].meta.language == u.language then u.text else Str("")
  {
    FanOutCallsExact(u, members, cfg, gateway);
  }

  /** After a disconnect the connection is in no room, and every other
      connection is in exactly the rooms it was in before. */
  lemma DisconnectEffect(order: seq<ConnId>, sessions: map<ConnId, Meta>, ws: ConnId, key: string, c: ConnId, m: Meta)
    requires WellFormed(order, sessions)
    ensures WellFormed(Without(order, ws), sessions - {ws})
    ensures InDomain(order, sessions) && InDomain(Without(order, ws), sessions - {ws})
    ensures Member(c, m) in RoomMembers(Without(order, ws), sessions - {ws}, key)
        <==> c != ws && Member(c, m) in RoomMembers(order, sessions, key)
  {
    DeleteWellFormed(order, sessions, ws);
    RoomMembership(order, sessions, key, c, m);
    RoomMembership(Without(order, ws), sessions - {ws}, key, c, m);
  }

  /** Every registered connection whose room id has the string form of an
      utterance's room id receives a transcription of it, in its own
      language, whoever sent it. */
  lemma MemberHears(speaker: ConnId, utterance: Json, order: seq<ConnId>, sessions: map<ConnId, Meta>,
                    cfg: Config, gateway: Request -> Response, c: ConnId)
    requires WellFormed(order, sessions) && Dereferenceable(utterance)
    requires Get(utterance, "type") == Str("utterance")
    requires c in sessions && ToStr(sessions[c].roomId) == ToStr(Get(utterance, "roomId"))
    ensures var heard := Dispatch(speaker, utterance, order, sessions, cfg, gateway);
      exists i | 0 <= i < |heard.sent| ::
        && heard.sent[i].to == c
        && heard.sent[i].msg.Transcription?
        && heard.sent[i].msg.targetLanguage == sessions[c].language
        && (sessions[c].language == Get(utterance, "language") ==> heard.sent[i].msg.text == Get(utterance, "text"))
  {
    var heard := Dispatch(speaker, utterance, order, sessions, cfg, gateway);
    var u := UtteranceOf(utterance);
    var meta := sessions[c];
    RoomMembership(order, sessions, ToStr(u.roomId), c, meta);
    var members := RoomMembers(order, sessions, ToStr(u.roomId));
    var i :| 0 <= i < |members| && members[i] == Member(c, meta);
    assert heard.sent == FanOut(u, members, cfg, gateway);
    assert heard.sent[i] == Delivery(c, TranscriptionFor(u, meta.language, cfg, gateway));
  }

  /** A connection that joins a room hears the utterance dispatched next to
      that room (by any sender, under any spelling of the room id with the
      same string form), in the language it joined with. */
  lemma JoinedMemberHears(ws: ConnId, join: Json, speaker: ConnId, utterance: Json,
                          order: seq<ConnId>, sessions: map<ConnId, Meta>,
                          cfg: Config, gateway: Request -> Response)
    requires WellFormed(order, sessions) && Dereferenceable(join) && Dereferenceable(utterance)
    requires Get(join, "type") == Str("join") && Get(utterance, "type") == Str("utterance")
    requires ToStr(Get(utterance, "roomId")) == ToStr(Get(join, "roomId"))
    ensures var joined := Dispatch(ws, join, order, sessions, cfg, gateway);
      var heard := Dispatch(speaker, utterance, joined.order, joined.sessions, cfg, gateway);
      exists i | 0 <= i < |heard.sent| ::
        && heard.sent[i].to == ws
        && heard.sent[i].msg.Transcription?
        && heard.sent[i].msg.targetLanguage == Get(join, "language")
        && (Get(join, "language") == Get(utterance, "language") ==> heard.sent[i].msg.text == Get(utterance, "text"))
  {
    var joined := Dispatch(ws, join, order, sessions, cfg, gateway);
    JoinEffect(ws, join, order, sessions, cfg, gateway);
    MemberHears(speaker, utterance, joined.order, joined.sessions, cfg, gateway, ws);
  }
}
