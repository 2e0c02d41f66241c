/** The connection handler: each inbound frame is parsed as JSON or, failing
    that, turned into an utterance of the raw text with defaults taken from
    the sender's registry entry, and then dispatched; closing a connection
    drops its entry. */
module Server {
  import opened JsValues
  import opened Protocol
  import opened Registry
  import opened Room
  import opened Translation
  import opened Transport
  import opened Dispatcher

  const DefaultSpeakerId := "unknown"
  const DefaultRoomId := "default-room"
  const DefaultLanguage := "pt-BR"

  /** The outcome of `JSON.parse(rawData)`. */
  datatype Parse = Parsed(json: Json) | NotJson

  /** The utterance synthesised from a frame that is not JSON. Each of
      speaker, room and language is taken from the sender's entry when it has
      one and the value is truthy; `stamp` is the clock reading that names the
      utterance. */
  function FallbackUtterance(raw: string, entry: Option<Meta>, stamp: nat): (msg: Json)
    ensures msg.Object?
    ensures Get(msg, "type") == Str("utterance") && Get(msg, "text") == Str(raw)
  {
    var speakerId := if entry.Some? then Or(entry.value.clientId, Str(DefaultSpeakerId)) else Str(DefaultSpeakerId);
    var roomId := if entry.Some? then Or(entry.value.roomId, Str(DefaultRoomId)) else Str(DefaultRoomId);
    var language := if entry.Some? then Or(entry.value.language, Str(DefaultLanguage)) else Str(DefaultLanguage);
    Object(map[
      "type" := Str("utterance"),
      "utteranceId" := Str("msg-" + Decimal(stamp)),
      "speakerId" := speakerId,
      "roomId" := roomId,
      "language" := language,
      "text" := Str(raw)
    ])
  }

  /** The message handed to the dispatcher for one frame. A parse result
      whose `type` cannot be read (JSON `null`) makes the logging inside the
      parsing `try` throw, so it takes the fallback path like a frame that is
      not JSON. */
  function Decode(raw: string, parse: Parse, entry: Option<Meta>, stamp: nat): (msg: Json)
    ensures Dereferenceable(msg)
    ensures parse.Parsed? && Dereferenceable(parse.json) ==> msg == parse.json
  {
    if parse.Parsed? && Dereferenceable(parse.json) then parse.json
    else FallbackUtterance(raw, entry, stamp)
  }

  /** A frame that is not JSON becomes an utterance whose text is the raw
      frame; speaker, room and language come from the sender's entry when
      present and truthy and are `"unknown"`, `"default-room"` and `"pt-BR"`
      otherwise, so none of them is ever falsy. */
  lemma FallbackFields(raw: string, entry: Option<Meta>, stamp: nat)
    ensures var msg := Decode(raw, NotJson, entry, stamp);
      && Get(msg, "type") == Str("utterance")
      && Get(msg, "text") == Str(raw)
      && Get(msg, "speakerId") == (if entry.Some? && Truthy(entry.value.clientId) then entry.value.clientId else Str("unknown"))
      && Get(msg, "roomId") == (if entry.Some? && Truthy(entry.value.roomId) then entry.value.roomId else Str("default-room"))
      && Get(msg, "language") == (if entry.Some? && Truthy(entry.value.language) then entry.value.language else Str("pt-BR"))
      && Truthy(Get(msg, "speakerId")) && Truthy(Get(msg, "roomId")) && Truthy(Get(msg, "language"))
      && Truthy(Get(msg, "utteranceId"))
  {
    var msg := Decode(raw, NotJson, entry, stamp);
    assert "msg-" + Decimal(stamp) != "";
  }

  /** A frame that parses to JSON `null` is handled exactly like a frame
      that is not JSON: an utterance whose text is the raw frame. */
  lemma NullFrameIsText(raw: string, entry: Option<Meta>, stamp: nat)
    ensures Decode(raw, Parsed(Scalar(Null)), entry, stamp) == Decode(raw, NotJson, entry, stamp)
    ensures Get(Decode(raw, Parsed(Scalar(Null)), entry, stamp), "text") == Str(raw)
  {
  }

  /** Valid JSON is dispatched as parsed: in particular JSON with an unknown
      type gets the `Unknown type` error and is never reinterpreted as text. */
  lemma ParsedUnknownTypeIsRejected(ws: ConnId, raw: string, json: Json, entry: Option<Meta>, stamp: nat,
                                    order: seq<ConnId>, sessions: map<ConnId, Meta>,
                                    cfg: Config, gateway: Request -> Response)
    requires WellFormed(order, sessions) && Dereferenceable(json)
    requires Get(json, "type") != Str("join") && Get(json, "type") != Str("utterance")
    ensures Dispatch(ws, Decode(raw, Parsed(json), entry, stamp), order, sessions, cfg, gateway)
         == Effect(order, sessions, [Delivery(ws, Error(UnknownType))], [])
  {
    UnknownTypeReply(ws, json, order, sessions, cfg, gateway);
  }

  /** A frame that is not JSON, from a connection that has not joined, is an
      utterance to `"default-room"` in `"pt-BR"`; it changes no entry and
      reaches exactly the members of that room. */
  lemma UnjoinedTextGoesToDefaultRoom(ws: ConnId, raw: string, stamp: nat,
                                      order: seq<ConnId>, sessions: map<ConnId, Meta>,
                                      cfg: Config, gateway: Request -> Response)
    requires WellFormed(order, sessions) && ws !in sessions
    ensures var msg := Decode(raw, NotJson, None, stamp);
      var e := Dispatch(ws, msg, order, sessions, cfg, gateway);
      && InDomain(order, sessions)
      && e.order == order && e.sessions == sessions
      && |e.sent| == |RoomMembers(order, sessions, "default-room")|
      && forall i | 0 <= i < |e.sent| ::
           e.sent[i].to == RoomMembers(order, sessions, "default-room")[i].ws
           && e.sent[i].msg.Transcription?
           && e.sent[i].msg.originalLanguage == Str("pt-BR")
           && e.sent[i].msg.speakerId == Str("unknown")
  {
    var msg := Decode(raw, NotJson, None, stamp);
    FallbackFields(raw, None, stamp);
    UtteranceEffect(ws, msg, order, sessions, cfg, gateway);
  }

  /** The `message` callback: decode the frame, reading (never changing) the
      sender's entry, and dispatch it. */
  method OnMessage(ws: ConnId, raw: string, parse: Parse, stamp: nat, clients: Registry, out: Outbox,
                   cfg: Config, gateway: Request -> Response) returns (calls: seq<Request>)
    requires clients.Valid()
    modifies clients, out
    ensures clients.Valid()
    ensures var msg := Decode(raw, parse, old(clients.Get(ws)), stamp);
      var e := Dispatch(ws, msg, old(clients.order), old(clients.sessions), cfg, gateway);
      && clients.order == e.order
      && clients.sessions == e.sessions
      && out.sent == old(out.sent) + e.sent
      && calls == e.calls
  {
    var clientData := clients.Get(ws);
    var msg := Decode(raw, parse, clientData, stamp);
    calls := HandleMessage(ws, msg, clients, out, cfg, gateway);
  }

  /** The `close` callback: drop the connection's entry; nothing is sent. */
  method OnClose(ws: ConnId, clients: Registry)
    requires clients.Valid()
    modifies clients
    ensures clients.Valid()
    ensures clients.sessions == old(clients.sessions) - {ws}
    ensures clients.order == Without(old(clients.order), ws)
  {
    HandleDisconnect(ws, clients);
  }
}
