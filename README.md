# Translated chat-room relay: a Dafny model

The relay keeps one process-wide registry that maps each WebSocket connection
to `{ clientId, roomId, language }`. A `join` message writes the sender's
entry and acknowledges it. An `utterance` message is fanned out to every
connection registered in the message's room: one `transcription` per member,
translated into the member's language by an external translation service when
the languages differ, with the original text as the fallback for every
failure. Any other `type` gets an error reply. A frame that is not JSON is
turned into an utterance of the raw text, with defaults taken from the
sender's entry. Closing a connection drops its entry.

The model, one module per file:

- `js_values.dfy` (`JsValues`): the JavaScript values a parsed frame can carry.
  It covers truthiness (`||`, `!`), `String(v)` and the decimal text of
  integers, with the proof that distinct numbers print differently.
- `protocol.dfy` (`Protocol`): parsed inbound frames (`Json`), registry entries
  (`Meta`) and outbound payloads (`Outbound`, `Delivery`).
- `registry.dfy` (`Registry`): the registry as a class over a key-to-entry
  `map` plus the `Map`'s insertion order. `set` keeps an existing key's place
  and `delete` keeps the others' order.
- `room.dfy` (`Room`): `getClientsInRoom`, a loop proved equal to the filter
  `RoomMembers`, with completeness, soundness, order, no repeats and size.
- `translation.dfy` (`Translation`): `translateText`'s guard chain. The HTTP
  call is a function from the request to its outcome, given as a parameter.
- `transport.dfy` (`Transport`): the outbox, an ordered record of every `send`.
- `dispatcher.dfy` (`Dispatcher`): `handleMessage`, `handleJoin`,
  `handleUtterance` and `handleDisconnect` as methods on the registry and the
  outbox. `Dispatch` gives the whole effect of one message as a value; the
  lemmas about that value state what the source promises.
- `server.dfy` (`Server`): the frame decoder with its non-JSON fallback, and
  the `message` and `close` callbacks.

Where the model departs from, or pins down, the code:

- websocket.js imports `getRoomClients` and calls it as `(roomId, clients)`,
  destructuring `[ws, meta]` pairs (src/websocket.js:2,45,49,75,88). room.js
  exports only `getClientsInRoom(clients, roomId)`, which returns `{ ws, meta }`
  objects (src/room.js:2,8). As written, the ES-module import of a name room.js
  does not export stops websocket.js, and with it the server, from loading.
  The model reconciles the two: it has one membership query, the one in
  room.js, and the dispatcher reads each member's `ws` and `meta` from its
  result. The modelled `joined` reply and the modelled fan-out are what the
  code does only once that mismatch is reconciled. With room.js's result as
  it stands, two lines throw:
  - src/websocket.js:49, `c[1].language` on a `{ ws, meta }` object, throws
    on every join after the entry is stored. The sender then gets
    `Error processing message` instead of `joined`.
  - src/websocket.js:88, destructuring `[clientWs, meta]` from a
    `{ ws, meta }` object, throws on the first member of a non-empty room.
- JSON `null` parses, but the log line that reads `msg.type` inside the parsing
  `try` (src/index.js:48) throws. So `null` takes the non-JSON path and becomes
  an utterance with text `"null"` (`Server.Decode`, `Server.NullFrameIsText`).
- In `translateText`, a truthy text that is not a string throws at the log
  line's `text.substring` (src/translation.js:42), inside the `try`. So it is
  returned unchanged and no request is sent.
- A falsy text is translated to `""`, not returned as is (src/translation.js:22).
  This only shows when the member's language differs from the utterance's.

## Model

| member | source | states |
|---|---|---|
| JsValues.NatDigits | src/room.js:3-7 | the decimal text of a natural number is non-empty, all digits, and a single digit exactly below 10 |
| JsValues.NatDigitsValue | src/room.js:3-7 | the digits of `n`, read back most significant first, are `n`, and a positive `n` has no leading zero |
| JsValues.ToStr | src/room.js:3-7 | `String(v)` is empty only for the empty string; a safe integer's text reads back as the number (`DecimalValue`) and distinct numbers print differently (`NumberTextInjective`) |
| JsValues.DecimalValue | src/room.js:3-7 | `String(n)` of a safe integer (`Num` carries no other) is `-` followed by the digits of `-n` when negative and the digits of `n` otherwise, and reads back as `n` |
| JsValues.NatDigitsInjective | src/room.js:3-7 | two naturals with the same decimal text are equal |
| JsValues.SignOfText | src/room.js:3-7 | `String(n)` starts with `-` exactly when `n` is negative |
| JsValues.NumberTextInjective | src/room.js:3-7 | `String(a) === String(b)` for numbers only when `a == b`, so distinct numeric room ids never share a room |
| Registry.UpsertOrder | src/websocket.js:42 | the key order after `set`: the old order is a prefix of the new one, the keys are the old ones plus the set key, and it grows by one exactly for a new key |
| Registry.Without | src/websocket.js:28 | the key order after `delete`: exactly the other keys remain, no longer than before, still without repeats |
| Registry.WithoutKeepsOrder | src/websocket.js:28 | deleting a key keeps the relative iteration order of the keys that remain |
| Registry.WithoutAbsent | src/websocket.js:23-29 | deleting a key that is not registered leaves the iteration order as it was |
| Registry.UpsertWellFormed | src/websocket.js:42 | after `set`, every key is listed exactly once in the iteration order |
| Registry.DeleteWellFormed | src/websocket.js:28 | after `delete`, every key is listed exactly once in the iteration order |
| Registry.RegistrySize | src/index.js:9 | the registry has as many entries as its iteration order lists |
| Registry.Registry.constructor | src/index.js:9 | the registry starts empty |
| Registry.Registry.Get | src/websocket.js:24 | `clients.get(ws)` gives the stored entry exactly when there is one, and nothing otherwise |
| Registry.Registry.Set | src/websocket.js:42 | the sender's entry is replaced or added, no other entry changes, an existing key keeps its place and a new key goes last |
| Registry.Registry.Delete | src/websocket.js:28 | the entry is removed, others unchanged and in the same order; removing an absent key is a no-op |
| Room.RoomMembers | src/room.js:2-13 | each returned pair is an entry actually in the registry, under its own key, whose `String(roomId)` equals the requested key; never more pairs than keys |
| Room.GetClientsInRoom | src/room.js:2-13 | the loop over the registry returns exactly `RoomMembers` for `String(roomId)`; it only reads the registry |
| Room.RoomMembersComplete | src/room.js:6-9 | every entry whose room id normalises to the key is returned |
| Room.RoomMembership | src/room.js:3-10 | a pair is returned if and only if it is a registry entry whose `String(roomId)` equals the key |
| Room.RoomMembersOrdered | src/room.js:6-9 | returned pairs follow registry iteration order |
| Room.RoomMembersStep | src/room.js:6-10 | visiting one more entry appends it exactly when its `String(roomId)` equals the key |
| Room.RoomMembersDistinct | src/room.js:6-9 | no connection is returned twice |
| Room.RoomMembersSize | src/room.js:4-12 | the result is at most the registry's size; an empty registry gives an empty result |
| Room.EmptyRoom | src/room.js:6-12 | a room id no entry normalises to has no members |
| Room.NumericRoomIdMatchesText | src/room.js:3-7 | an entry with numeric room id `n`, a safe integer, is in the room named by the decimal text of `n`, and in the room of number `k` only when `k == n` |
| Translation.TranslateText | src/translation.js:21-86 | never fails; asks the service exactly when text is a non-empty string, target truthy and different from source, and configuration complete, with exactly those arguments; otherwise returns `""` for falsy text and the text itself for the rest; after a request, the first translation or else the original text |
| Translation.EmptyTextFirst | src/translation.js:22 | a falsy text gives `""` whatever the languages and configuration, with no request |
| Translation.SameLanguageUnchanged | src/translation.js:22-27 | for truthy text, a missing target or equal languages return it unchanged, with no request, configured or not (falsy text gives `""` first, `EmptyTextFirst`) |
| Translation.UnconfiguredIsIdentity | src/translation.js:4-33 | with endpoint, key or region missing, truthy text comes back unchanged and the service is never asked |
| Translation.FailureFallsBack | src/translation.js:65-72 | a failed request, or an answer without translations or with an empty list, returns the original text |
| Translation.FirstTranslationWins | src/translation.js:74-76 | otherwise the result is the first translation's text |
| Dispatcher.FanOut | src/websocket.js:88-141 | one delivery per member, in membership order, each addressed to that member and carrying its transcription |
| Dispatcher.FanOutCalls | src/websocket.js:95-109 | at most one translation request per member; each carries the utterance's text and language, and none targets the utterance's own language; none at all without configuration |
| Dispatcher.NeedsTranslation | src/websocket.js:95-102 | the members a request can be for: exactly those whose language is set and differs from the utterance's |
| Dispatcher.FanOutCallsExact | src/websocket.js:88-109 | with the adapter configured and a non-empty string text, the requests are exactly one per member needing a translation, in membership order, into that member's language; otherwise there are none |
| Dispatcher.CallForDifferingMember | src/websocket.js:102-109 | a member whose language is set and differs from the utterance's is asked for when the adapter is configured and the text is a non-empty string |
| Dispatcher.MemberText | src/websocket.js:95-118 | same language: the original text and no request; otherwise a request is made exactly when `translateText`'s guards pass, from the utterance's language into the member's |
| Dispatcher.TranscriptionFor | src/websocket.js:121-129 | a transcription into the member's language from the utterance's, whose `utteranceId` is truthy or `null`, carrying the original text when the languages are identical |
| Dispatcher.Dispatch | src/websocket.js:4-21 | the registry stays well-formed after any message |
| Dispatcher.HandleMessage | src/websocket.js:12-20 | routing on `type` has exactly the effect `Dispatch` describes on the registry, the outbox and the translation service |
| Dispatcher.HandleDisconnect | src/websocket.js:23-29 | the sender's entry is removed, no other changes, nothing is sent |
| Dispatcher.HandleJoin | src/websocket.js:31-60 | the message's three fields are stored for the sender, unvalidated, and one `joined` goes to the sender |
| Dispatcher.HandleUtterance | src/websocket.js:62-144 | the loop sends exactly the fan-out for the room's members and issues exactly the fan-out's requests; the registry and the sender's entry are not touched |
| Dispatcher.Broadcast | src/websocket.js:88-141 | the per-member loop appends exactly the fan-out to the outbox and makes exactly the fan-out's requests, in order |
| Dispatcher.SendTranscription | src/websocket.js:95-140 | one member's step appends exactly that member's transcription to the outbox and makes exactly the request `MemberText` describes: none when the languages are identical, otherwise the adapter's |
| Dispatcher.UnknownTypeReply | src/websocket.js:17-19 | any other type gets exactly one `Unknown type` error to the sender and changes nothing |
| Dispatcher.JoinEffect | src/websocket.js:32-57 | a join overwrites or adds only the sender's entry, keeps an existing key's position, sends one `joined` to the sender only and asks nothing of the service |
| Dispatcher.JoinMembership | src/websocket.js:42 | after a join the sender belongs to the joined room, with the stored entry, and to no other room |
| Dispatcher.UtteranceEffect | src/websocket.js:62-141 | an utterance leaves the registry unchanged and sends one transcription per member in order, with the fields described below this table; an empty room gets nothing and no request |
| Dispatcher.UnconfiguredFanOut | src/websocket.js:95-118 | with truthy text and no translation configuration, every member receives the original text and no request is made |
| Dispatcher.FalsyTextFanOut | src/websocket.js:95-118 | a falsy text reaches members of the utterance's language unchanged and every other member as `""` (src/translation.js:22), with no request |
| Dispatcher.DisconnectEffect | src/websocket.js:23-29 | after a disconnect the connection is in no room and every other connection is in exactly the rooms it was in |
| Dispatcher.MemberHears | src/websocket.js:75-141 | every registered connection whose room id has the utterance room's string form receives a transcription in its own language, whoever sent it |
| Dispatcher.JoinedMemberHears | src/websocket.js:42-141 | a connection that joins a room hears the next utterance to that room, dispatched straight after the join, in the language it joined with |
| Transport.Outbox.Send | src/websocket.js:136 | each `send` appends exactly one delivery, to that connection with that payload, after every earlier one |
| Server.FallbackUtterance | src/index.js:68-75 | the synthesised message is an object of type `utterance` whose text is the raw frame (the other fields in `FallbackFields`) |
| Server.Decode | src/index.js:44-79 | the result is always a readable message; a parsed frame whose `type` can be read is passed on unchanged |
| Server.FallbackFields | src/index.js:57-75 | a non-JSON frame becomes an utterance whose text is the raw frame, with speaker, room and language taken from the sender's entry when truthy and otherwise `"unknown"`, `"default-room"`, `"pt-BR"`; none of them is falsy |
| Server.NullFrameIsText | src/index.js:44-51 | JSON `null` takes the same path as a frame that is not JSON |
| Server.ParsedUnknownTypeIsRejected | src/index.js:44-51 | valid JSON with an unknown type gets the unknown-type error, not the text fallback |
| Server.UnjoinedTextGoesToDefaultRoom | src/index.js:57-82 | text from a connection that has not joined goes to the members of `"default-room"` as `pt-BR` from `"unknown"`, and changes no entry |
| Server.OnMessage | src/index.js:26-82 | decoding only reads the sender's entry, and the frame then has exactly the effect `Dispatch` gives for the decoded message |
| Server.OnClose | src/index.js:95-108 | closing removes the connection's entry through the disconnect handler and sends nothing |

For `Dispatcher.UtteranceEffect`, each transcription has these fields:

- its target language is the member's language;
- `originalLanguage`, `speakerId` and `roomId` come from the message;
- `utteranceId` is the message's id, or `null` when that id is falsy;
- its text is the original when the languages are equal;
- otherwise its text is the adapter's result.

## Left out

- The WebSocket server, the port and the transport. Each `ws.send` is an
  append to the outbox (`Transport.Outbox`). Serialisation with
  `JSON.stringify` is not modelled, including dropping `undefined` fields.
- The HTTP request to the translation service: URL, headers and `api-version`.
  Its outcome is an input, a function from the request to `RequestFailed` or
  to the answer's translation texts. A `translations` value that is not an
  array, and an element that is not an object, are not modelled. Being a
  function, the gateway answers identical requests identically, so within
  one fan-out two members with the same language always get the same
  outcome. The real service can fail once and succeed the next time.
- `JSON.parse` is an input (`Parse`), and it is not tied to the raw text.
  Field values are limited to `undefined`, `null`, booleans, safe integers
  (magnitude at most 2^53 - 1) and strings. JSON objects and arrays as field
  values are out of scope, with their `String()` forms and reference
  identity. So are non-integer numbers, `NaN` and the exponent form
  `String()` uses from 1e21.
- JsValues.ToStr: larger integers are not modelled, because `String` prints
  the shortest digits that round-trip through a double, not the exact
  decimal. A join with room id `18446744073709551616` (2^64) is stored as
  that double, and `String` gives `"18446744073709552000"`. So an utterance
  to `"18446744073709551616"` does not reach the joiner, and one to
  `"18446744073709552000"` does. `JsValues.DecimalValue` and
  `Room.NumericRoomIdMatchesText` are stated for safe integers only, for the
  same reason.
- `Date.now()` in the synthesised `utteranceId` is the parameter `stamp`.
  `connectionCounter`, connection numbers, timestamps and every console line
  are left out.
- Source discrepancy: the `getRoomClients` import matches no export of room.js,
  and its call shape differs from `getClientsInRoom`'s. The dispatcher uses
  `getClientsInRoom`'s result, read by field. The join handler's membership
  count and language list (src/websocket.js:45-51) are left out: once the
  mismatch is reconciled they only feed log lines; as written, line 49 throws
  (see above).
- The outer error frame `Error processing message` (src/index.js:83-91). In
  the model nothing in the dispatch can throw. `translateText` catches
  everything, fan-out sends are caught, and JSON `null` never reaches the
  dispatcher. The frame could only be reached through the unreconciled
  `getRoomClients` call, or through a `send` that throws outside a `try`;
  neither is modelled.
- The fallback at src/websocket.js:111-115 for a translation that throws. It
  is unreachable because `translateText` never throws, so the model has no
  such path.
- Send failures. The outbox records each send attempt. In the fan-out a
  failing send is caught and the loop goes on (src/websocket.js:135-140), so
  the recorded attempts are the same. Send failures outside a `try` are not
  modelled.
- Concurrency. The `await` inside the fan-out lets other messages interleave,
  and nothing orders utterances within a room. The model handles one message
  at a time.
