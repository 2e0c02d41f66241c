/** The relay's wire vocabulary: inbound frames after `JSON.parse`, the
    outbound payloads it sends, and the registry entry a join stores. */
module Protocol {
  import opened JsValues

  /** The identity of one transport connection (the `ws` object). */
  type ConnId = nat

  /** A parsed inbound frame: a JSON object (field name to value) or a
      top-level JSON scalar. */
  datatype Json = Object(fields: map<string, Value>) | Scalar(v: Value)

  /** Whether reading a property of the frame succeeds: reading `.type` of
      `null` (or `undefined`) throws in JavaScript. */
  predicate Dereferenceable(j: Json) {
    j.Object? || (j.v != Null && j.v != Undefined)
  }

  /** `msg.name`: a missing property, or any property of a scalar, is
      `undefined`. */
  function Get(j: Json, name: string): Value {
    if j.Object? && name in j.fields then j.fields[name] else Undefined
  }

  /** The registry entry `{ clientId, roomId, language }`. */
  datatype Meta = Meta(clientId: Value, roomId: Value, language: Value)

  /** An outbound payload. */
  datatype Outbound =
    | Joined(clientId: Value, roomId: Value)
    | Transcription(utteranceId: Value, speakerId: Value, roomId: Value,
                    originalLanguage: Value, targetLanguage: Value, text: Value)
    | Error(message: string)

  /** One `send` of a payload to a connection. */
  datatype Delivery = Delivery(to: ConnId, msg: Outbound)

  const UnknownType := "Unknown type"
}
