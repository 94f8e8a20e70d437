/** Values shared by the state machine and the HTTP layer: the JSON values a
    client may store, the command envelope carried through the replicated log,
    the applier's response, and the JSON codec the node relies on. */
module Types {

  /** An error, represented by the text its Error() method returns. */
  type Error = string

  type Bytes = seq<bv8>

  datatype Option<T> = None | Some(value: T)

  datatype Result<T> = Ok(value: T) | Err(error: Error)

  /** A JSON value as encoding/json decodes it into an interface{}:
      nil, bool, float64, string, []interface{} or map[string]interface{}. */
  datatype Json =
    | Null
    | Bool(b: bool)
    | Number(n: real)
    | Str(s: string)
    | Array(items: seq<Json>)
    | Object(fields: map<string, Json>)

  /** The `map[string]interface{}{}` the applier's get answers with on error. */
  const EmptyObject: Json := Object(map[])

  /** The command envelope written to the log: {Operation, Key, Value}. */
  datatype CommandPayload = CommandPayload(operation: string, key: string, value: Json)

  /** What the applier hands back to the proposer: {Error, Data}. */
  datatype ApplyResponse = ApplyResponse(error: Option<Error>, data: Json)

  /** The JSON codec: marshalling and unmarshalling of stored values and of
      command envelopes. Either direction may fail. */
  datatype Codec = Codec(
    encodeValue: Json -> Result<Bytes>,
    decodeValue: Bytes -> Result<Json>,
    encodePayload: CommandPayload -> Result<Bytes>,
    decodePayload: Bytes -> Result<CommandPayload>)

  /** The round-trip hypothesis on the codec: whatever it encodes, it decodes
      back to the same value. */
  ghost predicate Sound(c: Codec)
  {
    && (forall v :: c.encodeValue(v).Ok? ==> c.decodeValue(c.encodeValue(v).value) == Ok(v))
    && (forall p :: c.encodePayload(p).Ok? ==> c.decodePayload(c.encodePayload(p).value) == Ok(p))
  }
}
