/** What a handler produces: a status code, a JSON body, and the engine calls
    it made on the way. */
module Http {
  import opened Types
  import opened Consensus

  const StatusOK: int := 200
  const StatusUnprocessableEntity: int := 422
  const StatusInternalServerError: int := 500
  const StatusServiceUnavailable: int := 503

  /** The timeout the write handlers give a proposal, in milliseconds. */
  const ApplyTimeoutMs: nat := 500

  datatype Body =
    | ErrorBody(error: string)
    | DataBody(message: string, key: string, value: Json)
    | StatsBody(message: string, stats: map<string, string>)

  datatype Reply = Reply(status: int, body: Body)

  datatype Outcome = Outcome(reply: Reply, calls: seq<EngineCall>)

  function Fail(status: int, error: string): Outcome
  {
    Outcome(Reply(status, ErrorBody(error)), [])
  }

  /** The envelope the SET handler proposes. */
  function SetCommand(key: string, value: Json): CommandPayload
  {
    CommandPayload("SET", key, value)
  }

  /** The envelope the DELETE handler proposes: its value is nil. */
  function DeleteCommand(key: string): CommandPayload
  {
    CommandPayload("DELETE", key, Null)
  }
}
