/** POST /api/v1/store: the SET write path. Binds {key, value}, trims the key,
    refuses followers, proposes a SET envelope to the consensus engine and
    answers from the future. */
module StoreHandler {
  import opened Types
  import opened Text
  import opened Consensus
  import opened Http

  /** requestStore */
  datatype StoreForm = StoreForm(key: string, value: Json)

  /** Store, given the result of binding the body, the node's role, the codec,
      and the future the engine returns if a proposal is made. */
  function Store(bind: Result<StoreForm>, role: Role, c: Codec, future: ApplyFuture): (r: Outcome)
    // the guards, in order
    ensures bind.Err? ==> r == Fail(StatusUnprocessableEntity, "error binding: " + bind.error)
    ensures bind.Ok? && TrimSpace(bind.value.key) == [] ==> r == Fail(StatusUnprocessableEntity, "key is required")
    ensures bind.Ok? && TrimSpace(bind.value.key) != [] && role != Leader ==>
              r == Fail(StatusServiceUnavailable, "not the leader")
    ensures bind.Ok? && TrimSpace(bind.value.key) != [] && role == Leader &&
            c.encodePayload(SetCommand(TrimSpace(bind.value.key), bind.value.value)).Err? ==>
              r == Fail(StatusInternalServerError, "error preparing saving data payload: " +
                        c.encodePayload(SetCommand(TrimSpace(bind.value.key), bind.value.value)).error)
    // at most one proposal: the SET envelope of the trimmed key and the value, with a 500 ms timeout
    ensures |r.calls| <= 1
    ensures r.calls != [] <==> bind.Ok? && TrimSpace(bind.value.key) != [] && role == Leader &&
                               c.encodePayload(SetCommand(TrimSpace(bind.value.key), bind.value.value)).Ok?
    ensures r.calls != [] ==>
              r.calls == [Propose(c.encodePayload(SetCommand(TrimSpace(bind.value.key), bind.value.value)).value,
                                  ApplyTimeoutMs)]
    // after the proposal
    ensures r.calls != [] && future.error.Some? ==>
              r.reply == Reply(StatusUnprocessableEntity,
                               ErrorBody("error persisting data in raft cluster: " + future.error.value))
    ensures r.calls != [] && future.error.None? && future.response.None? ==>
              r.reply == Reply(StatusUnprocessableEntity, ErrorBody("error response is not match apply response"))
    // success whatever the response's Error says, echoing the trimmed key and the value
    ensures r.reply.status == StatusOK <==> r.calls != [] && future.error.None? && future.response.Some?
    ensures r.reply.status == StatusOK ==>
              r.reply.body == DataBody("success persisting data", TrimSpace(bind.value.key), bind.value.value)
  {
    match bind
    case Err(e) => Fail(StatusUnprocessableEntity, "error binding: " + e)
    case Ok(form) =>
      var key := TrimSpace(form.key);
      if key == [] then Fail(StatusUnprocessableEntity, "key is required")
      else if role != Leader then Fail(StatusServiceUnavailable, "not the leader")
      else match c.encodePayload(SetCommand(key, form.value))
        case Err(e) => Fail(StatusInternalServerError, "error preparing saving data payload: " + e)
        case Ok(data) =>
          var calls := [Propose(data, ApplyTimeoutMs)];
          if future.error.Some? then
            Outcome(Reply(StatusUnprocessableEntity,
                          ErrorBody("error persisting data in raft cluster: " + future.error.value)), calls)
          else if future.response.None? then
            Outcome(Reply(StatusUnprocessableEntity, ErrorBody("error response is not match apply response")), calls)
          else
            Outcome(Reply(StatusOK, DataBody("success persisting data", key, form.value)), calls)
  }
}
