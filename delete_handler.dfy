/** DELETE /api/v1/store/:key: the DELETE write path. Unlike the SET path it
    answers a follower with 422, and a marshalling failure with 422 too. */
module DeleteHandler {
  import opened Types
  import opened Text
  import opened Consensus
  import opened Http

  /** Delete, given the key path parameter, the node's role, the codec, and the
      future the engine returns if a proposal is made. */
  function Delete(param: string, role: Role, c: Codec, future: ApplyFuture): (r: Outcome)
    // the guards, in order
    ensures TrimSpace(param) == [] ==> r == Fail(StatusUnprocessableEntity, "key is empty")
    ensures TrimSpace(param) != [] && role != Leader ==> r == Fail(StatusUnprocessableEntity, "not the leader")
    ensures TrimSpace(param) != [] && role == Leader && c.encodePayload(DeleteCommand(TrimSpace(param))).Err? ==>
              r == Fail(StatusUnprocessableEntity, "error preparing remove data payload: " +
                        c.encodePayload(DeleteCommand(TrimSpace(param))).error)
    // at most one proposal: the DELETE envelope of the trimmed key with a nil value, with a 500 ms timeout
    ensures |r.calls| <= 1
    ensures r.calls != [] <==> TrimSpace(param) != [] && role == Leader &&
                               c.encodePayload(DeleteCommand(TrimSpace(param))).Ok?
    ensures r.calls != [] ==>
              r.calls == [Propose(c.encodePayload(DeleteCommand(TrimSpace(param))).value, ApplyTimeoutMs)]
    // after the proposal
    ensures r.calls != [] && future.error.Some? ==>
              r.reply == Reply(StatusUnprocessableEntity,
                               ErrorBody("error removing data in raft cluster: " + future.error.value))
    ensures r.calls != [] && future.error.None? && future.response.None? ==>
              r.reply == Reply(StatusUnprocessableEntity, ErrorBody("error response is not match apply response"))
    // every failure is a 422; success whatever the response's Error says, with a null value
    ensures r.reply.status in {StatusOK, StatusUnprocessableEntity}
    ensures r.reply.status == StatusOK <==> r.calls != [] && future.error.None? && future.response.Some?
    ensures r.reply.status == StatusOK ==> r.reply.body == DataBody("success removing data", TrimSpace(param), Null)
  {
    var key := TrimSpace(param);
    if key == [] then Fail(StatusUnprocessableEntity, "key is empty")
    else if role != Leader then Fail(StatusUnprocessableEntity, "not the leader")
    else match c.encodePayload(DeleteCommand(key))
      case Err(e) => Fail(StatusUnprocessableEntity, "error preparing remove data payload: " + e)
      case Ok(data) =>
        var calls := [Propose(data, ApplyTimeoutMs)];
        if future.error.Some? then
          Outcome(Reply(StatusUnprocessableEntity,
                        ErrorBody("error removing data in raft cluster: " + future.error.value)), calls)
        else if future.response.None? then
          Outcome(Reply(StatusUnprocessableEntity, ErrorBody("error response is not match apply response")), calls)
        else
          Outcome(Reply(StatusOK, DataBody("success removing data", key, Null)), calls)
  }
}
