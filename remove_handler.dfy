/** POST /api/v1/raft/remove: remove a member, on the leader only, once the
    cluster configuration has been read. */
module RemoveHandler {
  import opened Types
  import opened Consensus
  import opened Http

  /** requestRemove */
  datatype RemoveForm = RemoveForm(nodeId: string)

  /** Remove, given the result of binding the body, the node's role, the error
      (if any) reading the configuration, the error (if any) RemoveServer
      returns, and the engine's stats. */
  function Remove(bind: Result<RemoveForm>, role: Role, configError: Option<Error>, removeError: Option<Error>,
                  stats: map<string, string>): (r: Outcome)
    ensures bind.Err? ==> r == Fail(StatusUnprocessableEntity, "error binding: " + bind.error)
    // a follower does not read the configuration and removes nobody
    ensures bind.Ok? && role != Leader ==> r == Fail(StatusServiceUnavailable, "not the leader")
    ensures bind.Ok? && role == Leader && configError.Some? ==>
              r == Outcome(Reply(StatusServiceUnavailable, ErrorBody(configError.value)), [GetConfiguration])
    // the configuration is read first; RemoveServer gets the body's node id, prevIndex 0, timeout 0
    ensures r.calls == [] || r.calls == [GetConfiguration] ||
            (bind.Ok? && r.calls == [GetConfiguration, RemoveServer(bind.value.nodeId, 0, 0)])
    ensures |r.calls| == 2 <==> bind.Ok? && role == Leader && configError.None?
    ensures |r.calls| == 2 && removeError.Some? ==>
              r.reply == Reply(StatusServiceUnavailable, ErrorBody(removeError.value))
    ensures r.reply.status in {StatusOK, StatusUnprocessableEntity, StatusServiceUnavailable}
    ensures r.reply.status == StatusOK <==> |r.calls| == 2 && removeError.None?
    ensures r.reply.status == StatusOK ==>
              r.reply.body == StatsBody("node " + bind.value.nodeId + " removed successfully", stats)
  {
    match bind
    case Err(e) => Fail(StatusUnprocessableEntity, "error binding: " + e)
    case Ok(form) =>
      if role != Leader then Fail(StatusServiceUnavailable, "not the leader")
      else if configError.Some? then
        Outcome(Reply(StatusServiceUnavailable, ErrorBody(configError.value)), [GetConfiguration])
      else
        var calls := [GetConfiguration, RemoveServer(form.nodeId, 0, 0)];
        if removeError.Some? then Outcome(Reply(StatusServiceUnavailable, ErrorBody(removeError.value)), calls)
        else Outcome(Reply(StatusOK, StatsBody("node " + form.nodeId + " removed successfully", stats)), calls)
  }
}
