/** POST /api/v1/raft/join: add a voting member, on the leader only, once the
    cluster configuration has been read. */
module JoinHandler {
  import opened Types
  import opened Consensus
  import opened Http

  /** requestJoin */
  datatype JoinForm = JoinForm(nodeId: string, raftAddress: string)

  /** Join, given the result of binding the body, the node's role, the error
      (if any) reading the configuration, the error (if any) AddVoter returns,
      and the engine's stats. */
  function Join(bind: Result<JoinForm>, role: Role, configError: Option<Error>, addError: Option<Error>,
                stats: map<string, string>): (r: Outcome)
    ensures bind.Err? ==> r == Fail(StatusUnprocessableEntity, "error binding: " + bind.error)
    // a follower does not read the configuration and adds nobody
    ensures bind.Ok? && role != Leader ==> r == Fail(StatusServiceUnavailable, "not the leader")
    ensures bind.Ok? && role == Leader && configError.Some? ==>
              r == Outcome(Reply(StatusServiceUnavailable, ErrorBody(configError.value)), [GetConfiguration])
    // the configuration is read first; AddVoter gets the body's fields as they are, prevIndex 0, timeout 0
    ensures r.calls == [] || r.calls == [GetConfiguration] ||
            (bind.Ok? && r.calls == [GetConfiguration, AddVoter(bind.value.nodeId, bind.value.raftAddress, 0, 0)])
    ensures |r.calls| == 2 <==> bind.Ok? && role == Leader && configError.None?
    ensures |r.calls| == 2 && addError.Some? ==> r.reply == Reply(StatusServiceUnavailable, ErrorBody(addError.value))
    ensures r.reply.status in {StatusOK, StatusUnprocessableEntity, StatusServiceUnavailable}
    ensures r.reply.status == StatusOK <==> |r.calls| == 2 && addError.None?
    ensures r.reply.status == StatusOK ==>
              r.reply.body == StatsBody("node " + bind.value.nodeId + " at " + bind.value.raftAddress +
                                        " joined successfully", stats)
  {
    match bind
    case Err(e) => Fail(StatusUnprocessableEntity, "error binding: " + e)
    case Ok(form) =>
      if role != Leader then Fail(StatusServiceUnavailable, "not the leader")
      else if configError.Some? then
        Outcome(Reply(StatusServiceUnavailable, ErrorBody(configError.value)), [GetConfiguration])
      else
        var calls := [GetConfiguration, AddVoter(form.nodeId, form.raftAddress, 0, 0)];
        if addError.Some? then Outcome(Reply(StatusServiceUnavailable, ErrorBody(addError.value)), calls)
        else
          var message := "node " + form.nodeId + " at " + form.raftAddress + " joined successfully";
          Outcome(Reply(StatusOK, StatsBody(message, stats)), calls)
  }
}
