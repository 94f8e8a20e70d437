/** The face of the consensus engine the node talks to: its role, the log
    entries it hands to the state machine, the future a proposal returns, and
    the calls a handler may make on it. */
module Consensus {
  import opened Types

  /** raft.RaftState */
  datatype Role = Follower | Candidate | Leader | Shutdown

  /** raft.LogType */
  datatype LogType =
    | LogCommand
    | LogNoop
    | LogAddPeerDeprecated
    | LogRemovePeerDeprecated
    | LogBarrier
    | LogConfiguration

  /** A committed log entry as the state machine receives it. */
  datatype LogEntry = LogEntry(kind: LogType, data: Bytes)

  /** The future of a proposal: its Error() and its Response(). The response
      is whatever the state machine's Apply returned for the entry: nil or an
      ApplyResponse. */
  datatype ApplyFuture = ApplyFuture(error: Option<Error>, response: Option<ApplyResponse>)

  /** A call a handler makes on the engine (State() and Stats() are read as
      inputs and are not recorded). */
  datatype EngineCall =
    | Propose(data: Bytes, timeoutMs: nat)
    | GetConfiguration
    | AddVoter(id: string, address: string, prevIndex: nat, timeout: nat)
    | RemoveServer(id: string, prevIndex: nat, timeout: nat)
}
