/** The no-op snapshot the state machine hands the consensus engine: the
    storage engine already holds every applied write, so there is nothing to
    persist and nothing to release. */
module Snapshot {
  import opened Types

  /** What a raft.SnapshotSink has received so far. */
  datatype Sink = Sink(id: string, written: Bytes, closed: bool, cancelled: bool)

  /** snapshotNoop: a handle with no state. */
  datatype SnapshotNoop = SnapshotNoop

  datatype Persisted = Persisted(err: Option<Error>, sink: Sink)

  datatype Created = Created(snapshot: SnapshotNoop, err: Option<Error>)

  /** Persist succeeds for every sink and leaves it exactly as it was: nothing
      is written, and the sink is neither closed nor cancelled. */
  function Persist(s: SnapshotNoop, sink: Sink): (r: Persisted)
    ensures r.err == None
    ensures r.sink == sink
  {
    Persisted(None, sink)
  }

  /** Release: there is nothing to give back. */
  function Release(s: SnapshotNoop): ()
  {
    ()
  }

  /** newSnapshotNoop never fails. */
  function NewSnapshotNoop(): (r: Created)
    ensures r.err == None
  {
    Created(SnapshotNoop, None)
  }
}
