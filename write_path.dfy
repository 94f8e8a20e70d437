/** The write path end to end on one node: a handler's proposal, committed and
    applied by the state machine, then read back through the read path. */
module WritePath {
  import opened Types
  import opened Text
  import opened Consensus
  import opened Http
  import opened Fsm
  import StoreHandler
  import DeleteHandler
  import GetHandler

  /** What encoding/json marshals a nil value to: the four bytes "null". */
  const NullText: Bytes := [0x6e, 0x75, 0x6c, 0x6c]

  /** A committed SET envelope is applied as set of its key and value. */
  lemma ApplyCommittedSet(db: Db, c: Codec, key: string, value: Json, data: Bytes, fault: StorageFault)
    requires Sound(c)
    requires c.encodePayload(SetCommand(key, value)) == Ok(data)
    ensures var e := SetStep(db, c, key, value, fault);
            ApplyStep(db, c, LogEntry(LogCommand, data), fault) == Applied(Some(ApplyResponse(e.err, value)), e.db)
  {
    assert Command(c, LogEntry(LogCommand, data)) == Some(SetCommand(key, value));
    ParseOpName(SetOp);
  }

  /** A committed DELETE envelope is applied as delete of its key. */
  lemma ApplyCommittedDelete(db: Db, c: Codec, key: string, data: Bytes, fault: StorageFault)
    requires Sound(c)
    requires c.encodePayload(DeleteCommand(key)) == Ok(data)
    ensures var e := DeleteStep(db, key, fault);
            ApplyStep(db, c, LogEntry(LogCommand, data), fault) == Applied(Some(ApplyResponse(e.err, Null)), e.db)
  {
    assert Command(c, LogEntry(LogCommand, data)) == Some(DeleteCommand(key));
    ParseOpName(DeleteOp);
  }

  /** A SET of a value on the leader, once committed and applied, answers 200
      with the trimmed key and the value, and a later local GET of that key
      returns the same value. */
  lemma StoreThenGet(db: Db, c: Codec, form: StoreHandler.StoreForm, data: Bytes, param: string)
    requires Sound(c)
    requires TrimSpace(form.key) != []
    requires c.encodePayload(SetCommand(TrimSpace(form.key), form.value)) == Ok(data)
    requires c.encodeValue(form.value).Ok? && |c.encodeValue(form.value).value| > 0
    requires TrimSpace(param) == TrimSpace(form.key)
    ensures var applied := ApplyStep(db, c, LogEntry(LogCommand, data), NoFault);
            var stored := StoreHandler.Store(Ok(form), Leader, c, ApplyFuture(None, applied.response));
            && stored.calls == [Propose(data, ApplyTimeoutMs)]
            && stored.reply == Reply(StatusOK, DataBody("success persisting data", TrimSpace(form.key), form.value))
            && applied.db - {TrimSpace(form.key)} == db - {TrimSpace(form.key)}
            && GetHandler.Get(param, applied.db, c, NoFault).reply ==
               Reply(StatusOK, DataBody("success fetching data", TrimSpace(form.key), form.value))
  {
    var key := TrimSpace(form.key);
    ApplyCommittedSet(db, c, key, form.value, data, NoFault);
    var bytes := c.encodeValue(form.value).value;
    assert c.decodeValue(bytes) == Ok(form.value);
    assert Fetch(db[key := bytes], c, key, NoFault) == Fetched(form.value, None);
  }

  /** A DELETE on the leader, once committed and applied, answers 200 with a
      null value; the key is gone, and a later local GET is a 503 "missing"
      answer while the state machine's own GET reports the key as not found. */
  lemma DeleteThenGet(db: Db, c: Codec, param: string, data: Bytes, getParam: string)
    requires Sound(c)
    requires TrimSpace(param) != []
    requires c.encodePayload(DeleteCommand(TrimSpace(param))) == Ok(data)
    requires TrimSpace(getParam) == TrimSpace(param)
    ensures var applied := ApplyStep(db, c, LogEntry(LogCommand, data), NoFault);
            var deleted := DeleteHandler.Delete(param, Leader, c, ApplyFuture(None, applied.response));
            && deleted.calls == [Propose(data, ApplyTimeoutMs)]
            && deleted.reply == Reply(StatusOK, DataBody("success removing data", TrimSpace(param), Null))
            && applied.db == db - {TrimSpace(param)}
            && GetHandler.Get(getParam, applied.db, c, NoFault).reply ==
               Reply(StatusServiceUnavailable, ErrorBody(ErrKeyNotFound))
            && Fetch(applied.db, c, TrimSpace(param), NoFault) == Fetched(EmptyObject, Some(ErrKeyNotFound))
  {
    ApplyCommittedDelete(db, c, TrimSpace(param), data, NoFault);
  }

  /** A SET whose value is absent is not skipped: nil marshals to "null",
      which is written over whatever the key held, and reads back as null. */
  lemma AbsentValueOverwrites(db: Db, c: Codec, key: string, data: Bytes)
    requires Sound(c)
    requires c.encodeValue(Null) == Ok(NullText)
    requires key != []
    requires c.encodePayload(SetCommand(key, Null)) == Ok(data)
    ensures var applied := ApplyStep(db, c, LogEntry(LogCommand, data), NoFault);
            && applied.db == db[key := NullText]
            && applied.response == Some(ApplyResponse(None, Null))
            && Fetch(applied.db, c, key, NoFault) == Fetched(Null, None)
  {
    ApplyCommittedSet(db, c, key, Null, data, NoFault);
    assert c.decodeValue(NullText) == Ok(Null);
  }

  /** The SET handler ignores the response's Error: a commit whose write
      storage refused still answers 200, and storage is unchanged. */
  lemma StoreReportsRefusedWrite(db: Db, c: Codec, form: StoreHandler.StoreForm, data: Bytes, e: Error)
    requires Sound(c)
    requires TrimSpace(form.key) != []
    requires c.encodePayload(SetCommand(TrimSpace(form.key), form.value)) == Ok(data)
    requires c.encodeValue(form.value).Ok? && |c.encodeValue(form.value).value| > 0
    ensures var applied := ApplyStep(db, c, LogEntry(LogCommand, data), OpFails(e));
            && applied.db == db
            && applied.response == Some(ApplyResponse(Some(e), form.value))
            && StoreHandler.Store(Ok(form), Leader, c, ApplyFuture(None, applied.response)).reply.status == StatusOK
  {
    ApplyCommittedSet(db, c, TrimSpace(form.key), form.value, data, OpFails(e));
  }

  /** A DELETE whose deferred commit fails reports no error, yet the key is
      still there: the commit's error is dropped. */
  lemma DeleteHidesCommitFailure(db: Db, c: Codec, param: string, data: Bytes, e: Error)
    requires Sound(c)
    requires TrimSpace(param) != [] && TrimSpace(param) in db
    requires c.encodePayload(DeleteCommand(TrimSpace(param))) == Ok(data)
    ensures var applied := ApplyStep(db, c, LogEntry(LogCommand, data), CommitFails(e));
            && applied.db == db
            && applied.response == Some(ApplyResponse(None, Null))
            && DeleteHandler.Delete(param, Leader, c, ApplyFuture(None, applied.response)).reply.status == StatusOK
  {
    ApplyCommittedDelete(db, c, TrimSpace(param), data, CommitFails(e));
  }
}
