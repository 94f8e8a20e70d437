/** GET /api/v1/store/:key: the local read path. It reads this node's storage
    directly in a read-only transaction: no role check, no proposal. */
module GetHandler {
  import opened Types
  import opened Text
  import opened Http
  import opened Fsm

  /** Get, given the key path parameter, the local storage, the codec, and the
      outcome of the read-only transaction. Its answer agrees with the state
      machine's own get on the trimmed key. */
  function Get(param: string, db: Db, c: Codec, fault: StorageFault): (r: Outcome)
    ensures r.calls == []
    ensures r.reply.status in {StatusOK, StatusUnprocessableEntity, StatusServiceUnavailable}
    ensures r.reply.status == StatusUnprocessableEntity <==> TrimSpace(param) == []
    ensures TrimSpace(param) == [] ==> r.reply.body == ErrorBody("key is required")
    // a missing key or a failed lookup is a 503 with the storage error's text
    ensures TrimSpace(param) != [] && (fault.OpFails? || TrimSpace(param) !in db) ==>
              r.reply.status == StatusServiceUnavailable
    ensures TrimSpace(param) != [] && !fault.OpFails? && TrimSpace(param) !in db ==>
              r.reply.body == ErrorBody(ErrKeyNotFound)
    // empty stored bytes are a null value
    ensures TrimSpace(param) != [] && !fault.OpFails? && TrimSpace(param) in db && |db[TrimSpace(param)]| == 0 ==>
              r.reply == Reply(StatusOK, DataBody("success fetching data", TrimSpace(param), Null))
    // the same answer as the state machine's get
    ensures TrimSpace(param) != [] ==>
              var f := Fetch(db, c, TrimSpace(param), fault);
              && (r.reply.status == StatusOK <==> f.err.None?)
              && (f.err.None? ==> r.reply.body == DataBody("success fetching data", TrimSpace(param), f.data))
              && (f.err.Some? ==> r.reply == Reply(StatusServiceUnavailable, ErrorBody(f.err.value)))
  {
    var key := TrimSpace(param);
    if key == [] then Fail(StatusUnprocessableEntity, "key is required")
    else if fault.OpFails? then Fail(StatusServiceUnavailable, fault.err)
    else if key !in db then Fail(StatusServiceUnavailable, ErrKeyNotFound)
    else
      var value := db[key];
      var decoded := if |value| > 0 then c.decodeValue(value) else Ok(Null);
      match decoded
      case Err(e) => Fail(StatusServiceUnavailable, e)
      case Ok(data) => Outcome(Reply(StatusOK, DataBody("success fetching data", key, data)), [])
  }
}
