/** The replicated state machine over a Badger key space (badgerFSM): applies
    committed log entries to local storage and rebuilds storage from a
    snapshot stream. Badger is a map from keys to bytes; each transaction meets
    a StorageFault that says whether it goes through. */
module Fsm {
  import opened Types
  import opened Text
  import opened Consensus
  import opened Snapshot

  type Db = map<string, Bytes>

  /** badger.ErrKeyNotFound */
  const ErrKeyNotFound: Error := "Key not found"
  /** badger.ErrEmptyKey: Badger refuses to read or write the empty key. */
  const ErrEmptyKey: Error := "Key cannot be empty"

  /** The outcome the storage engine gives one transaction: it goes through,
      its operation (Get, Set, Delete or reading the item) fails, or its
      Commit fails. A failed transaction changes nothing. */
  datatype StorageFault = NoFault | OpFails(err: Error) | CommitFails(err: Error)

  function Lookup(db: Db, key: string): Option<Bytes>
  {
    if key in db then Some(db[key]) else None
  }

  /** The error a storage call returns, and the storage afterwards. */
  datatype Effect = Effect(err: Option<Error>, db: Db)

  /** What get returns: the decoded data and the error. */
  datatype Fetched = Fetched(data: Json, err: Option<Error>)

  /** What Apply returns (nil or an ApplyResponse), and the storage afterwards. */
  datatype Applied = Applied(response: Option<ApplyResponse>, db: Db)

  // ---------------------------------------------------------------------
  // Operation names

  datatype Op = SetOp | GetOp | DeleteOp

  function OpName(op: Op): string
  {
    match op
    case SetOp => "SET"
    case GetOp => "GET"
    case DeleteOp => "DELETE"
  }

  /** The operation name as Apply compares it: trimmed, then upper-cased. */
  function Normalize(operation: string): string
  {
    ToUpper(TrimSpace(operation))
  }

  /** The operation Apply dispatches on, or None for an unknown one. */
  function ParseOp(operation: string): (r: Option<Op>)
    ensures r.Some? ==> OpName(r.value) == Normalize(operation)
    ensures r.None? <==> Normalize(operation) !in {"SET", "GET", "DELETE"}
  {
    var op := Normalize(operation);
    if op == "SET" then Some(SetOp)
    else if op == "GET" then Some(GetOp)
    else if op == "DELETE" then Some(DeleteOp)
    else None
  }

  /** A name without spaces at its ends is matched as its upper-case form. */
  lemma NormalizeTrimmed(name: string)
    requires IsTrimmed(name)
    ensures Normalize(name) == ToUpper(name)
  {
    TrimSpacePadded([], name, []);
    assert [] + name + [] == name;
  }

  /** Each operation's own name dispatches to it. */
  lemma ParseOpName(op: Op)
    ensures ParseOp(OpName(op)) == Some(op)
  {
    var name := OpName(op);
    assert IsTrimmed(name);
    NormalizeTrimmed(name);
    var upper := ToUpper(name);
    assert forall i | 0 <= i < |name| :: upper[i] == name[i];
    assert upper == name;
  }

  /** The operation is matched after trimming and upper-casing: spaces around
      it and the case of its letters do not matter. */
  lemma ParseOpIgnoresPadding(pre: string, word: string, post: string)
    requires AllSpace(pre) && AllSpace(post) && IsTrimmed(word)
    ensures ParseOp(pre + word + post) == ParseOp(word)
  {
    TrimSpacePadded(pre, word, post);
    NormalizeTrimmed(word);
  }

  /** " set " is dispatched as SET. */
  lemma PaddedLowerCaseSet()
    ensures ParseOp(" set ") == Some(SetOp)
  {
    assert " set " == " " + "set" + " ";
    assert IsSpace(' ');
    assert AllSpace(" ");
    assert IsTrimmed("set");
    ParseOpIgnoresPadding(" ", "set", " ");
    LowerCaseSet();
  }

  lemma LowerCaseSet()
    ensures ParseOp("set") == Some(SetOp)
  {
    NormalizeTrimmed("set");
    var upper := ToUpper("set");
    assert upper[0] == 'S' && upper[1] == 'E' && upper[2] == 'T';
    assert upper == "SET";
  }

  // ---------------------------------------------------------------------
  // Storage steps, as values

  /** The bytes a set of `value` under `key` leaves in storage, if it leaves
      any: the value encodes to a non-empty string, the key is not empty and
      the transaction goes through. */
  function Written(c: Codec, key: string, value: Json, fault: StorageFault): Option<Bytes>
  {
    match c.encodeValue(value)
    case Err(_) => None
    case Ok(data) => if |data| > 0 && key != [] && fault.NoFault? then Some(data) else None
  }

  /** set: marshal the value; an empty encoding writes nothing and is not an
      error; otherwise one write transaction, discarded on failure. */
  function SetStep(db: Db, c: Codec, key: string, value: Json, fault: StorageFault): (r: Effect)
    ensures r.db == (match Written(c, key, value, fault) case Some(data) => db[key := data] case None => db)
    ensures r.db - {key} == db - {key}
    ensures r.err.Some? ==> r.db == db
    ensures r.err.None? <==> c.encodeValue(value).Ok? &&
                             (|c.encodeValue(value).value| == 0 || Written(c, key, value, fault).Some?)
    // which error: the marshal error, then the empty key, then the transaction's
    ensures c.encodeValue(value).Err? ==> r.err == Some(c.encodeValue(value).error)
    ensures c.encodeValue(value).Ok? && |c.encodeValue(value).value| > 0 && key == [] ==> r.err == Some(ErrEmptyKey)
    ensures c.encodeValue(value).Ok? && |c.encodeValue(value).value| > 0 && key != [] && !fault.NoFault? ==>
              r.err == Some(fault.err)
  {
    match c.encodeValue(value)
    case Err(e) => Effect(Some(e), db)
    case Ok(data) =>
      if |data| == 0 then Effect(None, db)
      else if key == [] then Effect(Some(ErrEmptyKey), db)
      else match fault
        case OpFails(e) => Effect(Some(e), db)
        case CommitFails(e) => Effect(Some(e), db)
        case NoFault => Effect(None, db[key := data])
  }

  /** delete: one write transaction whose Commit runs deferred and whose
      Commit error is dropped. */
  function DeleteStep(db: Db, key: string, fault: StorageFault): (r: Effect)
    ensures r.db == db - {key} || r.db == db
    ensures r.db - {key} == db - {key}
    ensures r.err.Some? ==> r.db == db
    ensures key !in r.db <==> key !in db || (key != [] && fault.NoFault?)
    ensures r.err.None? <==> key != [] && !fault.OpFails?
    ensures key == [] ==> r.err == Some(ErrEmptyKey)
    ensures key != [] && fault.OpFails? ==> r.err == Some(fault.err)
  {
    if key == [] then Effect(Some(ErrEmptyKey), db)
    else match fault
      case OpFails(e) => Effect(Some(e), db)
      case CommitFails(_) => Effect(None, db)
      case NoFault => Effect(None, db - {key})
  }

  /** get: look the key up in a read-only transaction and decode non-empty
      bytes. Every error comes with an empty object as data; the read-only
      Commit's result is dropped. */
  function Fetch(db: Db, c: Codec, key: string, fault: StorageFault): (r: Fetched)
    ensures r.err.Some? ==> r.data == EmptyObject
    ensures key == [] ==> r.err == Some(ErrEmptyKey)
    ensures key != [] && fault.OpFails? ==> r.err == Some(fault.err)
    ensures key != [] && !fault.OpFails? && key !in db ==> r.err == Some(ErrKeyNotFound)
    ensures r.err.None? <==> key != [] && !fault.OpFails? && key in db &&
                             (|db[key]| == 0 || c.decodeValue(db[key]).Ok?)
    ensures r.err.None? && |db[key]| == 0 ==> r.data == Null
    ensures r.err.None? && |db[key]| > 0 ==> c.decodeValue(db[key]) == Ok(r.data)
    ensures key != [] && !fault.OpFails? && key in db && |db[key]| > 0 && c.decodeValue(db[key]).Err? ==>
              r.err == Some(c.decodeValue(db[key]).error)
  {
    if key == [] then Fetched(EmptyObject, Some(ErrEmptyKey))
    else if fault.OpFails? then Fetched(EmptyObject, Some(fault.err))
    else if key !in db then Fetched(EmptyObject, Some(ErrKeyNotFound))
    else
      var value := db[key];
      if |value| == 0 then Fetched(Null, None)
      else match c.decodeValue(value)
        case Err(e) => Fetched(EmptyObject, Some(e))
        case Ok(data) => Fetched(data, None)
  }

  /** The command an entry carries: only command entries whose data decodes. */
  function Command(c: Codec, entry: LogEntry): Option<CommandPayload>
  {
    if entry.kind == LogCommand then
      match c.decodePayload(entry.data)
      case Ok(p) => Some(p)
      case Err(_) => None
    else None
  }

  /** Apply: decode the entry and dispatch on its normalised operation. */
  function ApplyStep(db: Db, c: Codec, entry: LogEntry, fault: StorageFault): (r: Applied)
    // not a command, or not decodable: nil, storage untouched
    ensures Command(c, entry).None? ==> r == Applied(None, db)
    // a response exactly for the three known operations
    ensures r.response.Some? <==> Command(c, entry).Some? && ParseOp(Command(c, entry).value.operation).Some?
    ensures r.response.None? ==> r.db == db
    // only the command's own key may change, and only through SET or DELETE
    ensures Command(c, entry).Some? ==> r.db - {Command(c, entry).value.key} == db - {Command(c, entry).value.key}
    ensures r.db != db ==> Command(c, entry).Some? &&
                           ParseOp(Command(c, entry).value.operation) in {Some(SetOp), Some(DeleteOp)}
    // SET and DELETE echo the payload's value as Data
    ensures Command(c, entry).Some? && ParseOp(Command(c, entry).value.operation) in {Some(SetOp), Some(DeleteOp)} ==>
              r.response.Some? && r.response.value.data == Command(c, entry).value.value
    ensures Command(c, entry).Some? && ParseOp(Command(c, entry).value.operation) == Some(SetOp) ==>
              var p := Command(c, entry).value;
              var e := SetStep(db, c, p.key, p.value, fault);
              r.db == e.db && r.response.Some? && r.response.value.error == e.err
    ensures Command(c, entry).Some? && ParseOp(Command(c, entry).value.operation) == Some(DeleteOp) ==>
              var p := Command(c, entry).value;
              var e := DeleteStep(db, p.key, fault);
              r.db == e.db && r.response.Some? && r.response.value.error == e.err
    // GET never mutates storage and answers with what get returns
    ensures Command(c, entry).Some? && ParseOp(Command(c, entry).value.operation) == Some(GetOp) ==>
              var f := Fetch(db, c, Command(c, entry).value.key, fault);
              r == Applied(Some(ApplyResponse(f.err, f.data)), db)
  {
    match Command(c, entry)
    case None => Applied(None, db)
    case Some(p) =>
      match ParseOp(p.operation)
      case Some(SetOp) =>
        var e := SetStep(db, c, p.key, p.value, fault);
        Applied(Some(ApplyResponse(e.err, p.value)), e.db)
      case Some(GetOp) =>
        var f := Fetch(db, c, p.key, fault);
        Applied(Some(ApplyResponse(f.err, f.data)), db)
      case Some(DeleteOp) =>
        var e := DeleteStep(db, p.key, fault);
        Applied(Some(ApplyResponse(e.err, p.value)), e.db)
      case None => Applied(None, db)
  }

  // ---------------------------------------------------------------------
  // Restore, as a value

  /** One record of a snapshot stream: the payload decoded into (partial when
      decoding failed), the decoding error if any, and the outcome the storage
      engine gives the set of this record. */
  datatype Record = Record(payload: CommandPayload, decodeError: Option<Error>, fault: StorageFault)

  /** Restore sets every record, whatever its operation and whether or not it
      decoded. */
  function RestoreStep(db: Db, c: Codec, rec: Record): Db
  {
    SetStep(db, c, rec.payload.key, rec.payload.value, rec.fault).db
  }

  /** The storage after restoring `recs` in stream order over `db`. Restore
      never removes a key, and only adds keys named in the stream. */
  function RestoreFold(db: Db, c: Codec, recs: seq<Record>): (r: Db)
    ensures db.Keys <= r.Keys
    ensures forall k :: k in r && k !in db ==> exists i :: 0 <= i < |recs| && recs[i].payload.key == k
    decreases |recs|
  {
    if recs == [] then db
    else
      var prefix := recs[..|recs| - 1];
      var r := RestoreStep(RestoreFold(db, c, prefix), c, recs[|recs| - 1]);
      assert forall k :: k in r && k !in db ==> exists i :: 0 <= i < |recs| && recs[i].payload.key == k by {
        forall k | k in r && k !in db
          ensures exists i :: 0 <= i < |recs| && recs[i].payload.key == k
        {
          if k in RestoreFold(db, c, prefix) {
            var i :| 0 <= i < |prefix| && prefix[i].payload.key == k;
            assert recs[i] == prefix[i];
          } else {
            assert recs[|recs| - 1].payload.key == k;
          }
        }
      }
      r
  }

  // ---------------------------------------------------------------------
  // The snapshot stream

  /** A snapshot reader with a JSON decoder on top: the records the decoder
      yields one by one, the error reading the closing token, and the error
      (if any) closing the reader. No opening bracket is ever consumed, so once
      More is false the decoder is at the end of the input or at a top-level
      closing bracket, and Token fails either way (io.EOF or a syntax error). */
  class SnapshotReader {
    const records: seq<Record>
    const closingError: Error
    const closeError: Option<Error>
    var pos: nat
    var closed: bool

    ghost predicate Valid()
      reads this
    {
      pos <= |records|
    }

    constructor (records: seq<Record>, closingError: Error, closeError: Option<Error>)
      ensures this.records == records && this.closingError == closingError && this.closeError == closeError
      ensures pos == 0 && !closed && Valid()
    {
      this.records := records;
      this.closingError := closingError;
      this.closeError := closeError;
      pos := 0;
      closed := false;
    }

    /** decoder.More */
    method More() returns (more: bool)
      ensures more <==> pos < |records|
    {
      more := pos < |records|;
    }

    /** decoder.Decode */
    method Decode() returns (rec: Record)
      requires Valid() && pos < |records|
      modifies this`pos
      ensures Valid() && pos == old(pos) + 1
      ensures rec == records[old(pos)]
    {
      rec := records[pos];
      pos := pos + 1;
    }

    /** decoder.Token, reading the closing bracket */
    method Token() returns (err: Option<Error>)
      ensures err == Some(closingError)
    {
      err := Some(closingError);
    }

    /** rClose.Close */
    method Close() returns (err: Option<Error>)
      modifies this`closed
      ensures closed
      ensures err == closeError
    {
      closed := true;
      err := closeError;
    }
  }

  // ---------------------------------------------------------------------
  // The state machine

  class BadgerFsm {
    var db: Db
    const codec: Codec

    constructor (db: Db, codec: Codec)
      ensures this.db == db && this.codec == codec
    {
      this.db := db;
      this.codec := codec;
    }

    /** set */
    method Set(key: string, value: Json, fault: StorageFault) returns (err: Option<Error>)
      modifies this`db
      ensures err == SetStep(old(db), codec, key, value, fault).err
      ensures db == SetStep(old(db), codec, key, value, fault).db
    {
      var encoded := codec.encodeValue(value);
      if encoded.Err? {
        return Some(encoded.error);
      }
      var data := encoded.value;
      if |data| == 0 {
        return None;
      }
      // txn.Set refuses the empty key; the transaction is then discarded
      if key == [] {
        return Some(ErrEmptyKey);
      }
      match fault {
        case OpFails(e) =>
          return Some(e);
        case CommitFails(e) =>
          return Some(e);
        case NoFault =>
          db := db[key := data];
          return None;
      }
    }

    /** delete */
    method Delete(key: string, fault: StorageFault) returns (err: Option<Error>)
      modifies this`db
      ensures err == DeleteStep(old(db), key, fault).err
      ensures db == DeleteStep(old(db), key, fault).db
    {
      if key == [] {
        return Some(ErrEmptyKey);
      }
      match fault {
        case OpFails(e) =>
          return Some(e);
        case CommitFails(_) =>
          // the deferred Commit fails and its error is dropped
          return None;
        case NoFault =>
          db := db - {key};
          return None;
      }
    }

    /** Apply: invoked once an entry is committed. */
    method Apply(entry: LogEntry, fault: StorageFault) returns (response: Option<ApplyResponse>)
      modifies this`db
      ensures response == ApplyStep(old(db), codec, entry, fault).response
      ensures db == ApplyStep(old(db), codec, entry, fault).db
    {
      ghost var spec := ApplyStep(db, codec, entry, fault);
      if entry.kind != LogCommand {
        return None;
      }
      var decoded := codec.decodePayload(entry.data);
      if decoded.Err? {
        return None;
      }
      var payload := decoded.value;
      assert Command(codec, entry) == Some(payload);
      var op := Normalize(payload.operation);
      if op == "SET" {
        assert ParseOp(payload.operation) == Some(SetOp);
        assert spec == Applied(Some(ApplyResponse(SetStep(db, codec, payload.key, payload.value, fault).err, payload.value)),
                               SetStep(db, codec, payload.key, payload.value, fault).db);
        var err := Set(payload.key, payload.value, fault);
        response := Some(ApplyResponse(err, payload.value));
      } else if op == "GET" {
        assert ParseOp(payload.operation) == Some(GetOp);
        var fetched := Fetch(db, codec, payload.key, fault);
        response := Some(ApplyResponse(fetched.err, fetched.data));
      } else if op == "DELETE" {
        assert ParseOp(payload.operation) == Some(DeleteOp);
        assert spec == Applied(Some(ApplyResponse(DeleteStep(db, payload.key, fault).err, payload.value)),
                               DeleteStep(db, payload.key, fault).db);
        var err := Delete(payload.key, fault);
        response := Some(ApplyResponse(err, payload.value));
      } else {
        assert ParseOp(payload.operation) == None;
        response := None;
      }
    }

    /** Snapshot: a no-op handle; never an error, and storage is not touched. */
    method Snapshot() returns (snapshot: SnapshotNoop, err: Option<Error>)
      ensures err == None
    {
      var created := NewSnapshotNoop();
      snapshot, err := created.snapshot, created.err;
    }

    /** Restore: set every record the reader yields, counting them; then fail
      with the error of reading the closing token, which never succeeds; close
      the reader on every path. Storage is not cleared first. */
    method Restore(reader: SnapshotReader) returns (err: Option<Error>, totalRestored: nat)
      requires reader.Valid()
      modifies this`db, reader
      ensures reader.closed
      ensures err == Some(reader.closingError)
      ensures totalRestored == |reader.records| - old(reader.pos)
      ensures db == RestoreFold(old(db), codec, reader.records[old(reader.pos)..])
    {
      ghost var start := reader.pos;
      totalRestored := 0;
      var more := reader.More();
      while more
        invariant reader.Valid() && start <= reader.pos
        invariant more <==> reader.pos < |reader.records|
        invariant totalRestored == reader.pos - start
        invariant db == RestoreFold(old(db), codec, reader.records[start..reader.pos])
        decreases |reader.records| - reader.pos
      {
        ghost var done := reader.records[start..reader.pos];
        var rec := reader.Decode();
        // a decoding error is only logged; the (partial) payload is still set
        var setErr := Set(rec.payload.key, rec.payload.value, rec.fault);
        assert reader.records[start..reader.pos] == done + [rec];
        assert (done + [rec])[..|done|] == done;
        totalRestored := totalRestored + 1;
        more := reader.More();
      }
      assert reader.records[start..reader.pos] == reader.records[start..];
      err := reader.Token();
      var closeErr := reader.Close();
    }
  }
}
