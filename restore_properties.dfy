/** What a restore leaves in storage: every record is a SET, applied in stream
    order over the storage as it was, so the last effective write to a key
    wins and keys the stream does not name keep their values. */
module RestoreProperties {
  import opened Types
  import opened Consensus
  import opened Http
  import opened Fsm

  /** The bytes the last effective write to `key` in `recs` stores, if any
      record writes it. */
  function LastWrite(c: Codec, recs: seq<Record>, key: string): Option<Bytes>
    decreases |recs|
  {
    if recs == [] then None
    else
      var last := recs[|recs| - 1];
      var written := Written(c, last.payload.key, last.payload.value, last.fault);
      if last.payload.key == key && written.Some? then written
      else LastWrite(c, recs[..|recs| - 1], key)
  }

  /** After a restore, a key holds the last value written to it in the stream,
      or else what it held before. */
  lemma {:induction false} RestoreLastWriterWins(db: Db, c: Codec, recs: seq<Record>, key: string)
    ensures Lookup(RestoreFold(db, c, recs), key) ==
            match LastWrite(c, recs, key) case Some(data) => Some(data) case None => Lookup(db, key)
    decreases |recs|
  {
    if recs != [] {
      RestoreLastWriterWins(db, c, recs[..|recs| - 1], key);
    }
  }

  /** A stream that never names `key` writes nothing to it. */
  lemma {:induction false} NoWriteToUnnamedKey(c: Codec, recs: seq<Record>, key: string)
    requires forall i | 0 <= i < |recs| :: recs[i].payload.key != key
    ensures LastWrite(c, recs, key) == None
    decreases |recs|
  {
    if recs != [] {
      NoWriteToUnnamedKey(c, recs[..|recs| - 1], key);
    }
  }

  /** Keys the stream does not name are untouched by a restore. */
  lemma RestoreKeepsUnnamedKeys(db: Db, c: Codec, recs: seq<Record>, key: string)
    requires forall i | 0 <= i < |recs| :: recs[i].payload.key != key
    ensures Lookup(RestoreFold(db, c, recs), key) == Lookup(db, key)
  {
    NoWriteToUnnamedKey(c, recs, key);
    RestoreLastWriterWins(db, c, recs, key);
  }

  /** When the last record naming a key is an effective write (its value
      encodes to non-empty bytes, its key is not empty, storage accepts it),
      a restore leaves that key holding the encoding of the record's value,
      whatever the other records do and whatever the operations say. */
  lemma RestoreOfEffectiveWrites(db: Db, c: Codec, recs: seq<Record>, j: nat)
    requires j < |recs|
    requires Written(c, recs[j].payload.key, recs[j].payload.value, recs[j].fault).Some?
    requires forall i | j < i < |recs| :: recs[i].payload.key != recs[j].payload.key
    ensures Lookup(RestoreFold(db, c, recs), recs[j].payload.key) ==
            Written(c, recs[j].payload.key, recs[j].payload.value, recs[j].fault)
    ensures c.encodeValue(recs[j].payload.value) == Ok(RestoreFold(db, c, recs)[recs[j].payload.key])
  {
    var key := recs[j].payload.key;
    LastWriteIsAt(c, recs, j);
    RestoreLastWriterWins(db, c, recs, key);
  }

  lemma {:induction false} LastWriteIsAt(c: Codec, recs: seq<Record>, j: nat)
    requires j < |recs|
    requires Written(c, recs[j].payload.key, recs[j].payload.value, recs[j].fault).Some?
    requires forall i | j < i < |recs| :: recs[i].payload.key != recs[j].payload.key
    ensures LastWrite(c, recs, recs[j].payload.key) == Written(c, recs[j].payload.key, recs[j].payload.value, recs[j].fault)
    decreases |recs|
  {
    if j < |recs| - 1 {
      var prefix := recs[..|recs| - 1];
      assert prefix[j] == recs[j];
      LastWriteIsAt(c, prefix, j);
    }
  }

  /** Restore treats a record as a SET of its key and value, whatever its
      operation says: its effect on storage is that of applying the committed
      SET command. */
  lemma RestoreStepIsSet(db: Db, c: Codec, rec: Record, data: Bytes)
    requires Sound(c)
    requires c.encodePayload(SetCommand(rec.payload.key, rec.payload.value)) == Ok(data)
    ensures RestoreStep(db, c, rec) == ApplyStep(db, c, LogEntry(LogCommand, data), rec.fault).db
  {
    var cmd := SetCommand(rec.payload.key, rec.payload.value);
    assert c.decodePayload(data) == Ok(cmd);
    assert Command(c, LogEntry(LogCommand, data)) == Some(cmd);
    ParseOpName(SetOp);
  }
}
