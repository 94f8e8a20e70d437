# raft-simple-kv: the state machine and the HTTP decision logic, in Dafny

This project models two layers of one node of a Raft-replicated key-value store.

**The replicated state machine** (`badgerFSM`) is the callback target of the consensus engine. `Apply` decodes a committed log entry into a command envelope `{Operation, Key, Value}`. It trims and upper-cases the operation and dispatches to `set`, `get` or `delete` on local Badger storage. It answers with an `ApplyResponse {Error, Data}`, or nil. `Snapshot` hands back a no-op snapshot. `Restore` replays a snapshot stream as a sequence of `set`s and counts the records.

**The HTTP handlers** are `Store` (SET), `Delete`, `Get`, `Join` and `Remove`. Each is a short chain of guards:

1. binding the body;
2. checking the trimmed key;
3. checking that this node is the leader;
4. reading the configuration;
5. making the propose, add-voter or remove-server call;
6. checking the type of the result.

Each handler ends in a status code, a JSON body, and at most one state-changing request to the consensus engine.

Layout (one module per source file, plus shared vocabulary):

- `types.dfy` (`Types`): `Json`, `CommandPayload`, `ApplyResponse`, `Option`/`Result`, and the JSON `Codec`. The codec is four total functions, one per direction for stored values and for envelopes. Its round-trip hypothesis is `Sound`.
- `consensus.dfy` (`Consensus`): role, log entry, apply future, and the calls a handler makes on the engine.
- `http.dfy` (`Http`): status codes, reply bodies, the 500 ms proposal timeout, and the SET and DELETE envelopes.
- `text.dfy` (`Text`): `strings.TrimSpace` and `strings.ToUpper`.
- `fsm.dfy` (`Fsm`): the applier. Each step of `badger.go` is a function over a value `Db = map<string, Bytes>`. The class `BadgerFsm` holds `db` as a field, and its methods `Set`, `Delete`, `Apply`, `Snapshot` and `Restore` are proved against those functions. The class `SnapshotReader` models the JSON decoder over the snapshot reader.
- `snapshot_noop.dfy` (`Snapshot`): the no-op snapshot.
- `store_handler.dfy`, `delete_handler.dfy`, `get_handler.dfy`, `join_handler.dfy`, `remove_handler.dfy`: the handlers, as total functions of their inputs.
- `restore_properties.dfy`, `write_path.dfy`: properties that span several operations.

Storage faults are an input. Every Badger transaction meets a `StorageFault`:

- `NoFault`: the transaction goes through.
- `OpFails`: its Get, Set, Delete or item read fails.
- `CommitFails`: its Commit fails.

A failed transaction changes nothing. Badger's own refusal of the empty key is modelled by its message "Key cannot be empty". A missing key is modelled by the message "Key not found".

Behaviour kept as the code has it, where the code departs from its own comments or from the HTTP contract it is documented with:

- `Restore` does not discard prior state, although the comment at `internal/fsm/badger.go:140-143` says it must. `RestoreFold` only adds or overwrites keys.
- A SET whose value is absent is not a no-op. `json.Marshal(nil)` is `null`, which is four bytes, so the key is overwritten with `null` (`AbsentValueOverwrites`). The skip-empty branch of `set` fires only for an empty encoding.
- A DELETE from a follower gives 422, while a SET from a follower gives 503. A DELETE whose envelope fails to marshal gives 422, while the same failure on a SET gives 500.
- A failed proposal gives 422 on both write paths, not 503.
- Handlers ignore `ApplyResponse.Error`. A committed write that storage refused still answers 200 (`StoreReportsRefusedWrite`).
- `Apply` returns nil, not an error response, for an entry that does not decode.
- `Restore` never returns nil. It reads no opening `[`, so its loop stops only at the end of the input or at a top-level closing bracket. Reading the closing token then fails with io.EOF or a syntax error. `Persist` writes nothing, so the snapshots this node takes are empty, and restoring one fails with io.EOF.
- A GET of a missing key answers 503 with Badger's "Key not found", a server-unavailable status, not a client-side not-found answer (`DeleteThenGet`).
- `delete` drops the error of its deferred Commit. A delete whose commit fails reports success, and the key stays (`DeleteHidesCommitFailure`).

## Model

| member | source | states |
|---|---|---|
| `Text.TrimSpace` | internal/delivery/http/v1/store/store.go:30 | the result has no space at either end, and it is the infix of the input between an all-space prefix and an all-space suffix |
| `Text.TrimSpacePadded` | internal/fsm/badger.go:107 | padding a trimmed word with spaces on either side does not change what TrimSpace returns |
| `Text.TrimSpaceIdempotent` | internal/delivery/http/v1/store/get.go:12 | trimming an already trimmed key changes nothing |
| `Text.TrimSpaceEmpty` | internal/delivery/http/v1/store/store.go:30-35 | a key is empty after trimming exactly when it is made of spaces only |
| `Fsm.ParseOp` | internal/fsm/badger.go:107-108 | an operation is recognised exactly when its trimmed, upper-cased form is SET, GET or DELETE, and it is then that operation |
| `Fsm.NormalizeTrimmed` | internal/fsm/badger.go:107 | a name with no space at either end is compared in its upper-case form |
| `Fsm.ParseOpName` | internal/fsm/badger.go:108-126 | "SET", "GET" and "DELETE" each dispatch to their own operation |
| `Fsm.ParseOpIgnoresPadding` | internal/fsm/badger.go:107 | spaces around an operation name do not change the dispatch |
| `Fsm.LowerCaseSet` | internal/fsm/badger.go:107-109 | "set" dispatches as SET |
| `Fsm.PaddedLowerCaseSet` | internal/fsm/badger.go:107-109 | " set " dispatches as SET |
| `Fsm.SetStep` | internal/fsm/badger.go:59-77 | only the given key can change; a failed set changes nothing; an empty encoding writes nothing and is not an error; the error is the marshal error, else ErrEmptyKey for the empty key, else the failing Set or Commit error; the key then maps to the value's non-empty encoding exactly when the key is not empty and the transaction goes through |
| `Fsm.DeleteStep` | internal/fsm/badger.go:79-93 | only the given key can change; deleting an absent key is no error; the error is ErrEmptyKey for the empty key, else the failing Delete's error; the key is gone exactly when it was absent or the transaction went through; a failed Commit reports no error |
| `Fsm.Fetch` | internal/fsm/badger.go:22-57 | every error comes with an empty object as data; an empty or missing key and a failed lookup give their errors; empty stored bytes give null with no error; otherwise the data is the decoding of the stored bytes, or the decoding error |
| `Fsm.ApplyStep` | internal/fsm/badger.go:98-131 | a non-command or undecodable entry gives nil and leaves storage unchanged; a response exists exactly for the three known operations; only the command's key can change, and only by SET or DELETE; SET and DELETE echo the payload value as Data; GET never changes storage |
| `Fsm.RestoreFold` | internal/fsm/badger.go:140-167 | restore never removes a key that was there before, and adds only keys that some record names |
| `Fsm.SnapshotReader.constructor` | internal/fsm/badger.go:144 | a fresh reader is positioned at its first record and is open |
| `Fsm.SnapshotReader.More` | internal/fsm/badger.go:155 | more records remain exactly when the position is before the end |
| `Fsm.SnapshotReader.Decode` | internal/fsm/badger.go:156-157 | yields the record at the current position and advances by one |
| `Fsm.SnapshotReader.Token` | internal/fsm/badger.go:169-170 | reading the closing token always fails, with the stream's closing error. No opening bracket was read, so the decoder is at the end of the input (io.EOF) or at a top-level closing bracket (a syntax error) |
| `Fsm.SnapshotReader.Close` | internal/fsm/badger.go:145-149 | after Close the reader is closed |
| `Fsm.BadgerFsm.constructor` | internal/fsm/badger.go:18-20 | the state machine starts over the given storage and codec |
| `Fsm.BadgerFsm.Set` | internal/fsm/badger.go:59-77 | the new storage and the returned error are those of SetStep on the old storage |
| `Fsm.BadgerFsm.Delete` | internal/fsm/badger.go:79-93 | the new storage and the returned error are those of DeleteStep on the old storage |
| `Fsm.BadgerFsm.Apply` | internal/fsm/badger.go:98-131 | the response and the new storage are those of ApplyStep on the old storage |
| `Fsm.BadgerFsm.Snapshot` | internal/fsm/badger.go:136-138 | never returns an error; it modifies nothing, so storage is unchanged |
| `Fsm.BadgerFsm.Restore` | internal/fsm/badger.go:144-182 | the reader is closed on every path; it always returns an error, the closing-token error; the count is the number of records iterated, including failed ones; the new storage is RestoreFold of the old one over those records |
| `Snapshot.Persist` | internal/fsm/snapshot_noop.go:7 | returns nil for every sink and leaves the sink as it was |
| `Snapshot.NewSnapshotNoop` | internal/fsm/snapshot_noop.go:11-13 | never fails |
| `RestoreProperties.RestoreLastWriterWins` | internal/fsm/badger.go:155-167 | after restore a key holds the last effective write to it in stream order, or else its prior value |
| `RestoreProperties.NoWriteToUnnamedKey` | internal/fsm/badger.go:162 | a stream that never names a key has no write to it |
| `RestoreProperties.RestoreKeepsUnnamedKeys` | internal/fsm/badger.go:155-167 | keys the stream does not name are untouched |
| `RestoreProperties.LastWriteIsAt` | internal/fsm/badger.go:162 | the last record naming a key, if it writes, is the last write to that key |
| `RestoreProperties.RestoreOfEffectiveWrites` | internal/fsm/badger.go:155-167 | when the last record naming a key is an effective write, the key holds the encoding of that record's value, whatever the other records do |
| `RestoreProperties.RestoreStepIsSet` | internal/fsm/badger.go:162 | a restored record has the storage effect of applying a committed SET of its key and value, whatever its operation |
| `StoreHandler.Store` | internal/delivery/http/v1/store/store.go:22-74 | bind failure gives 422 "error binding: ..."; an all-space key gives 422 "key is required" before the leader check; a follower gives 503 "not the leader"; marshal failure gives 500; there is at most one proposal, and it is made exactly when those guards pass: the SET envelope of the trimmed key and the value, with 500 ms; a proposal error or a non-ApplyResponse result gives 422; otherwise 200 echoing the trimmed key and the value, whatever the response's Error |
| `DeleteHandler.Delete` | internal/delivery/http/v1/store/delete.go:15-63 | an all-space key gives 422 "key is empty"; a follower gives 422 "not the leader"; marshal failure gives 422; there is at most one proposal: the DELETE envelope of the trimmed key with a nil value, with 500 ms; every failure is 422; success is 200 with a null value, whatever the response's Error |
| `GetHandler.Get` | internal/delivery/http/v1/store/get.go:11-62 | makes no engine call; 422 "key is required" exactly for an all-space key; a missing key or failed lookup gives 503 with the storage error's text; empty bytes give 200 with null; otherwise it answers 200 with exactly the data of the applier's get on the trimmed key, or 503 with that get's error |
| `JoinHandler.Join` | internal/delivery/http/v1/raft/join.go:16-48 | bind failure gives 422; a follower gives 503 "not the leader" with no configuration read and no AddVoter; a configuration error gives 503 with its text, and no AddVoter; AddVoter gets the body's node id and address unchecked, with prevIndex 0 and timeout 0; its error gives 503 verbatim; 200 "node ID at ADDR joined successfully" exactly when AddVoter succeeds |
| `RemoveHandler.Remove` | internal/delivery/http/v1/raft/remove.go:15-47 | bind failure gives 422; a follower gives 503 "not the leader" with no configuration read and no RemoveServer; a configuration error gives 503 with its text; RemoveServer gets the body's node id with prevIndex 0 and timeout 0; its error gives 503 verbatim; 200 "node ID removed successfully" exactly when RemoveServer succeeds |
| `WritePath.ApplyCommittedSet` | internal/delivery/http/v1/store/store.go:43-56 | the SET envelope a handler proposes, once committed, is applied as set of its key and value, with the value echoed |
| `WritePath.ApplyCommittedDelete` | internal/delivery/http/v1/store/delete.go:29-42 | the DELETE envelope a handler proposes, once committed, is applied as delete of its key, with a null value echoed |
| `WritePath.StoreThenGet` | internal/delivery/http/v1/store/store.go:43-73 | on the leader, a committed SET answers 200 with the trimmed key and value; only that key changes; a later local GET of the key returns the same value |
| `WritePath.DeleteThenGet` | internal/delivery/http/v1/store/delete.go:29-62 | on the leader, a committed DELETE answers 200 with null; the key is gone; a later local GET is 503 "Key not found", and the applier's GET reports the key as not found |
| `WritePath.AbsentValueOverwrites` | internal/fsm/badger.go:59-67 | a SET with an absent value overwrites the key with "null", which reads back as null |
| `WritePath.StoreReportsRefusedWrite` | internal/delivery/http/v1/store/store.go:63-73 | a committed SET that storage refused leaves storage unchanged, carries the error in the response, and still answers 200 |
| `WritePath.DeleteHidesCommitFailure` | internal/fsm/badger.go:82-92 | a committed DELETE whose commit fails reports no error and answers 200, while the key stays in storage |

## Left out

- The consensus engine (election, replication, commitment, configuration changes) is not part of this model. The node's role, the proposal future, the configuration-read error and the add-voter and remove-server errors are inputs to the handlers.
- Badger's transactions and on-disk format are a map plus a `StorageFault` input. Badger's other key checks (a reserved prefix, size limits) fold into `OpFails`. A commit conflict (`ErrConflict`) is a `CommitFails`. The write transactions of `set` and `delete` read nothing, so they do not conflict in practice.
- JSON encoding and decoding (RFC 8259) are the abstract `Codec`. `Sound` is its round-trip hypothesis. That `json.Marshal(nil)` is `null` is a hypothesis of `AbsentValueOverwrites`. Numbers are `real`, not `float64`.
- The streaming `json.Decoder` (`More`, `Decode`, `Token`) is the `SnapshotReader` over a given finite sequence of complete JSON values. A value of the wrong type is a record with a decode error and a partial payload. The decoder steps past such a value, and so does the model.
- `Fsm.BadgerFsm.Restore`: covers only streams whose records are complete JSON values. After a syntax or truncation error (for example a stream ending in `{"key":`), the Go decoder stays stuck: `Decode` returns the same error on every call, and `More` still reports more input. The loop at `internal/fsm/badger.go:155-167` then runs forever, setting the empty key and counting each pass. The model's loop always ends, so it does not capture that non-termination.
- `Snapshot.Release`: modelled as a function returning the unit value. A snapshot with no state has nothing for a contract to state.
- `Text.UpperChar`: maps a-z, U+0131 and U+017F to their upper case and keeps every other character. Go upper-cases other non-ASCII letters too, but none of them becomes an ASCII letter, so the dispatch on "SET", "GET" and "DELETE" is the same.
- Keys and other strings are sequences of Unicode characters. Go strings are bytes, and Badger keys are `[]byte(key)`. A key that is not valid UTF-8 (for example from the path `/api/v1/store/%FF`) is not modelled. Neither is the way `json.Marshal` replaces such bytes with U+FFFD, by which the proposed DELETE can name a different key than the one asked for.
- Logging to stdout and stderr is left out, including the close error of the snapshot reader.
- Real-time timeouts are left out. The 500 ms proposal timeout is a recorded value.
- Echo's request binding is left out. It is a `Result` input.
- The stats returned on success by join and remove are an input map.
- The concurrency of HTTP requests is left out. Apply and Restore are sequential by the engine's contract.
- `cmd/api/main.go` is not part of this model: CLI flags, process wiring, signal handling, bootstrap.
- The router, the server, the handler constructors and `raft/stats.go` are not part of this model.
