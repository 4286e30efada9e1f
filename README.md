# kafka-health-check connectors, modelled in Dafny

This project models the connector layer of kafka-health-check (`check/connectors.go`).
It covers two pieces of logic that belong to the connectors themselves:

- The lock-handle registry of the ZooKeeper connection (`zkConnection`).
  `Connect` installs an empty map from lock path to `*zk.Lock`, and `Close` drops it (nil).
  `Lock(path)` creates one handle per path on first use, reuses it afterwards and delegates to it.
  `Unlock(path)` refuses paths without a handle; otherwise it delegates and keeps the entry.
  Both fail with "connection not initialized" while the map is nil.
- How the Kafka broker connection (`kafkaBrokerConnection`) reads the broker's reply to
  `CreateTopic` and `DeleteTopic`. A transport error wins. Otherwise only the first
  `TopicErrors` entry is inspected, and a non-zero code there is a failure.

Files:

- `outcomes.dfy` (`Outcomes`): `Option` (a nil or non-nil Go value) and `Result`.
- `errors.dfy` (`Errors`): the error values, their texts, and `%d` printing with its inverse.
- `broker.dfy` (`Broker`): `CreateTopic` and `DeleteTopic` as functions of the client's reply.
- `lock_registry.dfy` (`LockRegistry`): the registry as a value (`Registry`), the local part of
  each operation (`Connected`, `Closed`, `Acquire`, `Release`), runs of operations, and the
  lemmas about sessions.
- `coordination.dfy` (`Coordination`): class `ZkConnection` with the fields the connector
  updates in place. Each method's contract ties the new state to the registry functions.

External calls are parameters:

- `zk.Connect`'s session and error are `Connect`'s arguments.
- go-zookeeper's `Lock.Lock()` and `Lock.Unlock()` results are functions from handle to error.
  So the contracts say which handle a call is delegated to.
- `zk.NewLock` is a counter `minted`: the handles a connection creates are `0 .. minted - 1`.
- The Kafka client's `(response, err)` pair is a `Result` of the `TopicErrors` list or the error.

Behaviour of the code that a reader of a distributed lock might not expect:

- `Unlock` does not remove the handle from the map (check/connectors.go:164-168).
  The key set only grows until `Close`.
- A second `Lock` of a path is not a local no-op. It delegates to the same handle again
  (check/connectors.go:155-157); what that returns is go-zookeeper's business.
- `Unlock` reports "not locked" itself only when the path has no handle.
  A handle that exists but is not held is passed to go-zookeeper.
- `CreateTopic`'s failure is the error value attached to the first entry (check/connectors.go:55).
  It is not a new error naming the topic; only `DeleteTopic` builds one (check/connectors.go:70).
  If that attached value were nil, `CreateTopic` would report success (`Broker.CreateAndDeleteAgree`).
- There is no mutual exclusion around the map.

## Model

| member | source | states |
|---|---|---|
| `Coordination.ZkConnection.constructor` | check/connectors.go:103-106 | a connection starts with no session and a nil map, so it is uninitialised |
| `Coordination.ZkConnection.Connect` | check/connectors.go:113-121 | stores the returned session, always installs an empty map (even on a dial error, discarding earlier handles), returns the dial error unchanged |
| `Coordination.ZkConnection.Close` | check/connectors.go:123-126 | sets the map to nil and changes nothing else in the registry |
| `Coordination.ZkConnection.Lock` | check/connectors.go:148-158 | new state is `Acquire` of the old; the result is "connection not initialized" on a nil map, otherwise exactly what locking the path's handle returns |
| `Coordination.ZkConnection.Unlock` | check/connectors.go:160-169 | changes nothing; returns "connection not initialized" on a nil map, "not locked" for a path without a handle, otherwise exactly that handle's unlock result |
| `LockRegistry.Connected` | check/connectors.go:119 | after `Connect` the map is empty and non-nil, and the registry is valid |
| `LockRegistry.Closed` | check/connectors.go:125 | after `Close` the map is nil |
| `LockRegistry.Acquire` | check/connectors.go:148-157 | fails iff the map is nil, then changes nothing; otherwise the keys become old keys plus the path, old entries keep their handles, an existing handle is reused with no change, a new path gets exactly one new handle; validity is preserved |
| `LockRegistry.Release` | check/connectors.go:160-168 | "connection not initialized" iff the map is nil, "not locked" iff the path has no handle, otherwise the path's handle |
| `LockRegistry.RunPreservesValid` | check/connectors.go:148-157 | over any sequence of operations, every handle in the map was created by this connection and no handle sits under two paths |
| `LockRegistry.UninitialisedUntilConnect` | check/connectors.go:149-151 | on a nil map, every operation but `Connect` leaves the registry exactly as it was |
| `LockRegistry.ClosedRejectsUntilConnect` | check/connectors.go:123-126 | after `Close`, every `Lock` and `Unlock` fails with "connection not initialized" and changes nothing until the next `Connect` |
| `LockRegistry.SessionKeysOnlyGrow` | check/connectors.go:152-168 | between `Connect` and `Close` the key set grows by exactly the locked paths and each path keeps its first handle |
| `LockRegistry.OneHandlePerNewPath` | check/connectors.go:152-154 | within a session, the number of handles created equals the number of keys added: one handle per path |
| `LockRegistry.HandlesInheritedOrNew` | check/connectors.go:117-157 | every handle in the map after any run was in the map before or was created during the run |
| `LockRegistry.SessionsShareNoHandle` | check/connectors.go:117-126 | after `Close` and `Connect`, no handle of the previous session is ever registered again |
| `LockRegistry.LockReusesHandle` | check/connectors.go:152-155 | a second `Lock` of a path delegates to the same handle and leaves the registry unchanged |
| `LockRegistry.UnlockFindsLockedHandle` | check/connectors.go:155-167 | `Unlock` after `Lock` of the same path delegates to the handle `Lock` used; on a nil map both fail with "connection not initialized" |
| `Broker.FirstFailure` | check/connectors.go:53-54 | selects the first entry when its code is non-zero, else nothing; the first-entry rule itself is stated independently by `Broker.OnlyFirstEntryInspected` and `Broker.SuccessWhenFirstEntryClean` |
| `Broker.CreateTopic` | check/connectors.go:47-60 | a transport error is returned as it is; a failing first entry yields the error value attached to it; otherwise success |
| `Broker.DeleteTopic` | check/connectors.go:62-75 | a transport error is returned as it is; it fails iff the first code is non-zero, with an error naming that entry's topic and code |
| `Broker.SuccessWhenFirstEntryClean` | check/connectors.go:53-59 | an empty list or a zero first code is success for both operations, whatever later entries say |
| `Broker.OnlyFirstEntryInspected` | check/connectors.go:53-58 | appending entries after the first never changes either outcome |
| `Broker.CreateAndDeleteAgree` | check/connectors.go:53-73 | both operations fail on the same replies exactly when every failing first entry carries a non-nil error |
| `Broker.DeletionTextNamesTopicAndCode` | check/connectors.go:70 | the deletion failure's text is the fixed message with the topic, followed by a well-formed `%d` rendering that reads back as the code |
| `Errors.Text` | check/connectors.go:150-165 | "connection not initialized" and "not locked" are the fixed texts; a deletion failure's text (the message built at check/connectors.go:70) is the fixed message with the topic and a well-formed `%d` rendering that parses back to the code; a library error keeps its own text |
| `Errors.Decimal` | check/connectors.go:70 | the `%d` rendering starts with '-' exactly for negative codes, is otherwise all decimal digits, and is well formed: no leading zero, no "-0" |
| `Errors.DecimalRoundTrip` | check/connectors.go:70 | the `%d` rendering of an error code can be parsed back to the same number |
| `Errors.DigitsRoundTrip` | check/connectors.go:70 | the digits of a natural number read back as that number |
| `Errors.LocalErrorTextsDistinct` | check/connectors.go:150-165 | "connection not initialized", "not locked" and every deletion failure text are pairwise different |

## Left out

- `check/action_retrier.go`: it only hands the retry count and delay to go-resiliency's exponential backoff retrier, with no error classifier. The retry loop and schedule are in that library and use time values.
- The distributed-lock protocol (ephemeral sequential nodes, sibling watches, blocking wait) is inside go-zookeeper's `zk.Lock`. Its results are parameters, so nothing is claimed about a second `Lock` of a held path succeeding.
- The pass-throughs `Dial`, `Consumer`, `Producer`, `Metadata`, broker `Close`, `Exists`, `Set`, `Create`, `Children` and `Get` are single calls into the client libraries with no local logic.
- The null logger given to `zk.Connect`, the event channel `Connect` returns, and all timeouts (`time.Duration`).
- Closing the go-zookeeper session inside `Close` is a library call. `Close` on a nil or already-closed session does not return normally inside go-zookeeper (a nil dereference, or closing a closed channel). The model's `Close` always returns, so runs with `Close` on a nil map (as in `LockRegistry.UninitialisedUntilConnect` and `LockRegistry.ClosedRejectsUntilConnect`) exist only in the model.
- `zk.Connect` returns a nil session when it reports an error, and `Connect` stores it. A later `Lock` then builds a handle on that nil session, and locking it does not return normally inside go-zookeeper. The model's `Lock` delegates as usual and does not capture that failure.
- Concurrency: the map has no lock, so only sequential use is modelled.
- The topic and timeout sent with `CreateTopic`/`DeleteTopic` go to the client unchanged. The functions take the client's reply instead.
