# gunshot-api-service: idempotent client mutations and audio upload

A Dafny model of the core of the gunshot API service: the part that makes
client creation and deletion idempotent per request identifier, and the part
that accepts fixed-length audio samples and hands them to the message
producer.

- **Redis keyspace** (`redis.dfy`, module `Redis`). This is the store both
  repositories talk to. It is a map from key to a value and an optional
  expiry instant, read against an explicit clock `now`, with `Advance` for
  the passage of time. A key is visible while it has no expiry or `now` is
  before its expiry. EXISTS, SET with a ttl and DEL are methods. Each takes
  an injected `fault`, which stands for the driver reporting an error.
- **Idempotency key repository** (`idempotency_key_repo.dfy`).
  `IsExist` answers true exactly when EXISTS reports one live match. It
  fails with a wrapped error and `false` when the query fails, and it only
  reads. `Commit` SETs `true` under the key with the configured ttl.
- **Key-value client repository** (`client_repo.dfy`). `Create` SETs the
  serialized client under a caller-supplied uid with ttl 0, so the entry has
  no expiry and overwrites any earlier one. `Delete` DELs the uid and turns
  "zero keys removed" into `ErrClientNotFound`.
- **Client store seen by the use case** (`client_store.dfy`). Here `Create(info)`
  allocates a fresh identifier and returns it. `Delete(uid)` reports a
  missing record as `ErrClientNotFound`.
- **Idempotency guard and guarded operations** (`use_case.dfy`, `protocol.dfy`).
  `checkRequestInIdempotencyRepo` fails closed. `commitRequest` wraps commit
  failures. `CreateNewClient` and `DeleteClient` run check, then mutate, then
  commit, and return at the first failure. Each method is proved equal to a
  function on the state of both stores (`Protocol.CreateNewClientSpec`,
  `Protocol.DeleteClientSpec`). The protocol's guarantees are lemmas about
  those functions:
  - replay rejection within the ttl;
  - a fresh creation once the ttl has run out;
  - no commit when the mutation fails;
  - the orphan record left when the commit fails;
  - at most one record per request identifier over any sequence of retries
    within one ttl, as long as no commit fails;
  - a committed key survives any traffic with other request identifiers, so
    a replay is rejected for the whole ttl.
- **Audio upload** (`audio.dfy`). `Validate` accepts exactly the configured
  length. A mismatch wraps `ErrNotEqRequiredLength` and names the expected
  and actual lengths. `Upload` parses the client id, validates, then makes
  exactly one `Send` to an `Outbox`. The outbox records every attempt and
  every delivery.
- **Errors** (`errors.dfy`). Go's error chains are a datatype: a sentinel, a
  driver fault, or a wrapping layer with one constructor per message. `Is`
  follows the chain the way `errors.Is` does.

`clients.go` and `clientRepo.go` come from two variants whose signatures do
not line up. `clients.go:23` expects `Create(ctx, bytes)` to return
`(uid, error)`, but `clientRepo.go:18` defines `Create(ctx, uid, info) error`.
Each file is therefore modelled against its own signature.
`ClientStore.ClientStore` is the allocating store that `clients.go` calls.
`ClientRepo.ClientRepo` is the uid-keyed Redis repository.

Errors are wrapped exactly where the code wraps them:

- `CreateNewClient` wraps both the marshal failure (`internal/uCase/clients.go:20`)
  and the insert failure (`internal/uCase/clients.go:25`). Only `DeleteClient`
  returns the store error unwrapped (`internal/uCase/clients.go:44`), so
  `ErrClientNotFound` reaches its caller as it is.
- The repository's `Commit` returns the driver error unwrapped
  (`internal/infrastructure/repository/idempotencyKeyRepo.go:35`). Only
  `commitRequest` adds context (`internal/uCase/idempotencyKeys.go:28`).

## Model

| member | source | states |
|---|---|---|
| `Redis.Keyspace.Exists` | internal/infrastructure/repository/idempotencyKeyRepo.go:21 | EXISTS reports 1 exactly when the key is live and 0 otherwise; a driver failure yields an error and reads nothing |
| `Redis.Keyspace.Set` | internal/infrastructure/repository/clientRepo.go:22 | SET overwrites the key with the value and the expiry the ttl gives, and keeps the clock; on a driver failure nothing is written |
| `Redis.Keyspace.Del` | internal/infrastructure/repository/clientRepo.go:34 | DEL removes the key and reports 1 exactly when it was live before; on a driver failure nothing is removed |
| `Redis.Put` | internal/infrastructure/repository/idempotencyKeyRepo.go:35 | after SET with ttl, the key is visible at instant t exactly when ttl is not positive or t < now + ttl; every other key reads the same at every instant |
| `Redis.Drop` | internal/infrastructure/repository/clientRepo.go:34 | after DEL the key is visible at no instant; every other key reads the same at every instant |
| `Redis.PutThenLookup` | internal/infrastructure/repository/idempotencyKeyRepo.go:35 | from the SET onwards, GET of the key returns the written value until the ttl runs out and nothing afterwards; other keys are unaffected |
| `Redis.PutTwice` | internal/infrastructure/repository/clientRepo.go:22 | a second SET of the same key replaces the first entirely, value and expiry included |
| `IdempotencyKeyRepo.RequestIdempotencyKeyRepo.constructor` | internal/infrastructure/repository/idempotencyKeyRepo.go:38-45 | the repository keeps the keyspace and the ttl it was built with |
| `IdempotencyKeyRepo.RequestIdempotencyKeyRepo.IsExist` | internal/infrastructure/repository/idempotencyKeyRepo.go:20-31 | true exactly when the key is live (EXISTS reports one match); a query failure gives false with the error wrapped as "getting data from the repository"; the keyspace is not modified |
| `IdempotencyKeyRepo.RequestIdempotencyKeyRepo.Commit` | internal/infrastructure/repository/idempotencyKeyRepo.go:34-36 | on success the key holds `true` and is visible exactly before now + ttl; no other key changes; a failure returns the driver error unwrapped and writes nothing |
| `IdempotencyKeyRepo.RecommitRefreshesExpiry` | internal/infrastructure/repository/idempotencyKeyRepo.go:35 | committing a key twice leaves it present past the first commit's expiry, until the second commit's |
| `ClientRepo.ClientRepo.constructor` | internal/infrastructure/repository/clientRepo.go:47-53 | the repository keeps the keyspace it was built with |
| `ClientRepo.ClientRepo.Create` | internal/infrastructure/repository/clientRepo.go:18-27 | stores the blob under uid with no expiry, overwriting silently; a store failure returns a wrapped error and leaves the keyspace unchanged |
| `ClientRepo.ClientRepo.Delete` | internal/infrastructure/repository/clientRepo.go:30-45 | removes uid and returns nil exactly when uid was live; an absent uid returns exactly `ErrClientNotFound`; a store failure returns a wrapped error that is not `ErrClientNotFound`; other uids are unchanged |
| `ClientRepo.CreateOverwrites` | internal/infrastructure/repository/clientRepo.go:22 | Create on a uid that already holds a client replaces its blob for good, so the earlier blob is no longer readable, and touches no other uid |
| `ClientRepo.DeleteAbsentChangesNothingVisible` | internal/infrastructure/repository/clientRepo.go:34-42 | a Delete of a uid that is not live changes nothing any read can see, then or at any later instant |
| `ClientStore.MintIsFresh` | internal/uCase/clients.go:23 | the identifier the store allocates next is non-empty and used by no record, and storing under it keeps the allocation invariant |
| `ClientStore.ClientStore.Create` | internal/uCase/clients.go:23 | on success returns a fresh non-empty uid and adds exactly that record; on failure returns "" and an error, and changes nothing |
| `ClientStore.ClientStore.Delete` | internal/uCase/clients.go:43 | removes uid and returns nil exactly when it was stored; an absent uid gives exactly `ErrClientNotFound`; on failure nothing changes |
| `Errors.DriverMatchesNoSentinel` | internal/uCase/idempotencyKeys.go:12-13 | a chain of wrappings around a driver fault matches no sentinel under `errors.Is` |
| `Protocol.Check` | internal/uCase/idempotencyKeys.go:8-21 | a query failure is an error that is neither nil nor `ErrRequestAlreadyProcessed`; otherwise `ErrRequestAlreadyProcessed` exactly when the key is live, nil exactly when it is not |
| `UCase.UseCase.CheckRequestInIdempotencyRepo` | internal/uCase/idempotencyKeys.go:8-21 | behaves as `Protocol.Check`: fails closed with the error wrapped twice, rejects a committed key, and only reads the key store |
| `UCase.UseCase.CommitRequest` | internal/uCase/idempotencyKeys.go:23-32 | on success the key is committed and live and nil is returned; a failure comes back wrapped and writes nothing |
| `UCase.UseCase.CreateNewClient` | internal/uCase/clients.go:10-33 | the new state of both stores and the reply are exactly those of `Protocol.CreateNewClientSpec` |
| `UCase.UseCase.DeleteClient` | internal/uCase/clients.go:35-52 | the new state of both stores and the reply are exactly those of `Protocol.DeleteClientSpec` |
| `Protocol.CreateSucceedsOnlyWhenEveryStepDoes` | internal/uCase/clients.go:14-32 | create returns a uid with nil exactly when the key was absent and check, marshal, insert and commit all succeeded; it then added one fresh record holding the encoding and committed the key; every error reply carries "" |
| `Protocol.CreateOfCommittedKeyIsRejected` | internal/uCase/clients.go:14-16 | with the key committed, create returns ("", `ErrRequestAlreadyProcessed`) and changes neither store; a failed check returns an error other than that, again with no change |
| `Protocol.ReplayWithinTtlIsRejected` | internal/uCase/clients.go:14-28 | after one successful create, the same request identifier is rejected for the rest of the ttl and adds no record |
| `Protocol.ReplayAfterTtlCreatesAgain` | internal/uCase/clients.go:14-32 | once the ttl has run out after a successful create, the same request identifier creates a second, different record |
| `Protocol.FailedCreateCommitsNothing` | internal/uCase/clients.go:18-26 | when marshalling or the insert fails, neither store changes and the key is not committed, so a fault-free retry with the same identifier (and information that serializes) creates the client |
| `Protocol.FailedCommitOrphansRecord` | internal/uCase/clients.go:23-30 | when the commit fails after the insert, the record stays and the key stays absent, so a retry adds a second record |
| `Protocol.ReplaysWhileCommittedChangeNothing` | internal/uCase/clients.go:14-16 | while the key stays committed, any sequence of create replays changes nothing but the clock |
| `Protocol.AtMostOneRecordPerRequestWithinTtl` | internal/uCase/clients.go:10-33 | over any sequence of retries of one request identifier within one ttl, with no failed commit, the client store keeps every record and gains at most one |
| `Protocol.DeleteOfCommittedKeyIsRejected` | internal/uCase/clients.go:39-41 | with the key committed, delete returns `ErrRequestAlreadyProcessed` and deletes nothing |
| `Protocol.DeleteOfAbsentClientIsNotFound` | internal/uCase/clients.go:43-45 | when the request identifier is not committed and neither the key query nor the store call faults, delete of a uid the store lacks returns exactly `ErrClientNotFound`, unwrapped, changes nothing and commits nothing, whatever fault the commit would have had |
| `Protocol.DeleteSucceedsOnlyWhenEveryStepDoes` | internal/uCase/clients.go:39-51 | delete returns nil exactly when the key was absent, the uid present and every step succeeded; it then removed that uid alone and committed the key; a failed delete never commits the key, and a failure before the commit changes nothing, whatever commit fault is injected |
| `Protocol.DeleteReplayWithinTtlIsRejected` | internal/uCase/clients.go:39-48 | after one successful delete, the same request identifier is rejected with `ErrRequestAlreadyProcessed` for the rest of the ttl and deletes nothing, whatever uid it names |
| `Protocol.OtherRequestsKeepCommittedKeys` | internal/uCase/clients.go:10-52 | a create or delete with any request identifier, succeeding or failing, leaves every other committed key visible at every instant up to its expiry |
| `Protocol.CommittedKeySurvivesAnyTraffic` | internal/uCase/clients.go:10-52 | through any interleaving of creates and deletes with any identifiers and faults, a key committed past the end stays committed, so the next create or delete with it is rejected with `ErrRequestAlreadyProcessed` and changes nothing |
| `Audio.Outbox.Send` | internal/uCase/audio.go:15-17 | every call records one attempt; a successful one also records one delivery; a failure is returned as it is |
| `Audio.Audio.constructor` | internal/uCase/audio.go:30-37 | the use case keeps the sender and the required length it was built with |
| `Audio.Audio.Validate` | internal/uCase/audio.go:61-69 | nil exactly when the payload has the required length; otherwise an error that matches `ErrNotEqRequiredLength` and carries the expected and actual lengths |
| `Audio.Audio.Upload` | internal/uCase/audio.go:39-59 | nil exactly when the id parses, the length matches and Send succeeds; a bad id or a bad length makes no Send; otherwise exactly one Send of the message with its ID set, the request id and unchanged timestamp and payload, and no retry |

## Left out

- Tracing spans, zap logging and the `context.Context` argument are left
  out. Cancellation and deadlines show up only as an injected store fault.
- `json.Marshal` is modelled by the client information's `encoding`, plus an
  injectable failure. Its encoding rules live in a library that is not part
  of this model. Client fields, including the floating-point coordinates,
  stay opaque.
- `primitive.ObjectIDFromHex` is a function-typed parameter of `Upload` that
  may fail. Its parsing rules are not part of this model.
- The message producer (`internal/infrastructure/msbroker/kafka.go`) is the
  `Outbox`. The JSON envelope, the network call, and the partition and
  offset it returns are not modelled.
- Request identifiers are strings in the use case and `uuid.UUID` in
  `Upload`, which here is a string too. The message timestamp is an integer.
- Redis is modelled only through EXISTS, SET with a ttl, and DEL:
  - A failed command writes nothing. A reply lost after the server applied
    the write is not modelled.
  - go-redis `KeepTTL` (-1) is not distinguished from the other non-positive
    ttls.
- `UploadAudio` in `internal/uCase/clients.go:54-57` is an empty stub with no
  behaviour to model.
- The Mongo-backed variant is not part of this model: its client repository,
  `NewClientUCase`, Get and Update. The same goes for the HTTP controllers,
  config loading and process wiring.
- The file that declares `ErrClientNotFound` is not part of this model. It
  is a sentinel here.
- The model is sequential. Races between concurrent requests and a crash
  between mutation and commit are not modelled. `Protocol.FailedCommitOrphansRecord`
  covers the gap that the commit failure leaves open.
