# Paragon control plane: job fan-out, store mutations and client helpers in Dafny

This project models the core of the Paragon teamserver's GraphQL layer.

- **Server side** (`graphql/resolve/generated.go`): the mutation resolvers
  write to an entity store holding Targets, Tags, Jobs, Tasks and
  Credentials. `CreateJob` fans a job out to every target that carries
  all the requested tags. It creates one task per target and adds that
  task to the target's task set. The other resolvers attach and detach
  tags, create and update targets, create tags, delete targets, raise a
  credential's failure count, and attach a new credential to a target.
  `Next` and `Prev` walk the job chain.
- **Client side** (`graphql/client.go`):
  - `ListTags` builds a name-to-tag map.
  - `CreateTags` is an idempotent ensure-exists loop over that map.
  - `keyFromEnv` parses `PG_SVC_KEY`.
  - `sign` applies the key fallback: existing keys, then the environment,
    then a generated pair.
  - `Do` builds the signed request headers.

Modules:

- `Wrappers` (`wrappers.dfy`): `Option` for Go's nil, and `Result` for
  `(value, error)` pairs.
- `Text` (`text.dfy`): the library behaviour the client relies on.
  - `Split` and `Join` model `strings.Split` and `strings.Join`.
  - `Decimal` models `fmt`'s `%d`, with `ParseDecimal` as its inverse.
  - `AsciiBytes` models `[]byte(s)` for ASCII text.
- `Ent` (`ent.dfy`): the entity records, and the store as a class
  `Client` with one map field per entity plus the next free id. Edges are
  sets of ids on the owning record. `Consistent` is the store's integrity
  invariant, which every mutation preserves:
  - every edge resolves to an existing row;
  - tag names are unique;
  - the prev/next edge is one-to-one;
  - a task belongs to at most one target.
- `Resolve` (`resolve.dfy`): the mutation resolvers as methods on the
  store, the tag-AND target query, and the `Next`/`Prev` lookups.
- `Graphql` (`graphql.dfy`): the client as a class `Client` with the key
  fields `sign` updates, and the `ListTags`/`CreateTags` loops.

Inputs the code gets from outside become parameters:

- the clock (`now`);
- failures of the store itself (`queryFails`, `saveFails`);
- whether the store refuses a new target as one that already exists
  (`duplicate`), which its schema decides;
- the outcome of an AND over no predicates (`emptyAnd`), which is decided
  inside the query library;
- the value of `PG_SVC_KEY` (`env`);
- base64 (`encode`, `decode`), Ed25519 signing (`ed25519`) and key
  generation (`keygen`);
- the server's responses (`listResponse`, and `respond(k, name)` for the
  k-th `CreateTag` call).

A boolean mutation returns `err != nil`, so it reports `false` on
success. The exception is `AddCredentialForTarget`: when saving the
credential fails, it returns `false` together with the error. The model
keeps both.

Some behaviour a reader might expect is not what the code does. The model
follows the code:

- One might expect an empty tag selector to select nothing. The code
  leaves that case to the query library, so it is the parameter
  `emptyAnd`.
- One might expect the fan-out to report a partial failure. The code uses
  panicking `SaveX` writes and has no such error.
- The failure report returns a boolean, not the new count.
- `CreateTags` returns a name-to-tag map, not a list.

## Model

| member | source | states |
|---|---|---|
| Resolve.CreateJob | graphql/resolve/generated.go:76-117 | If the target query fails, it returns -1 and the store is unchanged. If the job save fails, it returns -1 and no job or task exists. Otherwise it returns the new job id. The job has the request's name, content, tags and prev link, and its creation time is `now`. Exactly one new task is created per matching target. Each task has the job's content, tags and id, and a queue time equal to the job's creation time. Each task is added to its own target's task set. No other target, tag or credential changes. |
| Resolve.TagPredicates | graphql/resolve/generated.go:84-87 | It builds one has-tag predicate per requested tag id, in the same order. |
| Resolve.MatchingIsAnd | graphql/resolve/generated.go:84-90 | `QueryTargets` models the target query of lines 88-90, and `MatchingTargets` applies it to the predicates of lines 84-87. For a non-empty tag list, a target is selected if and only if its tag set contains every requested tag (AND, not OR). |
| Resolve.SaveJob | graphql/resolve/generated.go:77-83 | The job is stored under a fresh id and nothing else changes. The store stays consistent, including the one-to-one prev link. |
| Resolve.FanOut | graphql/resolve/generated.go:104-114 | Every matching target gets exactly one fresh task equal to the given task, and distinct targets get distinct tasks. Old tasks are untouched. Only the matching targets' task sets grow. |
| Resolve.AddTaskToTarget | graphql/resolve/generated.go:105-113 | One loop step: a fresh task is saved and added to this target's task set. Nothing else changes. |
| Resolve.CreateTag | graphql/resolve/generated.go:118-126 | A new tag whose name is unique gets a fresh id. A duplicate name gives -1 with a conflict and leaves the store unchanged. |
| Resolve.FailCredential | graphql/resolve/generated.go:69-75 | An unknown id panics (GetX) and changes nothing. Otherwise the fail count rises by exactly one, the reply is `false` with no error, and nothing else changes. |
| Resolve.ApplyTagToTask | graphql/resolve/generated.go:127-132 | A missing task gives NotFound and a missing tag gives a constraint error, both with the store unchanged. Otherwise the tag is inserted into the task's tag set and nothing else changes. |
| Resolve.ApplyTagToTarget | graphql/resolve/generated.go:133-138 | The same as ApplyTagToTask, but on the target's tag set. |
| Resolve.ApplyTagToJob | graphql/resolve/generated.go:139-144 | The same as ApplyTagToTask, but on the job's tag set. |
| Resolve.RemoveTagFromTask | graphql/resolve/generated.go:145-150 | A missing task gives NotFound with the store unchanged. Otherwise the tag is deleted from the task's tag set (a no-op if it is absent) and nothing else changes. |
| Resolve.RemoveTagFromTarget | graphql/resolve/generated.go:151-156 | The same as RemoveTagFromTask, but on the target's tag set. |
| Resolve.RemoveTagFromJob | graphql/resolve/generated.go:157-162 | The same as RemoveTagFromTask, but on the job's tag set. |
| Resolve.CreateTarget | graphql/resolve/generated.go:163-173 | If the store refuses the target as already existing, it returns -1 with a conflict and the store is unchanged. If any requested tag is missing, it returns -1 with a constraint error and the store is unchanged. Otherwise a new target with the given name, IP and tags, and no tasks or credentials, gets a fresh id. |
| Resolve.SetTargetFields | graphql/resolve/generated.go:174-189 | An unknown id gives NotFound. Otherwise each of name, primary IP, hostname, machine UUID, primary MAC and public IP changes exactly when its input is present. Tags, tasks, credentials and every other row stay the same. |
| Resolve.DeleteTarget | graphql/resolve/generated.go:190-193 | An unknown id gives NotFound. Otherwise exactly that target is removed. |
| Resolve.AddCredentialForTarget | graphql/resolve/generated.go:194-206 | If saving the credential fails, the reply is `false` with the error and the store is unchanged. Otherwise the credential is created with a fail count of 0. If the target is unknown, the reply is `true` with NotFound and the new credential is left with no owner. Otherwise the credential joins the target's credential set. |
| Resolve.Only | graphql/resolve/generated.go:60-62 | `Only()` returns the single element of the result. An empty result gives no row, and several give a not-singular error. |
| Resolve.NextFindsFollower | graphql/resolve/generated.go:60-62 | `Next` models `jobResolver.Next`. With one-to-one prev links, `Next` is never not-singular. It finds job j exactly when j's prev link names the current job. |
| Resolve.PrevAnswersSuccessor | graphql/resolve/generated.go:63-65 | `Prev` models `jobResolver.Prev` as written: it asks the next-edge query. For jobs 1 then 2, `Prev` of job 2 finds nothing and `Prev` of job 1 answers job 2. |
| Resolve.PrevJobInvertsNext | graphql/resolve/generated.go:63-65 | `PrevJob` is the corrected lookup, which follows the job's own prev link. With it, p is the previous job of `id` exactly when `Next` of p is `id`. |
| Graphql.ListTags | graphql/client.go:276-313 | A failed request returns its error. Otherwise the map is `TagIndex` of the returned list. |
| Graphql.TagIndexKeys | graphql/client.go:302-310 | The map's keys are exactly the names of the non-nil tags (nil entries are skipped). |
| Graphql.TagIndexLastWins | graphql/client.go:302-310 | The map entry for a name is the last non-nil tag with that name, so a later tag overwrites an earlier one. |
| Graphql.ToCreateMembers | graphql/client.go:370-387 | A name is created exactly when it is requested and does not already exist. |
| Graphql.ToCreateDistinct | graphql/client.go:356-357 | No name is created twice, even if it is requested several times. |
| Graphql.ToCreatePrefix | graphql/client.go:378-383 | The creations made before a failure are a prefix of the full creation list. |
| Graphql.CreateMissing | graphql/client.go:370-389 | The calls made are a prefix of `ToCreate`, and every call before the last one succeeded. On failure, the last call failed and its error is returned, naming the tag. On success, every needed tag was created once. The map's keys are the existing names plus the requested names, existing tags are kept, and each created name maps to its response. |
| Graphql.CreateTags | graphql/client.go:356-390 | With no names it returns an empty map and makes no list or create calls. A failed list returns that error with no creations. Otherwise it behaves as CreateMissing over the listed tags. The calls made are a prefix of the needed creations, and every call before the last succeeded. On failure, the error names the tag whose creation failed. On success, the keys are the listed names plus the requested names, listed tags are kept, and each created name maps to its response. |
| Graphql.KeyFromEnvFormat | graphql/client.go:412-429 | `KeyFromEnv` models `client.keyFromEnv`. An empty value, and only an empty value, gives no key (nil, nil). A non-empty value panics with a format error exactly when it does not contain exactly one ':'. A loaded pair is the decoding of the two colon-free halves of `pub:priv`. |
| Graphql.Client.Sign | graphql/client.go:392-410 | Existing keys are kept. If either key is missing, both are replaced by what the environment gives. If a key is still missing, a generated pair is stored, or the keygen error is returned with both keys nil. An environment panic leaves the keys as they were. After a successful sign both keys are set, and the signature is the private key's signature of the message. |
| Graphql.Client.Do | graphql/client.go:72-86 | On success, the epoch header is the decimal Unix seconds and the signed bytes are exactly that header's bytes. The service, identity (encoded public key) and signature (encoded signature of those bytes) headers are set, and the HTTP client is defaulted. Existing keys are kept. If either key is missing, the keys end as `sign` leaves them: an environment panic or a failed key generation makes `Do` panic, and otherwise the environment's pair or the generated pair is installed and the request is ready. |
| Graphql.SignedEpochRoundTrip | graphql/client.go:73-81 | The signed bytes read back as the epoch header text, and that text parses back to the same time. |
| Text.SplitCount | graphql/client.go:414-415 | `strings.Split` yields one more piece than there are separators. |
| Text.SplitJoin | graphql/client.go:414 | Joining the pieces with the separator restores the input. |
| Text.SplitPiecesFree | graphql/client.go:414 | No piece contains the separator. |
| Text.DecimalRoundTrip | graphql/client.go:73 | Parsing the `%d` text of a number gives the number back. |
| Text.DecimalInjective | graphql/client.go:73 | Distinct epochs give distinct epoch headers. |
| Text.AsciiRoundTrip | graphql/client.go:74 | The byte view of an ASCII string converts back to the same string. |

## Left out

- The claim and submit state machine: only the client stubs `ClaimTasks`, `ClaimTask` and `SubmitTaskResult` exist in this code (graphql/client.go:118-231). They are JSON/HTTP plumbing, and the server side of the claim is not part of this model.
- The client stubs `CreateTarget` and `CreateTag`: request building and response decoding. Their outcomes enter the model only as server responses (`respond`).
- Transport in `Do`: JSON encoding of the body, building and sending the HTTP request, the status check and response decoding. Their errors are not modelled.
- Ed25519 key generation, signing and verification (RFC 8032): parameters `keygen` and `ed25519`. A private key of the wrong length, which makes Ed25519 signing panic, is not modelled.
- Base64 (section 4 of RFC 4648): parameters `encode` and `decode`.
- The header name constants of `pkg/auth` are not part of this model. The headers are an enumeration.
- `time.Now`: the parameter `now`.
- `Error.Error` (graphql/client.go:35-38): message formatting only.
- Read-only query resolvers (graphql/resolve/generated.go:210-268) and the edge lookups of the job, tag, target and task resolvers (lines 54-59, 241-269): pass-through reads of the maps.
- graphql/service.go, ent/predicate/predicate.go, pkg/script/stdlib/assets/assets.go and the web UI files: handler wiring, generated type aliases, script registration and UI.
- Resolve.CreateJob: the `SaveX` writes in the fan-out loop are treated as infallible, so their panics are not modelled. Within one request, the job save has already checked the tags and the targets come from the query. A store outage can still make them panic. So can a concurrent `DeleteTarget` that removes a target between the query (lines 88-90) and its `target.Update()...SaveX` (lines 111-113), after the job and the earlier tasks are saved. The order in which targets are visited is not modelled, since the query returns them in store order.
- Concurrent requests: each resolver runs as one atomic step on the store. Interleavings of concurrent resolvers are not modelled.
- Resolve.CreateJob: for an empty tag list, the selection is left to the parameter `emptyAnd` (all targets or none). It is not asserted either way.
- Store constraint behaviour is assumed, because the query library decides it and its schema is not shown:
  - an update or delete of a missing row gives NotFound;
  - adding a missing tag gives a constraint error;
  - tag names are unique;
  - the prev/next edge is one-to-one;
  - adding an edge that already exists is a no-op;
  - a new credential's fail count starts at 0 (a schema default the resolver never sets);
  - which targets count as already existing (the `duplicate` parameter of Resolve.CreateTarget).
  
  Ids come from one shared counter, not one sequence per table.
- Store failures other than the query and job-save failures of CreateJob and the credential save of AddCredentialForTarget, such as a database outage during a tag update, are not modelled.
- Resolve.FailCredential: the fail counter is an unbounded integer. 64-bit overflow is not modelled.

## Findings

| source | as written | input that shows it | evidently intended | confidence | as-written member | corrected member |
|---|---|---|---|---|---|---|
| graphql/resolve/generated.go:63-65 | `Prev` runs the next-edge query, the same as `Next` | jobs 1 and 2 with job 2's prev = 1: `Prev(2)` finds nothing and `Prev(1)` answers job 2 | `Prev(id)` answers the job that `id`'s prev link names, the inverse of `Next` | high; not executed | Resolve.PrevAnswersSuccessor | Resolve.PrevJobInvertsNext |
