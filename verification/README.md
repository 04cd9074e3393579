# Aether artifact registry: a verified model

This project models the control plane's artifact registry, the command-line client that uploads to it,
the deployment lifecycle behind it, and three small algorithms beside them (rate limiter, metric paths,
multipart cutting), and proves what they keep over whole runs. `dafny verify dfyconfig.toml` checks it.

## How the model is built

The registry is described at three levels, each tied to the next by a proof.

- **Service** (`Registry.dfy`): a class whose fields are the tables; every handler is a method that changes
  them statement by statement, with the early returns of the Rust code.
- **Handlers** (`Schema.dfy`, `Handlers.dfy`): what each request does to the tables and what it answers, as
  functions. Each service method ends in exactly that state with exactly that reply.
- **Statements** (`Statements.dfy`, `Refinement.dfy`, `Interleaving.dfy`, `Sequential.dfy`): both completion handlers as
  sequences of SQL statements, and multipart init as its SELECT and its upsert, one frame per pool connection
  in use. Run alone, a completion's statements give the handler, and separate requests are among the interleaved
  runs; interleaved with anything else, they give the results about overlapping requests.

On top of these stand the invariant (`Invariant.dfy`), retention (`Retention.dfy`), quotas (`Quota.dfy`),
lifecycle and idempotency keys (`Lifecycle.dfy`), refused and accepted completions (`Completion.dfy`), and the
client with crashes and retries (`Retry.dfy`). For overlapping requests: the quota bound (`Interleaving.dfy`)
and its attainment (`Overshoot.dfy`), retention (`Surplus.dfy`), the table invariants that survive
(`Tables.dfy`), stored rows (`Overwrite.dfy`), the event log (`Ledger.dfy`), idempotency keys with and without
overlap (`Conflicts.dfy`), and runs in which overlap does harm (`Anomalies.dfy`); these runs start from empty
tables (`Scenarios.dfy`) and are built with `Races.dfy`. `Deployments.dfy` is a second
state machine, whose watcher works in separate statements; `Delivery.dfy` and `Provenance.dfy` join the two.
`Replies.dfy` states what every request answers and
writes, field by field. `Limiter.dfy`, `Paths.dfy`, `Multipart.dfy` and `Collector.dfy` stand alone but for the
files that the latter two read (`Files.dfy`). `Prelude.dfy` and `Sums.dfy` hold
shared vocabulary.

The schema supplies the semantics: the unique digest makes the table a map keyed by digest
(`crates/control-plane/migrations/202509270001_add_artifacts.sql:5`), the unique nullable idempotency key
makes a write fail (`crates/control-plane/migrations/202509280001_artifact_extensions.sql:3`), and events go
with their row (`crates/control-plane/migrations/202509280001_artifact_extensions.sql:9`).

## Assumptions

- Queries succeed. `SUM(size_bytes)` is the mathematical sum; the addition in the byte
  quota wraps as an i64 does in a release build, and theorems that need it not to wrap ask, at each check, that
  the sum of used and incoming bytes fits (`Summable`, `SumFits`).
- Primary keys are fresh: UUIDs are counters and are never reused.
- A row is `pending` or `stored`; no code writes another status.
- The storage backend answers as it likes (object size, metadata, hash, upload id, success of presigning
  and assembling); it hands back the storage key it was given.
- SHA-256 and Ed25519 verification are arbitrary functions.
- Rows with equal `created_at` are ordered by an arbitrary tie-break that may differ from request to request.
- A handler may be dropped between two statements, when its client has gone or the process ends. Runs with such
  drops are those whose `Traffic` has `aborts`: the quota bound, the keys, the verified rows and the stability of
  stored rows survive them; retention and the event log do not (`Anomalies.DroppedHandler`), and their theorems
  ask for runs without.
- The pool size is a parameter `k`; the control plane configures 5 (`crates/control-plane/src/db.rs:7`).

## Where the code differs from what is written about it

- `README.md:245` promises `409 idempotency_conflict` for a key reused across digests on both completion
  endpoints. The single-part one reports it exactly when another digest holds the key and the request gets as
  far as comparing it (`Conflicts.SingleConflictIff`). It does not when the digest is stored already: then the
  answer is 200, and echoes the foreign key (`Conflicts.TakenKeySucceedsIff`, `Conflicts.DuplicateEchoesForeignKey`).
  The multipart one never reports it, and answers 500 "db update" exactly when it would otherwise write
  (`Conflicts.MultipartConflictIff`, `Conflicts.MultipartKeyReused`).
- `README.md:247` states per-application quotas. When requests do not overlap, the count quota holds after
  every request (`QuotaRuns.CountAndRetention`). The byte quota holds only as long as used and incoming bytes
  add up to an i64: an admitted completion respects it if and only if they do
  (`QuotaRuns.AdmittedWithinBytesIff`), and two requests bypass any byte quota
  (`Completion.ByteQuotaBypassed`).
- When requests overlap on `k` connections, both quotas hold up to a bound that is proved and attained
  (`Interleaving.QuotaOvershootBound`, `Overshoot.OvershootAttained`), provided that completions name
  registered applications; otherwise not even that (`Anomalies.UnregisteredBypass`).
- `README.md:249` and `README.md:302` say that the newest artifacts are kept. Newest means first presigned
  last, so a completion may report success and lose its row at once; `Completion.CompletedRowSurvives` gives
  the exact condition and `Completion.SuccessThenGone` a run for every limit. When requests overlap, there may
  be as many rows more as there are requests that have written and not cleaned up
  (`Surplus.RetentionUnderInterleaving`, `Overshoot.SurplusAttained`).
- `README.md:249` mentions retention events. They vanish with the rows they announce: the log holds none when
  no request is in flight, with or without overlap (`Lifecycle.EventsCountCompletions`,
  `Ledger.RetentionEventsVanish`).
- A refused completion may still link its pending row to an application
  (`Completion.RefusedCompleteLinks` says exactly when, `Completion.RefusalLinks` is a run).
- A stored row may be overwritten by a completion or by a multipart init that overlaps the one that stored it
  (`Anomalies.StoredRowOverwritten`, `Anomalies.InitOverwritesStored`). These are the only ways
  (`Overwrite.StepOverwrites`, `Overwrite.UndisturbedStaysStored`); without overlap a stored row never changes
  (`Lifecycle.StoredIsImmutable`).
- With overlap, a row may have two "stored" events (`Anomalies.TwoStoredEvents`). It gets one for each time that
  it is written (`Ledger.StepEntries`), hence exactly one if nobody can disturb it when it is completed
  (`Ledger.ExactlyOneStoredEvent`).
- With overlap, a row may be marked verified without belonging to an application
  (`Anomalies.VerifiedWithoutApp`), and the comparison of a completion's key with that of its own pending row,
  which separate requests never fail, may fail (`Anomalies.SameRowConflict`).
- A signature is checked when a deployment is made, and not when PATCH changes its digest
  (`crates/control-plane/src/services/deployments.rs:2-12`): `Provenance.SignedUnlessPatched` and
  `Provenance.PatchedAway`.

## Model

| member | source | states |
|---|---|---|
| `Interleaving.QuotaOvershootBound` | crates/control-plane/src/handlers/uploads.rs:588-599 | in every state of every interleaving of at most `k` completions and multipart inits in flight, finished or dropped, with presigns, registrations and both collectors, where completions name registered applications and each compared sum fits in an i64, an application has at most `limit + k - 1` stored rows and `k * limit` stored bytes |
| `Interleaving.OneConnectionIsExact` | crates/control-plane/src/db.rs:6-7 | under the same two conditions, with one pool connection the documented quotas hold exactly |
| `Interleaving.StepBounded` | crates/control-plane/src/handlers/uploads.rs:289-300 | every single step keeps the bound on stored rows and bytes plus what admitted requests have yet to write |
| `Overshoot.OvershootAttained` | crates/control-plane/src/handlers/uploads.rs:289-300 | both overshoot bounds are reached at once, in a run from empty tables (register, presign, complete, race `k` uploads), for every pool size and every pair of limits, provided that a single upload may be as large as the byte limit and retention keeps at least the count limit less one |
| `Overshoot.SurplusAttained` | crates/control-plane/src/handlers/uploads.rs:602-617 | from empty tables, `k` racing uploads reach N + k stored rows under every retention limit N below the count quota |
| `Overshoot.AllGetIn` | crates/control-plane/src/handlers/uploads.rs:588-599 | from any idle system in which each of `k` presigned uploads would be admitted alone, all of them succeed together |
| `Anomalies.StoredRowOverwritten` | crates/control-plane/src/handlers/uploads.rs:292-300 | from empty tables and in every configuration: two overlapping completions of one presigned row both succeed, the second overwriting the stored row with another size |
| `Anomalies.InitOverwritesStored` | crates/control-plane/src/handlers/uploads.rs:644-650 | from empty tables: a multipart init that read the pending row and upserts after its completion gives the stored row another storage key and upload id |
| `Anomalies.TwoStoredEvents` | crates/control-plane/src/handlers/uploads.rs:305 | the two overlapping completions log two "stored" events for one row |
| `Anomalies.UnregisteredBypass` | crates/control-plane/src/handlers/uploads.rs:254-260 | a completion that looks for its application before it is registered, and another that links the row that the first has stored, bring any number of bytes past any quota |
| `Anomalies.VerifiedWithoutApp` | crates/control-plane/src/handlers/uploads.rs:325-373 | even with one connection: if the application is registered after the first lookup and before the second, the row is marked verified and belongs to no application |
| `Anomalies.SameRowConflict` | crates/control-plane/src/handlers/uploads.rs:247-253 | two completions of one presigned row with different keys: the second one's comparison with the row's own key fails, which only overlap makes possible |
| `Anomalies.DroppedHandler` | crates/control-plane/src/handlers/uploads.rs:302-306 | a handler dropped right after its write leaves, with nothing in flight, a completed row without event and one row more than retention allows, under every limit |
| `Overwrite.StepOverwrites` | crates/control-plane/src/handlers/uploads.rs:255-300 | of all steps, exactly these change a stored row: the update of a completion that found this row, with a free key and something new; its backfill of a missing application; the upsert of a multipart init for this digest, with something new; and only retention deletes it |
| `Overwrite.UndisturbedStaysStored` | crates/control-plane/src/handlers/uploads.rs:649 | along every interleaving, legacy uploads and dropped handlers included, a stored row stays unchanged for as long as its id is in the table, unless at the start a completion in flight holds its id before its write or a multipart init has read its digest |
| `Surplus.RetentionUnderInterleaving` | crates/control-plane/src/handlers/uploads.rs:602-617 | over every interleaving of completions that name registered applications and are not dropped, without legacy uploads, an application has at most N stored rows when none is in flight, and at any instant at most one more per completion that has written and not cleaned up, hence at most N + k |
| `Surplus.RetentionFromEmpty` | crates/control-plane/src/handlers/uploads.rs:602-617 | the same after any run of separate requests from empty tables in which completions named registered applications |
| `Tables.KeysStayInjective` | crates/control-plane/src/handlers/uploads.rs:292-300 | over every interleaving, legacy uploads and dropped handlers included, ids and bound idempotency keys belong to one row each |
| `Tables.VerifiedStaySigned` | crates/control-plane/src/handlers/uploads.rs:325-373 | over every interleaving in which uploads, legacy ones included, name registered applications, a verified row has an application one of whose active keys verifies its signature |
| `Ledger.LogStaysSound` | crates/control-plane/src/handlers/uploads.rs:578-585 | over every interleaving without dropped handlers, no event outlives its row, and a completed row has a "stored" event unless the request that completed it is about to log one |
| `Ledger.StepEntries` | crates/control-plane/src/handlers/uploads.rs:292-305 | at every step but a drop, the "stored" events of a row and those about to be logged become one more exactly when a completion writes this row |
| `Ledger.EntriesStay` | crates/control-plane/src/handlers/uploads.rs:302-305 | from a moment on when a row is stored and nobody can disturb it, their number never changes while its id is in the table |
| `Ledger.ExactlyOneStoredEvent` | crates/control-plane/src/handlers/uploads.rs:302-305 | a row has exactly one, logged or about to be, at every later moment, if at the moment when it is completed no other completion holds its id before its write and no multipart init has read its digest |
| `Ledger.OldRowsKeepTheirEvent` | crates/control-plane/src/handlers/uploads.rs:578-585 | a row completed before anything overlapped keeps its one event |
| `Ledger.RetentionEventsVanish` | crates/control-plane/src/handlers/uploads.rs:612-615 | over every interleaving without dropped handlers, a "retention_delete" event belongs to a request that is going to delete its row; with none in flight the log holds "stored" events only |
| `Ledger.SoundFromEmpty` | crates/control-plane/src/handlers/uploads.rs:141-782 | keys, verified rows and event log stay sound when overlapping requests follow any run of separate ones from empty tables |
| `Refinement.StatementsRefineHandler` | crates/control-plane/src/handlers/uploads.rs:204-401 | the statements of a completion, single part or multipart, with nothing in between, have the effect and the reply of the handler |
| `Sequential.RunIsBehavior` | crates/control-plane/src/handlers/uploads.rs:141-782 | requests of any kind, refused or accepted, handled one after the other, are among the runs of interleaved steps, from the same tables to the same tables, for every pool of connections |
| `Sequential.HandlerIsBehavior` | crates/control-plane/src/handlers/uploads.rs:141-782 | one request alone is such a run: its writes are the steps', with the same rows |
| `Sequential.InitLeads` | crates/control-plane/src/handlers/uploads.rs:639-660 | a multipart init that the digest check and the SELECT let pass is two steps with the backend's answer between them, and writes only if that is an upload id |
| `Statements.AdvanceProgress` | crates/control-plane/src/handlers/uploads.rs:714-753 | every statement brings its request closer to the end, so a request alone terminates |
| `QuotaRuns.CountAndRetention` | crates/control-plane/src/handlers/uploads.rs:592-617 | after every request of every run without legacy upload, every application is within the count quota and the retention limit |
| `QuotaRuns.QuotaAndRetention` | crates/control-plane/src/handlers/uploads.rs:588-617 | and also within the byte quota, if at each call the used and the incoming bytes add up to an i64 |
| `QuotaRuns.AdmittedWithinBytesIff` | crates/control-plane/src/handlers/uploads.rs:594-598 | an admitted completion leaves its application within the byte quota, before retention, if and only if the sum that the check compared fits in an i64 |
| `Completion.ByteQuotaBypassed` | crates/control-plane/src/handlers/uploads.rs:597 | a run from empty tables, two uploads of 1 and of 2^63 - 1 reported bytes, that passes every byte quota |
| `QuotaRuns.CountQuotaUnreachable` | crates/control-plane/src/handlers/uploads.rs:596 | with retention below the count quota no request of any run is refused for its count |
| `QuotaRuns.RetentionNeverActs` | crates/control-plane/src/handlers/uploads.rs:602-617 | with retention off or not below the count quota, a stored row stays in the table unchanged over every run |
| `QuotaRuns.RetainEffect` | crates/control-plane/src/handlers/uploads.rs:607-614 | retention leaves min(before, N) stored rows of the application, deletes exactly a surplus (no deleted row newer than a kept one), and touches no other row |
| `QuotaRuns.ByteCheckExact` | crates/control-plane/src/handlers/uploads.rs:597 | the i64 comparison decides the intended sum if and only if that sum fits in an i64 |
| `QuotaRuns.AdmitsExactlyWhatFits` | crates/control-plane/src/handlers/uploads.rs:592-598 | the check admits a row if and only if the application is within both quotas once that row is stored |
| `Retention.ObsoleteIsSurplus` | crates/control-plane/src/handlers/uploads.rs:607-611 | the query returns as many rows as exceed N, none newer than a row that stays, for every tie-break |
| `Retention.SurplusIsObsolete` | crates/control-plane/src/handlers/uploads.rs:607-611 | conversely every such surplus is the answer under some tie-break |
| `Retention.ObsoleteIsTail` | crates/control-plane/src/handlers/uploads.rs:608 | in any listing from newest to oldest, exactly the positions from N on are obsolete |
| `RegistryService.Registry.SelectNewestFirst` | crates/control-plane/src/handlers/uploads.rs:608 | the sorting loop lists every stored row of the application, in strictly descending order |
| `RegistryService.Registry.SelectObsolete` | crates/control-plane/src/handlers/uploads.rs:607-611 | sort and offset give the ids of the obsolete rows, each once |
| `RegistryService.Registry.SumStored` | crates/control-plane/src/handlers/uploads.rs:594-595 | the loop computes the sum of the sizes of the application's stored rows |
| `RegistryService.Registry.EnforceQuota` | crates/control-plane/src/handlers/uploads.rs:588-599 | the check refuses exactly when the quota function does, count before bytes |
| `RegistryService.Registry.VerifySignature` | crates/control-plane/src/handlers/uploads.rs:325-353 | the key loop succeeds if and only if the signature is well formed and some active key of the application verifies it over the digest |
| `RegistryService.Registry.LogAndDelete` | crates/control-plane/src/handlers/uploads.rs:612-615 | logging one event per obsolete row and deleting the rows leaves no trace of those events |
| `RegistryService.Registry.RetentionGc` | crates/control-plane/src/handlers/uploads.rs:602-617 | the method's effect is that of the retention function |
| `RegistryService.Registry.PresignArtifact` | crates/control-plane/src/handlers/uploads.rs:141-182 | state and reply are the handler's; the invariant is kept |
| `RegistryService.Registry.CompletePendingRow` | crates/control-plane/src/handlers/uploads.rs:245-322 | the pending branch: key check, backfill, remote checks, quota, update, event, retention, in this order |
| `RegistryService.Registry.CompleteNewRow` | crates/control-plane/src/handlers/uploads.rs:325-400 | the branch without a row: signature, key check, quota, insert, event, retention |
| `RegistryService.Registry.CompleteArtifact` | crates/control-plane/src/handlers/uploads.rs:204-401 | state and reply are the handler's; the invariant is kept |
| `RegistryService.Registry.UploadArtifact` | crates/control-plane/src/handlers/uploads.rs:414-540 | the table effect of a legacy upload (no quota, no retention, no event); the invariant is kept |
| `RegistryService.Registry.InitMultipart` | crates/control-plane/src/handlers/uploads.rs:639-656 | state and reply are the handler's; the invariant is kept |
| `RegistryService.Registry.CompleteMultipart` | crates/control-plane/src/handlers/uploads.rs:714-753 | state and reply are the handler's, the row's storage key staying as it was |
| `RegistryService.Registry.RunPendingGc` | crates/control-plane/src/handlers/uploads.rs:771-782 | deletes exactly the stale pending rows; the invariant is kept |
| `RegistryService.Registry.AddPublicKey` | crates/control-plane/src/handlers/apps.rs:76-92 | the key upsert activates the key; the invariant, verified rows included, is kept |
| `RegistryService.Registry.CreateApplication` | crates/control-plane/src/handlers/apps.rs:16-23 | a name is registered once, under a fresh id; the invariant is kept |
| `RegistryService.Registry.Serve` | crates/control-plane/src/handlers/uploads.rs:557-753 | every request changes the tables and is answered as the handlers say, and keeps the invariant |
| `Invariant.HandleKeeps` | crates/control-plane/src/handlers/uploads.rs:141-782 | every request keeps the invariant: shape of pending rows, distinct ids, injective idempotency keys, event log, verified rows, applications |
| `Invariant.RunKeeps` | crates/control-plane/src/handlers/uploads.rs:141-782 | so does every run |
| `Invariant.CompletionStages` | crates/control-plane/src/handlers/uploads.rs:245-322 | a completion of either kind stores its row through backfill, quota, write, event and retention, or stores nothing and changes at most the link of its row |
| `Replies.StoredAgreesWithRemote` | crates/control-plane/src/handlers/uploads.rs:263-286 | a pending row is completed only if the object size, the metadata digest and the object hash, each where it is to be checked and the backend reports it, are what the client reports |
| `Replies.MismatchIff` | crates/control-plane/src/handlers/uploads.rs:263-286 | for a valid complete on a pending row, each of the three mismatches is reported if and only if its comparison is the first that fails |
| `Replies.CompleteRefusals` | crates/control-plane/src/handlers/uploads.rs:207-232 | the checks that come first, each reported if and only if it is the first that fails |
| `Replies.CompletedRow` | crates/control-plane/src/handlers/uploads.rs:292-373 | every field of the row of a completed upload, and the answer: what was presigned keeps its id, its time and its upload id, all else is as the request has it |
| `Replies.PresignAnswers` | crates/control-plane/src/handlers/uploads.rs:141-182 | each answer of presign if and only if its case, the storage key it offers, and when it inserts |
| `Replies.PresignedRow` | crates/control-plane/src/handlers/uploads.rs:172-180 | every field of the row that presign inserts |
| `Replies.LegacyAnswers` | crates/control-plane/src/handlers/uploads.rs:414-540 | each answer of a legacy upload if and only if its case, and when it inserts |
| `Replies.LegacyRowFields` | crates/control-plane/src/handlers/uploads.rs:488-534 | every field of the row that a legacy upload inserts, verified if and only if an active key verifies the well-formed signature |
| `Replies.InitAnswers` | crates/control-plane/src/handlers/uploads.rs:639-656 | each answer of multipart init if and only if its case, and every field of the row it leaves |
| `Replies.PartAnswers` | crates/control-plane/src/handlers/uploads.rs:675-690 | each answer to presigning a part if and only if its case; nothing changes |
| `Replies.MultipartAnswers` | crates/control-plane/src/handlers/uploads.rs:714-726 | the answers of multipart complete up to the quota, each if and only if its case |
| `Replies.AssembledRow` | crates/control-plane/src/handlers/uploads.rs:741-752 | every field of the row of a completed multipart upload |
| `Replies.SweepAnswers` | crates/control-plane/src/handlers/uploads.rs:771-782 | the collector deletes exactly the pending rows created more than its time to live, in seconds, ago, and reports their number |
| `Replies.HeadAnswers` | crates/control-plane/src/handlers/uploads.rs:557-563 | each answer of HEAD if and only if its case |
| `Replies.AddKeyAnswers` | crates/control-plane/src/handlers/apps.rs:76-92 | each answer if and only if its case; exactly the one key becomes active besides those that were |
| `Replies.CreateAppAnswers` | crates/control-plane/src/handlers/apps.rs:16-23 | a taken name is refused; a new one gets an id that no other application has |
| `Replies.LimitsFromVariables` | crates/control-plane/src/handlers/uploads.rs:589-604 | an unset, zero or negative variable is no limit, any other is itself |
| `Replies.HexDigits` | crates/control-plane/src/handlers/uploads.rs:208 | exactly the 22 hexadecimal digits of both cases count |
| `Lifecycle.StoredIsImmutable` | crates/control-plane/src/handlers/uploads.rs:233-245 | over every run of non-overlapping requests a stored row never changes while it lasts, and lasts for ever if retention is off |
| `Lifecycle.StorageKeyNeverMissing` | crates/control-plane/src/handlers/uploads.rs:683-722 | no run ever reaches a "missing storage_key" error |
| `Conflicts.SingleConflictIff` | crates/control-plane/src/handlers/uploads.rs:245-363 | complete answers with the idempotency conflict if and only if another digest holds the key and the key comes to be compared: no row and none required, or a pending row that neither the remote checks nor the quota refuse |
| `Conflicts.MultipartConflictIff` | crates/control-plane/src/handlers/uploads.rs:714-752 | multipart complete never does; it answers with a failed update if and only if the key is taken and the row is pending, the upload id matches, the parts assemble and the quota admits |
| `Conflicts.TakenKeySucceedsIff` | crates/control-plane/src/handlers/uploads.rs:233-244 | with a key that another digest holds, complete reports success if and only if the digest is stored already; then as a duplicate that echoes the key, changing nothing |
| `Conflicts.MultipartKeyReused` | crates/control-plane/src/handlers/uploads.rs:745-752 | a run from empty tables in which a key reused on the multipart endpoint is answered with a failed update |
| `Conflicts.DuplicateEchoesForeignKey` | crates/control-plane/src/handlers/uploads.rs:233-244 | a run from empty tables in which success is reported under a key that another digest holds |
| `Conflicts.DerivedKeysNeverClash` | crates/aether-cli/src/commands/deploy.rs:416 | over every interleaving in which clients derive their keys from the digest, no request is ever refused for its key, and none that is about to write could be |
| `Conflicts.NoClashFromEmpty` | crates/aether-cli/src/commands/deploy.rs:485 | the same after any run of separate requests with such keys from empty tables |
| `Lifecycle.ConflictMeansOtherDigest` | crates/control-plane/src/handlers/uploads.rs:247-253 | over runs of separate requests a conflict is only reported by complete and only when another digest holds the key; the same-row comparison never fires |
| `Lifecycle.TakenKeyNeverBinds` | crates/control-plane/src/handlers/uploads.rs:357-363 | a completion whose key another digest holds never succeeds in storing a row |
| `Lifecycle.DerivedKeysNeverConflict` | crates/aether-cli/src/commands/deploy.rs:416 | if all clients derive their key from the digest, no request of any run fails for its key, on either path |
| `Lifecycle.RunOwnKeys` | crates/aether-cli/src/commands/deploy.rs:485 | then every bound key belongs to its own digest, after every run |
| `Lifecycle.EventsCountCompletions` | crates/control-plane/src/handlers/uploads.rs:578-585 | over every run the event table is in bijection with the completed rows and holds nothing else |
| `Lifecycle.VerifiedRowsAreSigned` | crates/control-plane/src/handlers/uploads.rs:325-373 | after every run a row marked verified has an application and a signature that one of its active keys verifies over the digest |
| `Lifecycle.VerifiedExactlyWhen` | crates/control-plane/src/handlers/uploads.rs:296-353 | a completion marks its row verified if and only if the digest had no row and an active key of the named application verifies the well-formed signature |
| `Lifecycle.MandatoryPresignNeverVerifies` | crates/control-plane/src/handlers/uploads.rs:229-296 | with mandatory presigning and no legacy uploads, no row of any run is ever verified |
| `Completion.RefusedCompleteLinks` | crates/control-plane/src/handlers/uploads.rs:254-260 | a refused complete changes the tables if and only if it finds an unlinked pending row and names a registered application, and then only links it |
| `Completion.RefusalLinks` | crates/control-plane/src/handlers/uploads.rs:254-267 | a run from empty tables with such a refusal: init without application, then a complete whose reported size the backend contradicts |
| `Completion.RefusedMultipartIsNoop` | crates/control-plane/src/handlers/uploads.rs:714-753 | a refused multipart complete changes nothing |
| `Completion.CompletedRowSurvives` | crates/control-plane/src/handlers/uploads.rs:302-306 | a successful completion still has its row afterwards if and only if fewer stored rows than the retention limit precede it by time of creation, newest first and equals as the database orders them |
| `Completion.SuccessThenGone` | crates/control-plane/src/handlers/uploads.rs:607-614 | for every retention limit N below the count quota, if there is one, a run from empty tables (presign N + 1, complete all but the first, then the first) in which success is reported and the row is gone |
| `Retry.TwoPhaseUpload` | crates/aether-cli/src/commands/deploy.rs:364-434 | the client program, with its stopping points, has the effect and the result of the attempt function |
| `Retry.OkExactlyWhen` | crates/aether-cli/src/commands/deploy.rs:376-432 | an attempt reports success if and only if it is not stopped and either finds the artifact stored, or its PUT and then its complete succeed |
| `Retry.FailedPut` | crates/aether-cli/src/commands/deploy.rs:409-410 | a failed PUT ends the attempt with a failure and completes nothing: the tables are those after the presign |
| `Retry.OkMeansPut` | crates/aether-cli/src/commands/deploy.rs:409-432 | a success means that the artifact was stored already or that this attempt's PUT succeeded |
| `Retry.StoredMeansPut` | crates/aether-cli/src/commands/deploy.rs:364-434 | in a session that begins without a row, the digest is stored only if the PUT of some attempt succeeded |
| `Retry.Convergence` | crates/aether-cli/src/commands/deploy.rs:364-434 | with retention off or not below the count quota: once any attempt of any session of crashes, retries and foreign traffic has reported success, the row agrees with that of one uninterrupted attempt and further attempts change nothing |
| `Retry.SessionProgress` | crates/control-plane/src/handlers/uploads.rs:141-182 | under every retention setting, throughout a session the client's row is missing, pending under its own storage key, or complete, and every success reports that key; with retention off or not below the count quota, success means complete |
| `Retry.SuccessExactlyWhenAdmitted` | crates/control-plane/src/handlers/uploads.rs:207-212 | an uninterrupted attempt for a digest without a row succeeds if and only if the request is valid, the backend answers, the quota has room and the key is free |
| `Delivery.UploadedCanBeDeployed` | crates/aether-cli/src/commands/deploy.rs:420-424 | after a successful session, deploying the reported key makes a pending deployment with the uploaded digest, if and only if the signature given (if any) is well formed and verified by an active key |
| `Deployments.CountersConserved` | crates/control-plane/src/services/deployments.rs:60-87 | over every interleaving of requests, collector and the watcher's statements: running counter = running rows, failed counter = failed rows + collected rows (less one while the watcher is between its update and its counter), reasons exactly for failures, one transition event per settled row |
| `Deployments.StepGood` | crates/control-plane/src/services/deployments.rs:36-101 | every statement keeps that invariant |
| `Deployments.StepEvolves` | crates/control-plane/src/k8s_watch.rs:25-54 | a statement settles at most the one pending row that the watcher selected, and deletes only superseded failures |
| `Deployments.SettledForever` | crates/control-plane/src/services/deployments.rs:60-87 | a settled deployment never changes status again, and a running one is never deleted |
| `Deployments.DeletedWasReplaced` | crates/control-plane/src/services/deployments.rs:90-101 | whatever a run has deleted is, at its end, superseded by a newer running deployment of the same application that still exists |
| `Deployments.CollectorIsExact` | crates/control-plane/src/services/deployments.rs:90-101 | a collection deletes a row if and only if it is a failure past its time to live for which the remaining table has a newer running deployment of the same application; all other rows stay as they are |
| `Deployments.NewestStays` | crates/control-plane/src/services/deployments.rs:95 | an application's newest deployment is never collected |
| `Deployments.CollectTwice` | crates/control-plane/src/services/deployments.rs:90-101 | a second collection at the same instant changes nothing |
| `Deployments.WatcherAlone` | crates/control-plane/src/k8s_watch.rs:18-56 | the watcher's statements with nothing in between settle the deployment as one event does |
| `Deployments.Decide` | crates/control-plane/src/k8s_watch.rs:29-54 | running if and only if a replica is available; else the first condition with type "Progressing" and status "False" fails it for its reason or "progress_failed"; else the first init container, pod by pod, that terminated with an exit code other than 0; else "timeout" if and only if it is at least 301 seconds old |
| `Deployments.HealthyRolloutWaits` | crates/control-plane/src/k8s_watch.rs:38 | a rollout that reports progress waits, for five minutes |
| `Deployments.StalledRolloutFails` | crates/control-plane/src/k8s_watch.rs:38 | one that reports stalled progress fails for its reason, whatever its pods and its age |
| `Deployments.KilledFetcherFails` | crates/control-plane/src/k8s_watch.rs:45 | an init container killed in the second pod fails it, with name and exit code in decimal |
| `Deployments.DecimalValue` | crates/control-plane/src/k8s_watch.rs:45 | the decimal notation of an exit code denotes it |
| `Deployments.DeploymentService.OnApplied` | crates/control-plane/src/k8s_watch.rs:18-56 | one event judges one pending deployment of the application, changes no other, and does nothing if there is none |
| `Deployments.DeploymentService.SetRunning` | crates/control-plane/src/services/deployments.rs:60-74 | status, reason, event and counter after marking a deployment running |
| `Deployments.DeploymentService.SetFailed` | crates/control-plane/src/services/deployments.rs:76-87 | status, reason, event and counter after marking a deployment failed |
| `Deployments.DeploymentService.CreatePending` | crates/control-plane/src/services/deployments.rs:36-47 | a new pending row under a fresh id |
| `Deployments.DeploymentService.ChangeDigest` | crates/control-plane/src/services/deployments.rs:2-12 | changes one digest and logs a rollout, or reports an unknown id and writes nothing |
| `Deployments.UpdateAlone` | crates/control-plane/src/services/deployments.rs:2-12 | a digest update is its two statements: the row gets the digest and nothing else, and one event says so |
| `Deployments.PostAnswers` | crates/control-plane/src/handlers/deployments.rs:51-91 | each refusal of POST /deployments if and only if its case, and every field of the row it makes |
| `Deployments.DeploymentService.CollectFailed` | crates/control-plane/src/services/deployments.rs:90-101 | deletes exactly the expired, superseded failures with their events and reports their number |
| `Provenance.SignedUnlessPatched` | crates/control-plane/src/handlers/deployments.rs:51-91 | over every run of registry and deployments together, a signed deployment carries a digest that an active key of its application signed if and only if no PATCH changed it or the last one set a digest that the signature fits |
| `Provenance.PatchedAway` | crates/control-plane/src/services/deployments.rs:2-12 | a run from empty tables in which a PATCH leaves a valid signature standing over a digest that nobody signed |
| `Provenance.PostAlone` | crates/control-plane/src/handlers/deployments.rs:84-108 | verification and insert of POST /deployments, with nothing in between, are the handler |
| `Provenance.DeploymentsGood` | crates/control-plane/src/services/deployments.rs:36-101 | the counters, reasons and event log of deployments agree also over the joint runs |
| `Limiter.IntervalLimit` | crates/control-plane/src/main.rs:60-69 | over every run with a monotone clock, a closed interval of length L > 0 admits at most 60 * (n + 1) requests from one address, where n is L in minutes, rounded up |
| `Limiter.MinuteLimit` | crates/control-plane/src/main.rs:60-69 | at most 120 in any 60 seconds |
| `Limiter.MinuteLimitAttained` | crates/control-plane/src/main.rs:65 | a run that is admitted 120 times within exactly 60 seconds |
| `Limiter.WindowExact` | crates/control-plane/src/main.rs:64-67 | of sixty requests at one instant and one more later, the last is refused if and only if no more than 60 seconds have passed |
| `Limiter.AddressesIndependent` | crates/control-plane/src/main.rs:62-67 | every reply to an address is the one it would get if no other address sent anything |
| `Limiter.RateLimiter.Admit` | crates/control-plane/src/main.rs:63-67 | the in-place table update admits and counts as the specification does |
| `Multipart.UploadParts` | crates/aether-cli/src/commands/deploy.rs:455-479 | for every pattern of short reads the accepted parts are the cut of the file, numbered in turn; it fails only on a failed read or a refused part; both loops terminate |
| `Multipart.FillPart` | crates/aether-cli/src/commands/deploy.rs:458-461 | the inner loop fills the buffer as far as the file goes, however reads are split |
| `Multipart.CutIsExact` | crates/aether-cli/src/commands/deploy.rs:455-479 | the pieces join to the file, there are ceil(total/size) of them, all but the last are full, and the last is not empty |
| `Multipart.NumbersExact` | crates/aether-cli/src/commands/deploy.rs:456 | part numbers count 1, 2, ... exactly as long as they fit in an i32 |
| `Multipart.ObserveParts` | crates/control-plane/src/handlers/uploads.rs:727-740 | the loop records the estimate of every part, and what it records adds up to max(size, n - 1) |
| `Multipart.EstimatesTotal` | crates/control-plane/src/handlers/uploads.rs:730-737 | the n estimates add up to max(size, n - 1) |
| `Multipart.EstimateAgainstCut` | crates/control-plane/src/handlers/uploads.rs:731-736 | for a file really cut into n - 1 parts of P bytes and a last one of r, every other estimate is P - ceil((P - r)/n), and the clamp to 1 never acts |
| `Paths.KeysInjective` | crates/control-plane/src/handlers/uploads.rs:165 | storage keys of different digests or applications never coincide, slashes in names included |
| `Paths.DigestBetween` | crates/control-plane/src/handlers/deployments.rs:33-41 | a digest between any two of the delimiters '/', '?' and '&' is found, if none comes before it |
| `Paths.NoDigestWithin` | crates/control-plane/src/handlers/deployments.rs:35-36 | no other character separates a digest |
| `Paths.LowerHex` | crates/control-plane/src/handlers/deployments.rs:37 | upper-case hexadecimal digits become lower-case ones |
| `Paths.ExtractFromKey` | crates/control-plane/src/handlers/deployments.rs:33-41 | a storage key gives back the first digest-like segment of the application name, if any, and otherwise the lower-cased digest |
| `Paths.KeyResolves` | crates/control-plane/src/handlers/deployments.rs:43-48 | the key of a stored artifact resolves to its digest if and only if the name has no other digest-like segment first and the digest is in lower case |
| `Paths.UpperCaseNeverResolves` | crates/control-plane/src/handlers/deployments.rs:37 | the row of a digest with an upper-case letter is found through no URL |
| `Paths.NormalizeIdempotent` | crates/control-plane/src/telemetry.rs:64-80 | normalizing twice is normalizing once, on every string; splitting the result gives its segments back, none of them numeric or UUID-like |
| `Paths.AsciiUuid` | crates/control-plane/src/telemetry.rs:69 | an ASCII segment counts as a UUID if and only if it has 36 characters, 4 of them dashes |
| `Paths.DecimalDigits` | crates/control-plane/src/telemetry.rs:74 | a segment counts as a number if and only if each of its characters is one of 0123456789 |
| `Paths.NormalizeSegments` | crates/control-plane/src/telemetry.rs:69-79 | what becomes of every segment: numbers and UUID-like ones turn into ":id", the one after a leading "apps" into ":app_name", others stay, and only empty ones go |
| `Collector.CollectFiles` | crates/aether-cli/src/commands/deploy.rs:198-229 | the digest is the hash of what was read of all accepted files in walk order; files and manifest entries correspond index by index, with relative paths, their own hashes, sizes and totals; all of a file is read unless a read fails |
| `Collector.CollectedData` | crates/aether-cli/src/commands/deploy.rs:212-226 | without read errors the digest is the hash of the accepted files' data, and each entry has the hash and length of its file's data |
| `Collector.HashFile` | crates/aether-cli/src/commands/deploy.rs:210-215 | the read loop feeds both hashers the file's data from the start and counts it: all of it unless a read fails, however the reads are split |
| `Collector.DigestIndependentOfReads` | crates/aether-cli/src/commands/deploy.rs:213-226 | two collections of the same files without read errors agree in digest, files and manifest, however reads were split |
| `Collector.AcceptedInOrder` | crates/aether-cli/src/commands/deploy.rs:203-224 | every accepted entry is collected, in the order of the walk, and nothing else |
| `Collector.SkippedNames` | crates/aether-cli/src/commands/deploy.rs:254-258 | the skipped names are the four, and those that begin with "artifact-" or "app-" |
| `Collector.BelowSkippedDirectory` | crates/aether-cli/src/commands/deploy.rs:254-258 | only the last component counts: a file below node_modules is not skipped for that |

## Left out

- `Interleaving.QuotaOvershootBound`: excludes legacy uploads, which bypass quota and retention, and completions for unregistered applications, for which `Anomalies.UnregisteredBypass` shows why. Presign and legacy upload are one step each, their single write with arbitrary earlier reads.
- `Surplus.RetentionUnderInterleaving`: excludes legacy uploads likewise, and dropped handlers, for which `Anomalies.DroppedHandler` shows why.
- `Retry.TwoPhaseUpload`: the size threshold that switches to multipart, and the deployment request after a success, whose outcome the client ignores; `Delivery.UploadedCanBeDeployed` says what that request does.
- `Retry.Convergence`: single-part attempts, and no other client on the digest; retention below the count quota may delete the finished row, as `Completion.CompletedRowSurvives` has it. The multipart path of the client is not part of a session.
- `QuotaRuns.CountAndRetention`: legacy uploads are excluded, since they are not metered.
- `QuotaRuns.QuotaAndRetention`: likewise.
- `Provenance.SignedUnlessPatched`: requests to the registry are uninterrupted in these runs; a verified ticket may be inserted any number of times, which covers repeated requests.
- `Multipart.UploadParts`: with a part size of 0 the loop sends nothing, which is stated; the final complete request is not part of the method.
- `Deployments.CountersConserved`: one watcher, as the control plane starts one; with several, two could settle one deployment and the counters would count it twice. The INSERT of the event and the counter increment are one step.
- `Paths.NormalizeIdempotent`: characters are Unicode scalar values; lengths in bytes are computed from them.
- Failing queries, pool timeouts and the fallbacks to 0 or to an empty list.
- HTTP, JSON, authentication, OpenAPI and argument parsing; error replies are constructors instead of status codes.
- The S3 client, presigned URLs and their headers, and the objects themselves.
- Files of the legacy upload (temporary file, rename), tar and gzip, SBOM generation, the dependency cache and package managers.
- Ignore-pattern matching and the file walk: each entry carries the answer. Paths are sequences of components.
- Kubernetes objects, the fetcher script, the operator and the hot-reload log ingestion.
- Prometheus metrics other than the two deployment counters and the part-size estimates; `artifacts_total` follows no simple count.
- Listings, pagination, login, configuration files and exit codes.
