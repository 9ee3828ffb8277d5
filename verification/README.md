# PulseStream: a verified model

PulseStream accepts events over HTTP, stores them in one PostgreSQL table, and has any number of
workers claim them under leases and complete them. This project models the parts its guarantees
rest on and proves these guarantees for every input and every run.

- **The request fingerprint** (`Utf8`, `JsonModel`, `Canonical`, `JsonParser`, `Fingerprint`,
  `CanonicalText`). UTF-8 follows section 3 of RFC 3629, string escapes follow section 7 of RFC 8259.
  A parser that is a left inverse of the canonical writer shows that the hashed bytes decide a request
  exactly; `CanonicalText` spells these bytes out as text.
- **Admission** (`Ledger`, `AdmissionProofs`, `AdmissionTheorems`). Interleaved transactions with
  waits, aborts and lost replies linearize to a first-writer-wins map.
- **Leases, completion, accounting** (`Protocol`, `LeaseProofs`, `CompletionProofs`,
  `AccountingProofs`, `Runs`, `LeaseTheorems`, `ClaimScan`, `CompletionTheorems`, `Coverage`,
  `Ownership`). A state machine over the table, row locks, claim statements, worker tasks, crashes
  and lost replies. Nothing relates the `now()` stamps of different transactions.
- **Durability and progress** (`Reach`, `Recovery`, `Faults`). Nothing accepted is lost, claims take
  it up again, no state of a run is a dead end, and faults can strike at any moment.
- **Where the documentation is wrong** (`Bounded`, `Ownership`, `FailingWorker`, `PileUp`, `Coverage`, `Zeros`).
  Each false promise has a run or an input that breaks it and the exact condition under which it holds.
- **The store, the endpoint and the worker loop as code** (`StoreModel`, `Ingest`, `WorkerBooks`,
  `WorkerScript`, `WorkerModel`). Classes whose methods change fields, each proved against a
  value-level function or the sequential ledger. The worker claims from and completes in the store.

`dafny verify dfyconfig.toml` checks the project. No proof rests on Dafny's automatic induction: lemmas
to which it would apply carry `{:induction false}` and spell their induction out.

## Reading the model

`Protocol.State` holds the committed table and everything in flight; the fields marked as history
are read by no step. A `Run` is any sequence of steps from the empty table. The theorems about runs
quantify over all of them, with no bound on events, workers, transactions or length.

Hypotheses, each stated where it is used:

- SHA-256 is a function parameter `hash` with 32-byte results. Freedom from collisions is assumed only
  for the two inputs being compared, and only for "replay implies same request".
- Payloads are what `serde_json` can hold (`WellFormed`): integers of 64 bits, no key twice in an
  object. Hashed parts are shorter than 2^64 bytes.
- A finite double is identified with the text it prints as: bytes of the number alphabet that contain
  `.` or `e`.
- A lease lies in the configured range, 1,000 to 3,600,000 ms.
- `accepted_at` takes any value; no order among the stamps of different transactions is assumed.

Where the code and its documentation disagree, the model follows the code:

- `crates/pulsestream-worker/src/runtime.rs:42-43` calls every refused completion a claim reclaimed
  elsewhere. The fence compares owners, not attempts, so a worker that takes over its own expired
  lease can be refused without any other worker: `Ownership.WorkerRefusesItself` gives the run.
  `Ownership.CompletionRefusedExactly` says when a completion is refused, and when the documented
  reading of a refusal is the right one.
- `crates/pulsestream-worker/src/runtime.rs:10-12` says that claimed but unfinished events never
  exceed `concurrency`. `PileUp.UnfinishedPileUp` gives, for any number of events, a run in which one
  worker never has more than one live task and has them all unfinished. `Coverage.UnfinishedExactly`
  counts them: the live tasks that cover one, and the stranded ones; so they exceed `c` if and only if
  the stranded ones exceed what the covering tasks leave of `c`. `Coverage.CoveredExactly` says which
  events are stranded.
- `crates/pulsestream-worker/src/runtime.rs:39-40` and `crates/pulsestream-worker/src/runtime.rs:268`
  say that a completion that could not be recorded leaves the event `PROCESSING`.
  `Ownership.LostReplyHidesCompletion` gives a run that counts such a failure and ends with the event
  processed; `Ownership.LostReplyExactly` says that this is so exactly if the lost reply was a success.
- `crates/pulsestream-core/src/idempotency.rs:75-76` compares numbers by their parsed representation.
  `0.0` and `-0.0` are equal to `serde_json` and print differently: `Zeros.ZerosPrintApart` gives the
  payloads, and `Zeros.ZerosDecideBytes` the exact condition on payloads that are equal as values.

## Model

| member | source | states |
|---|---|---|
| Utf8.RoundTrip | crates/pulsestream-core/src/idempotency.rs:91-92 | Decoding undoes the UTF-8 encoding of every string, so labels are recoverable from the bytes that are hashed. |
| Utf8.BytesOrderIsCodePointOrder | crates/pulsestream-core/src/idempotency.rs:71-72 | Comparing strings byte by byte is comparing them by code point, the order the documentation promises for keys. |
| Utf8.KeyOrderTotal | crates/pulsestream-core/src/idempotency.rs:130-130 | The key order is total, irreflexive and asymmetric. |
| Utf8.KeyOrderTransitive | crates/pulsestream-core/src/idempotency.rs:130-130 | The key order is transitive. |
| JsonModel.SortedIsUnique | crates/pulsestream-core/src/idempotency.rs:129-130 | Two sorted lists with the same entries are the same list, so iteration order cannot show in the output. |
| JsonModel.NormalFormDecidesSameness | crates/pulsestream-core/src/idempotency.rs:71-78 | Two payloads have one normal form exactly when they are equal up to key order at every depth. |
| Canonical.SortNormalizes | crates/pulsestream-core/src/idempotency.rs:129-138 | Sorting the entries and then writing each value canonically is writing the normal form. |
| Canonical.WriteCanonical | crates/pulsestream-core/src/idempotency.rs:126-154 | Appends exactly the canonical bytes of the value and keeps what the buffer held. |
| Canonical.WriteObject | crates/pulsestream-core/src/idempotency.rs:128-141 | Sorts, then writes the members with separators: the canonical bytes of the object. |
| Canonical.WriteArray | crates/pulsestream-core/src/idempotency.rs:142-151 | Writes the items in their own order: the canonical bytes of the array. |
| Canonical.WriteScalar | crates/pulsestream-core/src/idempotency.rs:156-158 | Appends the canonical bytes of a scalar. |
| JsonParser.StringRoundTrip | crates/pulsestream-core/src/idempotency.rs:156-158 | Reading back an escaped string recovers it and leaves whatever follows it. |
| JsonParser.NumberRoundTrip | crates/pulsestream-core/src/idempotency.rs:75-76 | Reading back a number's text recovers the number, and tells integers from floats. |
| JsonParser.ValueRoundTrip | crates/pulsestream-core/src/idempotency.rs:126-158 | Reading back any printed value, before any continuation that can follow it, recovers the value and the continuation. |
| JsonParser.CanonicalRoundTrip | crates/pulsestream-core/src/idempotency.rs:126-154 | Reading the canonical bytes gives the payload with its keys sorted, and nothing is left over. |
| JsonParser.CanonicalDecidesSameness | crates/pulsestream-core/src/idempotency.rs:66-81 | Canonical bytes are equal exactly when the payloads are equal up to key order: order-blind and unambiguous. |
| Fingerprint.FramesInjective | crates/pulsestream-core/src/idempotency.rs:88-96 | Length-prefixed fields determine the fields: no shift of field boundaries collides. |
| Fingerprint.PreimageDecidesRequest | crates/pulsestream-core/src/idempotency.rs:86-102 | What is hashed is equal exactly when source, type and payload (up to key order) are. |
| Fingerprint.FingerprintDecidesRequest | crates/pulsestream-core/src/idempotency.rs:66-81 | Same request, same fingerprint, for every hash; the converse unless the hash collides on the two. |
| Fingerprint.AbsorbAll | crates/pulsestream-core/src/idempotency.rs:89-100 | The hasher loop absorbs the framing of all parts in order. |
| Fingerprint.Compute | crates/pulsestream-core/src/idempotency.rs:86-102 | The fingerprint is the hash of the preimage. |
| CanonicalText.LiteralText | crates/pulsestream-core/src/idempotency.rs:156-158 | `null`, `true` and `false` are written as these words. |
| CanonicalText.NumberText | crates/pulsestream-core/src/idempotency.rs:156-158 | Integers are written as plain decimals with no leading zero, and a double as the text it prints as. |
| CanonicalText.StringText | crates/pulsestream-core/src/idempotency.rs:136-137 | A string is written between quotes with each character escaped as text; escaping the UTF-8 bytes is escaping the characters. |
| CanonicalText.ArrayIsText | crates/pulsestream-core/src/idempotency.rs:142-151 | An array is written as the texts of its items, in order, between commas and brackets. |
| CanonicalText.ObjectIsText | crates/pulsestream-core/src/idempotency.rs:128-141 | An object is written as its members' texts in code-point order of their keys, between commas and braces, however it was sorted. |
| CanonicalText.VersionText | crates/pulsestream-core/src/idempotency.rs:18-21 | The version is the ASCII text that the source names. |
| CanonicalText.PreimageText | crates/pulsestream-core/src/idempotency.rs:86-102 | The hash sees version, source, type and canonical payload, in this order, each after its length in eight bytes, most significant first. |
| Requests.SameFingerprint | crates/pulsestream-store/src/lib.rs:218-224 | Comparing stored fingerprints compares the stored requests. |
| EventModel.LabelAccepted | crates/pulsestream-core/src/event.rs:142-153 | A label passes exactly when it is not blank, is short enough and has no control character; trimming is only a test. |
| EventModel.LabelRejectedWith | crates/pulsestream-core/src/event.rs:142-153 | Which error a label gets, exactly: blank first, then too long, then a control character. |
| EventModel.WhitespaceListed | crates/pulsestream-core/src/event.rs:143-145 | The characters that trimming removes are the 25 of Unicode's white space. |
| EventModel.ControlsListed | crates/pulsestream-core/src/event.rs:149-151 | The control characters are the two blocks of 32 and DEL. |
| EventModel.KeyAccepted | crates/pulsestream-core/src/idempotency.rs:43-52 | A key passes exactly with 1 to 128 characters from `!` to `~`, and passes unchanged; any other is invalid. |
| EventModel.StatusCheckParses | migrations/0001_create_events.sql:22-23 | The CHECK of the status column admits exactly the texts that are read back, and reading loses nothing: `get` never meets an unknown status. |
| EventModel.StatusRoundTrip | crates/pulsestream-core/src/event.rs:111-128 | Every status is read back from the text stored for it, and `PROCESSING` is told from the others. |
| EventModel.NewEventAccepts | crates/pulsestream-core/src/event.rs:203-220 | An event is built exactly from valid labels and a payload that is not null. |
| EventModel.NewEventRejectedWith | crates/pulsestream-core/src/event.rs:203-220 | Which error an event gets: the source's first, then the type's, then a null payload's, with limits 100 and 150. |
| Schema.ClaimPassesChecks | migrations/0001_create_events.sql:35-52 | The claim update of a row that passes the checks passes them and the trigger, short of the counter's maximum. |
| Schema.CompletionPassesChecks | migrations/0001_create_events.sql:35-52 | So does the completion of an owned row. |
| Schema.LifecycleByColumn | migrations/0001_create_events.sql:34-52 | The lifecycle CHECK, column by column: owner and lease exactly while processing, `processed_at` exactly when processed, attempts positive once claimed. |
| Schema.TriggerByColumn | migrations/0001_create_events.sql:61-77 | The trigger lets an update through exactly if none of the content columns differs. |
| Schema.ChecksBoundLengths | migrations/0001_create_events.sql:13-18 | The field CHECKs bound lengths exactly where validation does. |
| Schema.OldestFirstByTime | crates/pulsestream-store/src/lib.rs:286-286 | The claim order is by acceptance time, and by event ID among equal times. |
| Ledger.OneRowPerScope | migrations/0001_create_events.sql:32-32 | A table that reflects the ledger has one row per source and key. |
| Ledger.OneIdPerScope | crates/pulsestream-store/src/lib.rs:180-185 | In a legal history all created and replayed answers of a scope name one event. |
| Ledger.OneCreatorPerScope | crates/pulsestream-store/src/lib.rs:180-185 | In a legal history at most one request of a scope is answered as created. |
| Ledger.SlotHasKey | crates/pulsestream-store/src/lib.rs:212-214 | The ledger's slot for a request is the row with its source and its key, and no other. |
| AdmissionProofs.AdmitInvNext | crates/pulsestream-store/src/lib.rs:186-232 | Every step of an admission transaction keeps the linearization invariant. |
| AdmissionProofs.LookupKeeps | crates/pulsestream-store/src/lib.rs:209-227 | After a conflict the lookup always finds the row, and its answer is the ledger's: the invariant stays. |
| AdmissionProofs.WaitsOnCommittable | crates/pulsestream-store/src/lib.rs:182-184 | An insert waits only for a transaction that waits for nobody, so there is no chain or cycle of waits; that transaction can commit, and then the wait for it is over. |
| AdmissionTheorems.Linearizable | crates/pulsestream-store/src/lib.rs:186-232 | In every run the committed admissions, in commit order, are a legal history of the map; the table is what it leaves; every reply is in it. |
| AdmissionTheorems.CommitOrderIsRealTime | crates/pulsestream-store/src/lib.rs:193-231 | The order respects real time: a transaction begun after another committed comes later, and the order is never revised. |
| AdmissionTheorems.OneRowPerScopeOnRun | migrations/0001_create_events.sql:32-32 | In every run there is at most one committed row for a source and a key. |
| AdmissionTheorems.RepliesAgree | crates/pulsestream-store/src/lib.rs:180-185 | Callers with one source and key that are not refused learn one event ID, and at most one learns that it created it. |
| AdmissionTheorems.NeverInconsistent | crates/pulsestream-store/src/lib.rs:225-226 | In every run lookups find their row, and stored labels and attempts parse: `admit` and `claim` never answer `Inconsistent`. |
| AdmissionTheorems.ReplyDecidesSameness | crates/pulsestream-store/src/lib.rs:209-231 | In every run a reply comes with a row of the request's source and key: it created that row with its own content, or replays it exactly when the requests are the same up to key order, and conflicts otherwise. |
| LeaseProofs.ClaimedRowOk | crates/pulsestream-store/src/lib.rs:290-297 | A claim of a claimable row extends its lease history by a window that starts after the last one ended. |
| LeaseProofs.ClaimStepsKeep | crates/pulsestream-store/src/lib.rs:281-306 | Every step of a claim keeps the lease and lock invariant. |
| LeaseProofs.TaskStepsKeep | crates/pulsestream-store/src/lib.rs:339-353 | Every step of a task and its completion keeps it. |
| CompletionProofs.HolderOwns | crates/pulsestream-store/src/lib.rs:339-353 | Whoever has locked a row to complete it owns it, and its last claim is that worker's. |
| CompletionProofs.DoneInvNext | crates/pulsestream-store/src/lib.rs:339-353 | Every step keeps the record of who completed what in agreement with the table and the tasks. |
| AccountingProofs.CountInvNext | crates/pulsestream-store/src/lib.rs:290-297 | Every step keeps the attempt totals and the progress weights in agreement with the rows moved. |
| Runs.InvOnRun | crates/pulsestream-store/src/lib.rs:186-353 | All invariants hold in every state of every run. |
| Runs.GrowsOnRun | migrations/0001_create_events.sql:61-81 | Rows, content, lease histories, commit order and completions are never taken back. |
| LeaseTheorems.LeaseWindowsDisjoint | crates/pulsestream-store/src/lib.rs:282-297 | The lease windows of one event never overlap, and starts and ends strictly increase, whatever order the clock stamps come in. |
| LeaseTheorems.AttemptsTakeTime | crates/pulsestream-core/src/config.rs:36-36 | `n` attempts span at least `n - 1` seconds, for any mix of leases; the lease history has exactly `n` entries. |
| LeaseTheorems.LeaseEndsWithinTheHour | crates/pulsestream-core/src/config.rs:36-36 | In every run a lease lasts from a second to an hour, so an abandoned event is claimable an hour after its claim. |
| LeaseTheorems.CounterLasts | migrations/0001_create_events.sql:28-28 | A claim meets a full attempt counter only 2^31 - 1 seconds after the event's first claim. |
| LeaseTheorems.SchemaNeverRejects | migrations/0001_create_events.sql:9-81 | No step from a state of a run is rejected by a CHECK, the trigger or the unique constraint. |
| LeaseTheorems.BatchesApart | crates/pulsestream-store/src/lib.rs:281-289 | Claims in flight share no row. |
| LeaseTheorems.ClaimsSpareHeldRows | crates/pulsestream-store/src/lib.rs:281-289 | A claim in flight has chosen no row that a completion has locked. |
| LeaseTheorems.VisitLocks | crates/pulsestream-store/src/lib.rs:288-288 | A row that a claim reaches and nobody else has is locked by it from then on, and taken exactly if it is claimable. |
| LeaseTheorems.ClaimCommitsAtomically | crates/pulsestream-store/src/lib.rs:264-306 | The scan, skip, lock, recheck and update commit as one atomic claim: distinct rows, at most `limit`, all claimable at commit, no other row touched. |
| LeaseTheorems.StaleWorkerIsFenced | crates/pulsestream-store/src/lib.rs:334-353 | After another worker's claim and until it claims again, every completion step of the earlier owner answers false and leaves the table as it is. |
| LeaseTheorems.OnlyLastOwnerCompletes | crates/pulsestream-store/src/lib.rs:334-353 | Whoever completed an event was the worker of its last claim. |
| Recovery.AcceptedIsNeverLost | migrations/0001_create_events.sql:59-81 | After a `202`, through crashes, aborts and lost replies, the event stays in the table with its content. |
| Recovery.AcceptedIsTakenUp | crates/pulsestream-store/src/lib.rs:264-306 | An accepted, unprocessed event is chosen by every claim that begins after its lease ran out, is as large as the table and is not locked out of the row, whatever else runs; its commit makes the claimer the owner, under a new lease. |
| Recovery.NoDeadEnd | crates/pulsestream-worker/src/runtime.rs:15-19 | From every state of every run with no attempt counter full, every unprocessed event has a continuation of the run that processes it, whatever is in flight. |
| Faults.EveryRequestCanBeAnswered | crates/pulsestream-store/src/lib.rs:180-232 | From every state of every run, every open request with an ID of its own has a continuation in which its caller is answered, even if it must wait for another transaction. |
| Faults.InsertCanLoseReply | crates/pulsestream-store/src/lib.rs:230-231 | A commit can lose its reply, and leaves the table of an answered one. |
| Faults.ClaimCanLoseReply | crates/pulsestream-store/src/lib.rs:305-306 | A claim can lose its reply after it moved its rows. |
| Faults.CompletionCanFail | crates/pulsestream-worker/src/runtime.rs:261-270 | A completion can fail before its commit; the task counts a failure and the table is unchanged. |
| Faults.TasksCanGo | crates/pulsestream-worker/src/runtime.rs:15-19 | Any tasks can go with their process at any moment, without a trace in the table. |
| LeaseTheorems.ProcessedIsFinal | crates/pulsestream-store/src/lib.rs:340-346 | A processed row never changes again, nor does who completed it. |
| ClaimScan.ScanTakesOldestFree | crates/pulsestream-store/src/lib.rs:281-289 | Whatever runs meanwhile, a claim takes, oldest first and up to its limit, exactly the candidates it finds free and claimable on reaching them; one not taken was locked or not claimable then, or is younger than `limit` taken ones. |
| ClaimScan.UncontendedScanIsExact | crates/pulsestream-store/src/lib.rs:281-289 | If no other statement locks a candidate during the scan, whatever else runs, the batch is exactly the oldest min(limit, claimable) rows of the snapshot. |
| ClaimScan.LargeClaimRecovers | crates/pulsestream-store/src/lib.rs:264-270 | A claim as large as the table takes every claimable row that no other statement locks during the scan, whatever else runs and whoever owned it. |
| CompletionTheorems.CountersNeverExceedRows | crates/pulsestream-worker/src/runtime.rs:238-241 | The `processed` counters of any set of workers never exceed the number of processed rows. |
| CompletionTheorems.CountersConserve | crates/pulsestream-worker/src/runtime.rs:238-271 | They fall short by exactly the completions whose reply is on its way, lost, or without a receiver. |
| CompletionTheorems.CountersMatchAtRest | crates/pulsestream-worker/src/runtime.rs:238-271 | With no such completion they are equal. |
| CompletionTheorems.CompletedOnce | crates/pulsestream-store/src/lib.rs:339-353 | No two tasks are ever told that they completed one event. |
| CompletionTheorems.AttemptsCountClaims | crates/pulsestream-store/src/lib.rs:290-297 | The row updates of a run are the sum of all attempt counters plus the processed rows. |
| CompletionTheorems.UpdatesAreBounded | crates/pulsestream-store/src/lib.rs:290-297 | A run over `n` events with `k` take-overs updates rows `2n + k` times less the remaining weight, so at most `2n + k` times. |
| Ownership.OwnsExactly | crates/pulsestream-store/src/lib.rs:346-346 | In every run the owner column names a worker exactly when the latest claim is its own and nobody has completed the event. |
| Ownership.CompletionRefusedExactly | crates/pulsestream-store/src/lib.rs:334-353 | On its snapshot and again on the locked row, a completion is refused if and only if the latest claim is another worker's or another task of the same worker completed the event, and goes on if and only if its worker holds the latest claim of an uncompleted event. |
| Ownership.WorkerRefusesItself | crates/pulsestream-worker/src/runtime.rs:42-44 | For every valid request and worker there is a run where this worker alone claims the event, never with more than two live tasks, and still counts a lost claim. |
| Ownership.LostReplyExactly | crates/pulsestream-worker/src/runtime.rs:261-270 | When a completion's reply is lost, the event is processed through the task that counts the failure if and only if the lost reply was a success. |
| Ownership.LostReplyHidesCompletion | crates/pulsestream-worker/src/runtime.rs:39-40 | For every valid request and worker there is a run, with one live task at most, that ends with such a failure counted and the event processed. |
| Coverage.CoverInvNext | crates/pulsestream-worker/src/runtime.rs:90-106 | Every step keeps claims, their batches and the tasks spawned for them in agreement. |
| Coverage.CoveredExactly | crates/pulsestream-worker/src/runtime.rs:10-12 | In every run, an unfinished event has the live task of its last claim behind it if and only if the reply arrived, the task was spawned, and it has not failed, lost its reply or gone. |
| Coverage.UnfinishedExactly | crates/pulsestream-worker/src/runtime.rs:10-12 | In every run a worker's unfinished events are as many as the live tasks covering one of them plus the stranded events; they exceed `c` if and only if the stranded ones exceed what the covering tasks leave of `c`. |
| PileUp.UnfinishedPileUp | crates/pulsestream-worker/src/runtime.rs:10-12 | For every list of distinct valid requests there is a run in which one worker, never with more than one live task and claiming one row at a time, has all of them unfinished and no live task. |
| Zeros.SameExceptZeros | crates/pulsestream-core/src/idempotency.rs:75-76 | Equal up to key order means equal as values with no opposite zeros, at every depth. |
| Zeros.ZerosDecideBytes | crates/pulsestream-core/src/idempotency.rs:75-76 | Payloads equal as values have the same canonical bytes if and only if they hold no opposite zeros at one place. |
| Zeros.ZerosPrintApart | crates/pulsestream-core/src/idempotency.rs:156-158 | `0.0` and `-0.0` are equal as values and have different canonical bytes. |
| StoreModel.PickOldest | crates/pulsestream-store/src/lib.rs:282-289 | The loop picks the oldest claimable rows: all, or `limit` of them, with none left that was accepted earlier; ties go by event ID. |
| StoreModel.OldestIsPrefix | crates/pulsestream-store/src/lib.rs:282-289 | Described by this property or by the ordered scan, the batch is the same. |
| StoreModel.Store.Admit | crates/pulsestream-store/src/lib.rs:186-232 | Creates the event if and only if no row has the request's source and key, and otherwise answers by that row's fingerprint, as the ledger does; a lost reply leaves the same table; replays and conflicts leave it unchanged. |
| StoreModel.ParsesExactly | crates/pulsestream-store/src/lib.rs:317-326 | The returned columns parse exactly if both labels are valid and the counter is not negative. |
| StoreModel.CounterFullExactly | migrations/0001_create_events.sql:28-28 | A claim fails on a counter exactly if some counter would leave the 32-bit range. |
| StoreModel.Store.Claim | crates/pulsestream-store/src/lib.rs:271-332 | Exactly the oldest claimable rows get owner, start, lease and one more attempt, column by column; the reply has each once, with its source, type, payload, acceptance time, new attempt and whether it was taken over; exact success condition, error and table on every path. |
| StoreModel.HolderOwns | crates/pulsestream-store/src/lib.rs:346-346 | In a sound store the WHERE clause matches exactly when the latest claim is the worker's and nobody has completed the event. |
| StoreModel.Store.Complete | crates/pulsestream-store/src/lib.rs:334-353 | Succeeds, and records the completion, if and only if the event's latest claim is this worker's and nobody has completed it; the row's columns then, no other row changes, and none otherwise. |
| Ingest.ValidatesExactly | crates/pulsestream-api/src/events.rs:59-86 | A request passes exactly with a key of 1 to 128 graphic bytes and a valid event; key and event pass unchanged. |
| Ingest.RejectsInOrder | crates/pulsestream-api/src/events.rs:82-85 | Which reply a rejected request gets: a missing key, an invalid key, the body, then the event's own error. |
| Ingest.ValidatedIsValid | crates/pulsestream-api/src/events.rs:82-86 | What passes is content that the field CHECKs accept. |
| Ingest.IngestMayBegin | crates/pulsestream-api/src/events.rs:88-93 | So every request that `ingest` sends meets the guard under which the protocol begins a transaction. |
| Ingest.AdmitEvent | crates/pulsestream-api/src/events.rs:86-137 | Reply and table on every path, by the source and key columns: 202 and not replayed for a new event, 202 replayed or 409 by the stored fingerprint, 500 for a duplicate ID, 503 without a reply; a lost reply leaves the table of an answered call. |
| Ingest.Handle | crates/pulsestream-api/src/events.rs:77-137 | Checks come in order, and a rejected request leaves the store as it was; a valid one is answered as above. |
| Ingest.ReplayExactlyWhenSame | crates/pulsestream-api/src/events.rs:94-121 | With its source and key stored, a request is a replay exactly when type and payload are those stored, up to key order, and a conflict otherwise; the table stays. |
| WorkerBooks.CountsBound | crates/pulsestream-worker/src/runtime.rs:160-166 | Each joined task is counted once and nothing but ended tasks is counted. |
| WorkerBooks.EndKeepsGood | crates/pulsestream-worker/src/runtime.rs:225-271 | The last poll of a task, however it ends, keeps the loop's invariant. |
| WorkerBooks.JoinKeepsGood | crates/pulsestream-worker/src/runtime.rs:178-199 | Joining a task keeps it and shrinks the task set by one. |
| WorkerBooks.SpawnKeepsGood | crates/pulsestream-worker/src/runtime.rs:96-106 | Spawning a task with a slot free keeps it and grows the task set by one. |
| WorkerBooks.JoinsStep | crates/pulsestream-worker/src/runtime.rs:84-86 | Joining one ended task first and then the others gives the books that joining them together gives. |
| WorkerBooks.EndsStep | crates/pulsestream-worker/src/runtime.rs:225-271 | The same for tasks that end. |
| WorkerBooks.SpawnsKeepGood | crates/pulsestream-worker/src/runtime.rs:88-106 | Spawning a batch that fits the free capacity keeps the invariant. |
| WorkerBooks.SpawnsAssign | crates/pulsestream-worker/src/runtime.rs:96-106 | Each claimed event gets a task of its own, in order, and no running task changes its event. |
| WorkerScript.ReplyDescribesBatch | crates/pulsestream-store/src/lib.rs:282-302 | A reply of the store has at most `limit` entries, and each names a row the claim has just given to the worker. |
| WorkerBooks.GoodTotals | crates/pulsestream-worker/src/runtime.rs:160-166 | The counters cover every joined task and no more than the spawned ones. |
| WorkerModel.Worker.constructor | crates/pulsestream-worker/src/runtime.rs:66-72 | Starts with empty books that satisfy the invariant. |
| WorkerModel.Worker.Process | crates/pulsestream-worker/src/runtime.rs:225-271 | The processor's result and then the store's answer decide the ending; the event is recorded as completed by this call exactly if the processor succeeds, the completion reaches the store and the latest claim is this worker's. |
| WorkerModel.Worker.ProcessClaim | crates/pulsestream-worker/src/runtime.rs:201-272 | Keeps the invariant, and counts the task by that ending; what is counted as processed, this call has completed. |
| WorkerModel.Worker.End | crates/pulsestream-worker/src/runtime.rs:201-272 | Keeps the invariant; the task stays in the set, and every counter still counts the endings of its kind, a panic only once joined. |
| WorkerModel.Worker.RecordJoin | crates/pulsestream-worker/src/runtime.rs:178-199 | Keeps the invariant; one task fewer, `running` names exactly the rest, and the counters still count the endings, the joined panics now among them. |
| WorkerModel.Worker.JoinFinished | crates/pulsestream-worker/src/runtime.rs:84-86 | Joins exactly the ended tasks. |
| WorkerModel.Worker.Ask | crates/pulsestream-worker/src/runtime.rs:88-95 | Asks for exactly the free capacity and hands on the whole reply: the oldest claimable rows, each once, or nothing on an error; no more than that capacity, by the store's limit, and each now this worker's; the table it leaves. |
| WorkerModel.Worker.ClaimFree | crates/pulsestream-worker/src/runtime.rs:88-120 | Keeps the invariant; every event the claim brings gets a task of its own, which the table shows as this worker's, and no running task changes its event; a claim that fails spawns nothing. |
| WorkerModel.Worker.Wait | crates/pulsestream-worker/src/runtime.rs:122-130 | Shutdown goes before an ended task; at most one task is joined. |
| WorkerModel.Worker.Turn | crates/pulsestream-worker/src/runtime.rs:83-131 | One turn claims exactly the capacity that is free after the joins, from the table that other processes leave, takes on all it gets, and keeps the invariant: at most `concurrency` unjoined tasks, `running` naming exactly these, counters exact. |
| WorkerModel.Worker.Drain | crates/pulsestream-worker/src/runtime.rs:139-145 | Spawns nothing, joins what ends, and is complete exactly when no task is left. |
| WorkerModel.Worker.Loop | crates/pulsestream-worker/src/runtime.rs:83-131 | Takes its turns one after the other, up to and with the first that shutdown stops, or all; each turns the books into the next. |
| WorkerModel.Worker.Finish | crates/pulsestream-worker/src/runtime.rs:133-158 | Drains, and aborts what is left; times out exactly if tasks are left, and abandons exactly those. |
| WorkerModel.Worker.Run | crates/pulsestream-worker/src/runtime.rs:59-176 | The loop's turns up to shutdown, then only the drain and the abort: nothing is spawned after the loop. Drained: processed, failed and lost claims add up to the tasks spawned, each counter exact. Timed out: the sum is at most that, and at least that with `abandoned` added. |

## Left out

- HTTP routing, extractors, JSON rejection mapping, response bodies and headers: framework plumbing; the model keeps the kind of reply.
- Health checks, telemetry, signals, both `main.rs` files, logging and the `database_available` flag, which only decides what is logged.
- Configuration parsing: the lease and concurrency ranges are constants or preconditions.
- The connection pool, timeouts and the classification of `sqlx` errors: failure is a step, or the `Link` of a call.
- SHA-256, UUID generation and float formatting: a parameter, an argument, and an abstract text.
- JSONB normalisation of stored payloads, including its refusal of the character U+0000: the code compares fingerprints, never stored payloads.
- Timestamp formatting in `get` and redaction in `Debug`: easy members.
- Test support, including `expire_lease`, which moves leases outside the protocol.
- Clamping of `limit` to the largest `i64`: no table has more rows.
- Poll and shutdown timing: the worker's script decides how long a turn and a drain last.
- StoreModel.Store.Claim: the class runs one statement at a time; locks, skipping and the schema checks are proved over runs of `Protocol`.
- ClaimScan.LargeClaimRecovers: recovery is possible, not inevitable; no fairness of workers or clocks is assumed.
- WorkerModel.Worker.Run: follows one worker; what other processes make of the store before each call is scripted, and no step of theirs is modelled here. `Protocol` models all of them, and does not bound the tasks of a worker, so its theorems cover more interleavings.
- EventModel.StatusCheckParses: the status column is an enumeration in `Protocol`; its text and CHECK are modelled in this lemma only.
