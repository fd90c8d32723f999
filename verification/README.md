# IndustryFlow: verified models of its protocols

IndustryFlow is a multi-tenant platform for industrial sensor data. Several of its services are small
protocols whose correctness depends on the order of calls, on crashes, retries and lifetimes. This
project models them in Dafny, one event or statement per store or database call, and proves what
every interleaving keeps. `dafny verify dfyconfig.toml` checks everything.

| files | part of the system |
|---|---|
| `ColdNaming`, `ColdExport`, `ColdTheorems`, `ColdRun`, `ColdOutcome`, `ColdReader`, `ColdLimits` | cold-layer export of a tenant's days: snapshot, part, manifest, checked drop, and the reader |
| `Alerts`, `AlertRuns`, `AlertConsumer` | alert worker: at-least-once consumption, cooldown de-duplication, LRU cache in front of the database check |
| `Sessions`, `SessionRuns`, `SessionEnds`, `SessionReuse` | refresh tokens, their index, reuse detection, ended-session records, the wait before a token is minted |
| `CapabilityRecord`, `AuditDrain`, `AuditRuns` | the capability-use scripts and the consumer-group drain |
| `Admission`, `Staging`, `Uploads`, `UploadOutcomes`, `Offboarding`, `Scoping` | tracking gateway: judged uploads, emptying a deleted tenant, name scoping |
| `SignIn`, `Wire`, `Tenancy`, `Router` | sign-in back-off, PostgreSQL wire codec, tenant names, routing of a Spark micro-batch |

## How it is modelled

- Protocols with concurrency are state machines: a total step function over events, a run as a fold,
  an invariant, and theorems over every run. Loops and in-place updates of the source are methods
  with loops, on classes where the source has mutable state; each is proved against a function of
  its inputs, and the lemmas are about that function.
- Interference and failures are inputs: an exporter step may be preceded by any insert, an object
  store call by any re-PUT, and stores and databases stop answering after any number of calls.
- One nondecreasing clock is assumed. Times are reals, a store key set at `w` for `d` seconds is gone
  from `w + d` on. Day fingerprints are row-set equality, an object's ETag is its content, alert ids
  are an injective function of scope and time.
- The alert worker's result needs no positive cooldown: the deterministic primary key absorbs the
  replays the window does not.

## What turned out false

Each of these has a lemma with a failing input or run and a lemma with the exact condition.

1. A legacy (single-file) day whose rows are all archived is rewritten as a format-2 manifest before
   the drop (`services/cold_export/exporter.py:168-178`). If the drop does not happen, the next run
   takes part 0 for a pending part and overwrites it (`ColdTheorems.LosesARow`). Rows are lost on some
   run unless `LegacySafe` holds (`ColdTheorems.LegacyDayExactly`).
2. The drop function accepts only four-digit part numbers, so a day's ten-thousand-and-first part is
   written and listed but never dropped. Some run gets there (`ColdLimits.NamesRunOut`); exactly when,
   is `ColdNaming.DroppableExactly` and `ColdOutcome.ExportEmptiesExactly`.
3. The reader lists a directory and then opens its manifest; an export in between makes it report a
   missing part (`ColdReader.StaleListingFails`, `ColdLimits.StaleListingsExist`), exactly when there
   was something new to export whose file was not there yet (`ColdReader.StaleListingExactly`).
4. Two overlapping ends of one user's sessions may write their times in the opposite order, after
   which a token already refused is accepted again (`SessionEnds.OverlapUnrefuses`,
   `SessionEnds.EndWriteExactly`). Ends that do not overlap are safe (`SessionEnds.RefusedOnEveryRun`).
5. The record that a reused session ended is written for the refresh lifetime, but a later logout or
   revocation rewrites the same key for the access lifetime (`SessionEnds.LogoutShortensReuse`,
   `SessionEnds.ShortenedExactly`). Even without that, a token issued after the record outlives it
   (`SessionEnds.LaterTokenOutlivesReuse`); it is covered exactly when issued no later
   (`SessionEnds.FoundIfIssuedBefore`).
6. Suppressed repeats are lost when a silence outlasts the count's life
   (`CapabilityRecord.LapsedRepeatIsLost`), and only then (`CapabilityRecord.RepeatsConserved`).
7. `split_message` does not refuse a length field below four and then leaves part of the header in
   the rest (`Wire.ShortLengthTaken`, `Wire.BuildUndoesSplitExactly`); `parse_startup_packet` also
   accepts a parameter area without its final terminator (`Wire.UnterminatedTaken`,
   `Wire.StartupAccepted`).
8. `safe_member_path` lets the control characters 0x80 to 0x9f through, which the plain-key rule of
   the tenancy contract refuses (`Staging.ControlTaken`, `Staging.TakenIsPlainExactly`), and the
   upload-id pattern also matches before a final newline (`Staging.NewlineAccepted`,
   `Staging.UploadIdExactly`).
9. A commit that ends in 409 removes the keys it copied even where an earlier commit of the same
   upload id had put them there (`UploadOutcomes.SecondCommitLoses`,
   `UploadOutcomes.LaterRefusalUndoes`), exactly when one of those places was taken
   (`UploadOutcomes.TakesBackExactly`, `UploadOutcomes.RefusalKeepsExactly`).

## Model

| member | source | states |
|---|---|---|
| `ColdNaming.PartFileInjective` | services/cold_export/naming.py:40-44 | two part indices never share a file name |
| `ColdNaming.DroppableExactly` | infrastructure/timescaledb/init-scripts/16-cold-layer-raw-retention.sql:126-128 | the drop function's pattern accepts a part's name exactly when its index is below ten thousand |
| `ColdExport.NextPartIsFree` | services/cold_export/exporter.py:156-157 | the name a run writes to is never a committed part's and never one with a drop record; it is listed only as the pending last entry |
| `ColdExport.SameCount` | services/cold_export/exporter.py:245-263 | a verified part, one whose rows are as many as it was given, holds exactly the rows it was given, whatever the write may have lost |
| `ColdExport.StepKeeps` | services/cold_export/exporter.py:122-190 | every single call, insert or crash keeps the invariant: numbered parts, disjoint parts, every ingested key hot or in a committed part, nothing in a part that was not ingested |
| `ColdExport.RunKeeps` | services/cold_export/exporter.py:122-190 | the same over every run of any length |
| `ColdTheorems.NothingLost` | services/cold_export/exporter.py:122-190 | on every run from an unexported day, every key ever inserted is in the hot table or in a listed part with a drop record |
| `ColdTheorems.ReadingsSurvive` | services/cold_export/exporter.py:122-190 | and, when a redelivery carries the same reading, the reading itself is there |
| `ColdTheorems.ListedPartsWellFormed` | services/cold_export/exporter.py:131-178 | entry i is part i and its file exists, only the last entry can lack a drop record, a recorded part has its verified count, no key is in two listed parts |
| `ColdTheorems.RecordedPartsFrozen` | services/cold_export/exporter.py:153-157 | a part with a drop record keeps its record and is never written again, whatever follows |
| `ColdTheorems.LosesARow` | services/cold_export/exporter.py:168-178 | the concrete run on a legacy day of which some archived rows came back: manifest rewritten as format 2, crash before the drop, part 0 overwritten with the rows that came back, the others gone from everywhere |
| `ColdTheorems.LegacyDayExactly` | services/cold_export/exporter.py:133-179 | a legacy day keeps every row hot or in a listed part on every run if and only if its file's rows are all hot, or the hot table has a row the file lacks, or the day is empty and the file has at most one row |
| `ColdRun.TenantArchive.CheckParts` | services/cold_export/exporter.py:140-141 | all committed parts match their manifest counts, exactly |
| `ColdRun.TenantArchive.WithoutArchived` | services/cold_export/exporter.py:226-242 | the rows kept are exactly the snapshot's rows whose natural key no committed part holds, unchanged |
| `ColdRun.TenantArchive.ExportDay` | services/cold_export/exporter.py:122-190 | an undisturbed call changes that day only, to the state `Export` gives, and answers its outcome; what that state is, is proved by the ColdOutcome rows |
| `ColdRun.TenantArchive.ExportTenant` | services/cold_export/exporter.py:101-119 | the days in turn; the first failing day ends the tenant's run |
| `ColdOutcome.ExportIsARun` | services/cold_export/exporter.py:122-190 | the imperative call is one of the step machine's runs, so everything proved of every run holds of it |
| `ColdOutcome.ExportEmptiesExactly` | services/cold_export/exporter.py:143-190 | an undisturbed export fails exactly when it would end on a part beyond the ten thousand names the drop accepts; otherwise the day has no hot row left |
| `ColdLimits.EveryNumberOfParts` | services/cold_export/exporter.py:153-178 | for every n up to ten thousand, some run from a day never exported ends with n parts, all dropped |
| `ColdLimits.NamesRunOut` | infrastructure/timescaledb/init-scripts/16-cold-layer-raw-retention.sql:126-128 | and some run then meets a late row whose part the drop refuses, so that the export fails |
| `ColdOutcome.EachKeyOnce` | services/cold_export/exporter.py:143-190 | afterwards each ingested key is in exactly one listed part |
| `ColdOutcome.SecondRunChangesNothing` | services/cold_export/exporter.py:144-148 | a further run changes nothing and answers that nothing is left to do |
| `ColdOutcome.TenantEmptied` | services/cold_export/exporter.py:101-119 | a tenant run succeeds exactly when no day runs out of names, leaves every exported day empty and every other day as it was |
| `ColdReader.VerifiedParts` | clients/python/industryflow/cold.py:118-138 | answers the manifest's parts exactly when all of them are in the listing, else names a missing one |
| `ColdReader.ReaderAndExporterAgree` | clients/python/industryflow/cold.py:149-154 | reader and exporter read the same parts from a manifest, legacy ones included |
| `ColdReader.ReaderSeesEverything` | clients/python/industryflow/cold.py:118-154 | in every reachable state no listed part is missing, and the keys read with the hot keys are exactly the keys ever ingested |
| `ColdReader.StaleListingExactly` | clients/python/industryflow/cold.py:118-138 | listing the directory and opening the manifest later: whatever the exporter does in between, the read goes through, if and only if at the listing there was nothing new to export or the next part's file was already there |
| `ColdReader.StaleListingFails` | clients/python/industryflow/cold.py:118-138 | a settled day with a late row not yet written is one where an export in between makes the read fail |
| `ColdLimits.StaleListingsExist` | clients/python/industryflow/cold.py:118-138 | for every number of parts up to ten thousand, some run from a new day reaches such a day |
| `Alerts.ScopesAgree` | services/alert_service/worker/repository.py:28-36 | the two SQL scope conditions select exactly the rows of the alert's scope |
| `Alerts.PriorIsLatest` | services/alert_service/worker/repository.py:37-56 | the window query answers the latest stored alert of the scope within the cooldown, or none when there is none |
| `Alerts.AlertsTable.SaveAlertOnce` | services/alert_service/worker/repository.py:139-190 | inserts exactly when neither the window nor the primary key blocks it, and reports the prior alert |
| `Alerts.RulesEngine.Remember` | services/alert_service/worker/rules_engine.py:201-205 | the LRU cache after a remembered alert; never above its bound |
| `Alerts.RulesEngine.Emit` | services/alert_service/worker/rules_engine.py:207-242 | the table becomes what the database check alone would make it, whatever the cache holds |
| `Alerts.RulesEngine.Evaluate` | services/alert_service/worker/rules_engine.py:244-297 | a reading's raised alerts in rule order: the table is the in-order pass over them, what is returned is exactly what was added, and every cache entry names a stored alert |
| `Alerts.EmitIsSaved` | services/alert_service/worker/rules_engine.py:197-242 | for every sound cache the emitted effect equals the database check's, and the cache stays sound |
| `AlertRuns.PassIsSpaced` | services/alert_service/worker/repository.py:37-56 | two stored alerts of one scope are never closer than the cooldown in event time |
| `AlertRuns.CachesAreInvisible` | services/alert_service/worker/rules_engine.py:197-242 | any number of replicas with their own bounded caches, interleaved between check and save: the table is what the database check alone gives, every cache entry names a stored alert, alerts stay a cooldown apart |
| `AlertRuns.ReplayIsBlocked` | services/alert_service/worker/repository.py:139-190 | an alert once taken in is blocked for ever after, by the window or by its deterministic id |
| `AlertRuns.ExactlyOnce` | services/alert_service/worker/kafka_consumer.py:151-206 | any run of a partition through rewinds, partial evaluations, lost commits and restarts leaves the alerts table of one in-order pass, for any cooldown |
| `AlertConsumer.AttemptsDecide` | services/alert_service/worker/kafka_consumer.py:208-246 | retries are exhausted exactly when every attempt failed for an unknown reason, and otherwise the first other attempt decides |
| `AlertConsumer.InfrastructureNeverDeadLetters` | services/alert_service/worker/kafka_consumer.py:208-246 | a message stalls exactly when an infrastructure failure is its first decisive attempt, and is refused exactly when it does not decode, is first found invalid, or fails otherwise every time |
| `AlertConsumer.AlertKafkaConsumer.HandleMessage` | services/alert_service/worker/kafka_consumer.py:208-278 | a message counts as handled only if processed or its dead letter was sent; the effects are exactly those of its fate |
| `AlertConsumer.AlertKafkaConsumer.HandleBatch` | services/alert_service/worker/kafka_consumer.py:181-198 | the commit is sent exactly when every record of the batch was handled; it moves each partition just past its batch, also when its answer is lost; whatever is newly marked was evaluated, or refused for that reason, in this round |
| `AlertConsumer.AlertKafkaConsumer.SeekToCommitted` | services/alert_service/worker/kafka_consumer.py:280-290 | every assigned partition goes back to its commit, or to its beginning |
| `AlertConsumer.AlertKafkaConsumer.RewindAndBackOff` | services/alert_service/worker/kafka_consumer.py:200-206 | rewinds, counts the failed batch and waits the back-off of that count |
| `AlertConsumer.AlertKafkaConsumer.ConsumeMessages` | services/alert_service/worker/kafka_consumer.py:151-206 | over any number of rounds with any failures, lost commit answers, rebalances and deaths: every offset below a commit was processed or dead-lettered, no commit moves back, the offsets are exactly those of the rounds' answers, every new processed mark was evaluated in some round and every new letter is of a record refused for that reason in some round |
| `AlertConsumer.LettersOfARun` | services/alert_service/worker/kafka_consumer.py:208-278 | over every run, a dead letter's record did not decode, was found invalid before any infrastructure failure, or failed otherwise on every attempt, in a round that sent the letter |
| `AlertConsumer.StalledNeverPassed` | services/alert_service/worker/kafka_consumer.py:181-290 | over every run, a record that infrastructure keeps failing is neither processed nor dead-lettered, and its partition's commit never passes it |
| `AlertConsumer.BackOffGrows` | services/alert_service/worker/kafka_consumer.py:200-206 | the wait never shrinks with further failures and never exceeds its cap |
| `AlertConsumer.BackOffDoubles` | services/alert_service/worker/kafka_consumer.py:200-206 | below the cap it doubles |
| `SessionRuns.StepKeeps` | services/api_gateway/messaging/refresh_tokens.py:85-248 | every single store call of issue, claim, revoke, revoke-all, reuse-ending and logout keeps the session invariant |
| `SessionRuns.LiveTokensIndexed` | services/api_gateway/messaging/refresh_tokens.py:85-127 | on every interleaving each live refresh token is in its user's index, and the index outlives it |
| `SessionRuns.ClaimedAtMostOnce` | services/api_gateway/messaging/refresh_tokens.py:103-127 | no token is claimed twice, and a claimed token never lives again |
| `SessionRuns.RevokeAllRevokes` | services/api_gateway/messaging/refresh_tokens.py:297-314 | when a revoke-all has returned, no token of the user live at its index read is live, and every session whose token it deleted was recorded as ended by a record that holds at least the shorter lifetime from then |
| `SessionRuns.ReuseEndsTheSession` | services/api_gateway/messaging/refresh_tokens.py:198-215 | when the ending of a reused session has returned, no refresh token of that user and session live at its index read is live, whatever interleaved |
| `SessionReuse.ReuseIsRecognised` | services/api_gateway/messaging/refresh_tokens.py:124-187 | once a claim is on record, on every run, the token presented again after the grace and within its lifetime is recognised as the reuse that ends its session or as one that already did |
| `SessionEnds.EndWriteExactly` | services/api_gateway/messaging/refresh_tokens.py:317-327 | a step keeps every unexpired refused token refused exactly when it does not write an older end time over a newer one that still matters |
| `SessionEnds.RefusedStaysRefused` | libs/industryflow_contracts/industryflow_contracts/sessions.py:48-74 | a token refused because all its user's sessions ended stays refused until it expires, on every run whose end times are written in order |
| `SessionEnds.AloneInOrder` | services/api_gateway/messaging/refresh_tokens.py:317-327 | ends of one user that never overlap are written in order |
| `SessionEnds.RefusedOnEveryRun` | services/api_gateway/messaging/refresh_tokens.py:317-332 | the same from an empty store, for users whose ends never overlap |
| `SessionEnds.OverlapUnrefuses` | services/api_gateway/messaging/refresh_tokens.py:325-325 | two overlapping ends: the older time written last accepts a token the newer one refused |
| `SessionEnds.WaitOutAnEnd` | services/api_gateway/messaging/refresh_tokens.py:263-289 | waits exactly within the allowance, until the first clock reading at or past the first whole second after it |
| `SessionEnds.MintedAfterTheWait` | services/api_gateway/messaging/refresh_tokens.py:280-289 | every token minted after the wait is accepted by that end if and only if the wait began at most the allowance and one second before that second |
| `SessionEnds.WaitSuffices` | services/api_gateway/users.py:200-210 | a wait begun no earlier than the recorded end always suffices |
| `SessionEnds.ShortenedExactly` | services/api_gateway/messaging/refresh_tokens.py:247-248 | a session's record loses time exactly when an access-lifetime write ends sooner than the record in place |
| `SessionEnds.ReusedSessionStaysEnded` | services/api_gateway/messaging/refresh_tokens.py:198-215 | without such a write, a refresh token issued by the time of the reuse record always finds its session ended |
| `SessionEnds.FoundExactly` | services/api_gateway/messaging/refresh_tokens.py:203-205 | a live refresh token finds its session ended on every such run if and only if the record in place lasts at least as long as the token |
| `SessionEnds.FoundIfIssuedBefore` | services/api_gateway/messaging/refresh_tokens.py:203-205 | that is, if and only if it was issued no later than the reuse was recorded |
| `SessionEnds.LaterTokenOutlivesReuse` | services/api_gateway/messaging/refresh_tokens.py:203-205 | a token of the session issued later is live, at the end, with no record that its session ended |
| `SessionEnds.LogoutShortensReuse` | services/api_gateway/messaging/refresh_tokens.py:203-205 | with one (a logout), a token issued in the race outlives the record of its session's end |
| `CapabilityRecord.RepeatKey.Repeat` | libs/industryflow_contracts/industryflow_contracts/capability_audit.py:90-104 | the script's effect on marker, count and stream, and its answer; proved against the two rows below |
| `CapabilityRecord.RepeatsConserved` | libs/industryflow_contracts/industryflow_contracts/capability_audit.py:78-104 | presented = recorded + carried + pending, if and only if no counted presentation is followed by a silence as long as the count lives; never more |
| `CapabilityRecord.LapsedRepeatIsLost` | libs/industryflow_contracts/industryflow_contracts/capability_audit.py:78-85 | a recording, a repeat a second later, a week of silence, a recording: the repeat is in no record |
| `CapabilityRecord.RecordingsSpaced` | libs/industryflow_contracts/industryflow_contracts/capability_audit.py:82-104 | any two recordings are at least a window apart |
| `CapabilityRecord.RecordedNearby` | libs/industryflow_contracts/industryflow_contracts/capability_audit.py:82-104 | every presentation is at, or less than a window after, a recording |
| `CapabilityRecord.RefusalStore.Unknown` | libs/industryflow_contracts/industryflow_contracts/capability_audit.py:59-76 | the script's effect on markers and counters, and its answer; proved against the rows below |
| `CapabilityRecord.WindowAnswers` | libs/industryflow_contracts/industryflow_contracts/capability_audit.py:46-76 | in every window of a source that counted n values, min(n, 60) are recorded, the overflow is reported once exactly when n exceeds 60, and the rest are silent |
| `CapabilityRecord.WindowsApart` | libs/industryflow_contracts/industryflow_contracts/capability_audit.py:63-66 | a value counted lies in its window, and two windows of one source end at least a window apart |
| `CapabilityRecord.DigestsSpaced` | libs/industryflow_contracts/industryflow_contracts/capability_audit.py:60-74 | a value is recorded at most once in each of its own windows |
| `AuditDrain.InsertAllUnique` | infrastructure/timescaledb/init-scripts/31-capability-audit.sql:57-78 | inserting any rows leaves each stream id once, keeps what was there and adds no id but theirs |
| `AuditDrain.InsertAgain` | infrastructure/timescaledb/init-scripts/31-capability-audit.sql:57-78 | redelivered rows change nothing |
| `AuditDrain.Database.WriteTogether` | services/api_gateway/messaging/capability_audit_drain.py:112-116 | one transaction: all the rows when none is refused, nothing otherwise; a row's own fault is told from an outage |
| `AuditDrain.Database.WriteAlone` | services/api_gateway/messaging/capability_audit_drain.py:120-130 | row by row: exactly the rows the database takes, or a first part of them when cut off |
| `AuditDrain.Database.WriteBatch` | services/api_gateway/messaging/capability_audit_drain.py:95-131 | whichever way the rows went in, the table gains exactly what the database takes of the batch, and every id is acknowledged; a raise acknowledges nothing |
| `AuditRuns.StepKeeps` | services/api_gateway/messaging/capability_audit_drain.py:176-194 | every stream call, transaction, trim, expiry and stop of any consumer keeps the drain's invariant |
| `AuditRuns.EntriesAccounted` | services/api_gateway/messaging/capability_audit_drain.py:95-194 | for any consumers, claims, crashes and redeliveries: an untrimmed entry is gone from the stream only once written, unless unreadable or refused for its own data; while there it is undelivered or claimable |
| `AuditRuns.TableSound` | services/api_gateway/messaging/capability_audit_drain.py:95-131 | the table holds each entry id at most once, and only rows of entries the database takes, as appended |
| `AuditRuns.PassSettles` | services/api_gateway/messaging/capability_audit_drain.py:183-194 | a pass that is not stopped removes every entry of its batch from the stream, all of them settled, whatever every other consumer does between its calls |
| `AuditRuns.Fetches` | services/api_gateway/messaging/capability_audit_drain.py:179-183 | a claim and a read hand the consumer exactly the pending and the unread entries they were given |
| `Admission.DeclaredExecutable` | services/notebook_tracking_gateway/admission.py:112-126 | finds a declaring entry of the walk, or none declares |
| `Admission.Evaluate` | services/notebook_tracking_gateway/admission.py:134-160 | admits exactly the artifacts with a readable manifest and flavors, no declaring entry on any path into them, and no file opening as an object stream |
| `Admission.WalkReaches` | services/notebook_tracking_gateway/admission.py:100-109 | the walk meets exactly the mapping entries that some path of positions leads to, at any depth |
| `Staging.MemberPathExactly` | services/notebook_tracking_gateway/staging.py:77-96 | a member path is taken unchanged or refused, and exactly which; every plain short key is taken |
| `Staging.TakenIsPlainExactly` | services/notebook_tracking_gateway/staging.py:87-96 | a path taken is plain if and only if it holds no control character from 0x80 to 0x9f |
| `Staging.ControlTaken` | services/notebook_tracking_gateway/staging.py:91-92 | a path with such a character is taken |
| `Staging.UploadIdExactly` | services/notebook_tracking_gateway/staging.py:56-74 | an upload id is accepted exactly when it, or it without a final newline, is 16 to 64 of the pattern's characters |
| `Staging.NewlineAccepted` | services/notebook_tracking_gateway/staging.py:56-74 | one with a newline after it is accepted |
| `Staging.StagedKeysApart` | services/notebook_tracking_gateway/staging.py:110-122 | a staged key determines its tenant, upload and member |
| `Staging.StagedOutOfReach` | services/notebook_tracking_gateway/staging.py:110-122 | no tenant's artifact prefix reaches a staged key; the owner's reading of it is the member |
| `Uploads.HandleStore.Consume` | services/notebook_tracking_gateway/gateway.py:147-154 | wins exactly when the handle is there, removing and recording it in one step |
| `Uploads.WonAtMostOnce` | services/notebook_tracking_gateway/gateway.py:312-318 | however claims, mints and lapses interleave, one handle wins at most once |
| `Uploads.ReadAll` | services/notebook_tracking_gateway/gateway.py:331-333 | one read per member, each of the object the store holds at the key when its turn comes; nothing is written; it gets through exactly when the store answers that many calls |
| `Uploads.Promote` | services/notebook_tracking_gateway/gateway.py:351-362 | each key is copied in the version read, stopping exactly at the first that has changed or vanished by its turn, or when the store fails |
| `Uploads.Commit` | services/notebook_tracking_gateway/gateway.py:288-369 | for any re-PUTs by others between any two calls, and cut off at any call: which outcome follows which cause, what each leaves in the upload's landing area, and that a verdict follows only a won claim |
| `UploadOutcomes.QuietCommitLands` | services/notebook_tracking_gateway/gateway.py:288-369 | with a good id, a live handle, something staged, nobody else and enough calls answered, the commit lands if and only if what is staged passes, and is otherwise refused |
| `UploadOutcomes.QuietCommitPlaces` | services/notebook_tracking_gateway/gateway.py:351-363 | and then every staged object is at its place |
| `Uploads.PromotedExactly` | services/notebook_tracking_gateway/gateway.py:351-362 | each promoted key is at its place in the version read, and nothing else changed |
| `Uploads.WholeObjectsPass` | services/notebook_tracking_gateway/gateway.py:327-349 | what passed on opening bytes passes as whole objects: the manifest judged is the entire manifest of the version promoted |
| `Uploads.LandingHolds` | services/notebook_tracking_gateway/gateway.py:327-369 | however a commit ends, each object in its landing area was there before or is the exact version that was read and passed; one ending in 409 leaves none of what it copied |
| `UploadOutcomes.TakesBackExactly` | services/notebook_tracking_gateway/gateway.py:357-361 | a commit ending in 409 leaves the landing area as it was if and only if none of the places it copied to was taken |
| `UploadOutcomes.RefusalKeepsExactly` | services/notebook_tracking_gateway/gateway.py:353-361 | wherever it stops, if and only if the area holds no place of a member listed before the last |
| `UploadOutcomes.LaterRefusalUndoes` | services/notebook_tracking_gateway/gateway.py:353-361 | after a commit that landed, a later one of the same upload id that copied a member and then ended in 409 has removed that member's landed object |
| `UploadOutcomes.SecondCommitLoses` | services/notebook_tracking_gateway/gateway.py:288-361 | the concrete run: commit, re-PUT, second handle, members changed before the second copy, 409, and one of the two landed objects gone |
| `Offboarding.Tracking.Experiments` | services/notebook_tracking_gateway/offboarding.py:86-98 | over all pages, exactly the experiments whose name starts with the prefix, though the filter's underscore matches more |
| `Offboarding.Tracking.EmptyTenant` | services/notebook_tracking_gateway/offboarding.py:38-66 | a call the store answers enough of gets through and leaves the emptied store; one cut off at any call leaves a store whose emptying ends the same |
| `Offboarding.Tracking.EmptyRepeatedly` | services/notebook_tracking_gateway/offboarding.py:38-66 | repeated after any number of failures, it gets through as soon as the store answers what the first state needed, and ends as one undisturbed call on the first state would |
| `Offboarding.EmptiedTwice` | services/notebook_tracking_gateway/offboarding.py:17-18 | emptying again changes nothing |
| `Offboarding.NothingOfTheTenant` | services/notebook_tracking_gateway/offboarding.py:38-66 | afterwards its models, objects and named experiments are gone, and each of its experiments is deleted under its own id in the deleted root with no logged model |
| `Offboarding.OthersUntouched` | services/notebook_tracking_gateway/offboarding.py:80-111 | no model, object or experiment of another tenant changes, deleted or not |
| `Offboarding.RenameNeverCollides` | services/notebook_tracking_gateway/offboarding.py:54-55 | the new name is no other experiment's |
| `Offboarding.CollectsOnlyDeletedTenants` | infrastructure/mlflow/collect_deleted.py:57-62 | collection takes what emptying left, and never an active experiment or one in a tenant's own name space |
| `SignIn.DelayAfter` | services/api_gateway/sign_in_throttle.py:86-90 | zero exactly below the threshold, never above the cap |
| `SignIn.AddressRecord.Reserve` | services/api_gateway/sign_in_throttle.py:38-50 | lets an attempt through, counted, exactly when its wait is over; otherwise answers the wait rounded up to whole seconds |
| `SignIn.AddressRecord.Succeeded` | services/api_gateway/sign_in_throttle.py:103-106 | forgets this source's count and no other |
| `SignIn.AddressRecord.Cleared` | services/api_gateway/sign_in_throttle.py:109-111 | forgets every source's count |
| `SignIn.ClearingFrees` | services/api_gateway/sign_in_throttle.py:103-111 | a success frees its own source at once and no other; a new password frees them all |
| `SignIn.ExpiryNeverEarly` | services/api_gateway/sign_in_throttle.py:42-48 | an attempt goes ahead exactly when the wait from the source's last failure is over, whether or not the record was forgotten |
| `SignIn.SourcesApart` | services/api_gateway/sign_in_throttle.py:39-47 | one source's attempt neither admits nor slows another's |
| `SignIn.AttemptsSpan` | services/api_gateway/sign_in_throttle.py:31-50 | k attempts let through with no success, clear or hour-long gap span at least the delays after the 5th to the (k-1)-th failure |
| `SignIn.DelaysSum` | services/api_gateway/sign_in_throttle.py:86-90 | those delays sum to 2^(k-5) - 1 up to the cap, and 300 more for each attempt after |
| `Wire.SplitUndoesBuild` | services/notebook_sql_proxy/wire.py:147-167 | splitting a built message with anything after it gives back the message and the rest |
| `Wire.BuildUndoesSplitExactly` | services/notebook_sql_proxy/wire.py:154-167 | what is split off rebuilds to the same bytes if and only if the length field is at least four |
| `Wire.ShortLengthTaken` | services/notebook_sql_proxy/wire.py:163-167 | a message with length zero is split off, and rebuilds to other bytes |
| `Wire.IncompleteWaits` | services/notebook_sql_proxy/wire.py:160-166 | a message cut anywhere is recognised as incomplete |
| `Wire.SplitAll` | services/notebook_sql_proxy/wire.py:154-167 | splits until no complete message is left |
| `Wire.SplitsExactly` | services/notebook_sql_proxy/wire.py:147-167 | splitting any concatenation of built messages and the beginning of one more gives back exactly those messages and that beginning |
| `Wire.BuildStartupMessage` | services/notebook_sql_proxy/wire.py:136-142 | length, version, each pair NUL-terminated, final NUL; refused when the length field cannot hold it |
| `Wire.ParseStartupPacket` | services/notebook_sql_proxy/wire.py:61-96 | the loop computes the specification the two rows below are about |
| `Wire.StartupRoundTrip` | services/notebook_sql_proxy/wire.py:61-142 | parsing undoes building for all parameters with non-empty NUL-free keys and NUL-free values, empty values included |
| `Wire.SettingsOfMap` | services/notebook_sql_proxy/wire.py:138-140 | in whatever order a map is walked, what comes back is the map |
| `Wire.StartupAccepted` | services/notebook_sql_proxy/wire.py:77-96 | a parameter area is accepted exactly when it is pairs followed by nothing, or by a NUL and bytes that end in one |
| `Wire.UnterminatedTaken` | services/notebook_sql_proxy/wire.py:82-96 | any parameters without the final terminator are accepted and read the same |
| `Wire.CancelExactly` | services/notebook_sql_proxy/wire.py:105-120 | a cancel body parses to a process and key exactly when it is the one built for them |
| `Wire.ParseErrorResponse` | services/notebook_sql_proxy/wire.py:233-240 | each non-empty chunk under its tag, later ones replacing earlier ones |
| `Wire.ErrorRoundTrip` | services/notebook_sql_proxy/wire.py:218-240 | an error built of NUL-free text is read back field by field, empty fields included |
| `Tenancy.FromSchemaExactly` | libs/industryflow_contracts/industryflow_contracts/tenancy.py:191-203 | accepts exactly the names built for tenants and undoes the building, whatever else the UUID parser takes |
| `Tenancy.NamesDistinct` | libs/industryflow_contracts/industryflow_contracts/tenancy.py:60-86 | schema, reader role and login of distinct tenants never coincide, nor with one another |
| `Tenancy.OwnedByOne` | libs/industryflow_contracts/industryflow_contracts/tenancy.py:89-152 | no name or key belongs to two tenants, in any of the name and key spaces |
| `Tenancy.DeletedApart` | libs/industryflow_contracts/industryflow_contracts/tenancy.py:98-108 | a name under the deleted root is under no tenant's own prefix |
| `Tenancy.QualifyExactly` | libs/industryflow_contracts/industryflow_contracts/tenancy.py:141-152 | qualifying lands in the namespace, is idempotent, and is undone exactly for names not already carrying the prefix |
| `Tenancy.ScopeKeyLands` | libs/industryflow_contracts/industryflow_contracts/tenancy.py:178-188 | a scoped key is under the prefix with only plain segments, scoping it again changes nothing, and the tenant owns it unless it is a listing prefix |
| `Tenancy.ScopedForOne` | libs/industryflow_contracts/industryflow_contracts/tenancy.py:155-188 | a key scoped for one tenant is owned by no other |
| `Scoping.ScopeRequest` | services/notebook_tracking_gateway/scoping.py:26-32 | the listed text fields qualified, every other field unchanged |
| `Scoping.ScopeResponse` | services/notebook_tracking_gateway/scoping.py:35-75 | each name path applied in order; what that shows is the rows below |
| `Scoping.KeptExactly` | services/notebook_tracking_gateway/scoping.py:47-56 | a list response shows exactly the tenant's entries, each after exactly the earlier ones that are the tenant's |
| `Scoping.ShownIsMine` | services/notebook_tracking_gateway/scoping.py:47-75 | whatever is shown came from an entry of the tenant, or one with no name to scope |
| `Scoping.NamedForOne` | services/notebook_tracking_gateway/scoping.py:66-75 | an entry named for one tenant is shown to that tenant alone, by the name that qualified again is the stored one, its other fields unchanged |
| `Scoping.RequestComesBack` | services/notebook_tracking_gateway/scoping.py:26-75 | a name sent comes back as sent exactly when it did not already carry the prefix |
| `Router.LookupReferences` | services/spark_jobs/kafka_to_timescaledb.py:158-183 | the facts read once per tenant decide every key of the batch as the whole database would |
| `Router.ClassifyReferences` | services/spark_jobs/reading_guard.py:88-110 | the refused keys in order with their reasons |
| `Router.JoinTags` | services/spark_jobs/kafka_to_timescaledb.py:203-210 | the join neither drops nor repeats a reading: each gets its own key's verdict |
| `Router.Route` | services/spark_jobs/kafka_to_timescaledb.py:198-219 | dead letters and kept readings are exactly those of the database's own verdict, and every tenant of a kept reading has its turn although refused tenants are left out |
| `Router.BatchConserved` | services/spark_jobs/kafka_to_timescaledb.py:198-210 | each reading, as often as it occurs, is dead-lettered or kept, never both |
| `Router.EachReadingOnce` | services/spark_jobs/kafka_to_timescaledb.py:198-221 | and each kept one is written in the turn of its own tenant, once |
| `Router.Sinks.ProcessBatch` | services/spark_jobs/kafka_to_timescaledb.py:186-229 | gets through exactly when the sinks answer one publication, if anything is dead-lettered, and one write per kept reading; cut off, all dead letters are published and a first part of the rows is written, or nothing is done |
| `Router.InsertAllExactly` | services/spark_jobs/kafka_to_timescaledb.py:127-128 | each row's natural key ends in its own tenant's table, no other key appears, nothing is rewritten |
| `Router.RetryAddsNothing` | services/spark_jobs/kafka_to_timescaledb.py:115-155 | a batch cut off after any row and processed again leaves the tables of one whole pass |
| `Router.RetryAfterAnyPart` | services/spark_jobs/kafka_to_timescaledb.py:115-155 | whatever rows were written before the failure, in whatever order the partitions wrote them, the retried batch leaves at every natural key what one whole pass leaves, given that rows of one key are the same reading |
| `Router.ExcludeRefused` | services/spark_jobs/kafka_aggregations.py:161-171 | the aggregation writer keeps exactly the rows whose keys the streaming job does not dead-letter |

## Left out

- Cold export: the registry check and the tallies of `export_tenant`, `run_export` and its advisory lock; one exporter runs at a time, as the lock ensures.
- Cold export: a failing store or database call is the same event as a crash of the run; Parquet encoding and sort order within a part are not modelled.
- ColdReader.VerifiedParts: one directory at a time, with the manifest already parsed; the grouping of a listing into directories and path joining are not modelled.
- Part files are values `Part(index)`; their spelling and its injectivity are proved apart (`ColdNaming`). A manifest naming any other file is not modelled.
- Alert rules: which alerts a reading raises is an input; threshold, ML, drift and statistical evaluation, producer replacement and metrics are not modelled.
- Sessions: password fingerprints and the successor handed to a concurrent refresh (`record_successor`, the waiting loops of `replay`) are not modelled; a reuse is one presentation after the grace that finds the record not yet marked as ended.
- Sessions: notebook capabilities, revoked after the refresh tokens in `end_all_sessions`, are not modelled.
- SessionEnds.RefusedStaysRefused: for tokens that carry an issue time and expire at most one access lifetime and 58 seconds after it; a token without one is refused only while the record lasts.
- SessionEnds.WaitOutAnEnd: timers are given by the successive readings of the wall clock, of which one must pass the awaited second.
- Capability record: the event constructors and `decode`, the first-use script (one marker, one append) and source addresses of requests are not modelled; an entry is unreadable, refused or taken.
- CapabilityRecord.RepeatKey.Repeat: one key's own stream entries; the bound on the stream's length is the `Trim` event of `AuditRuns`.
- AuditDrain.Database.WriteBatch: whether the database refuses a row is a property of the row; a lost connection is a number of statements after which nothing is answered.
- Admission: YAML parsing, UTF-8 decoding and the strip-and-lower-case of a string are parameters.
- Uploads: `upload_stage` (easy: it validates paths and signs keys), HTTP status texts, pre-signing and the resolution of handles to tenants.
- Uploads.Commit: other callers may do anything outside this upload's landing area; two commits of one upload id at the same moment are not modelled, one after the other is.
- Uploads.WonAtMostOnce: handles are minted once, as random values are.
- Offboarding.Tracking.EmptyTenant: the tenant is suspended, so nothing else writes to it, and only emptying puts experiments under its deleted prefix, each under its id.
- Offboarding: runs are not listed apart from their experiment; the hard deletion by the tracking server is not modelled, only what it selects.
- Scoping: name paths are given parsed (a list's entries, a member, an own field); which endpoint has which paths is a table in the source.
- Tenancy.FromSchemaExactly: the UUID parser is any function that reads a canonical spelling as itself and answers only canonical spellings.
- SignIn: hashing of the address and reduction of a source to its network are not modelled.
- Wire: authentication, password, query and ready messages are plain uses of `build_message`; UTF-8 is not modelled, text is its bytes.
- Router: the order of tenants is that of their first reading rather than alphabetical; Spark's execution, watermarks and the stateless check's own rules are not modelled.
- Router.RetryAddsNothing: a batch cut off in row order; `Router.RetryAfterAnyPart` covers partitions that stop at different places.
- The ops agent, the frontend, the SQL proxy's relay, cryptography, configuration and health checks.
