# Webhook event pipeline: a verified model

Vendors post webhooks; each lands as a row of `raw_events`, a worker (or an operator's manual retry) has it classified,
and `persist_normalized` writes the typed event into an entity table (`shipments`, `invoices`) and its event table.
Everything that keeps this correct under replays, reordering, crashes and overlapping agents lives in the database:
unique indexes, row locks, and one conditional update. This project models that database with its agents and proves what
the pipeline keeps over all runs.

## How the model is built

| File | What it holds |
|---|---|
| `Events.dfy`, `Tables.dfy` | events and the five tables as values; an event table is a sequence in commit order |
| `Normalization.dfy`, `Queue.dfy`, `Calls.dfy` | what each SQL statement, each row update and each whole call does to the tables |
| `Services.dfy` | the service and worker functions as methods of a `Database` class, statement by statement, with failures and rollback, proved against those functions |
| `Contents.dfy` | what one persist stores, column by column, from the payload's own fields |
| `Drains.dfy` | the worker loop as a sequence of passes |
| `History.dfy`, `Replay.dfy` | the entity row as a cache of its history, over any list of committed persists |
| `Pipeline.dfy` | the whole system as a transition system: inserts, claims, persists, failures, reaps, retries, crashes, clock |
| `Safety.dfy`, `Runs.dfy`, `ExactlyOnce.dfy`, `Failures.dfy`, `Dedup.dfy`, `Attempts.dfy`, `Lease.dfy`, `Bounds.dfy`, `Arrival.dfy`, `Reads.dfy` | what holds in every reachable state and along every run |
| `Progress.dfy` | what may start and go on in every reachable state, and how every row can be finished |
| `LiveHolders.dfy` | what the tables can show of live holders |
| `Serializability.dfy`, `WholeCalls.dfy`, `LateNote.dfy` | `persist_normalized` at SQL-statement granularity, with locks and rollbacks |
| `RowOverlaps.dfy`, `RowCalls.dfy` | one raw row with every call that writes it, at statement granularity, and how the system's runs show in it |
| `Prefixes.dfy` | from an exact condition on steps to one on runs |
| `Witnesses.dfy` | runs which show that the hypotheses below are needed |

An action of `Pipeline` carries every choice: who moves, what the classifier returned, which id a new row gets, the
time. An action that is not enabled changes nothing, so every sequence of actions is a run and the theorems quantify
over all of them. The `Services` methods and the transitions use the same functions on tables, and `Calls` and `Dedup`
show that a worker call, a manual retry and an insert are runs of the transition system.

Each theorem uses only the hypotheses it names:

- **Atomic transactions.** One transaction is one step of `Pipeline`. Claims and inserts are split where their locks
  matter: a claimed row stays locked, and a new row invisible, until the commit step. For concurrent persists the
  assumption is itself proved, in `Serializability`, from statement-level steps, up to the two columns discussed below.
- **DET** (`DetRun`): successful classifications of one raw row that were persisted returned the same event.
  Classification may still fail at any time.
- **LEASE** (`LeasedRun`): in every state of the run, a live holder is younger than the stale-lock window, on one clock.
- **No take-over** (`UncontendedRun`): no manual retry acquires a row from under a live holder. Retrying a processing
  row whose holder is gone, which is what the retry is for, is covered.
- **The clock moves on** (`ClockMovesOn`): no persist starts at the very time its row was last marked processed.
- **Database rules**: a unique index waits for an open transaction that holds the same key and reports a conflict only
  against a committed row; row locks last to the end of the transaction; each statement sees what is committed
  (READ COMMITTED).

Results where the program falls short of what its texts say, each with the exact condition or a concrete run:

- A second classification of one raw row can move an entity without a history row, although the retry documentation
  calls a re-run a no-op (app/services/retry.py:61-62). `History.AgreementKeptIff` says exactly when a persist keeps
  entity and history in agreement and `Runs.AgreementRunIff` exactly which runs do;
  `Witnesses.SecondClassificationDisagrees` is a run that does not.
- `processed` is not final when a stale holder is still around: `Lease.ProcessedIsLeftIff`,
  `Witnesses.StaleHolderUndoesProcessed`.
- The lock of a manual retry ends with its first transaction, so only the row's status keeps workers away, and a retry
  of a processing row can add a second holder (`Witnesses.RetryAddsSecondHolder`). It does exactly when the row has a
  live holder: `Lease.ExclusiveKeptIff` for a step, `Lease.ExclusiveRunIff` for runs. Under LEASE, operators who retry
  only rows that are not processing or whose claim is older than the window never do this
  (`Lease.CheckedRetriesTakeNothingOver`), and nothing weaker can be read off the tables
  (`LiveHolders.NotShownMayBeHeld`).
- The settings text says that only mark_failed counts attempts (app/core/config.py:26-27); a manual retry counts too,
  and a failed one leaves the row pending whatever its attempts, for every maximum (`Witnesses.RetryExceedsBudget`).
  `Attempts.BudgetKept` says exactly which runs stay within the budget; with leases and no take-over a check at
  acquisition is enough (`Lease.RetriesWithinBudget`), and without one each retry costs at most two attempts beyond the
  maximum (`Bounds.AttemptsBounded`), which `Bounds.RetryCostsTwo` shows to be exact.
- The object-relational layer writes only columns whose value changed since the row was loaded, so `last_error` and
  `processed_at` of overlapping persists of one raw row need not be those of the calls run whole in commit order.
  `Serializability.SerializableIff` says exactly when they are. `LateNote.LastErrorNotSerializable` is a row that ends
  processed and with history, yet carries the note of a drop; `Witnesses.LateNoteIsReachable` shows that the system gets
  there. `LateNote.ProcessedAtNotSerializable` is the case of two equal times. All other columns are always those of the
  serial run.
- A persist of a row that was already processed leaves the status out, so a worker failure written in between stays
  (`RowOverlaps.MarkIsLost`, `Witnesses.LostMarkIsReachable`). `RowOverlaps.CellIsSerialIff` says exactly when a column
  is right among all calls that write the row, `RowOverlaps.RowIsSerialIff` when the row is.
- `mark_failed` reads attempts without a lock and writes it back later, so a manual retry acquired in between is not
  counted (`RowOverlaps.RetryIsLost`); `RowOverlaps.ConservedIff` says exactly when the count is right.

The design document under docs/superpowers describes an earlier scheme (a dedupe key, attempts counted at claim, merged
attributes); the model follows the code.

## Model

| member | source | states |
|---|---|---|
| Contents.UtcIsTheInstant | app/services/normalization.py:50-53 | stored times agree and are ordered exactly as the instants that the datetimes name, whatever their offsets; a datetime without an offset is a UTC one and keeps its wall-clock time |
| Contents.PersistReadsInstants | app/services/normalization.py:86-97 | events that differ in how they write one instant, and in the vendor the classifier read, leave the same tables |
| Contents.ShipmentIsStored | app/services/normalization.py:99-153 | a shipment payload goes to the shipments only, under its transport document and the vendor_hint, with its own state, milestone, instant and body: appended to the history unless the raw row has history there, taken over by the entity unless that is as new; updated_at is the time of the call either way and no other entity is touched |
| Contents.InvoiceIsStored | app/services/normalization.py:99-153 | the same for an invoice payload, its document reference and the invoices |
| Contents.RawRowIsMarked | app/services/normalization.py:73-84 | every persist marks its raw row and no other, with the time of the call; last_error is the reason of an unclassified event that is not kept and null otherwise; an unclassified event leaves entity and event tables alone |
| History.AgreementKeptIff | app/services/normalization.py:125-153 | for any classifier, one persist keeps every entity equal to the first committed of its latest history rows if and only if the raw row has no history row yet, or its entity exists and is not older than the event |
| History.FreshRecordAgrees | app/services/normalization.py:110-153 | persisting a raw row for the first time keeps cache and history in agreement, late and same-time events included |
| History.StaleRecordAgrees | app/services/normalization.py:117-146 | a repeated persist with nothing newer changes updated_at only |
| History.NewerRepeatDisagrees | app/services/normalization.py:137-153 | a repeated persist with something newer leaves an entity that its history does not explain |
| History.FirstLatestIsShown | app/services/normalization.py:141-153 | an entity in agreement shows state, time and body of its history row with the greatest event_at, of several such the first committed |
| History.RecordNeverRollsBack | app/services/normalization.py:141-153 | "jump to latest, never roll back", for one persist and any classifier |
| History.RecordKeepsUniqueRaws | app/core/models.py:114-116 | at most one history row per raw row; a persist only appends, and afterwards the raw row has its history row |
| History.HistoryDeterminesEntities | app/services/normalization.py:108-153 | stores in agreement with the same bag of history rows have the same entities up to updated_at |
| Replay.CacheAgreesUnderDet | app/services/normalization.py:108-153 | under DET the cache agrees with the history after any list of persists |
| Replay.AtLeastOnceIsExactlyOnce | app/services/normalization.py:125-153 | under DET a list of persists with repeats leaves the tables of the list with only the first persist of each raw row |
| Replay.OrderIndependence | app/services/normalization.py:142-153 | persists of distinct new raw rows, no two of one entity at one time, give the same entities and the same bag of history rows in every order, from any store in agreement |
| Runs.CacheAgreesInEveryRun | app/services/normalization.py:108-153 | under DET, in every reachable state of the full system, each entity is the first committed history row with its greatest event_at |
| Runs.AgreementRunIff | app/services/normalization.py:125-153 | for any classifier, entities and history agree in every state of a run if and only if no step of it persists a raw row that has its history row with an event whose entity is older or missing |
| Runs.RunsNeverRollBack | app/services/normalization.py:110-153 | along every run, for any classifier: last_event_at is set, bounds the history from above and never decreases, and state and attributes change only when it increases |
| Runs.RunsOnlyAddHistory | app/services/normalization.py:127-139 | along every run history rows are never changed or removed, and each event table has at most one per raw row |
| Runs.OneTablePerRaw | app/services/normalization.py:99-106 | under DET no raw row has history in both event tables |
| Runs.ProcessedMeansRecorded | app/services/normalization.py:73-84 | in every run a processed row was classified as unclassified or has history in the table of the kind it was classified as |
| Runs.HistoryReferencesPrimaries | app/services/normalization.py:88-96 | every history row references a primary raw row whose vendor_hint is its entity's vendor |
| Runs.DuplicatesNeverHeld | app/workers/ingest_worker.py:41-52 | in every run no worker, retry or open claim holds a duplicate row, and a held row exists |
| Runs.TablesAreReplay | app/workers/ingest_worker.py:109-146 | claims, failures, reaps, retries, crashes and inserts leave no mark on entity and event tables |
| ExactlyOnce.AtLeastOnceRefinesExactlyOnce | app/services/normalization.py:125-153 | under DET, for every run there is a run of the same system without crashes, failures, reaps or retries that persists each raw row at most once and ends with the same entity and event tables |
| Safety.Reachable | app/core/models.py:30-72 | the invariant of rows, duplicate stars and open transactions holds in every reachable state |
| Dedup.StarForestInEveryRun | app/services/ingestion.py:45-87 | one primary row at most per key, every duplicate points straight at the primary of its key, and the duplicate status marks exactly the rows with a parent |
| Dedup.LookUpFindsExactlyOne | app/services/ingestion.py:66-76 | after a conflict the parent query finds a row, and only one |
| Dedup.AcknowledgementsAgree | app/services/ingestion.py:62-93 | among the committed calls for one key exactly one answered duplicate=False and every other named that call's row |
| Arrival.ReceivedWhenInserted | app/core/models.py:36-38 | in every run received_at of a row, primary or duplicate, is the time of the insert whose commit brought the row in |
| Arrival.ClaimsFollowArrival | app/workers/ingest_worker.py:44-50 | in every run no claim returns a row inserted at a later time than a pending row without an open claim |
| Attempts.AttemptsConserved | app/workers/ingest_worker.py:61-76 | attempts is the number of recorded worker failures plus manual-retry acquisitions of the row |
| Attempts.BudgetKeptIff | app/services/retry.py:86-107 | a step from a reachable state within the budget breaks it if and only if it acquires a row for its last attempt by a manual retry, or returns a row without attempts to pending after one |
| Attempts.BudgetKept | app/core/config.py:25-28 | in every state of a run each pending or processing row has attempts left, if and only if no step of the run is one of those; stale holders or not |
| Attempts.WorkersKeepBudget | app/workers/ingest_worker.py:30-38 | so workers alone keep the budget |
| Attempts.AttemptsGrowByCharges | app/workers/ingest_worker.py:61-76 | from any reachable state on, attempts grow by one for each recorded worker failure and manual-retry acquisition of the row, and by nothing else |
| Attempts.ReapRecovers | app/workers/ingest_worker.py:79-98 | a processing row has its claim time, and a reap returns exactly the stale rows to pending and touches nothing else |
| Attempts.PendingIsClaimable | app/workers/ingest_worker.py:41-52 | of claims that find a row, by whatever agents and with ties broken in any way, there are at most as many as pending rows that no open claim holds, and exactly that many reach all of these rows |
| Attempts.ClaimsGoOn | app/workers/ingest_worker.py:41-52 | until then the next claim of any idle agent finds a row |
| Progress.ClaimStartsIff | app/workers/ingest_worker.py:41-52 | an idle agent's claim may return exactly the rows that no pending row without an open claim was received before |
| Progress.RetryStartsIff | app/services/retry.py:67-89 | an idle agent's retry acquires exactly the committed rows without an open claim that are pending, processing or failed |
| Progress.InsertStartsIff | app/services/ingestion.py:45-64 | an idle agent's insert meets a conflict exactly if a primary row of the key is committed, and goes ahead exactly if none is committed or open |
| Progress.CallsGoOn | app/services/ingestion.py:66-93 | in every reachable state every open insert and claim has its next step, and so has every worker and retry unless an open claim has its row |
| Progress.EveryRowCanBeFinished | app/workers/ingest_worker.py:79-101 | from every reachable state, and if all agents crash there, time, one reap and one worker finish every pending and processing row, as processed or failed by its outcome, and leave all other rows alone |
| Lease.ClaimsAreDistinct | app/workers/ingest_worker.py:41-52 | overlapping claims hold pairwise distinct pending rows |
| Lease.ClaimIsFair | app/workers/ingest_worker.py:44-50 | a claim returns a row if and only if some pending row is free, and every older pending row it passes over is locked by an open claim |
| Lease.ExclusiveLease | app/workers/ingest_worker.py:79-98 | under LEASE without take-over each raw row has at most one live holder, and the row is processing under that holder's own claim time |
| Lease.ExclusiveKeptIff | app/services/retry.py:76-89 | with leases kept, a step breaks exclusivity if and only if it is a manual retry that acquires a row with a live holder |
| Lease.ExclusiveRunIff | app/services/retry.py:67-89 | under LEASE every state of a run is exclusive if and only if no step of it takes a row over |
| Lease.ShownUnheldIsUnheld | app/services/retry.py:4-5 | in an exclusive state with leases kept, a row that is not processing, or whose locked_at is at least the window ago, has no live holder: retrying it takes nothing over |
| Lease.CheckedRetriesTakeNothingOver | app/services/retry.py:4-5 | under LEASE a run in which every manual retry acquires such a row has no take-over |
| LiveHolders.NotShownMayBeHeld | app/core/config.py:31-38 | for every other row: when a leased run ends with it, some leased run, without take-over if the given one is, ends in the same tables at the same time with a live holder of the row |
| Lease.RetriesWithinBudget | app/services/retry.py:86-107 | under LEASE without take-over the budget is kept if each manual retry leaves the row an attempt when it acquires it |
| Bounds.AttemptsBounded | app/services/retry.py:86-107 | under LEASE without take-over no row, failed or not, has more attempts than the maximum plus two for each manual retry that acquired it, and one less while it is pending or processing |
| Bounds.RetryCostsTwo | app/services/retry.py:103-107 | a failed retry of a failed row, then a worker failure, does add two |
| Bounds.WorkersNeverExceed | app/workers/ingest_worker.py:61-76 | under LEASE workers alone never take any row beyond the maximum |
| Bounds.CheckedRetriesNeverExceed | app/services/retry.py:86-107 | nor do they with manual retries that leave the row an attempt when they acquire it |
| Lease.ProcessedIsLeftIff | app/workers/ingest_worker.py:69-76 | a step takes a row out of processed if and only if a holder of the row records a failure |
| Lease.ProcessedIsAbsorbing | app/workers/ingest_worker.py:69-76 | under LEASE without take-over a processed row stays processed |
| Lease.FailedIsLeftByRetryOnly | app/services/retry.py:76-89 | under LEASE without take-over a failed row changes if and only if a manual retry acquires it |
| Reads.ListEvents | app/services/shipments.py:22-29 | the listing holds each of the entity's history rows as often as the table does, and nothing else, in chronological order |
| Reads.TornRead | app/api/shipments.py:22-34 | a list read after the entity row, with any steps in between, contains the event the row was taken from and ends no earlier; it ends exactly at the entity's state at the second read |
| WholeCalls.UndisturbedCall | app/services/normalization.py:110-159 | in any interleaving, a call none of whose locks an open transaction holds runs through without waiting, and commits exactly what the whole persist makes of the committed tables |
| Serializability.Serializable | app/services/normalization.py:110-159 | for any interleaving of statements with locks and rollbacks the committed tables are those of the committed calls run whole in commit order, up to the two raw-row columns a call may leave out, last_error and processed_at |
| Serializability.CellIsSerialIff | app/services/normalization.py:155-159 | and either column of a row is that of the serial run if and only if the row's last commit did not leave it out while it had changed since the row was loaded |
| Serializability.SerializableIff | app/services/normalization.py:110-159 | all tables are those of the serial run if and only if no row was left so in either column |
| Serializability.FullySerializable | app/services/normalization.py:155-159 | exactly the serial run for all interleavings in which the calls of one raw row leave one note and the clock moves on |
| Serializability.SerializableByDefault | app/core/config.py:39-44 | exactly the serial run for all interleavings in which the clock moves on, when unclassified events are kept, the default |
| LateNote.LastErrorNotSerializable | app/services/normalization.py:79-82 | a row without an error is loaded by a call that records it and one that drops it; the drop commits first; the row ends processed and with history, still carrying the drop's note, which the serial run does not leave |
| Witnesses.LateNoteIsReachable | app/services/normalization.py:79-82 | a reachable state of the system with two live holders of the row, from which those calls run |
| LateNote.ProcessedAtNotSerializable | app/services/normalization.py:155-159 | a row last processed at the time of a call that has loaded it keeps the time of a call that commits in between, where the serial run has the former |
| RowOverlaps.StepCountsIff | app/workers/ingest_worker.py:69-76 | at statement granularity a step adds its charge to attempts if and only if it does not write back a count that is no longer the row's |
| RowOverlaps.ConservedIff | app/workers/ingest_worker.py:69-76 | attempts is the number of charges in every state of a run if and only if no step of it does that |
| RowOverlaps.NeverOvercounted | app/workers/ingest_worker.py:69-76 | attempts never exceeds the number of charges, in any run |
| RowOverlaps.RetryIsLost | app/services/retry.py:68-89 | a manual retry acquired between the read and the write of mark_failed leaves two charges and one attempt |
| RowOverlaps.CellIsSerialIff | app/workers/ingest_worker.py:69-76 | for any interleaving of persists, both kinds of failure records, claims, retry acquisitions and reaps of one row: its status, last_error, locked_at or processed_at is that of the committed calls run whole in commit order, if and only if the last write that sets the column did not leave it out over a change and, for the status after a worker failure, comes to the verdict of the true count |
| RowOverlaps.RowIsSerialIff | app/services/normalization.py:155-159 | the row is that of the serial run if and only if its count is right and no column is wrong so |
| RowOverlaps.FreshIsSerial | app/services/normalization.py:155-159 | in particular when every write finds the row as its call has loaded it |
| RowCalls.StepIsCall | app/workers/ingest_worker.py:61-76 | what a step of the system does to a raw row is one whole call of the row-level model, admitted there |
| RowCalls.RunIsRowRun | app/workers/ingest_worker.py:109-146 | along every run of the system every raw row goes through a run of that model |
| RowOverlaps.MarkIsLost | app/services/normalization.py:155-159 | a persist that loads a processed row leaves the status to a worker failure written in between, where the serial run says processed |
| Witnesses.LostMarkIsReachable | app/workers/ingest_worker.py:69-76 | a reachable state with a processed row that a worker and a manual retry both still hold, from which those calls run |
| Witnesses.StaleHolderUndoesProcessed | app/workers/ingest_worker.py:69-76 | without LEASE a late failure takes a processed row out of processed |
| Witnesses.SecondClassificationDisagrees | app/services/normalization.py:137-153 | without DET a second classification moves an entity away from its history |
| Witnesses.RetryAddsSecondHolder | app/services/retry.py:76-89 | a manual retry of a processing row gives it two live holders |
| Witnesses.RetryExceedsBudget | app/services/retry.py:103-107 | for every maximum, that many failed manual retries leave a pending row without attempts |
| Calls.ProcessOneIsARun | app/workers/ingest_worker.py:109-146 | a worker call with nothing in between is the run claim, commit, persist or record the failure |
| Calls.RetryIsARun | app/services/retry.py:67-108 | a manual retry with nothing in between is the run acquire, persist or record the failure |
| Dedup.InsertIsARun | app/services/ingestion.py:36-93 | an insert with nothing in between is the run through its phases, with the table and the one acknowledgement of the whole call |
| Failures.FailureLeavesTables | app/core/db.py:44-54 | a holder whose call fails, after any steps of others: entity and event tables are what the persists of the others alone made of them, no other row is touched, the row is charged for the others' steps and once more for a worker, and is pending, or failed when a worker has used up its budget |
| Calls.ProcessOneWorks | app/workers/ingest_worker.py:73-76 | every worker call that finds a row lowers the remaining work, of pending rows and of pending and processing ones, by exactly one if it fails |
| Calls.ReapKeepsWork | app/workers/ingest_worker.py:79-98 | a reap leaves the work of pending and processing rows together as it was |
| Queue.SomeOldest | app/workers/ingest_worker.py:46-49 | ORDER BY received_at LIMIT 1 finds a row in any non-empty selection |
| Services.Database.PersistNormalized | app/services/normalization.py:66-159 | all statements have the effect of the whole persist; when one raises, the session holds exactly the effect of those before it: no history row before the third, no moved state before the fourth, no marked raw row at all |
| Services.Database.PersistInScope | app/core/db.py:44-54 | commit on success; a failing statement or commit leaves all tables as they were |
| Services.Database.ClaimOne | app/workers/ingest_worker.py:30-58 | an oldest pending row that is not locked becomes processing with its claim time; none exactly when all pending rows are locked |
| Services.Database.MarkFailed | app/workers/ingest_worker.py:61-76 | attempts up by one, lock cleared, failed or pending by budget, whatever the status was; a missing row is ignored |
| Services.Database.ReapStale | app/workers/ingest_worker.py:79-101 | exactly the stale processing rows go back to pending, and they are counted |
| Services.Database.ProcessOne | app/workers/ingest_worker.py:109-146 | False and no change exactly when no pending row is free; otherwise an oldest one is persisted and marked if classification, persist and commit succeed, and charged with its failure, entity and event tables untouched, if not |
| Services.Database.RetryRawEvent | app/services/retry.py:53-115 | not found exactly if the row is missing, refused exactly if it is a duplicate or processed, returned processed exactly if classification, persist and commit succeed; otherwise raised with the row pending, its attempt counted and no table else touched |
| Services.Database.InsertRawEvent | app/services/ingestion.py:36-93 | duplicate exactly when a primary row of the key existed, then pointing at the oldest of them; one row of the key is added, received now, pending or duplicate, and no other touched |
| Services.Database.Iterate | app/workers/ingest_worker.py:180-196 | one pass: after the reap, if one is due, an oldest pending row is worked on with the outcome of this call, or none is pending and nothing else happens |
| Services.Database.Drain | app/workers/ingest_worker.py:180-196 | the loop is the sequence of such passes up to the first that finds nothing, with worked the number of the others; it is at most the cost of the pending and processing rows, max(1, max_attempts - attempts) each, and of the pending rows alone without reaps; every row that was pending or was worked on ends processed if a call on it succeeded and failed otherwise, and no other row changes |
| Drains.DrainFinishesRow | app/workers/ingest_worker.py:180-196 | the same for any such sequence of passes, with any outcomes, times and reaps: it works on every row that was pending, and on a processing one only with reaps |
| Drains.LoopIsReplay | app/workers/ingest_worker.py:127-132 | the entity and event tables are those that the successful calls leave when replayed in order |
| Drains.AllSucceed | app/workers/ingest_worker.py:127-132 | if every call succeeds, every row that was pending was worked on and ends processed, with its event recorded if it has an entity kind |
| Drains.LoopWorks | app/workers/ingest_worker.py:180-196 | the calls that did work are at most the work there was, and exactly that less what is left if every call fails |
| Drains.DrainIsExact | app/workers/ingest_worker.py:73-76 | so the bound without reaps is reached: if every call fails, a drain makes exactly as many calls as the pending rows cost |

## Left out

- The classifier, its prompts and the model client: a classification is an arbitrary event or failure chosen by the action.
- Hash computation and payload bodies: the hash is an opaque key, and the classifier's input plays no part.
- HTTP routes, status codes, body checks, health check, logging, signals, sleeping, migrations and settings: no state of the pipeline.
- Field validation of payloads and their optional fields: an opaque `extras` value is copied along.
- Surrogate ids of entities and events, and created_at: an entity is identified by its unique key (vendor, external_ref), which the upsert makes one-to-one with its id.
- Truncation of error texts and the wording of last_error; 32-bit overflow of attempts.
- Deletion: no code deletes a row, so foreign-key actions do not occur, and the "row is None" branches for held rows are shown unreachable (Runs.DuplicatesNeverHeld).
- Statement-level interleaving beyond `Serializability` (persists with each other, on all tables) and `RowOverlaps` (all calls, on one raw row): elsewhere each transaction is one step.
- Attempts.AttemptsConserved, Attempts.AttemptsGrowByCharges: take mark_failed as one step; `RowOverlaps.ConservedIff` has the exact condition when it is not.
- Serializability.Serializable: leaves last_error and processed_at open, which need not be serial; `Serializability.CellIsSerialIff` has the exact condition for each.
- Failed reaps and the polling pause of the loop; Services.Database.Drain ends where the loop would first pause.
- Replay.OrderIndependence: updated_at is excluded, because it records when rows were touched.
- Runs.CacheAgreesInEveryRun: ties in event_at go to the first committed row, so the entity is not a function of the set of events alone when two of its events share a time.
- Services.Database.ProcessOne: one time stands for the claim, the persist and the failure record of a call.
- Reads.ListEvents: the order of events with the same event_at, which the query leaves open; Reads.TornRead covers every order.
