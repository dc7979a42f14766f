# Durable delivery to QuestDB, modelled and proved

The writer takes state-change events from Home Assistant, keeps them in a bounded in-memory queue,
stores them in a SQLite spool, and delivers them in batches over InfluxDB Line Protocol to a QuestDB
table that upserts on (last_updated, entity_id). Delivery is at-least-once and idempotent. This
project models that pipeline in Dafny and proves what it keeps over every run.

## How the model is built

- `SpoolState` says what each spool operation does to the whole tables; `SpoolRows` and `SpoolLaws`
  prove its laws, `Marks` what rows remember of their deliveries, `Refusals` when it says no. `Spool` is the class `SQLiteSpool`, one SQL statement at a time inside a
  transaction that any statement may abort, proved against that specification.
- `Ilp` is the encoder, `IlpParser` a reader of batches that undoes it, `Event` the envelope and its
  row, `Columns` how that fits the owned table, `Batch` the choice of rows for a request.
- `WorkerState` says what each stretch of the worker between two awaits does, `Verdicts` when it ends how;
  `Writer` is the class
  `WriterService` over a `SQLiteSpool`, proved to do exactly that. `Pause` is the storage-pause
  bookkeeping.
- `System` is the whole pipeline as a transition system: the worker, up to two requests in flight,
  a transactional server that may apply a request whether or not its answer arrives, and restarts
  that keep only the spool and the table. `Steps`, `Conservation`, `Fifo`, `ExactlyOnce`,
  `Overlap`, `Arrivals`, `Ledger`, `PauseRuns`, `Isolation`, `EndToEnd`, `Endings` and `CalmRuns` prove
  properties of its runs.
- `Delivery` is the delivery loop's own control over a monotone clock, with `Backoff` and `Schema`: a
  reference that decides each pass from the log before it, and the loop with its variables.
  `DeliveryLaws` proves what the log shows.
- `Handshake` is the finer machine of threads, callbacks and coroutines behind submit and stop.

An event is good when its payload decodes and encodes and the server accepts the row. The server
takes a request whole exactly when it accepts every row in it. A row is stuck when the worker can
neither send nor reject it because it exceeds a whole request.

Check everything with `dafny verify dfyconfig.toml`.

## What the proofs brought out

- The dead-letter move is refused as full only for a payload above the byte limit
  (`SpoolLaws.DeadLetterFullExactly`). With the limits the constructor admits no event accepted under
  them can be one, so the retry branch behind it is never reached; a spool written under a larger
  event limit can reach it.
- The comment at the persist loop calls the poll bound a recovery fallback for a dropped signal. It
  is also what picks up the rest of a burst larger than one persist batch (`Handshake.BurstSleeps`);
  a caller that keeps queued and held events within one batch never depends on it, and no larger bound
  will do (`Handshake.SleepsExactly`).
- A stop call that overtakes the opening of the service can strand an accepted event
  (`Handshake.EarlyStopCanStrand`); a stop call made once `start` has returned cannot.
- A stop call that arrives while a failed worker cleans up, or before its thread is gone, leaves the
  state at STOPPING instead of FAILED or STOPPED (`Handshake.LateStopHidesFailure`); exactly those
  calls do (`Handshake.OutcomeShown`).
- A SHOW COLUMNS answer that is a JSON object without a proper dataset ends the worker, while a table
  that differs, or a body that is no JSON object, only blocks delivery (`Schema.UnreadableExactly`,
  `Schema.Ensure`, `Delivery.EnsureSchema`).
- A shutdown flush can overtake a delivery that is still in flight. Nothing is lost and the order of
  resolution stays, but the older body can reach the server last and leave an older row in the table
  (`Fifo.FlushOvertakes`, `Overlap.OverlapBreaksTable`).
- Storage conditions, a full pending table and a full dead-letter store never cost an event
  (`CalmRuns.CalmRunLosesNothing`). What does is a process that ends, and `Endings.EndsExactly` lists
  every cause: besides a restart, an event the spool refuses for good (a second content for an id, a
  payload above its event limit) and a row that exceeds a whole request.
- An event id that is submitted again while it is retained is counted as persisted without becoming a
  row, and the counters no longer add up (`Ledger.RepeatUnbalances`); they are off by exactly the
  number of such events (`Ledger.LedgerBalances`).

## Model

| member | source | states |
|---|---|---|
| `ExactlyOnce.DrainedTableIsExact` | custom_components/hass_questdb_writer/worker.py:1155-1355 | At-least-once delivery into an upserting table refines exactly-once: in every run with a transactional server and no two requests at a time, shutdown flushes included, once nothing is pending the table is the initial table with each good event ever enqueued upserted once, in enqueue order, whatever was re-sent, re-batched, split or lost on the way back, and the acknowledged events are exactly the good ones |
| `ExactlyOnce.TableIsSettled` | custom_components/hass_questdb_writer/worker.py:1155-1355 | In every state of every such run each key holds what the resolved good events give, or the row of a good event still pending; the acknowledged events are exactly the good resolved ones and the dead-letter history grew by exactly the others |
| `EndToEnd.EventArrives` | custom_components/hass_questdb_writer/event.py:120-142 | With a codec that reads back what it wrote, every valid event the server accepts is, after a drained run, in the table under (last_updated, entity_id), as its own row, which says exactly what the event says, unless another accepted event shares the key |
| `EndToEnd.AcceptedEnds` | custom_components/hass_questdb_writer/worker.py:500-528 | After an honest run with nothing queued, held or pending, every accepted event not lost with a process is among the delivered good ones, or a dead letter because the server would not take it or because it was one from the start |
| `EndToEnd.AcceptedArrives` | custom_components/hass_questdb_writer/worker.py:500-528 | From submit to the table: a valid event that was accepted, not lost with a process and no dead letter from the start, and whose row the server accepts, is in the table under its key, as its own row, which says exactly what the event says, unless another accepted event shares the key |
| `EndToEnd.OnlyDecodingFails` | custom_components/hass_questdb_writer/event.py:91-142 | A payload can be sent exactly if it decodes: encoding a decoded event never fails, and its row is the event's; a codec that, like `from_bytes`, refuses attributes that are not a JSON object is included |
| `EndToEnd.SpeakerIsWired` | custom_components/hass_questdb_writer/worker.py:1180-1184 | A writer that decodes envelopes and hands their rows to `encode_row` meets the one assumption the exactly-once theorems make about the encoder |
| `Overlap.OverlapBreaksTable` | custom_components/hass_questdb_writer/worker.py:904-914 | That no two requests overlap is needed: for every writer and any two updates of one key that fit one request there is a run with a truthful server in which a flush takes both while the first is still in flight alone; the spool drains and the older update is left in the table |
| `Overlap.HonestExactly` | custom_components/hass_questdb_writer/worker.py:904-914 | The exactly-once theorems assume a truthful server and no two requests at a time, and nothing else about a run |
| `EndToEnd.IdealShows` | custom_components/hass_questdb_writer/event.py:120-142 | The key of every good event holds the row of the last good event with that key |
| `ExactlyOnce.ApplySettles` | custom_components/hass_questdb_writer/worker.py:1247-1254 | A request the server applies leaves every key with the settled row or the row of an event that is still pending, whether or not the answer arrives |
| `ExactlyOnce.SuccessSettles` | custom_components/hass_questdb_writer/worker.py:1333-1334 | Deleting acknowledged rows keeps every key settled |
| `Conservation.NothingLost` | custom_components/hass_questdb_writer/worker.py:500-528 | Every accepted event is, in every interleaving of submit, persist, delivery, storage failure and an overlapping shutdown flush, in the queue, held, pending, acknowledged, in the dead-letter history, or was not durable when its process ended |
| `Conservation.OnlyRestartsLose` | custom_components/hass_questdb_writer/worker.py:874-916 | A step loses nothing, or exactly the held and queued events of a process that ended, which leaves spool and table as they were |
| `Conservation.RemovedExactly` | custom_components/hass_questdb_writer/spool.py:738-757 | Acknowledging by sequence number removes exactly the rows that were sent: every sent row that is still pending goes and no other, even when pending changed while the request was in flight |
| `Fifo.FirstInFirstOut` | custom_components/hass_questdb_writer/worker.py:874-1077 | In every run, overlapping flushes included, the resolved rows are at every moment a prefix of the enqueued rows and the rest is pending; the rows of a request in flight are the very next ones exactly as long as their head is pending |
| `Fifo.RequestIsNext` | custom_components/hass_questdb_writer/worker.py:918-1077 | While no two requests overlap, the rows in flight are the very next ones |
| `Fifo.NoFlushIsAlone` | custom_components/hass_questdb_writer/worker.py:904-911 | Without the shutdown flush no two requests overlap |
| `Fifo.FlushOvertakes` | custom_components/hass_questdb_writer/worker.py:904-914 | Whatever can be sent, a flush can overtake a delivery of the same rows: then the rows still in flight are already resolved |
| `Fifo.PassedAnswer` | custom_components/hass_questdb_writer/worker.py:1247-1355 | An answer to a request whose head is gone resolves nothing and changes no table, unless it ends the process |
| `Arrivals.FifoFromSubmit` | custom_components/hass_questdb_writer/worker.py:500-528 | FIFO from submit: in every run with fresh ids the rows the running process inserted are, one by one, the events it accepted, in the order of acceptance, followed by the held ones and the queue |
| `Arrivals.StoredInOrder` | custom_components/hass_questdb_writer/worker.py:665-703 | Whatever ids were submitted, the events the running process accepted are in order those it stored, the held ones and the queue; those stored are in order the rows it inserted, an event being left out only if an earlier row or an initial dead letter has its content |
| `Fifo.AnswerSummary` | custom_components/hass_questdb_writer/worker.py:1247-1355 | An answer resolves exactly the request's rows (delivered on a 2xx, dead-lettered when a single row met a 400) or none |
| `Steps.PrepareCases` | custom_components/hass_questdb_writer/worker.py:1155-1245 | A request is a non-empty encodable prefix of pending, of one row when isolating; a row is dead-lettered before sending only if it is the head and does not encode |
| `Steps.FinishCases` | custom_components/hass_questdb_writer/worker.py:1247-1355 | A delivery deletes rows only on an acknowledgement and dead-letters only a request of one row answered 400; every other answer keeps the tables or only notes an attempt |
| `Verdicts.AnswerEndsExactly` | custom_components/hass_questdb_writer/worker.py:1247-1333 | For every answer, transaction outcome and request: the process ends exactly when the spool operation the answer demands (delete on a 2xx, note an attempt on a repeatable answer or a 400 for several rows, move on a 400 for one) failed for a reason that is neither a storage condition nor, for a move, a full dead-letter store |
| `Verdicts.VerdictExactly` | custom_components/hass_questdb_writer/worker.py:1247-1333 | Each verdict has exactly one cause: blocked on an authentication or other permanent answer, repeated on a repeatable answer noted or a full dead-letter store, split on a 400 for several rows, dead-lettered on a 400 for one, success on a 2xx deleted, trouble on a storage condition |
| `Verdicts.AnswerWritesExactly` | custom_components/hass_questdb_writer/worker.py:1258-1333 | An answer performs exactly the spool operation it demands, or changes no table; queues and submit-side counters stay |
| `Verdicts.AnswerCountsExactly` | custom_components/hass_questdb_writer/worker.py:1258-1355 | The counters move by exactly what was done: rows and rows marked uncertain on a success, moved and evicted on a dead letter, one retry on a repeated answer, nothing otherwise; only a success ends a pause |
| `Verdicts.UncertainCounts` | custom_components/hass_questdb_writer/worker.py:1347-1349 | The uncertain deliveries counted are the rows of the request that were marked |
| `Verdicts.PrepareEndsExactly` | custom_components/hass_questdb_writer/worker.py:1155-1220 | In front of a request the process ends exactly on a head that no request can carry, or whose move to dead letter failed for a reason that is neither a storage condition nor a full store |
| `Verdicts.PrepareLeavesExactly` | custom_components/hass_questdb_writer/worker.py:1155-1245 | Otherwise it sends exactly what was built, counts one retry with nothing to send or a full store, or has moved the head and counted it |
| `Verdicts.PersistEndsExactly` | custom_components/hass_questdb_writer/worker.py:673-694 | With events held the process ends exactly when the deciding check leaves room and the enqueue fails with an error that is neither a full pending table nor a storage condition |
| `Verdicts.PersistLeavesExactly` | custom_components/hass_questdb_writer/worker.py:673-703 | Otherwise everything held is stored, counted and a pause ended, or spool, queue, held events and counters stay and a pause is open with the first cause |
| `Verdicts.SubmitExactly` | custom_components/hass_questdb_writer/worker.py:500-528 | An event is accepted exactly if it fits the limit, the service is open and the queue has room; each refusal is counted in its own counter and changes nothing else |
| `Verdicts.DrainExactly` | custom_components/hass_questdb_writer/worker.py:665-671 | Draining moves the front of the queue behind the held events, in order, until a persist batch is full or the queue is empty, and changes nothing else |
| `Verdicts.ConcludedExactly` | custom_components/hass_questdb_writer/worker.py:1038-1077 | The loop isolates a row exactly behind a split (keeping its choice over a storage condition) and opens a pause exactly on a storage condition; the shutdown flush ends the process on one and forgets every other outcome |
| `Endings.EndsExactly` | custom_components/hass_questdb_writer/worker.py:645-703 | A step ends the process exactly for one of the listed causes |
| `Endings.LostExactly` | custom_components/hass_questdb_writer/worker.py:645-703 | Over every run the lost events are exactly those held and queued at its fatal steps, in order |
| `Endings.FullNeverLoses` | custom_components/hass_questdb_writer/worker.py:683-694 | No persist step loses an event because pending or the disk is full, or the disk is read-only: spool, queue, held events and history stay, and a pause is open |
| `CalmRuns.CalmRunLosesNothing` | custom_components/hass_questdb_writer/worker.py:673-703 | With storage conditions as SQLite's only failures, valid events whose ids stand for one content, no row that exceeds a whole request and no two requests at a time, no run loses an accepted event, whatever the server answers and however long pending, disk or dead-letter store stay full |
| `Isolation.DeliverAll` | custom_components/hass_questdb_writer/worker.py:1014-1077 | Against a server that answers only 2xx or 400, with storage working and no new events, what the loop does is an honest run of the pipeline with `sends` answered requests; it ends after at most two of them a row, with everything in front of the first stuck row delivered if good and dead-lettered if not, in order |
| `Isolation.DrainSpool` | custom_components/hass_questdb_writer/worker.py:1014-1077 | Without a stuck row the loop drains the spool with at most two requests a row, and the table becomes the initial one with every good row upserted once, in order |
| `Isolation.StuckEnds` | custom_components/hass_questdb_writer/worker.py:1202-1207 | A stuck head ends the worker, which restarts on the same spool |
| `Isolation.TurnProgress` | custom_components/hass_questdb_writer/worker.py:1162-1324 | A pass stops exactly on a stuck head; otherwise it settles a non-empty front correctly or splits once |
| `Isolation.TurnSettles` | custom_components/hass_questdb_writer/worker.py:1069-1077 | Each pass lowers twice the pending rows plus the not-isolated bit |
| `Isolation.BuildReaches` | custom_components/hass_questdb_writer/worker.py:1178-1209 | Building a request fails exactly on a head that cannot be peeked or whose encoding exceeds a whole request, and no request contains such a row |
| `Isolation.TurnIsRun` | custom_components/hass_questdb_writer/worker.py:1222-1355 | Each pass is a run of the pipeline with an honest server and the number of requests it counts, so the exactly-once theorems apply to it |
| `Ledger.LedgerBalances` | custom_components/hass_questdb_writer/worker.py:514-526 | In every reachable state, whatever ids were submitted: submitted = queued + held + persisted, initial pending + persisted = pending + delivered + dead-lettered + repeats, dead letters = initial + dead-lettered - evicted, and accepted events not yet durable never exceed the queue capacity plus one persist batch; so the counters balance exactly if the process has stored no repeated event |
| `Ledger.FreshLedgerBalances` | custom_components/hass_questdb_writer/worker.py:514-526 | With fresh event ids nothing is repeated and the counters balance |
| `Ledger.RepeatUnbalances` | custom_components/hass_questdb_writer/worker.py:695-703 | On every spool an event that is submitted twice unbalances them, because held events are counted and not inserted rows |
| `Ledger.EnqueueBooks` | custom_components/hass_questdb_writer/worker.py:695-703 | Storing the held events keeps the books, those that insert no row being the repeats |
| `Ledger.EnqueueFresh` | custom_components/hass_questdb_writer/worker.py:695-703 | Fresh held events are all inserted, and what is left in the queue is still fresh |
| `Ledger.MoveCount` | custom_components/hass_questdb_writer/spool.py:985-1002 | A move reports the rows it took out of pending, and the dead-letter table grows by moved minus evicted |
| `PauseRuns.PausesBalance` | custom_components/hass_questdb_writer/worker.py:720-844 | In every reachable state of the pipeline the bookkeeping is what the pause actions of the running process, in order, leave behind; their own log keeps the discipline and determines pause, reason and counters, pauses equal recoveries plus the open one, and attempts never fall below pauses |
| `PauseRuns.StepFollows` | custom_components/hass_questdb_writer/worker.py:673-776 | Each step of the pipeline changes the bookkeeping by exactly its pause actions, or starts a new process |
| `Pause.PauseDiscipline` | custom_components/hass_questdb_writer/worker.py:673-844 | Over every run of pause actions: between two rewrites of the file the pause ended, reclamation passes are at least the interval apart, no enqueue directly follows a check that reported a full disk |
| `Pause.RunBalanced` | custom_components/hass_questdb_writer/worker.py:740-766 | Every interleaving of persist-side and delivery-side failures keeps pauses = recoveries + open |
| `Pause.PauseKept` | custom_components/hass_questdb_writer/worker.py:720-776 | Over every run of pause actions the log determines the bookkeeping: every refusal is an attempt, those that find no pause open open one, its reason is the first refusal's, and it stays open until something is stored or delivered |
| `Pause.ReclaimExactly` | custom_components/hass_questdb_writer/worker.py:778-844 | A pass is due when the interval has passed; a file without incremental vacuum is rewritten, once per pause; space moved if the rewrite worked or, without one, if pages were freed |
| `Pause.GuardExactly` | custom_components/hass_questdb_writer/worker.py:673-688 | The first check decides unless it reports a full disk and a pass then moved something |
| `Pause.ActLogs` | custom_components/hass_questdb_writer/worker.py:673-703 | An enqueue happens exactly with room, and what comes last says how the attempt ended |
| `SpoolLaws.RunInvariant` | custom_components/hass_questdb_writer/spool.py:214-294 | Over every sequence of operations the counters equal row counts and payload bytes of both tables, ids and sequence numbers are unique and disjoint across them, sequences increase, and both tables and every payload stay within the limits |
| `SpoolLaws.SequencesNeverRecur` | custom_components/hass_questdb_writer/spool.py:216-218 | In every run a number at or below an earlier high-water mark still names the event it named then |
| `SpoolLaws.RingOverRuns` | custom_components/hass_questdb_writer/spool.py:900-1002 | Without manual deletes the dead-letter table is after every run the longest suffix that fits of everything it ever held, and the evictions reported are the rest |
| `Marks.PendingNoted` | custom_components/hass_questdb_writer/spool.py:838-868 | Over every run of spool operations a pending row's attempts are the number of successful attempts that named it, its uncertain mark is set exactly if it was or one of them said so, and its last error is the last one's; a new row starts blank |
| `Marks.DeadNoted` | custom_components/hass_questdb_writer/spool.py:900-1002 | A dead letter was moved exactly once: it counts the attempts noted before and one more, is uncertain exactly if one of them or the move was, and carries the error and the time of its move |
| `SpoolRows.KeepIsLongest` | custom_components/hass_questdb_writer/spool.py:931-956 | A suffix of the history fits both limits exactly if it is no longer than the one kept |
| `SpoolRows.KeepAppend` | custom_components/hass_questdb_writer/spool.py:927-956 | Evicting row by row gives the same ring as one cut of the whole history |
| `SpoolLaws.DeadLetterFullExactly` | custom_components/hass_questdb_writer/spool.py:939-944 | A move is refused as full exactly when one payload alone exceeds the byte limit, which the constructor's limits rule out |
| `SpoolLaws.EnqueueCompose` | custom_components/hass_questdb_writer/spool.py:615-696 | Enqueueing a concatenation succeeds exactly when enqueueing the parts in order does, with the same final state and the summed insert count |
| `SpoolLaws.EnqueueAgain` | custom_components/hass_questdb_writer/spool.py:615-696 | Repeating events that are still retained inserts nothing and changes nothing |
| `SpoolLaws.EnqueueRetains` | custom_components/hass_questdb_writer/spool.py:640-696 | After a successful enqueue each event of the batch is retained with its own content |
| `SpoolLaws.EnqueueConflict` | custom_components/hass_questdb_writer/spool.py:621-665 | A batch of valid events is refused as conflicting exactly when an id, in the batch or retained in either table, would stand for two contents |
| `Refusals.EventRefusedExactly` | custom_components/hass_questdb_writer/spool.py:591-608 | An event is refused as a mistake exactly without id or payload, with NUL in its id or a time beyond 64 bits, and as too large exactly above the limit |
| `Refusals.EnqueueExactly` | custom_components/hass_questdb_writer/spool.py:615-696 | A batch of valid events is refused as conflicting exactly if an id would stand for two contents, as full exactly if its new events exceed the row or byte limit, and otherwise inserts exactly the new ones |
| `Refusals.InvalidRefused` | custom_components/hass_questdb_writer/spool.py:621-624 | A batch with an invalid event is refused with the first one's error |
| `Refusals.NamedExactly` | custom_components/hass_questdb_writer/spool.py:738-1002 | An operation on named rows is refused as a mistake exactly for improper arguments, as a conflict of state exactly if a number names no row; otherwise only a move can fail, as full, for an oversized row |
| `SpoolRows.AdmitFilter` | custom_components/hass_questdb_writer/spool.py:621-665 | Removing repeats inside the batch first and then against the tables admits the same events as one pass |
| `SpoolLaws.EnqueueValid` | custom_components/hass_questdb_writer/spool.py:685-696 | An enqueue keeps the spool invariant |
| `SpoolLaws.MoveValid` | custom_components/hass_questdb_writer/spool.py:946-1002 | A move to dead letter keeps the spool invariant |
| `SpoolLaws.ApplyWithin` | custom_components/hass_questdb_writer/spool.py:672-684 | Every operation keeps both tables within their limits |
| `Spool.SQLiteSpool.EnqueueMany` | custom_components/hass_questdb_writer/spool.py:615-696 | The statements as they run either do exactly what the specification says of the whole batch or, when any statement fails, leave every table and counter as it was |
| `Spool.SQLiteSpool.InsertDistinct` | custom_components/hass_questdb_writer/spool.py:640-696 | The transaction on a batch without repeated ids reads, checks limits and inserts, or rolls back |
| `Spool.SQLiteSpool.Distinct` | custom_components/hass_questdb_writer/spool.py:621-636 | The dictionary of distinct events is the batch admitted against nothing, or a conflict |
| `Spool.SQLiteSpool.PeekBatch` | custom_components/hass_questdb_writer/spool.py:698-736 | Reading row by row returns the specified front, or an error if even the first row does not fit |
| `SpoolRows.PeekIsLongest` | custom_components/hass_questdb_writer/spool.py:698-736 | What is peeked is the longest front of pending within the row limit whose payload bytes fit the byte limit: exactly the fronts up to it do |
| `SpoolRows.PeekFailsExactly` | custom_components/hass_questdb_writer/spool.py:702-735 | Peeking fails exactly on a limit that is not positive or a first payload above the byte limit |
| `SpoolRows.AffordableIsLongest` | custom_components/hass_questdb_writer/spool.py:722-735 | Adding payload sizes from the front stops at the longest front that fits |
| `Spool.SQLiteSpool.MarkDelivered` | custom_components/hass_questdb_writer/spool.py:738-757 | Removes exactly the named pending rows, or changes nothing |
| `Spool.SQLiteSpool.RecordAttempt` | custom_components/hass_questdb_writer/spool.py:836-871 | Notes one attempt on exactly the named rows, the uncertain mark being sticky, or changes nothing |
| `Spool.SQLiteSpool.MoveToDeadLetter` | custom_components/hass_questdb_writer/spool.py:873-1002 | Moves exactly the named rows into the ring buffer with its evictions, or changes nothing |
| `Spool.SQLiteSpool.MakeRoom` | custom_components/hass_questdb_writer/spool.py:927-956 | The eviction loop ends with exactly the rows the ring keeps next to the new one, its local totals agreeing with the triggers; it reports full only for a payload above the byte limit |
| `Spool.SQLiteSpool.DeleteDeadLetters` | custom_components/hass_questdb_writer/spool.py:1040-1063 | Deletes exactly the named dead letters, or changes nothing |
| `Spool.SQLiteSpool.Initialize` | custom_components/hass_questdb_writer/spool.py:491-530 | Opening refuses a file whose tables share an event or a number, and otherwise recounts, so every stored file with consistent tables opens valid |
| `Spool.SQLiteSpool.Reconcile` | custom_components/hass_questdb_writer/spool.py:532-561 | The recount equals row counts and payload bytes of both tables |
| `Spool.SQLiteSpool.InsertPending` | custom_components/hass_questdb_writer/spool.py:216-266 | An insert takes the next number, never a used one, and its trigger keeps the counters |
| `Spool.SQLiteSpool.DeletePending` | custom_components/hass_questdb_writer/spool.py:267-276 | A delete removes the one row with the number and its trigger keeps the counters |
| `Batch.BuildIsLongest` | custom_components/hass_questdb_writer/worker.py:1155-1220 | A request carries the longest prefix of pending within the row limit whose payloads can be peeked together, whose rows all encode and whose encodings fit the byte limit: exactly the prefixes up to it qualify |
| `Batch.BuildFailsExactly` | custom_components/hass_questdb_writer/worker.py:1155-1209 | There is no request exactly if nothing is pending, or the head cannot be peeked, does not encode, or alone exceeds the byte limit |
| `Batch.TakeIsLongest` | custom_components/hass_questdb_writer/worker.py:1169-1220 | Among the rows peeked exactly the prefixes up to the batch encode and fit |
| `Batch.BatchIsPrefix` | custom_components/hass_questdb_writer/worker.py:1155-1220 | A batch is a non-empty prefix of pending and its text the ordered concatenation of the rows' encodings; an undecodable head is reported only when it does not encode |
| `Batch.ServerReads` | custom_components/hass_questdb_writer/worker.py:1213-1220 | A section-aware reader gets exactly the rows of the batch out of the request body |
| `Writer.TakeRows` | custom_components/hass_questdb_writer/worker.py:1169-1220 | The encoding loop takes exactly the specified rows; its text is their encodings in order and its uncertain list exactly their flagged numbers |
| `Writer.CutBatch` | custom_components/hass_questdb_writer/worker.py:1178-1220 | The batch, or the reason why the head is not taken, is as specified |
| `Writer.WriterService.BuildBatch` | custom_components/hass_questdb_writer/worker.py:1155-1220 | What is built from the spool is the specified request, with exactly its flagged rows |
| `Writer.WriterService.Submit` | custom_components/hass_questdb_writer/worker.py:500-528 | Accepts, refuses or counts exactly as specified and touches nothing else |
| `Writer.WriterService.DrainIngress` | custom_components/hass_questdb_writer/worker.py:665-671 | Moves the front of the queue into held up to the persist batch size, in order |
| `Writer.WriterService.PersistHeld` | custom_components/hass_questdb_writer/worker.py:673-703 | One persist attempt over the real spool ends in exactly the specified state, result or exception, for every check, reclamation and SQLite failure |
| `Writer.WriterService.ReclaimSpool` | custom_components/hass_questdb_writer/worker.py:778-844 | The rate limit and the one rewrite per pause, as specified |
| `Writer.WriterService.BlockOnStorage` | custom_components/hass_questdb_writer/worker.py:720-753 | Opens a pause once and counts every attempt |
| `Writer.WriterService.ResumeAfterStorageBlock` | custom_components/hass_questdb_writer/worker.py:755-776 | Closes an open pause and allows the next rewrite |
| `Writer.WriterService.StartDelivery` | custom_components/hass_questdb_writer/worker.py:1230-1245 | Up to the request a delivery ends in exactly the specified state and request |
| `Writer.WriterService.FinishDelivery` | custom_components/hass_questdb_writer/worker.py:1247-1355 | Behind the request every answer and SQLite failure leads to exactly the specified tables, counters, verdict or exception |
| `Writer.WriterService.Acknowledge` | custom_components/hass_questdb_writer/worker.py:1333-1355 | An acknowledged request deletes its rows, counts them and the uncertain ones, and ends a pause; a failed delete keeps them |
| `Ilp.IdentifierChain` | custom_components/hass_questdb_writer/ilp.py:33-43 | The chain of six replacements equals one pass that escapes each special character, for every string |
| `Ilp.StringChain` | custom_components/hass_questdb_writer/ilp.py:46-55 | The chain of four replacements equals one pass that escapes each special character, for every string |
| `Ilp.EncodeRow` | custom_components/hass_questdb_writer/ilp.py:83-117 | The two loops and the formatted line give the specified text, or an error exactly when some part does not encode or no field is left |
| `Ilp.RowFailsExactly` | custom_components/hass_questdb_writer/ilp.py:83-117 | A row is refused exactly for a bad table name, symbol or field, or because every field is null |
| `Ilp.FieldExactly` | custom_components/hass_questdb_writer/ilp.py:58-80 | A value is refused exactly if it is not finite, an integer on or beyond the 64-bit limits or a text with NUL; exactly a null is left out |
| `Ilp.ByteLengthIsUtf8` | custom_components/hass_questdb_writer/worker.py:1202 | The byte limit of a request counts the UTF-8 bytes that are sent |
| `Ilp.CharIsUtf8` | custom_components/hass_questdb_writer/worker.py:1202 | A character takes as many bytes as UTF-8 gives it; they stand for that character only |
| `IlpParser.EscapeInjective` | custom_components/hass_questdb_writer/ilp.py:33-55 | No two names and no two strings have the same escaped text |
| `IlpParser.ValueRoundTrip` | custom_components/hass_questdb_writer/ilp.py:58-80 | Every encoded field value is read back, and reading stops right behind it |
| `IlpParser.RowRoundTrip` | custom_components/hass_questdb_writer/ilp.py:83-117 | Every encoded row is read back exactly, whatever its strings contain, and reading stops right behind it |
| `IlpParser.BatchRoundTrip` | custom_components/hass_questdb_writer/worker.py:1213-1220 | Reading a concatenation of encoded rows returns exactly those rows in order |
| `Event.ValidEventEncodes` | custom_components/hass_questdb_writer/event.py:54-142 | A validated event always encodes |
| `Event.EventKey` | custom_components/hass_questdb_writer/event.py:120-142 | The key read off an event's row is (last_updated, entity_id) |
| `Event.RowSays` | custom_components/hass_questdb_writer/event.py:111-142 | The row of a valid event, read by column name, carries exactly that event: its texts, its domain in front of the first dot, its times in whole microseconds, context_id exactly if it has one, last_updated as the timestamp, and no other column |
| `Event.SameRowSameEvent` | custom_components/hass_questdb_writer/event.py:120-142 | Events with the same row agree in every field down to the microsecond |
| `Columns.RowFitsTable` | custom_components/hass_questdb_writer/schema.py:25-37 | Every column of an event's row is a column of the owned table with the type of its value, and none is the designated timestamp |
| `Columns.RowCoversTable` | custom_components/hass_questdb_writer/schema.py:25-37 | The owned table has exactly the columns a row can name and the designated timestamp; its upsert keys are that and entity_id |
| `Backoff.BaseClosedForm` | custom_components/hass_questdb_writer/worker.py:354-366 | n calls after a reset the base is min(max, initial * multiplier^n) |
| `Backoff.BaseStep` | custom_components/hass_questdb_writer/worker.py:365 | Capping before multiplying stays on the closed form |
| `Backoff.BaseGrows` | custom_components/hass_questdb_writer/worker.py:365 | The base never falls between resets and stays between the initial and the maximum delay |
| `Backoff.DelayDrawn` | custom_components/hass_questdb_writer/worker.py:359-366 | A delay lies within (1 +- jitter) times the base and in [0, max] |
| `Backoff.DelayInterpolates` | custom_components/hass_questdb_writer/worker.py:359-366 | The draw moves the delay evenly from the lower to the upper end of the band, cut at the maximum |
| `Backoff.Backoff.NextDelay` | custom_components/hass_questdb_writer/worker.py:359-366 | Draws a delay in that band and moves to the next base, or fails without change when the random source leaves [0, 1] |
| `Backoff.Backoff.Reset` | custom_components/hass_questdb_writer/worker.py:356-357 | The schedule starts over |
| `Delivery.DeliveryLoop` | custom_components/hass_questdb_writer/worker.py:979-1092 | For every sequence of passes the loop with its variables and its backoff logs exactly what the reference says, which decides each pass from the log of everything before it, and ends where the reference ends |
| `Delivery.OnePass` | custom_components/hass_questdb_writer/worker.py:1012-1092 | One pass logs exactly the reference's events and leaves the variables holding what the log remembers |
| `Delivery.StartOrRest` | custom_components/hass_questdb_writer/worker.py:1021-1092 | A delivery is started exactly when one is due by the log |
| `Delivery.Settle` | custom_components/hass_questdb_writer/worker.py:1038-1077 | A repeated answer leaves a retry time behind it, a blocking one the blocked flag, each as the reference logs it |
| `Delivery.EnsureSchema` | custom_components/hass_questdb_writer/worker.py:1108-1153 | Exactly a check that passed opens the gate; exactly a schema error, an invalid table name or a draw outside [0, 1] ends the loop; a retryable failure draws exactly the next delay |
| `Delivery.Rest` | custom_components/hass_questdb_writer/worker.py:1079-1092 | The wait never passes the next flush or retry moment, nor a flush interval |
| `Delivery.RestEndsExactly` | custom_components/hass_questdb_writer/worker.py:1079-1092 | The wait ends exactly at the first of: a flush interval from now, the end of the rows' interval, the end of a retry delay, if still to come |
| `Delivery.ShutdownFlush` | custom_components/hass_questdb_writer/worker.py:904-911 | The flush at shutdown is sent exactly when rows are pending and its own schema check passed |
| `DeliveryLaws.LoopIsDisciplined` | custom_components/hass_questdb_writer/worker.py:979-1092 | In every run each logged event is what its pass and the log before it demand: a delivery starts behind a successful check, exactly when a look finds rows that are wanted or have waited a flush interval, with no answer blocking and every earlier delay passed, and isolates a row exactly behind a split; each delay is the schedule's for the retries since the last reset |
| `DeliveryLaws.EveryPassCounts` | custom_components/hass_questdb_writer/worker.py:1012-1092 | No pass is left out: each one the loop goes through looks at the spool once the owned table was found and starts a delivery exactly when it must; a repeated answer leaves a deferral behind it, a blocking one a halt, each other one a conclusion; the loop stops exactly on the stop flag, and ends with an exception exactly where a schema check it reaches or a delivery it must start raises |
| `DeliveryLaws.RetriesWait` | custom_components/hass_questdb_writer/worker.py:1030-1035 | No delivery starts before the delay of an earlier retry has passed or after a blocking answer |
| `DeliveryLaws.SchemaFirst` | custom_components/hass_questdb_writer/worker.py:1014-1020 | Every delivery of a gated loop stands behind a check that found the owned table |
| `DeliveryLaws.DueIsMust` | custom_components/hass_questdb_writer/worker.py:1030-1035 | The loop's variables decide exactly as the whole log demands |
| `Schema.ValidateTableColumns` | custom_components/hass_questdb_writer/schema.py:73-137 | Accepts exactly the well-formed responses that show the owned table: names, types, designated timestamp and upsert keys, the last row with a name counting |
| `Schema.Compare` | custom_components/hass_questdb_writer/schema.py:93-137 | Exactly the real differences are reported, each with the columns it concerns; none exactly for the owned table |
| `Schema.ReadColumns` | custom_components/hass_questdb_writer/schema.py:79-91 | The columns read are the ones the response shows; a malformed row is refused |
| `Schema.ShowsOne` | custom_components/hass_questdb_writer/schema.py:81-91 | A response shows one table only |
| `Schema.Ensure` | custom_components/hass_questdb_writer/schema.py:171-197 | The check passes only behind a successful CREATE and a response that shows the owned table; every other outcome has its cause: a bad name, a lost statement or vanished table to repeat, a refused statement, an unreadable response, a different table |
| `Schema.UnreadableExactly` | custom_components/hass_questdb_writer/transport.py:213-275 | Over the transport the schema check ends in a schema error only for a 2xx whose body is a JSON object without a dataset of column rows; a body that is no JSON or no object is a permanent error, which blocks |
| `Handshake.NoLostWakeup` | custom_components/hass_questdb_writer/worker.py:950-961 | Over every interleaving of threads: a persist loop parked behind a drain that ended on an empty queue has nothing queued, or its wake is set, its callback is queued, or the submitter is about to signal |
| `Handshake.FewNeverSleep` | custom_components/hass_questdb_writer/worker.py:665-671 | While queued and held events together never exceed a persist batch, no event waits for the poll timeout |
| `Handshake.SignalWakes` | custom_components/hass_questdb_writer/worker.py:846-853 | Whatever the order in which signals and callbacks run, the loop drains again within a bounded number of those steps, without the poll timeout |
| `Handshake.WakingStays` | custom_components/hass_questdb_writer/worker.py:950-961 | No step of any thread loses such a signal: the loop stays about to wake until it drains or ends |
| `Handshake.WakingMoves` | custom_components/hass_questdb_writer/worker.py:846-853 | A loop about to wake always has such a step to take |
| `Handshake.BurstSleeps` | custom_components/hass_questdb_writer/worker.py:665-671 | Whatever the settings, a burst larger than a persist batch can leave any number of its events, as far as the queue holds them, waiting for the poll timeout: the drain stopped with held full |
| `Handshake.SleepsExactly` | custom_components/hass_questdb_writer/worker.py:665-671 | A bound on queued and held events keeps every event from waiting for the poll timeout exactly if it is at most a persist batch |
| `Handshake.StopNotLost` | custom_components/hass_questdb_writer/worker.py:530-548 | Once the worker has read the stop flag, a stop request is set, queued on the loop or about to be queued |
| `Handshake.StoppedIsEmpty` | custom_components/hass_questdb_writer/worker.py:928-949 | A worker that ends STOPPED holds nothing, and its queue is empty if the stop request found the service open |
| `Handshake.EarlyStopCanStrand` | custom_components/hass_questdb_writer/worker.py:635-643 | Whatever the settings, a stop request during start can be overtaken by the service opening and leave any number of accepted events, up to the capacity, in the queue of a STOPPED worker |
| `Handshake.DeadlineDecides` | custom_components/hass_questdb_writer/worker.py:928-938 | While stopping, the loop returns exactly with nothing left and gives up exactly when the deadline passes with something left |
| `Handshake.RaisedEndsFailed` | custom_components/hass_questdb_writer/worker.py:645-663 | A worker whose persist loop gave up has failed; when its thread is gone it shows FAILED exactly if no stop call came after the failure was recorded, and STOPPING otherwise |
| `Handshake.OutcomeShown` | custom_components/hass_questdb_writer/worker.py:645-663 | When the thread is gone, FAILED or STOPPED is shown exactly if no stop call came between the record of the outcome and the end of the thread; otherwise STOPPING is |
| `Handshake.LateStopHidesFailure` | custom_components/hass_questdb_writer/worker.py:530-548 | Whatever the settings, such a late stop call can come and hide a failure |
| `Handshake.RaisedStays` | custom_components/hass_questdb_writer/worker.py:932-938 | Giving up is final |
| `Handshake.ShutdownStores` | custom_components/hass_questdb_writer/worker.py:918-949 | Stopping with working storage, in every interleaving with submitters, stoppers, callbacks and the main coroutine, the persist loop takes at most a bounded number of steps until it has stored every event accepted before and returned, for good |
| `Handshake.StoppingMoves` | custom_components/hass_questdb_writer/worker.py:918-949 | While stopping the persist loop always has a step to take |

## Left out

- ExactlyOnce.DrainedTableIsExact: assumes that every request is made of rows `encode_row` produced, which EndToEnd.SpeakerIsWired shows of the writer, and that no two requests overlap, which Overlap.OverlapBreaksTable shows to be needed. The server applies a request before the client's call ends or never; a request applied after its answer timed out and after the next request was sent is not modelled.
- Isolation.DeliverAll: a head whose encoding exceeds `delivery_batch_bytes`, or whose payload exceeds 2^63 - 1 bytes, ends the worker with an exception; the theorem says what was settled before.
- Handshake.StoppedIsEmpty: for a stop call that came before `start` had opened the service the queue may keep an event, as Handshake.EarlyStopCanStrand shows.
- Handshake.NoLostWakeup: here and in the other theorems of this module counts stand for events; which event is where is the subject of the other modules.
- Handshake.SignalWakes: that the steps are taken at all is left to the operating system and the event loop.
- Delivery.DeliveryLoop: one clock reading stands for the readings behind a delivery. The wait in front of another schema check can be cut short by new events, so the retry clauses are about deliveries.
- Schema.Ensure: the retention step stands for its outcome only.
- Spool.SQLiteSpool.Initialize: the version check of the file is not modelled.
- HTTP, TLS, authentication and response bodies: a request has one of the classified answers.
- SQLite pages, the write-ahead log, auto-vacuum and the inside of `reclaim` and `compact`: oracles. SQLite may fail any statement of a transaction, COMMIT included, with any error; the failed transaction has then changed nothing. Sequence numbers are unbounded, so the end of AUTOINCREMENT at 2^63 - 1 is not modelled.
- UNIQUE and CHECK violations, closed connections and the busy timeout: the invariant shows that the constraints are never violated; the rest is not modelled.
- The free-space guard: an oracle that says blocked, not blocked or unknown.
- JSON, UTF-8 decoding and float formatting: decoding is a partial function with a round-trip assumption, strings hold Unicode scalar values, a float is its text.
- Wall clock and random source: parameters. The monotone clock is only assumed not to go back. Backoff is over the reals, without rounding.
- The displayed worker state, last errors, high-water marks and snapshots, except STOPPED, STOPPING and FAILED at the end of a worker.
- `delivery_uncertain` is proved to be noted and counted as the code does; a cancelled send or a failed local acknowledgement does not set it, so it is no complete record of doubt.
- Retention SQL, the DDL text, attribute filters, the Home Assistant adapter, configuration flows, sensors, diagnostics and logging: plumbing or dependent on an unseen server.
- `peek_dead_letters`, `enqueue` (one event) and `stats`: easy readers of the tables.
