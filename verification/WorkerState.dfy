/** One writer's process state as a value, and what each stretch of its code between two awaits
    does to it. The server's answers, clock readings and storage failures are parameters. */
module WorkerState {
  import opened Basics
  import opened SpoolState
  import opened Batch
  import P = Pause

  datatype Counters = Counters(
    submitted: nat, overflowed: nat, oversized: nat, persisted: nat, delivered: nat,
    uncertainDelivered: nat, deadLettered: nat, evicted: nat, retries: nat)

  const ZERO := Counters(0, 0, 0, 0, 0, 0, 0, 0, 0)

  /** `db` is durable; everything else is lost when the process ends. */
  datatype Worker = Worker(db: Database, ingress: seq<NewEvent>, held: seq<NewEvent>, count: Counters, pause: P.Pause)

  /** SQLite's failure, if it strikes the transaction, replaces the outcome and leaves the tables alone. */
  function Struck<T>(outcome: Outcome<T>, failure: Option<SpoolError>): Outcome<T> {
    match failure
    case None => outcome
    case Some(error) => Failed(error)
  }

  // ------------------------------------------------------------------ ingress

  /** `submit` on a queue that accepts: the new state and the result. */
  function Submit(cfg: Config, w: Worker, accepting: bool, event: NewEvent): (Worker, bool) {
    if |event.payload| > cfg.maxSerializedBytes then (w.(count := w.count.(oversized := w.count.oversized + 1)), false)
    else if !accepting then (w, false)
    else if |w.ingress| >= cfg.ingressCapacity then (w.(count := w.count.(overflowed := w.count.overflowed + 1)), false)
    else (w.(ingress := w.ingress + [event], count := w.count.(submitted := w.count.submitted + 1)), true)
  }

  /** `_drain_ingress`: fill `held` up to the persist batch size. */
  function Drain(cfg: Config, w: Worker): Worker {
    var n := if |w.held| >= cfg.persistRows then 0 else Min(|w.ingress|, cfg.persistRows - |w.held|);
    w.(held := w.held + w.ingress[..n], ingress := w.ingress[n..])
  }

  /** What the persist path meets: free-space checks, the spool's reclamation, SQLite's failure. */
  datatype Storage = Storage(first: P.Check, now: real, spool: P.Reclaimer, second: P.Check,
                             failure: Option<SpoolError>)

  /** Storage that works. */
  const QUIET := Storage(P.Room, 0.0, P.Reclaimer(false, false, false, false, false, false), P.Room, None)

  /** A stretch of code ends normally, or an exception ends the worker with the tables as they are. */
  datatype Step<+T> = Goes(w: Worker, value: T) | Dies(db: Database)

  /** `_persist_held`. */
  function Persist(cfg: Config, w: Worker, env: Storage): Step<bool> {
    if w.held == [] then Goes(w, true)
    else
      var (pause, check, log) := P.Guard(w.pause, env.first, env.now, env.spool, env.second);
      if check.NoRoom? then Goes(w.(pause := P.Block(pause, P.NoDiskSpace)), false)
      else Store(cfg, w.(pause := pause), env.failure)
  }

  /** The enqueue of `_persist_held` and what follows it. */
  function Store(cfg: Config, w: Worker, failure: Option<SpoolError>): Step<bool> {
    match Struck(Enqueue(w.db, cfg.limits, w.held), failure)
    case Done(n, db) =>
      Goes(w.(db := db, held := [], count := w.count.(persisted := w.count.persisted + |w.held|),
           pause := P.Resume(w.pause)), true)
    case Failed(error) =>
      if error.PendingFull? || error.Storage() then Goes(w.(pause := P.Block(w.pause, P.ReasonOf(error))), false)
      else Dies(w.db)
  }

  // ----------------------------------------------------------------- delivery

  /** How one `_deliver_once` ends; a storage failure is left to its caller. */
  datatype Verdict = Success | Retry | Split | DeadLetter | Blocked | Trouble(error: SpoolError)

  /** What the transport reports for one request. */
  datatype Answer =
    | Acknowledged
    | Retryable(uncertain: bool)
    | BadRequest
    | OtherPermanent
    | Unauthorized

  const ENCODING_ERROR := "EventEnvelopeError"
  const RETRY_ERROR := "RetryableIlpError"
  const REJECT_ERROR := "PermanentIlpError"

  function Retried(w: Worker): Worker {
    w.(count := w.count.(retries := w.count.retries + 1))
  }

  function Troubled(w: Worker, error: SpoolError): Step<Verdict> {
    if error.Storage() then Goes(w, Trouble(error)) else Dies(w.db)
  }

  /** Move rows to dead letter and count it; a full dead-letter store means a later retry. */
  function Reject(cfg: Config, w: Worker, sequences: seq<int>, error: string, now: int, failure: Option<SpoolError>)
    : Step<Verdict>
  {
    match Struck(MoveToDeadLetter(w.db, cfg.limits, sequences, error, now, false), failure)
    case Done(moved, db) =>
      Goes(w.(db := db, count := w.count.(deadLettered := w.count.deadLettered + moved.0,
           evicted := w.count.evicted + moved.1)), DeadLetter)
    case Failed(reason) =>
      if reason.DeadLetterFull? then Goes(Retried(w), Retry) else Troubled(w, reason)
  }

  /** Either a request to send, or the verdict already. */
  datatype Prepared = Send(rows: seq<Row>, text: string) | Decided(verdict: Verdict)

  /** `_build_batch` and the part of `_deliver_once` in front of the request. */
  function Prepare(cfg: Config, w: Worker, isolate: bool, now: int, failure: Option<SpoolError>): Step<Prepared> {
    match Build(cfg, w.db, isolate)
    case Ready(rows, text) => Goes(w, Send(rows, text))
    case Nothing => Goes(Retried(w), Decided(Retry))
    case Undecodable(row) =>
      (match Reject(cfg, w, [row.sequence], ENCODING_ERROR, now, failure)
       case Goes(after, verdict) => Goes(after, Decided(verdict))
       case Dies(db) => Dies(db))
    case TooLarge => Dies(w.db)
    case PeekError(error) => Dies(w.db)
  }

  function Uncertain(rows: seq<Row>): nat {
    if rows == [] then 0 else (if rows[0].uncertain then 1 else 0) + Uncertain(rows[1..])
  }

  function Attempt(w: Worker, sequences: seq<int>, error: string, uncertain: bool, failure: Option<SpoolError>)
    : Outcome<nat>
  {
    Struck(RecordAttempt(w.db, sequences, error, uncertain), failure)
  }

  /** The part of `_deliver_once` behind the request. */
  function Finish(cfg: Config, w: Worker, rows: seq<Row>, answer: Answer, now: int, failure: Option<SpoolError>)
    : Step<Verdict>
  {
    var sequences := Sequences(rows);
    match answer
    case Unauthorized => Goes(w, Blocked)
    case OtherPermanent => Goes(w, Blocked)
    case Retryable(uncertain) =>
      (match Attempt(w, sequences, RETRY_ERROR, uncertain, failure)
       case Done(n, db) => Goes(Retried(w.(db := db)), Retry)
       case Failed(error) => Troubled(w, error))
    case BadRequest =>
      if |rows| > 1 then
        match Attempt(w, sequences, REJECT_ERROR, false, failure)
        case Done(n, db) => Goes(w.(db := db), Split)
        case Failed(error) => Troubled(w, error)
      else Reject(cfg, w, sequences, REJECT_ERROR, now, failure)
    case Acknowledged => Acknowledge(w, rows, failure)
  }

  function Acknowledge(w: Worker, rows: seq<Row>, failure: Option<SpoolError>): Step<Verdict> {
    match Struck(MarkDelivered(w.db, Sequences(rows)), failure)
    case Done(n, db) =>
      Goes(w.(db := db, pause := P.Resume(w.pause), count := Delivered(w.count, |rows|, Uncertain(rows))), Success)
    case Failed(error) => Troubled(w, error)
  }

  function Delivered(count: Counters, rows: nat, uncertain: nat): Counters {
    count.(delivered := count.delivered + rows, uncertainDelivered := count.uncertainDelivered + uncertain)
  }

  /** The delivery loop parks on a storage failure met while delivering. */
  function ParkOnTrouble(w: Worker, verdict: Verdict): Worker {
    if verdict.Trouble? then w.(pause := P.Block(w.pause, P.ReasonOf(verdict.error))) else w
  }
}
