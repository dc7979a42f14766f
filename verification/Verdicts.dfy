/** What a stretch of the worker between two awaits does with what it meets, stated from the operation
    it asks the spool for and how that operation ended: which answers end the process, which repeat,
    split, reject or block, and what each leaves in tables, queues and counters. */
module Verdicts {
  import opened Basics
  import opened SpoolState
  import opened SpoolLaws
  import opened Batch
  import opened WorkerState
  import opened System
  import P = Pause

  /** How an operation on the spool failed: SQLite's failure comes first. */
  function Fault<T>(outcome: Outcome<T>, failure: Option<SpoolError>): Option<SpoolError> {
    if failure.Some? then failure
    else if outcome.Failed? then Some(outcome.error)
    else None
  }

  predicate Fine(fault: Option<SpoolError>) {
    fault.None?
  }

  /** A storage condition a later attempt can clear. */
  predicate Clears(fault: Option<SpoolError>) {
    fault == Some(DiskFull) || fault == Some(ReadOnly)
  }

  /** Queues and submit-side counters are untouched. */
  predicate SameIngress(a: Worker, b: Worker) {
    && b.ingress == a.ingress && b.held == a.held
    && b.count.submitted == a.count.submitted && b.count.overflowed == a.count.overflowed
    && b.count.oversized == a.count.oversized && b.count.persisted == a.count.persisted
  }

  /** The counters a delivery touches, side by side. */
  predicate Counts(a: Worker, b: Worker, delivered: nat, uncertain: nat, dead: nat, evicted: nat, retries: nat) {
    && b.count.delivered == a.count.delivered + delivered
    && b.count.uncertainDelivered == a.count.uncertainDelivered + uncertain
    && b.count.deadLettered == a.count.deadLettered + dead && b.count.evicted == a.count.evicted + evicted
    && b.count.retries == a.count.retries + retries
  }

  // ---------------------------------------------------------- behind a request

  /** What an answer asks of the spool. */
  function Demand(rows: seq<Row>, answer: Answer, now: int): Option<Op> {
    var sequences := Sequences(rows);
    match answer
    case Acknowledged => Some(Delivered(sequences))
    case Retryable(uncertain) => Some(Attempted(sequences, RETRY_ERROR, uncertain))
    case BadRequest =>
      if |rows| > 1 then Some(Attempted(sequences, REJECT_ERROR, false))
      else Some(Rejected(sequences, REJECT_ERROR, now, false))
    case _ => None
  }

  /** How an operation of a delivery failed. */
  function OpFault(limits: Limits, db: Database, op: Op, failure: Option<SpoolError>): Option<SpoolError> {
    match op
    case EnqueueMany(events) => Fault(Enqueue(db, limits, events), failure)
    case Delivered(sequences) => Fault(MarkDelivered(db, sequences), failure)
    case Attempted(sequences, error, uncertain) => Fault(RecordAttempt(db, sequences, error, uncertain), failure)
    case Rejected(sequences, error, failed, uncertain) =>
      Fault(MoveToDeadLetter(db, limits, sequences, error, failed, uncertain), failure)
    case Deleted(originals) => Fault(DeleteDead(db, originals), failure)
  }

  function AnswerFault(
    cfg: Config, w: Worker, rows: seq<Row>, answer: Answer, now: int, failure: Option<SpoolError>)
    : Option<SpoolError>
  {
    match Demand(rows, answer, now)
    case None => None
    case Some(op) => OpFault(cfg.limits, w.db, op, failure)
  }

  /** A full dead-letter store is a reason to come back, for a move only. */
  predicate NoSpaceToBury(op: Option<Op>, fault: Option<SpoolError>) {
    op.Some? && op.value.Rejected? && fault == Some(DeadLetterFull)
  }

  /** The process ends exactly when the operation the answer demands failed for a reason that no later
      attempt clears. */
  lemma AnswerEndsExactly(
    cfg: Config, w: Worker, rows: seq<Row>, answer: Answer, now: int, failure: Option<SpoolError>)
    ensures var fault := AnswerFault(cfg, w, rows, answer, now, failure);
            Finish(cfg, w, rows, answer, now, failure).Dies? <==>
            !Fine(fault) && !Clears(fault) && !NoSpaceToBury(Demand(rows, answer, now), fault)
    ensures Finish(cfg, w, rows, answer, now, failure).Dies? ==>
              Finish(cfg, w, rows, answer, now, failure).db == w.db
  {
  }

  /** Otherwise each verdict has exactly one cause. */
  lemma VerdictExactly(
    cfg: Config, w: Worker, rows: seq<Row>, answer: Answer, now: int, failure: Option<SpoolError>)
    requires Finish(cfg, w, rows, answer, now, failure).Goes?
    ensures var fault := AnswerFault(cfg, w, rows, answer, now, failure);
            var verdict := Finish(cfg, w, rows, answer, now, failure).value;
            && (verdict.Success? <==> answer.Acknowledged? && Fine(fault))
            && (verdict.Retry? <==>
                || (answer.Retryable? && Fine(fault))
                || (answer.BadRequest? && |rows| <= 1 && fault == Some(DeadLetterFull)))
            && (verdict.Split? <==> answer.BadRequest? && |rows| > 1 && Fine(fault))
            && (verdict.DeadLetter? <==> answer.BadRequest? && |rows| <= 1 && Fine(fault))
            && (verdict.Blocked? <==> answer.Unauthorized? || answer.OtherPermanent?)
            && (verdict.Trouble? <==> Clears(fault)) && (verdict.Trouble? ==> Some(verdict.error) == fault)
  {
  }

  /** The rows of a request that were marked uncertain when it was built. */
  function Marked(rows: seq<Row>): set<nat> {
    set i: nat | i < |rows| && rows[i].uncertain
  }

  lemma {:induction false} UncertainCounts(rows: seq<Row>)
    ensures Uncertain(rows) == |Marked(rows)|
  {
    if rows != [] {
      UncertainCounts(rows[1..]);
      MarkedRest(rows);
      Shifted(Marked(rows[1..]), Marked(rows) - {0});
      if rows[0].uncertain {
        assert Marked(rows) == (Marked(rows) - {0}) + {0};
      } else {
        assert Marked(rows) == Marked(rows) - {0};
      }
    }
  }

  lemma MarkedRest(rows: seq<Row>)
    requires rows != []
    ensures 0 in Marked(rows) <==> rows[0].uncertain
    ensures forall i: nat :: i in Marked(rows[1..]) <==> i + 1 in Marked(rows)
  {
    forall i: nat ensures i in Marked(rows[1..]) <==> i + 1 in Marked(rows) {
      assert i < |rows[1..]| ==> rows[1..][i] == rows[i + 1];
    }
  }

  lemma {:induction false} Shifted(s: set<nat>, t: set<nat>)
    requires 0 !in t && forall i: nat :: i in s <==> i + 1 in t
    ensures |s| == |t|
    decreases s
  {
    if s == {} {
      forall j: nat ensures j !in t {
        if j > 0 {
          assert j - 1 !in s;
        }
      }
      assert t == {};
    } else {
      var x :| x in s;
      Shifted(s - {x}, t - {x + 1});
    }
  }

  /** What an answer does to the tables: the demanded operation is performed, or nothing is. */
  lemma AnswerWritesExactly(
    cfg: Config, w: Worker, rows: seq<Row>, answer: Answer, now: int, failure: Option<SpoolError>, after: Worker,
    verdict: Verdict)
    requires Finish(cfg, w, rows, answer, now, failure) == Goes(after, verdict)
    ensures var op := Demand(rows, answer, now);
            var done := op.Some? && Fine(OpFault(cfg.limits, w.db, op.value, failure));
            SameIngress(w, after) && after.db == (if done then Apply(w.db, cfg.limits, op.value) else w.db)
  {
  }

  /** And to the counters: they move by exactly what was done; only an acknowledgement ends a pause. */
  lemma AnswerCountsExactly(
    cfg: Config, w: Worker, rows: seq<Row>, answer: Answer, now: int, failure: Option<SpoolError>, after: Worker,
    verdict: Verdict)
    requires Finish(cfg, w, rows, answer, now, failure) == Goes(after, verdict)
    ensures verdict.Success? ==>
              Counts(w, after, |rows|, |Marked(rows)|, 0, 0, 0) && after.pause == P.Resume(w.pause)
    ensures verdict.DeadLetter? ==>
              var moved := MoveToDeadLetter(w.db, cfg.limits, Sequences(rows), REJECT_ERROR, now, false).value;
              Counts(w, after, 0, 0, moved.0, moved.1, 0)
    ensures !verdict.Success? && !verdict.DeadLetter? ==> Counts(w, after, 0, 0, 0, 0, if verdict.Retry? then 1 else 0)
    ensures !verdict.Success? ==> after.pause == w.pause
  {
    UncertainCounts(rows);
  }

  // ----------------------------------------------------- in front of a request

  /** A head that does not encode is to be dead-lettered. */
  function HeadDemand(cfg: Config, db: Database, isolate: bool, now: int): Option<Op> {
    match Build(cfg, db, isolate)
    case Undecodable(row) => Some(Rejected([row.sequence], ENCODING_ERROR, now, false))
    case _ => None
  }

  function HeadFault(cfg: Config, w: Worker, isolate: bool, now: int, failure: Option<SpoolError>): Option<SpoolError> {
    match HeadDemand(cfg, w.db, isolate, now)
    case None => None
    case Some(op) => OpFault(cfg.limits, w.db, op, failure)
  }

  /** The process ends in front of a request exactly on a head that no request can carry or that cannot
      be moved away for a reason no later attempt clears. */
  lemma PrepareEndsExactly(cfg: Config, w: Worker, isolate: bool, now: int, failure: Option<SpoolError>)
    ensures var fault := HeadFault(cfg, w, isolate, now, failure);
            Prepare(cfg, w, isolate, now, failure).Dies? <==>
            || Build(cfg, w.db, isolate).TooLarge? || Build(cfg, w.db, isolate).PeekError?
            || (!Fine(fault) && !Clears(fault) && fault != Some(DeadLetterFull))
  {
  }

  /** Otherwise it sends what was built, waits, or has dead-lettered the head. */
  lemma PrepareLeavesExactly(
    cfg: Config, w: Worker, isolate: bool, now: int, failure: Option<SpoolError>, after: Worker, prepared: Prepared)
    requires Prepare(cfg, w, isolate, now, failure) == Goes(after, prepared)
    ensures var built := Build(cfg, w.db, isolate);
            var fault := HeadFault(cfg, w, isolate, now, failure);
            && (prepared.Send? <==> built.Ready?)
            && (prepared.Send? ==> prepared == Send(built.rows, built.text) && after == w)
            && (prepared == Decided(Retry) <==> built.Nothing? || (built.Undecodable? && fault == Some(DeadLetterFull)))
            && (prepared == Decided(DeadLetter) <==> built.Undecodable? && Fine(fault))
            && (prepared.Decided? && prepared.verdict.Trouble? <==> built.Undecodable? && Clears(fault))
    ensures SameIngress(w, after) && after.pause == w.pause
    ensures prepared == Decided(DeadLetter) ==>
              var op := HeadDemand(cfg, w.db, isolate, now).value;
              var moved := MoveToDeadLetter(w.db, cfg.limits, op.sequences, ENCODING_ERROR, now, false).value;
              after.db == Apply(w.db, cfg.limits, op) && Counts(w, after, 0, 0, moved.0, moved.1, 0)
    ensures prepared != Decided(DeadLetter) ==>
              after.db == w.db && Counts(w, after, 0, 0, 0, 0, if prepared == Decided(Retry) then 1 else 0)
  {
  }

  // ------------------------------------------------------------------ storing

  /** The free-space check that decides: the second one if a pass over the file moved something. */
  predicate LeavesRoom(w: Worker, env: Storage) {
    !P.Guard(w.pause, env.first, env.now, env.spool, env.second).1.NoRoom?
  }

  function StoreFault(cfg: Config, w: Worker, env: Storage): Option<SpoolError> {
    Fault(Enqueue(w.db, cfg.limits, w.held), env.failure)
  }

  /** With events held the process ends exactly when there is room and the spool refuses them for a
      reason other than being full or a storage condition. */
  lemma PersistEndsExactly(cfg: Config, w: Worker, env: Storage)
    ensures var fault := StoreFault(cfg, w, env);
            Persist(cfg, w, env).Dies? <==>
            w.held != [] && LeavesRoom(w, env) && !Fine(fault) && !Clears(fault) && fault != Some(PendingFull)
  {
  }

  /** Otherwise everything held is stored and a pause ended, or nothing changes and a pause is open. */
  lemma PersistLeavesExactly(cfg: Config, w: Worker, env: Storage, after: Worker, stored: bool)
    requires Persist(cfg, w, env) == Goes(after, stored) && w.held != []
    ensures stored <==> LeavesRoom(w, env) && Fine(StoreFault(cfg, w, env))
    ensures stored ==>
              && after.db == Apply(w.db, cfg.limits, EnqueueMany(w.held)) && after.held == []
              && after.ingress == w.ingress && after.pause.episode.None?
              && after.count == w.count.(persisted := w.count.persisted + |w.held|)
    ensures !stored ==>
              && after.db == w.db && after.held == w.held && after.ingress == w.ingress && after.count == w.count
              && after.pause.attempts == w.pause.attempts + 1
              && after.pause.episode == if w.pause.episode.Some? then w.pause.episode else Cause(cfg, w, env)
  {
  }

  /** Why a pause opens. */
  function Cause(cfg: Config, w: Worker, env: Storage): Option<P.Reason> {
    var fault := StoreFault(cfg, w, env);
    if !LeavesRoom(w, env) then Some(P.NoDiskSpace)
    else if fault == Some(PendingFull) then Some(P.SpoolIsFull)
    else if fault == Some(DiskFull) then Some(P.DiskIsFull)
    else if fault == Some(ReadOnly) then Some(P.ReadOnlyDisk)
    else None
  }

  lemma PersistNothing(cfg: Config, w: Worker, env: Storage)
    requires w.held == []
    ensures Persist(cfg, w, env) == Goes(w, true)
  {
  }

  // --------------------------------------------------------------- submitting

  /** `submit` accepts exactly what fits the event limit while the service is open and the queue has
      room; each refusal is counted where it belongs, and only there. */
  lemma SubmitExactly(cfg: Config, w: Worker, accepting: bool, event: NewEvent)
    ensures var (after, taken) := Submit(cfg, w, accepting, event);
            var fits := |event.payload| <= cfg.maxSerializedBytes;
            var room := |w.ingress| < cfg.ingressCapacity;
            && (taken <==> fits && accepting && room)
            && after.ingress == w.ingress + (if taken then [event] else [])
            && after.count.submitted == w.count.submitted + (if taken then 1 else 0)
            && after.count.oversized == w.count.oversized + (if !fits then 1 else 0)
            && after.count.overflowed == w.count.overflowed + (if fits && accepting && !room then 1 else 0)
            && after.held == w.held && after.db == w.db && after.pause == w.pause
            && Counts(w, after, 0, 0, 0, 0, 0) && after.count.persisted == w.count.persisted
  {
  }

  /** Draining moves the front of the queue behind the held events, until a persist batch is full or the
      queue is empty, and nothing else. */
  lemma DrainExactly(cfg: Config, w: Worker)
    ensures var after := Drain(cfg, w);
            && after.held + after.ingress == w.held + w.ingress && w.held <= after.held
            && (|w.held| <= cfg.persistRows ==> |after.held| <= cfg.persistRows)
            && (after.ingress == [] || |after.held| >= cfg.persistRows)
            && (|w.held| >= cfg.persistRows ==> after.held == w.held)
            && after.db == w.db && after.count == w.count && after.pause == w.pause
  {
  }

  /** How the delivery loop goes on: it isolates a row exactly behind a split, and opens a pause exactly
      on a storage condition; the shutdown flush ends the process on one and forgets everything else. */
  lemma ConcludedExactly(s: System, flush: bool, verdict: Verdict)
    ensures var t := Concluded(s, flush, verdict);
            && t.w.db == s.w.db && t.table == s.table
            && (flush && !verdict.Trouble? ==> t == s)
            && (flush && verdict.Trouble? ==> t.w.held == [] && t.w.ingress == [] && t.main.None? && t.flush.None?)
            && (!flush ==> t.h == s.h && t.main == s.main && t.flush == s.flush && SameIngress(s.w, t.w))
            && (!flush ==> t.isolate == (verdict.Split? || (verdict.Trouble? && s.isolate)))
            && (!flush && !verdict.Trouble? ==> t.w.pause == s.w.pause)
            && (!flush && verdict.Trouble? ==>
                  t.w.pause.episode.Some? && t.w.pause.attempts == s.w.pause.attempts + 1)
  {
  }
}
