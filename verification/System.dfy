/** The whole pipeline as a transition system: one writer process over its spool, at most two
    requests in flight (the delivery loop's and the shutdown flush's), a server with an upsert
    table, and restarts that keep only the spool and the table. */
module System {
  import opened Basics
  import opened SpoolState
  import opened Batch
  import opened WorkerState
  import opened IlpParser
  import opened Event
  import P = Pause

  /** What identifies a spooled event and never changes while it is retained. */
  datatype Tag = Tag(sequence: int, id: string, payload: Bytes, created: int)

  function TagOf(r: Row): Tag {
    Tag(r.sequence, r.id, r.payload, r.created)
  }

  function Tags(rows: seq<Row>): seq<Tag> {
    seq(|rows|, i requires 0 <= i < |rows| => TagOf(rows[i]))
  }

  function DeadTag(d: DeadRow): Tag {
    Tag(d.original, d.id, d.payload, d.created)
  }

  datatype Flight = Flight(rows: seq<Row>, text: string, applied: bool)

  type Table = map<Key, IlpRow>

  function Upsert(table: Table, rows: seq<IlpRow>): Table
    decreases rows
  {
    if rows == [] then table else Upsert(table[KeyOf(rows[0]) := rows[0]], rows[1..])
  }

  /** A transactional server: the body is read, and taken whole if every row is acceptable. */
  predicate Acceptable(cfg: Config, text: string) {
    match ParseBatch(text)
    case None => false
    case Some(rows) => forall row :: row in rows ==> cfg.accepts(row)
  }

  /** History variables: nothing below depends on them.
      `accepted` and `lost` are events in order; `enqueued` the rows ever inserted, `resolved` those
      delivered or dead-lettered, `acked` those acknowledged with a 2xx, `buried` every dead letter. */
  datatype History = History(
    accepted: seq<NewEvent>, lost: seq<NewEvent>, enqueued: seq<Tag>, resolved: seq<Tag>,
    acked: seq<Tag>, buried: seq<Tag>)

  /** `base` is the number of pending rows and dead letters the current process found. */
  datatype System = System(
    w: Worker, main: Option<Flight>, flush: Option<Flight>, isolate: bool,
    table: Table, base: (nat, nat), h: History)

  datatype Label =
    | SubmitEvent(accepting: bool, event: NewEvent)
    | DrainIngress
    | PersistHeld(env: Storage)
    | StartSend(flush: bool, now: int, failure: Option<SpoolError>)
    | ServerApplies(flush: bool)
    | ServerAnswers(flush: bool, answer: Answer, now: int, failure: Option<SpoolError>)
    | Restart

  function FlightOf(s: System, flush: bool): Option<Flight> {
    if flush then s.flush else s.main
  }

  function WithFlight(s: System, flush: bool, f: Option<Flight>): System {
    if flush then s.(flush := f) else s.(main := f)
  }

  /** The process ends and a new one opens the spool; ingress and held events are gone. */
  function Restarted(s: System): System {
    System(Worker(s.w.db, [], [], ZERO, P.Calm), None, None, false, s.table,
           (|s.w.db.pending|, |s.w.db.dead|),
           s.h.(lost := s.h.lost + s.w.held + s.w.ingress))
  }

  /** A `_deliver_once` has ended: the delivery loop parks on storage trouble and remembers a split;
      the shutdown flush ignores the outcome but does not survive storage trouble. */
  function Concluded(s: System, flush: bool, verdict: Verdict): System {
    if flush then
      if verdict.Trouble? then Restarted(s) else s
    else
      s.(w := ParkOnTrouble(s.w, verdict), isolate := if verdict.Trouble? then s.isolate else verdict.Split?)
  }

  /** The history after rows left pending. */
  function Resolve(h: History, rows: seq<Row>, verdict: Verdict): History {
    match verdict
    case Success => h.(resolved := h.resolved + Tags(rows), acked := h.acked + Tags(rows))
    case DeadLetter => h.(resolved := h.resolved + Tags(rows), buried := h.buried + Tags(rows))
    case _ => h
  }

  function DoStart(cfg: Config, s: System, flush: bool, now: int, failure: Option<SpoolError>): System {
    match Prepare(cfg, s.w, !flush && s.isolate, now, failure)
    case Dies(db) => Restarted(s)
    case Goes(w, Send(rows, text)) => WithFlight(s, flush, Some(Flight(rows, text, false)))
    case Goes(w, Decided(verdict)) =>
      Concluded(s.(w := w, h := Resolve(s.h, s.w.db.pending[..Min(1, |s.w.db.pending|)], verdict)), flush, verdict)
  }

  function DoAnswer(
    cfg: Config, s: System, flush: bool, f: Flight, answer: Answer, now: int, failure: Option<SpoolError>)
    : System
  {
    match Finish(cfg, s.w, f.rows, answer, now, failure)
    case Dies(db) => Restarted(s)
    case Goes(w, verdict) =>
      Concluded(WithFlight(s.(w := w, h := Resolve(s.h, f.rows, verdict)), flush, None), flush, verdict)
  }

  function Inserted(before: Database, after: Database): seq<Row> {
    if |before.pending| <= |after.pending| then after.pending[|before.pending|..] else []
  }

  function DoPersist(cfg: Config, s: System, env: Storage): System {
    match Persist(cfg, s.w, env)
    case Dies(db) => Restarted(s)
    case Goes(w, ok) => s.(w := w, h := s.h.(enqueued := s.h.enqueued + Tags(Inserted(s.w.db, w.db))))
  }

  /** The state after a step, or None when the step cannot happen. */
  function Next(cfg: Config, s: System, l: Label): Option<System> {
    match l
    case SubmitEvent(accepting, event) =>
      var (w, taken) := Submit(cfg, s.w, accepting, event);
      Some(s.(w := w, h := if taken then s.h.(accepted := s.h.accepted + [event]) else s.h))
    case DrainIngress => Some(s.(w := Drain(cfg, s.w)))
    case PersistHeld(env) => Some(DoPersist(cfg, s, env))
    case StartSend(flush, now, failure) =>
      if FlightOf(s, flush).Some? then None else Some(DoStart(cfg, s, flush, now, failure))
    case ServerApplies(flush) =>
      (match FlightOf(s, flush)
       case None => None
       case Some(f) =>
         if f.applied || !Acceptable(cfg, f.text) then None
         else Some(WithFlight(s.(table := Upsert(s.table, ParseBatch(f.text).value)), flush,
                              Some(f.(applied := true)))))
    case ServerAnswers(flush, answer, now, failure) =>
      (match FlightOf(s, flush)
       case None => None
       case Some(f) => Some(DoAnswer(cfg, s, flush, f, answer, now, failure)))
    case Restart => Some(Restarted(s))
  }

  /** The step ends the running process. */
  predicate Ends(cfg: Config, s: System, l: Label) {
    match l
    case PersistHeld(env) => Persist(cfg, s.w, env).Dies?
    case StartSend(flush, now, failure) =>
      (match Prepare(cfg, s.w, !flush && s.isolate, now, failure)
       case Dies(_) => true
       case Goes(_, Send(_, _)) => false
       case Goes(_, Decided(verdict)) => flush && verdict.Trouble?)
    case ServerAnswers(flush, answer, now, failure) =>
      (match FlightOf(s, flush)
       case None => false
       case Some(f) =>
         match Finish(cfg, s.w, f.rows, answer, now, failure)
         case Dies(_) => true
         case Goes(_, verdict) => flush && verdict.Trouble?)
    case Restart => true
    case _ => false
  }

  function Exec(cfg: Config, s: System, labels: seq<Label>): Option<System>
    decreases labels
  {
    if labels == [] then Some(s)
    else
      match Next(cfg, s, labels[0])
      case None => None
      case Some(t) => Exec(cfg, t, labels[1..])
  }

  /** Step `i` of a run. */
  lemma ExecOn(cfg: Config, s: System, labels: seq<Label>, i: nat, t: System)
    requires i < |labels| && Next(cfg, s, labels[i]) == Some(t)
    ensures Exec(cfg, s, labels[i..]) == Exec(cfg, t, labels[i + 1..])
  {
    assert labels[i..][1..] == labels[i + 1..];
  }

  /** A first process on a spool that may already hold rows, and a table with anything in it. */
  function Start(db: Database, table: Table): System {
    System(Worker(db, [], [], ZERO, P.Calm), None, None, false, table, (|db.pending|, |db.dead|),
           History([], [], Tags(db.pending), [], [],
                   seq(|db.dead|, i requires 0 <= i < |db.dead| => DeadTag(db.dead[i]))))
  }
}
