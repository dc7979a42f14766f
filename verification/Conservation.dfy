/** No accepted event is lost: in every run, with deliveries and shutdown flushes overlapping in any
    way, it is queued, pending, acknowledged or in the dead-letter history, unless a process ended
    before the event was durable. */
module Conservation {
  import opened Basics
  import opened SpoolState
  import opened SpoolRows
  import opened SpoolLaws
  import opened Batch
  import opened WorkerState
  import opened System
  import opened Steps

  /** The rows of a request still name what they named when they were read. */
  ghost predicate Named(db: Database, rows: seq<Row>) {
    && (forall r :: r in rows ==> r.sequence <= db.lastSequence)
    && (forall r, p :: r in rows && p in db.pending && r.sequence == p.sequence ==> TagOf(r) == TagOf(p))
  }

  ghost predicate FlightNamed(db: Database, f: Option<Flight>) {
    f.Some? ==> Named(db, f.value.rows)
  }

  /** Some row with this content is pending, was acknowledged, or went to dead letter. */
  ghost predicate Durable(s: System, e: NewEvent) {
    exists t :: Carries(t, e) && Somewhere(s, t)
  }

  predicate Carries(t: Tag, e: NewEvent) {
    t.id == e.id && t.payload == e.payload && t.created == e.created
  }

  ghost predicate Somewhere(s: System, t: Tag) {
    t in Tags(s.w.db.pending) || t in s.h.acked || t in s.h.buried
  }

  ghost predicate AccountedFor(s: System, e: NewEvent) {
    e in s.w.ingress || e in s.w.held || e in s.h.lost || Durable(s, e)
  }

  ghost predicate Inv(s: System) {
    && Valid(s.w.db)
    && (forall d :: d in s.w.db.dead ==> DeadTag(d) in s.h.buried)
    && FlightNamed(s.w.db, s.main) && FlightNamed(s.w.db, s.flush)
    && (forall e :: e in s.h.accepted ==> AccountedFor(s, e))
  }

  // ----------------------------------------------------- one change of tables

  /** Every tag stays somewhere, numbers keep their meaning, dead letters are in the history. */
  ghost predicate Keeps(s: System, t: System) {
    && Valid(t.w.db)
    && (forall d :: d in t.w.db.dead ==> DeadTag(d) in t.h.buried)
    && Continues(s.w.db, t.w.db)
    && (forall tag :: Somewhere(s, tag) ==> Somewhere(t, tag))
  }

  lemma ContinuesNamed(a: Database, b: Database, rows: seq<Row>)
    requires Continues(a, b) && Named(a, rows)
    ensures Named(b, rows)
  {
    forall r, p | r in rows && p in b.pending && r.sequence == p.sequence ensures TagOf(r) == TagOf(p) {
      var q :| q in a.pending && SameEvent(q, p);
      assert TagOf(q) == TagOf(p);
    }
  }

  lemma SameContinues(db: Database)
    ensures Continues(db, db)
  {
    forall r | r in db.pending ensures SameEvent(r, r) {
    }
  }

  /** Keeping the tables' promises and the queues keeps every event accounted for. */
  lemma KeepsAccounts(s: System, t: System)
    requires (forall e :: e in s.h.accepted ==> AccountedFor(s, e)) && Keeps(s, t)
    requires t.h.accepted == s.h.accepted && t.h.lost == s.h.lost && SameQueues(s.w, t.w)
    ensures forall e :: e in t.h.accepted ==> AccountedFor(t, e)
  {
    forall e | e in t.h.accepted ensures AccountedFor(t, e) {
      assert AccountedFor(s, e);
      if Durable(s, e) {
        var tag :| Carries(tag, e) && Somewhere(s, tag);
        assert Somewhere(t, tag);
      }
    }
  }

  /** Rows removed from pending by number are exactly the rows the request carried. */
  lemma RemovedExactly(db: Database, rows: seq<Row>, tag: Tag)
    requires Named(db, rows) && tag in Tags(db.pending)
    ensures tag in Tags(Without(db.pending, AsSet(Sequences(rows)))) <==> tag !in Tags(rows)
  {
    SentNumber(rows, tag);
    KeptNumber(db.pending, AsSet(Sequences(rows)), tag);
    RemovedAreNamed(db, rows, tag);
  }

  lemma SentNumber(rows: seq<Row>, tag: Tag)
    ensures tag in Tags(rows) ==> tag.sequence in AsSet(Sequences(rows))
  {
    if tag in Tags(rows) {
      var i :| 0 <= i < |rows| && Tags(rows)[i] == tag;
      assert Sequences(rows)[i] == tag.sequence;
    }
  }

  lemma KeptNumber(rows: seq<Row>, gone: set<int>, tag: Tag)
    ensures tag in Tags(Without(rows, gone)) ==> tag.sequence !in gone
  {
    if tag in Tags(Without(rows, gone)) {
      TagsIn(Without(rows, gone), tag);
      var p :| p in Without(rows, gone) && TagOf(p) == tag;
      WithoutIn(rows, gone, p);
    }
  }

  lemma RemovedAreNamed(db: Database, rows: seq<Row>, tag: Tag)
    requires Named(db, rows) && tag in Tags(db.pending)
    ensures tag in Tags(Without(db.pending, AsSet(Sequences(rows)))) || tag in Tags(rows)
  {
    TagsIn(db.pending, tag);
    var p :| p in db.pending && TagOf(p) == tag;
    var gone := AsSet(Sequences(rows));
    if p.sequence in gone {
      var i :| 0 <= i < |rows| && Sequences(rows)[i] == p.sequence;
      assert rows[i] in rows;
      assert Tags(rows)[i] == tag;
    } else {
      WithoutIn(db.pending, gone, p);
      TagsIn(Without(db.pending, gone), tag);
    }
  }

  lemma MarkKeeps(cfg: Config, s: System, t: System, rows: seq<Row>)
    requires Inv(s) && Named(s.w.db, rows) && MarkDelivered(s.w.db, Sequences(rows)).Done?
    requires t.w.db == MarkDelivered(s.w.db, Sequences(rows)).db && t.h == Resolve(s.h, rows, Success)
    ensures Keeps(s, t)
  {
    MarkValid(s.w.db, Sequences(rows));
    ApplyContinues(s.w.db, cfg.limits, Delivered(Sequences(rows)));
    forall tag | Somewhere(s, tag) ensures Somewhere(t, tag) {
      if tag in Tags(s.w.db.pending) {
        RemovedAreNamed(s.w.db, rows, tag);
      }
    }
  }

  /** The rows a move reads under the request's numbers carry the request's tags. */
  lemma SelectTags(db: Database, rows: seq<Row>)
    requires Named(db, rows) && AllIn(Sequences(rows), Sequences(db.pending))
    ensures Tags(Select(db.pending, Sequences(rows))) == Tags(rows)
  {
    var picked := Select(db.pending, Sequences(rows));
    forall i | 0 <= i < |rows| ensures TagOf(picked[i]) == TagOf(rows[i]) {
      assert picked[i].sequence == Sequences(rows)[i];
      assert rows[i] in rows && picked[i] in db.pending;
    }
  }

  lemma BuriedTag(picked: seq<Row>, error: string, now: int, d: DeadRow)
    requires d in Bury(picked, error, now, false)
    ensures DeadTag(d) in Tags(picked)
  {
    var i :| 0 <= i < |picked| && Bury(picked, error, now, false)[i] == d;
    assert Tags(picked)[i] == DeadTag(d);
  }

  lemma MovedTag(cfg: Config, db: Database, after: Database, rows: seq<Row>, error: string, now: int, d: DeadRow)
    requires Named(db, rows) && Moves(cfg, db, after, Sequences(rows), error, now)
    requires d in after.dead && d !in db.dead
    ensures DeadTag(d) in Tags(rows)
  {
    SelectTags(db, rows);
    var moved := Bury(Select(db.pending, Sequences(rows)), error, now, false);
    assert d in db.dead + moved;
    BuriedTag(Select(db.pending, Sequences(rows)), error, now, d);
  }

  lemma MoveKeeps(cfg: Config, s: System, t: System, rows: seq<Row>, error: string, now: int)
    requires Valid(s.w.db) && (forall d :: d in s.w.db.dead ==> DeadTag(d) in s.h.buried)
    requires Named(s.w.db, rows) && Moves(cfg, s.w.db, t.w.db, Sequences(rows), error, now)
    requires t.h == Resolve(s.h, rows, DeadLetter)
    ensures Keeps(s, t)
  {
    var sequences := Sequences(rows);
    MoveValid(s.w.db, cfg.limits, sequences, error, now, false);
    MoveContinues(s.w.db, cfg.limits, sequences, error, now, false);
    MoveStays(cfg, s, t, rows, error, now);
    MovedBuried(cfg, s, t, rows, error, now);
  }

  lemma MovedBuried(cfg: Config, s: System, t: System, rows: seq<Row>, error: string, now: int)
    requires (forall d :: d in s.w.db.dead ==> DeadTag(d) in s.h.buried) && Named(s.w.db, rows)
    requires Moves(cfg, s.w.db, t.w.db, Sequences(rows), error, now) && t.h == Resolve(s.h, rows, DeadLetter)
    ensures forall d :: d in t.w.db.dead ==> DeadTag(d) in t.h.buried
  {
    forall d | d in t.w.db.dead ensures DeadTag(d) in t.h.buried {
      if d !in s.w.db.dead {
        MovedTag(cfg, s.w.db, t.w.db, rows, error, now, d);
      }
    }
  }

  lemma MoveStays(cfg: Config, s: System, t: System, rows: seq<Row>, error: string, now: int)
    requires Named(s.w.db, rows) && Moves(cfg, s.w.db, t.w.db, Sequences(rows), error, now)
    requires t.h == Resolve(s.h, rows, DeadLetter)
    ensures forall tag :: Somewhere(s, tag) ==> Somewhere(t, tag)
  {
    forall tag | Somewhere(s, tag) ensures Somewhere(t, tag) {
      if tag in Tags(s.w.db.pending) {
        RemovedAreNamed(s.w.db, rows, tag);
      }
    }
  }

  lemma TouchKeeps(s: System, t: System, sequences: seq<int>)
    requires Inv(s) && (t.w.db == s.w.db || Touches(s.w.db, t.w.db, sequences)) && t.h == s.h
    ensures Keeps(s, t)
  {
    if t.w.db == s.w.db {
      SameContinues(s.w.db);
    } else {
      TouchesTags(s.w.db, t.w.db, sequences);
      TouchesValid(s.w.db, t.w.db, sequences);
      forall r | r in t.w.db.pending ensures exists p :: p in s.w.db.pending && SameEvent(p, r) {
        TagsIn(t.w.db.pending, TagOf(r));
        TagsIn(s.w.db.pending, TagOf(r));
        var p :| p in s.w.db.pending && TagOf(p) == TagOf(r);
        assert SameEvent(p, r);
      }
    }
  }

  // --------------------------------------------------------------- the steps

  lemma FlightsKeep(s: System, t: System)
    requires Continues(s.w.db, t.w.db) && FlightNamed(s.w.db, s.main) && FlightNamed(s.w.db, s.flush)
    requires t.main == s.main || t.main.None? || (s.main.Some? && t.main.value.rows == s.main.value.rows)
    requires t.flush == s.flush || t.flush.None? || (s.flush.Some? && t.flush.value.rows == s.flush.value.rows)
    ensures FlightNamed(t.w.db, t.main) && FlightNamed(t.w.db, t.flush)
  {
    if s.main.Some? {
      ContinuesNamed(s.w.db, t.w.db, s.main.value.rows);
    }
    if s.flush.Some? {
      ContinuesNamed(s.w.db, t.w.db, s.flush.value.rows);
    }
  }

  lemma RestartKeeps(s: System)
    requires Inv(s)
    ensures Inv(Restarted(s))
  {
    var t := Restarted(s);
    forall e | e in t.h.accepted ensures AccountedFor(t, e) {
      assert AccountedFor(s, e);
      if Durable(s, e) {
        var tag :| Carries(tag, e) && Somewhere(s, tag);
        assert Somewhere(t, tag);
      }
    }
  }

  /** Concluding a delivery changes nothing the invariant speaks of, or restarts. */
  lemma ConcludeKeeps(s: System, flush: bool, verdict: Verdict)
    requires Inv(s)
    ensures Inv(Concluded(s, flush, verdict))
  {
    var t := Concluded(s, flush, verdict);
    if flush && verdict.Trouble? {
      RestartKeeps(s);
    } else {
      SameContinues(s.w.db);
      FlightsKeep(s, t);
      KeepsAccounts(s, t);
    }
  }

  lemma PersistKeeps(cfg: Config, s: System, env: Storage)
    requires Inv(s)
    ensures Inv(DoPersist(cfg, s, env))
  {
    match Persist(cfg, s.w, env)
    case Dies(db) => RestartKeeps(s);
    case Goes(w, ok) =>
      PersistCases(cfg, s.w, env);
      var t := DoPersist(cfg, s, env);
      if w.db == s.w.db && SameQueues(s.w, w) {
        SameContinues(s.w.db);
        FlightsKeep(s, t);
        KeepsAccounts(s, t);
      } else {
        EnqueueKeeps(cfg, s, t);
      }
  }

  lemma EnqueueKeeps(cfg: Config, s: System, t: System)
    requires Inv(s) && Enqueue(s.w.db, cfg.limits, s.w.held).Done?
    requires t.w.db == Enqueue(s.w.db, cfg.limits, s.w.held).db && t.w.ingress == s.w.ingress
    requires t.h.accepted == s.h.accepted && t.h.lost == s.h.lost && t.h.acked == s.h.acked && t.h.buried == s.h.buried
    requires t.main == s.main && t.flush == s.flush
    ensures Inv(t)
  {
    var op := EnqueueMany(s.w.held);
    ApplyValid(s.w.db, cfg.limits, op);
    ApplyContinues(s.w.db, cfg.limits, op);
    FlightsKeep(s, t);
    EnqueueAppends(s.w.db, cfg.limits, s.w.held);
    TagsConcat(s.w.db.pending, Inserted(s.w.db, t.w.db));
    assert t.w.db.dead == s.w.db.dead;
    forall e | e in t.h.accepted ensures AccountedFor(t, e) {
      assert AccountedFor(s, e);
      if Durable(s, e) {
        var tag :| Carries(tag, e) && Somewhere(s, tag);
        assert Somewhere(t, tag);
      } else if e in s.w.held {
        EnqueueRetains(s.w.db, cfg.limits, s.w.held, e);
        RetainedDurable(t, e);
      }
    }
  }

  lemma EnqueueAppends(db: Database, limits: Limits, events: seq<NewEvent>)
    requires Enqueue(db, limits, events).Done?
    ensures var after := Enqueue(db, limits, events).db;
            after.pending == db.pending + Inserted(db, after) && after.dead == db.dead
  {
  }

  lemma RetainedDurable(t: System, e: NewEvent)
    requires Retained(t.w.db, e) && forall d :: d in t.w.db.dead ==> DeadTag(d) in t.h.buried
    ensures Durable(t, e)
  {
    if r :| r in t.w.db.pending && r.id == e.id && (r.payload, r.created) == ContentOf(e) {
      TagsIn(t.w.db.pending, TagOf(r));
      assert Carries(TagOf(r), e) && Somewhere(t, TagOf(r));
    } else {
      var d :| d in t.w.db.dead && d.id == e.id && (d.payload, d.created) == ContentOf(e);
      assert Carries(DeadTag(d), e) && Somewhere(t, DeadTag(d));
    }
  }

  lemma FreshlyNamed(db: Database, rows: seq<Row>)
    requires Valid(db) && |rows| <= |db.pending| && rows == db.pending[..|rows|]
    ensures Named(db, rows)
  {
    forall r, p | r in rows && p in db.pending && r.sequence == p.sequence ensures TagOf(r) == TagOf(p) {
      SameNumberSameTag(db.pending, r, p);
    }
  }

  lemma SendKeeps(s: System, flush: bool, rows: seq<Row>, text: string)
    requires Inv(s) && |rows| <= |s.w.db.pending| && rows == s.w.db.pending[..|rows|]
    ensures Inv(WithFlight(s, flush, Some(Flight(rows, text, false))))
  {
    var t := WithFlight(s, flush, Some(Flight(rows, text, false)));
    FreshlyNamed(s.w.db, rows);
    SameContinues(s.w.db);
    KeepsAccounts(s, t);
  }

  lemma KeptInv(s: System, t: System)
    requires Inv(s) && Keeps(s, t) && SameQueues(s.w, t.w) && t.main == s.main && t.flush == s.flush
    requires t.h.accepted == s.h.accepted && t.h.lost == s.h.lost
    ensures Inv(t)
  {
    FlightsKeep(s, t);
    KeepsAccounts(s, t);
  }

  lemma FrontKeeps(cfg: Config, s: System, t: System, front: seq<Row>, now: int)
    requires Inv(s) && |front| <= |s.w.db.pending| && front == s.w.db.pending[..|front|]
    requires Moves(cfg, s.w.db, t.w.db, Sequences(front), ENCODING_ERROR, now)
    requires t.h == Resolve(s.h, front, DeadLetter)
    ensures Keeps(s, t)
  {
    FreshlyNamed(s.w.db, front);
    MoveKeeps(cfg, s, t, front, ENCODING_ERROR, now);
  }

  lemma SameTablesKeep(s: System, t: System)
    requires Inv(s) && SameQueues(s.w, t.w) && t.main == s.main && t.flush == s.flush
    requires t.h == s.h && t.w.db == s.w.db
    ensures Inv(t)
  {
    SameContinues(s.w.db);
    KeepsAccounts(s, t);
  }

  lemma StartKeeps(cfg: Config, s: System, flush: bool, now: int, failure: Option<SpoolError>)
    requires Inv(s) && FlightOf(s, flush).None?
    ensures Inv(DoStart(cfg, s, flush, now, failure))
  {
    match Prepare(cfg, s.w, !flush && s.isolate, now, failure)
    case Dies(db) => RestartKeeps(s);
    case Goes(w, Send(rows, text)) =>
      PrepareCases(cfg, s.w, !flush && s.isolate, now, failure);
      SendKeeps(s, flush, rows, text);
    case Goes(w, Decided(verdict)) =>
      PrepareCases(cfg, s.w, !flush && s.isolate, now, failure);
      var front := s.w.db.pending[..Min(1, |s.w.db.pending|)];
      var t := s.(w := w, h := Resolve(s.h, front, verdict));
      DecidedKeeps(cfg, s, t, front, verdict, now);
      ConcludeKeeps(t, flush, verdict);
  }

  lemma DecidedKeeps(cfg: Config, s: System, t: System, front: seq<Row>, verdict: Verdict, now: int)
    requires Inv(s) && SameQueues(s.w, t.w) && t.main == s.main && t.flush == s.flush
    requires front == s.w.db.pending[..Min(1, |s.w.db.pending|)] && t.h == Resolve(s.h, front, verdict)
    requires if verdict.DeadLetter?
             then s.w.db.pending != [] && Moves(cfg, s.w.db, t.w.db, [s.w.db.pending[0].sequence], ENCODING_ERROR, now)
             else t.w.db == s.w.db && (verdict.Retry? || verdict.Trouble?)
    ensures Inv(t)
  {
    if verdict.DeadLetter? {
      assert Sequences(front) == [s.w.db.pending[0].sequence];
      FrontKeeps(cfg, s, t, front, now);
      KeptInv(s, t);
    } else {
      SameTablesKeep(s, t);
    }
  }

  lemma AnswerKeeps(
    cfg: Config, s: System, flush: bool, f: Flight, answer: Answer, now: int, failure: Option<SpoolError>)
    requires Inv(s) && FlightOf(s, flush) == Some(f)
    ensures Inv(DoAnswer(cfg, s, flush, f, answer, now, failure))
  {
    match Finish(cfg, s.w, f.rows, answer, now, failure)
    case Dies(db) => RestartKeeps(s);
    case Goes(w, verdict) =>
      FinishCases(cfg, s.w, f.rows, answer, now, failure);
      var t := WithFlight(s.(w := w, h := Resolve(s.h, f.rows, verdict)), flush, None);
      match verdict {
        case Success => MarkKeeps(cfg, s, t, f.rows);
        case DeadLetter => MoveKeeps(cfg, s, t, f.rows, REJECT_ERROR, now);
        case _ => TouchKeeps(s, t, Sequences(f.rows));
      }
      FlightsKeep(s, t);
      KeepsAccounts(s, t);
      ConcludeKeeps(t, flush, verdict);
  }

  lemma QueueKeeps(cfg: Config, s: System, l: Label)
    requires Inv(s) && (l.SubmitEvent? || l.DrainIngress?)
    ensures Inv(Next(cfg, s, l).value)
  {
    var t := Next(cfg, s, l).value;
    forall e | e in t.h.accepted ensures AccountedFor(t, e) {
      if e in s.h.accepted {
        assert AccountedFor(s, e);
        if Durable(s, e) {
          var tag :| Carries(tag, e) && Somewhere(s, tag);
          assert Somewhere(t, tag);
        }
      }
    }
  }

  lemma ApplyKeepsTables(cfg: Config, s: System, flush: bool)
    requires Inv(s) && Next(cfg, s, ServerApplies(flush)).Some?
    ensures Inv(Next(cfg, s, ServerApplies(flush)).value)
  {
    AppliedKeeps(s, Next(cfg, s, ServerApplies(flush)).value);
  }

  lemma AppliedKeeps(s: System, t: System)
    requires Inv(s) && t.w == s.w && t.h == s.h
    requires t.main == s.main || (s.main.Some? && t.main.Some? && t.main.value.rows == s.main.value.rows)
    requires t.flush == s.flush || (s.flush.Some? && t.flush.Some? && t.flush.value.rows == s.flush.value.rows)
    ensures Inv(t)
  {
    SameContinues(s.w.db);
    FlightsKeep(s, t);
    KeepsAccounts(s, t);
  }

  lemma StepKeeps(cfg: Config, s: System, l: Label)
    requires Inv(s) && Next(cfg, s, l).Some?
    ensures Inv(Next(cfg, s, l).value)
  {
    match l
    case SubmitEvent(accepting, event) => QueueKeeps(cfg, s, l);
    case DrainIngress => QueueKeeps(cfg, s, l);
    case PersistHeld(env) => PersistKeeps(cfg, s, env);
    case StartSend(flush, now, failure) => StartKeeps(cfg, s, flush, now, failure);
    case ServerApplies(flush) => ApplyKeepsTables(cfg, s, flush);
    case ServerAnswers(flush, answer, now, failure) =>
      AnswerKeeps(cfg, s, flush, FlightOf(s, flush).value, answer, now, failure);
    case Restart => RestartKeeps(s);
  }

  lemma {:induction false} ExecKeeps(cfg: Config, s: System, labels: seq<Label>)
    requires Inv(s) && Exec(cfg, s, labels).Some?
    ensures Inv(Exec(cfg, s, labels).value)
    decreases labels
  {
    if labels != [] {
      StepKeeps(cfg, s, labels[0]);
      ExecKeeps(cfg, Next(cfg, s, labels[0]).value, labels[1..]);
    }
  }

  // --------------------------------------------------------------- the theorem

  /** No accepted event is lost, in any run over any valid spool. */
  lemma NothingLost(cfg: Config, db: Database, table: Table, labels: seq<Label>, e: NewEvent)
    requires Valid(db) && Exec(cfg, Start(db, table), labels).Some?
    requires e in Exec(cfg, Start(db, table), labels).value.h.accepted
    ensures AccountedFor(Exec(cfg, Start(db, table), labels).value, e)
  {
    var s := Start(db, table);
    forall d | d in db.dead ensures DeadTag(d) in s.h.buried {
      var i :| 0 <= i < |db.dead| && db.dead[i] == d;
      assert s.h.buried[i] == DeadTag(d);
    }
    ExecKeeps(cfg, s, labels);
  }

  /** The only losses of a step: none, or exactly what was not durable when the process ended, which
      leaves the spool and the table as they were. */
  ghost predicate LosesAtMostQueues(s: System, t: System) {
    || t.h.lost == s.h.lost
    || (t.h.lost == s.h.lost + s.w.held + s.w.ingress && t.w.held == [] && t.w.ingress == []
        && t.w.db == s.w.db && t.table == s.table && t.main.None? && t.flush.None?)
  }

  lemma PersistLoses(cfg: Config, s: System, env: Storage)
    ensures LosesAtMostQueues(s, DoPersist(cfg, s, env))
  {
  }

  lemma StartLoses(cfg: Config, s: System, flush: bool, now: int, failure: Option<SpoolError>)
    ensures LosesAtMostQueues(s, DoStart(cfg, s, flush, now, failure))
  {
    if Prepare(cfg, s.w, !flush && s.isolate, now, failure).Goes? {
      PrepareCases(cfg, s.w, !flush && s.isolate, now, failure);
    }
  }

  lemma AnswerLoses(
    cfg: Config, s: System, flush: bool, f: Flight, answer: Answer, now: int, failure: Option<SpoolError>)
    ensures LosesAtMostQueues(s, DoAnswer(cfg, s, flush, f, answer, now, failure))
  {
    if Finish(cfg, s.w, f.rows, answer, now, failure).Goes? {
      FinishCases(cfg, s.w, f.rows, answer, now, failure);
    }
  }

  /** Only the end of a process loses events, and then exactly those not yet durable. */
  lemma OnlyRestartsLose(cfg: Config, s: System, l: Label)
    requires Next(cfg, s, l).Some?
    ensures LosesAtMostQueues(s, Next(cfg, s, l).value)
    ensures l.SubmitEvent? || l.DrainIngress? || l.ServerApplies? ==> Next(cfg, s, l).value.h.lost == s.h.lost
  {
    match l
    case PersistHeld(env) => PersistLoses(cfg, s, env);
    case StartSend(flush, now, failure) => StartLoses(cfg, s, flush, now, failure);
    case ServerAnswers(flush, answer, now, failure) =>
      AnswerLoses(cfg, s, flush, FlightOf(s, flush).value, answer, now, failure);
    case _ =>
  }
}
