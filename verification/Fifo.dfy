/** FIFO: rows are resolved in exactly the order they were enqueued, in every run. The rows of a
    request are the next ones until another request has taken their head away; then nothing can be
    done about them any more. */
module Fifo {
  import opened Basics
  import opened SpoolState
  import opened SpoolRows
  import opened SpoolLaws
  import opened Batch
  import opened WorkerState
  import opened System
  import opened Steps

  /** The rows of a request are still the front of pending, as events. */
  ghost predicate Front(cfg: Config, db: Database, f: Flight) {
    && 0 < |f.rows| <= |db.pending|
    && Tags(f.rows) == Tags(db.pending)[..|f.rows|]
    && AllEncode(cfg, f.rows) && f.text == Payload(cfg, f.rows)
  }

  /** The head of the request has left pending. */
  ghost predicate Passed(db: Database, f: Flight) {
    f.rows != [] && f.rows[0].sequence <= db.lastSequence && f.rows[0].sequence !in Sequences(db.pending)
  }

  ghost predicate InLine(cfg: Config, db: Database, f: Option<Flight>) {
    f.Some? ==> Front(cfg, db, f.value) || Passed(db, f.value)
  }

  /** What every reachable state keeps. */
  ghost predicate Lined(cfg: Config, s: System) {
    && Valid(s.w.db)
    && s.h.enqueued == s.h.resolved + Tags(s.w.db.pending)
    && InLine(cfg, s.w.db, s.main) && InLine(cfg, s.w.db, s.flush)
  }

  ghost predicate AtFront(cfg: Config, db: Database, f: Option<Flight>) {
    f.Some? ==> Front(cfg, db, f.value)
  }

  predicate OneFlight(s: System) {
    s.main.None? || s.flush.None?
  }

  /** What a run keeps in which no two requests overlap. */
  ghost predicate Ordered(cfg: Config, s: System) {
    && Valid(s.w.db)
    && s.h.enqueued == s.h.resolved + Tags(s.w.db.pending)
    && OneFlight(s) && AtFront(cfg, s.w.db, s.main) && AtFront(cfg, s.w.db, s.flush)
  }

  /** No request starts while the other one is in flight. */
  predicate Alone(s: System, l: Label) {
    l.StartSend? ==> FlightOf(s, !l.flush).None?
  }

  predicate AloneRun(cfg: Config, s: System, labels: seq<Label>)
    decreases labels
  {
    labels == [] ||
    (Alone(s, labels[0]) &&
     match Next(cfg, s, labels[0])
     case None => true
     case Some(t) => AloneRun(cfg, t, labels[1..]))
  }

  lemma TagsSlice(rows: seq<Row>, n: nat)
    requires n <= |rows|
    ensures Tags(rows[..n]) == Tags(rows)[..n] && Tags(rows[n..]) == Tags(rows)[n..]
  {
  }

  lemma TagsSequences(a: seq<Row>, b: seq<Row>)
    requires Tags(a) == Tags(b)
    ensures Sequences(a) == Sequences(b)
  {
    assert |Tags(a)| == |Tags(b)|;
    forall i | 0 <= i < |a| ensures a[i].sequence == b[i].sequence {
      assert Tags(a)[i] == Tags(b)[i];
    }
  }

  /** Removing the front by its numbers leaves exactly the rest. */
  lemma FrontRemoved(db: Database, rows: seq<Row>)
    requires PendingOrdered(db.pending) && |rows| <= |db.pending| && Tags(rows) == Tags(db.pending)[..|rows|]
    ensures Without(db.pending, AsSet(Sequences(rows))) == db.pending[|rows|..]
    ensures Tags(db.pending) == Tags(rows) + Tags(db.pending[|rows|..])
  {
    var n := |rows|;
    TagsSlice(db.pending, n);
    TagsSequences(rows, db.pending[..n]);
    WithoutPrefix(db.pending, n);
  }

  lemma MovesPending(cfg: Config, db: Database, after: Database, sequences: seq<int>, error: string, now: int)
    requires Moves(cfg, db, after, sequences, error, now) && sequences != []
    ensures after.pending == Without(db.pending, AsSet(sequences)) && after.lastSequence == db.lastSequence
  {
  }

  lemma MovesValid(cfg: Config, db: Database, after: Database, sequences: seq<int>, error: string, now: int)
    requires Valid(db) && Moves(cfg, db, after, sequences, error, now)
    ensures Valid(after)
  {
    MoveValid(db, cfg.limits, sequences, error, now, false);
  }

  /** What a delivery step may do to the tables of an ordered system. */
  ghost predicate Advances(s: System, t: System, rows: seq<Row>) {
    && |rows| <= |s.w.db.pending| && Tags(rows) == Tags(s.w.db.pending)[..|rows|]
    && t.w.db.pending == s.w.db.pending[|rows|..] && t.w.db.lastSequence == s.w.db.lastSequence
    && t.h.resolved == s.h.resolved + Tags(rows) && t.h.enqueued == s.h.enqueued
  }

  lemma AdvancesOrdered(cfg: Config, s: System, t: System, rows: seq<Row>)
    requires Ordered(cfg, s) && Advances(s, t, rows) && Valid(t.w.db) && t.flush.None? && t.main.None?
    ensures Ordered(cfg, t)
  {
    TagsSlice(s.w.db.pending, |rows|);
    Rejoined(Tags(s.w.db.pending), |rows|);
    SeqAssoc(s.h.resolved, Tags(rows), Tags(t.w.db.pending));
  }

  lemma Rejoined<T>(a: seq<T>, n: nat)
    requires n <= |a|
    ensures a == a[..n] + a[n..]
  {
  }

  lemma MarkAdvances(s: System, t: System, rows: seq<Row>)
    requires Valid(s.w.db) && |rows| <= |s.w.db.pending| && Tags(rows) == Tags(s.w.db.pending)[..|rows|]
    requires MarkDelivered(s.w.db, Sequences(rows)).Done? && t.w.db == MarkDelivered(s.w.db, Sequences(rows)).db
    requires t.h == Resolve(s.h, rows, Success)
    ensures Advances(s, t, rows) && Valid(t.w.db)
  {
    FrontRemoved(s.w.db, rows);
    MarkValid(s.w.db, Sequences(rows));
  }

  lemma MoveAdvances(cfg: Config, s: System, t: System, rows: seq<Row>, error: string, now: int)
    requires Valid(s.w.db)
    requires 0 < |rows| <= |s.w.db.pending| && Tags(rows) == Tags(s.w.db.pending)[..|rows|]
    requires Moves(cfg, s.w.db, t.w.db, Sequences(rows), error, now)
    requires t.h == Resolve(s.h, rows, DeadLetter)
    ensures Advances(s, t, rows) && Valid(t.w.db)
  {
    FrontRemoved(s.w.db, rows);
    MovesPending(cfg, s.w.db, t.w.db, Sequences(rows), error, now);
    MovesValid(cfg, s.w.db, t.w.db, Sequences(rows), error, now);
  }

  lemma PersistOrdered(cfg: Config, s: System, env: Storage)
    requires Ordered(cfg, s)
    ensures Ordered(cfg, DoPersist(cfg, s, env))
  {
    if Persist(cfg, s.w, env).Goes? {
      PersistCases(cfg, s.w, env);
      var t := DoPersist(cfg, s, env);
      assert s.w.db.pending[|s.w.db.pending|..] == [];
      if t.w.db == s.w.db {
        assert s.h.enqueued + [] == s.h.enqueued;
      } else {
        EnqueueOrdered(cfg, s, t);
      }
    }
  }

  lemma GrowAtFront(cfg: Config, db: Database, after: Database, rows: seq<Row>, f: Option<Flight>)
    requires AtFront(cfg, db, f) && after.pending == db.pending + rows
    ensures AtFront(cfg, after, f)
  {
    TagsConcat(db.pending, rows);
  }

  lemma EnqueueOrdered(cfg: Config, s: System, t: System)
    requires Ordered(cfg, s) && Enqueue(s.w.db, cfg.limits, s.w.held).Done?
    requires t.w.db == Enqueue(s.w.db, cfg.limits, s.w.held).db && t.main == s.main && t.flush == s.flush
    requires t.h.enqueued == s.h.enqueued + Tags(Inserted(s.w.db, t.w.db)) && t.h.resolved == s.h.resolved
    ensures Ordered(cfg, t)
  {
    var rows := Inserted(s.w.db, t.w.db);
    EnqueueValid(s.w.db, cfg.limits, s.w.held);
    EnqueueGrows(s.w.db, cfg.limits, s.w.held);
    GrowAtFront(cfg, s.w.db, t.w.db, rows, s.main);
    GrowAtFront(cfg, s.w.db, t.w.db, rows, s.flush);
    TagsConcat(s.w.db.pending, rows);
    SeqAssoc(s.h.resolved, Tags(s.w.db.pending), Tags(rows));
  }

  lemma EnqueueGrows(db: Database, limits: Limits, events: seq<NewEvent>)
    requires Enqueue(db, limits, events).Done?
    ensures var after := Enqueue(db, limits, events).db; after.pending == db.pending + Inserted(db, after)
  {
  }

  /** A step that resolves nothing. */
  ghost predicate Stays(s: System, t: System) {
    && Valid(t.w.db) && t.w.db.lastSequence == s.w.db.lastSequence
    && Tags(t.w.db.pending) == Tags(s.w.db.pending) && t.h == s.h
  }

  lemma TouchStays(s: System, t: System, sequences: seq<int>)
    requires Valid(s.w.db) && (t.w.db == s.w.db || Touches(s.w.db, t.w.db, sequences)) && t.h == s.h
    ensures Stays(s, t)
  {
    if t.w.db != s.w.db {
      TouchesTags(s.w.db, t.w.db, sequences);
      TouchesValid(s.w.db, t.w.db, sequences);
    }
  }

  /** What an answer can do: resolve exactly the request's rows, delivered on a 2xx or dead-lettered
      when a single row met a 400, or resolve nothing. */
  ghost predicate Answers(s: System, t: System, rows: seq<Row>, answer: Answer, verdict: Verdict) {
    match verdict
    case Success => answer.Acknowledged? && Advances(s, t, rows) && Valid(t.w.db)
    case DeadLetter => answer.BadRequest? && |rows| == 1 && Advances(s, t, rows) && Valid(t.w.db)
    case _ => Stays(s, t)
  }

  lemma AnswerSummary(
    cfg: Config, s: System, t: System, f: Flight, answer: Answer, verdict: Verdict, now: int,
    failure: Option<SpoolError>)
    requires Valid(s.w.db) && Front(cfg, s.w.db, f)
    requires Finish(cfg, s.w, f.rows, answer, now, failure) == Goes(t.w, verdict)
    requires t.h == Resolve(s.h, f.rows, verdict)
    ensures Answers(s, t, f.rows, answer, verdict)
  {
    FinishCases(cfg, s.w, f.rows, answer, now, failure);
    match verdict
    case Success => MarkAdvances(s, t, f.rows);
    case DeadLetter => MoveAdvances(cfg, s, t, f.rows, REJECT_ERROR, now);
    case _ => TouchStays(s, t, Sequences(f.rows));
  }

  /** An answer to a request whose head is gone: nothing is resolved and no table changes, or the
      process ends. */
  lemma PassedAnswer(cfg: Config, w: Worker, f: Flight, answer: Answer, now: int, failure: Option<SpoolError>)
    requires Passed(w.db, f) && Finish(cfg, w, f.rows, answer, now, failure).Goes?
    ensures var step := Finish(cfg, w, f.rows, answer, now, failure);
            step.w.db == w.db && !step.value.Success? && !step.value.DeadLetter?
  {
    assert Sequences(f.rows)[0] == f.rows[0].sequence;
    assert f.rows[0].sequence in Sequences(f.rows);
  }

  /** What preparing a request can do: bury a head that does not encode, or change no table. */
  ghost predicate Prepares(cfg: Config, s: System, t: System, verdict: Verdict) {
    if verdict.DeadLetter? then
      && s.w.db.pending != [] && Encoding(cfg, s.w.db.pending[0].payload).None?
      && Advances(s, t, s.w.db.pending[..1]) && Valid(t.w.db)
    else Stays(s, t) && !verdict.Success?
  }

  lemma PrepareSummary(
    cfg: Config, s: System, t: System, isolate: bool, verdict: Verdict, now: int, failure: Option<SpoolError>)
    requires Valid(s.w.db) && Prepare(cfg, s.w, isolate, now, failure) == Goes(t.w, Decided(verdict))
    requires t.h == Resolve(s.h, s.w.db.pending[..Min(1, |s.w.db.pending|)], verdict)
    ensures Prepares(cfg, s, t, verdict)
  {
    PrepareCases(cfg, s.w, isolate, now, failure);
    DecidedSummary(cfg, s, t, verdict, now);
  }

  lemma DecidedSummary(cfg: Config, s: System, t: System, verdict: Verdict, now: int)
    requires Valid(s.w.db) && t.h == Resolve(s.h, s.w.db.pending[..Min(1, |s.w.db.pending|)], verdict)
    requires if verdict.DeadLetter?
             then s.w.db.pending != [] && Encoding(cfg, s.w.db.pending[0].payload).None?
                  && Moves(cfg, s.w.db, t.w.db, [s.w.db.pending[0].sequence], ENCODING_ERROR, now)
             else t.w.db == s.w.db && (verdict.Retry? || verdict.Trouble?)
    ensures Prepares(cfg, s, t, verdict)
  {
    if verdict.DeadLetter? {
      HeadBuried(cfg, s, t, s.w.db.pending[..1], now);
    } else {
      TouchStays(s, t, []);
    }
  }

  lemma HeadBuried(cfg: Config, s: System, t: System, front: seq<Row>, now: int)
    requires Valid(s.w.db) && s.w.db.pending != [] && front == s.w.db.pending[..1]
    requires Moves(cfg, s.w.db, t.w.db, [s.w.db.pending[0].sequence], ENCODING_ERROR, now)
    requires t.h == Resolve(s.h, front, DeadLetter)
    ensures Advances(s, t, front) && Valid(t.w.db)
  {
    TagsSlice(s.w.db.pending, 1);
    assert Sequences(front) == [s.w.db.pending[0].sequence];
    MoveAdvances(cfg, s, t, front, ENCODING_ERROR, now);
  }

  /** A concluded delivery leaves the system ordered. */
  lemma ConcludedOrdered(cfg: Config, s: System, t: System, flush: bool, rows: seq<Row>, verdict: Verdict)
    requires Ordered(cfg, s) && t.main.None? && t.flush.None?
    requires (Advances(s, t, rows) && Valid(t.w.db)) || Stays(s, t)
    ensures Ordered(cfg, Concluded(t, flush, verdict))
  {
    if Advances(s, t, rows) && Valid(t.w.db) {
      AdvancesOrdered(cfg, s, t, rows);
    }
  }

  lemma SentOrdered(cfg: Config, s: System, flush: bool, rows: seq<Row>, text: string)
    requires Ordered(cfg, s) && FlightOf(s, !flush).None? && IsBatch(cfg, s.w.db, rows, text)
    ensures Ordered(cfg, WithFlight(s, flush, Some(Flight(rows, text, false))))
  {
    TagsSlice(s.w.db.pending, |rows|);
  }

  lemma StartOrdered(cfg: Config, s: System, flush: bool, now: int, failure: Option<SpoolError>)
    requires Ordered(cfg, s) && s.main.None? && s.flush.None?
    ensures Ordered(cfg, DoStart(cfg, s, flush, now, failure))
  {
    var isolate := !flush && s.isolate;
    match Prepare(cfg, s.w, isolate, now, failure)
    case Dies(_) =>
    case Goes(w, Send(rows, text)) =>
      PrepareCases(cfg, s.w, isolate, now, failure);
      SentOrdered(cfg, s, flush, rows, text);
    case Goes(w, Decided(verdict)) =>
      var front := s.w.db.pending[..Min(1, |s.w.db.pending|)];
      var t := s.(w := w, h := Resolve(s.h, front, verdict));
      PrepareSummary(cfg, s, t, isolate, verdict, now, failure);
      ConcludedOrdered(cfg, s, t, flush, front, verdict);
  }

  lemma AnswerOrdered(
    cfg: Config, s: System, flush: bool, f: Flight, answer: Answer, now: int, failure: Option<SpoolError>)
    requires Ordered(cfg, s) && FlightOf(s, flush) == Some(f)
    ensures Ordered(cfg, DoAnswer(cfg, s, flush, f, answer, now, failure))
  {
    match Finish(cfg, s.w, f.rows, answer, now, failure)
    case Dies(_) =>
    case Goes(w, verdict) =>
      var t := WithFlight(s.(w := w, h := Resolve(s.h, f.rows, verdict)), flush, None);
      AnswerSummary(cfg, s, t, f, answer, verdict, now, failure);
      ConcludedOrdered(cfg, s, t, flush, f.rows, verdict);
  }

  lemma StepOrdered(cfg: Config, s: System, l: Label)
    requires Ordered(cfg, s) && Alone(s, l) && Next(cfg, s, l).Some?
    ensures Ordered(cfg, Next(cfg, s, l).value)
  {
    match l
    case PersistHeld(env) => PersistOrdered(cfg, s, env);
    case StartSend(flush, now, failure) => StartOrdered(cfg, s, flush, now, failure);
    case ServerAnswers(flush, answer, now, failure) =>
      AnswerOrdered(cfg, s, flush, FlightOf(s, flush).value, answer, now, failure);
    case _ =>
  }

  lemma {:induction false} ExecOrdered(cfg: Config, s: System, labels: seq<Label>)
    requires Ordered(cfg, s) && AloneRun(cfg, s, labels) && Exec(cfg, s, labels).Some?
    ensures Ordered(cfg, Exec(cfg, s, labels).value)
    decreases labels
  {
    if labels != [] {
      StepOrdered(cfg, s, labels[0]);
      ExecOrdered(cfg, Next(cfg, s, labels[0]).value, labels[1..]);
    }
  }

  lemma StartOrdering(cfg: Config, db: Database, table: Table)
    requires Valid(db)
    ensures Ordered(cfg, Start(db, table))
  {
    assert [] + Tags(db.pending) == Tags(db.pending);
  }

  // -------------------------------------------------- requests that overlap

  lemma HeadGone(db: Database, after: Database, n: nat)
    requires PendingOrdered(db.pending) && 0 < n <= |db.pending| && after.pending == db.pending[n..]
    ensures db.pending[0].sequence !in Sequences(after.pending)
  {
    forall i | 0 <= i < |after.pending| ensures Sequences(after.pending)[i] != db.pending[0].sequence {
      assert after.pending[i] == db.pending[n + i];
    }
  }

  /** Taking the front away takes the head of every request. */
  lemma CutPasses(cfg: Config, db: Database, after: Database, n: nat, f: Option<Flight>)
    requires Valid(db) && 0 < n <= |db.pending| && after.pending == db.pending[n..]
    requires after.lastSequence == db.lastSequence && InLine(cfg, db, f)
    ensures InLine(cfg, after, f)
  {
    HeadGone(db, after, n);
    assert Sequences(after.pending) == Sequences(db.pending)[n..];
    if f.Some? && Front(cfg, db, f.value) {
      assert Tags(f.value.rows)[0] == Tags(db.pending)[0];
      assert db.pending[0] in db.pending;
    }
  }

  lemma StayInLine(cfg: Config, db: Database, after: Database, f: Option<Flight>)
    requires Tags(after.pending) == Tags(db.pending) && after.lastSequence == db.lastSequence && InLine(cfg, db, f)
    ensures InLine(cfg, after, f)
  {
    TagsSequences(after.pending, db.pending);
    assert |Tags(after.pending)| == |after.pending| && |Tags(db.pending)| == |db.pending|;
  }

  /** New rows are numbered behind the old ones. */
  lemma GrowInLine(cfg: Config, db: Database, after: Database, f: Option<Flight>)
    requires Continues(db, after) && InLine(cfg, db, f)
    requires db.pending <= after.pending
    ensures InLine(cfg, after, f)
  {
    if f.Some? {
      if Front(cfg, db, f.value) {
        TagsConcat(db.pending, after.pending[|db.pending|..]);
        assert after.pending == db.pending + after.pending[|db.pending|..];
      } else {
        PassedStays(db, after, f.value);
      }
    }
  }

  lemma PassedStays(db: Database, after: Database, f: Flight)
    requires Continues(db, after) && Passed(db, f)
    ensures Passed(after, f)
  {
    forall i | 0 <= i < |after.pending| && after.pending[i].sequence <= db.lastSequence
      ensures after.pending[i].sequence in Sequences(db.pending)
    {
      assert after.pending[i] in after.pending;
      var p :| p in db.pending && SameEvent(p, after.pending[i]);
      var j :| 0 <= j < |db.pending| && db.pending[j] == p;
      assert Sequences(db.pending)[j] == p.sequence;
    }
  }

  /** `t` has the flights of `s`, or fewer. */
  predicate Lands(s: System, t: System) {
    (t.main.None? || t.main == s.main) && (t.flush.None? || t.flush == s.flush)
  }

  lemma AdvancesLined(cfg: Config, s: System, t: System, rows: seq<Row>)
    requires Lined(cfg, s) && Lands(s, t) && rows != [] && Advances(s, t, rows) && Valid(t.w.db)
    ensures Lined(cfg, t)
  {
    CutPasses(cfg, s.w.db, t.w.db, |rows|, s.main);
    CutPasses(cfg, s.w.db, t.w.db, |rows|, s.flush);
    TagsSlice(s.w.db.pending, |rows|);
    Rejoined(Tags(s.w.db.pending), |rows|);
    SeqAssoc(s.h.resolved, Tags(rows), Tags(t.w.db.pending));
  }

  lemma StaysLined(cfg: Config, s: System, t: System)
    requires Lined(cfg, s) && Lands(s, t) && Stays(s, t)
    ensures Lined(cfg, t)
  {
    StayInLine(cfg, s.w.db, t.w.db, s.main);
    StayInLine(cfg, s.w.db, t.w.db, s.flush);
  }

  lemma PersistLined(cfg: Config, s: System, env: Storage)
    requires Lined(cfg, s)
    ensures Lined(cfg, DoPersist(cfg, s, env))
  {
    if Persist(cfg, s.w, env).Goes? {
      PersistCases(cfg, s.w, env);
      var t := DoPersist(cfg, s, env);
      if t.w.db == s.w.db {
        assert s.w.db.pending[|s.w.db.pending|..] == [];
        assert s.h.enqueued + [] == s.h.enqueued;
      } else {
        EnqueueLined(cfg, s, t);
      }
    }
  }

  lemma EnqueueLined(cfg: Config, s: System, t: System)
    requires Lined(cfg, s) && Enqueue(s.w.db, cfg.limits, s.w.held).Done?
    requires t.w.db == Enqueue(s.w.db, cfg.limits, s.w.held).db && t.main == s.main && t.flush == s.flush
    requires t.h.enqueued == s.h.enqueued + Tags(Inserted(s.w.db, t.w.db)) && t.h.resolved == s.h.resolved
    ensures Lined(cfg, t)
  {
    EnqueueValid(s.w.db, cfg.limits, s.w.held);
    EnqueueGrows(s.w.db, cfg.limits, s.w.held);
    ApplyContinues(s.w.db, cfg.limits, EnqueueMany(s.w.held));
    var rows := Inserted(s.w.db, t.w.db);
    GrowInLine(cfg, s.w.db, t.w.db, s.main);
    GrowInLine(cfg, s.w.db, t.w.db, s.flush);
    TagsConcat(s.w.db.pending, rows);
    SeqAssoc(s.h.resolved, Tags(s.w.db.pending), Tags(rows));
  }

  lemma StartLined(cfg: Config, s: System, flush: bool, now: int, failure: Option<SpoolError>)
    requires Lined(cfg, s) && FlightOf(s, flush).None?
    ensures Lined(cfg, DoStart(cfg, s, flush, now, failure))
  {
    var isolate := !flush && s.isolate;
    match Prepare(cfg, s.w, isolate, now, failure)
    case Dies(_) =>
    case Goes(w, Send(rows, text)) =>
      PrepareCases(cfg, s.w, isolate, now, failure);
      TagsSlice(s.w.db.pending, |rows|);
    case Goes(w, Decided(verdict)) =>
      var front := s.w.db.pending[..Min(1, |s.w.db.pending|)];
      var t := s.(w := w, h := Resolve(s.h, front, verdict));
      PrepareSummary(cfg, s, t, isolate, verdict, now, failure);
      DecidedLined(cfg, s, t, verdict);
  }

  lemma DecidedLined(cfg: Config, s: System, t: System, verdict: Verdict)
    requires Lined(cfg, s) && Lands(s, t) && Prepares(cfg, s, t, verdict)
    ensures Lined(cfg, t)
  {
    if verdict.DeadLetter? {
      AdvancesLined(cfg, s, t, s.w.db.pending[..1]);
    } else {
      StaysLined(cfg, s, t);
    }
  }

  lemma AnswerLined(
    cfg: Config, s: System, flush: bool, f: Flight, answer: Answer, now: int, failure: Option<SpoolError>)
    requires Lined(cfg, s) && FlightOf(s, flush) == Some(f)
    ensures Lined(cfg, DoAnswer(cfg, s, flush, f, answer, now, failure))
  {
    match Finish(cfg, s.w, f.rows, answer, now, failure)
    case Dies(_) =>
    case Goes(w, verdict) =>
      var t := WithFlight(s.(w := w, h := Resolve(s.h, f.rows, verdict)), flush, None);
      if Front(cfg, s.w.db, f) {
        AnswerSummary(cfg, s, t, f, answer, verdict, now, failure);
        if verdict.Success? || verdict.DeadLetter? {
          AdvancesLined(cfg, s, t, f.rows);
        } else {
          StaysLined(cfg, s, t);
        }
      } else {
        PassedAnswer(cfg, s.w, f, answer, now, failure);
        StaysLined(cfg, s, t);
      }
  }

  lemma StepLined(cfg: Config, s: System, l: Label)
    requires Lined(cfg, s) && Next(cfg, s, l).Some?
    ensures Lined(cfg, Next(cfg, s, l).value)
  {
    match l
    case PersistHeld(env) => PersistLined(cfg, s, env);
    case StartSend(flush, now, failure) => StartLined(cfg, s, flush, now, failure);
    case ServerAnswers(flush, answer, now, failure) =>
      AnswerLined(cfg, s, flush, FlightOf(s, flush).value, answer, now, failure);
    case _ =>
  }

  lemma {:induction false} ExecLined(cfg: Config, s: System, labels: seq<Label>)
    requires Lined(cfg, s) && Exec(cfg, s, labels).Some?
    ensures Lined(cfg, Exec(cfg, s, labels).value)
    decreases labels
  {
    if labels != [] {
      StepLined(cfg, s, labels[0]);
      ExecLined(cfg, Next(cfg, s, labels[0]).value, labels[1..]);
    }
  }

  // ------------------------------------------------------------- the theorems

  /** The rows of a request are the ones to be resolved next. */
  predicate IsNext(s: System, f: Flight) {
    s.h.resolved + Tags(f.rows) <= s.h.enqueued
  }

  predicate HeadPending(s: System, f: Flight) {
    f.rows != [] && f.rows[0].sequence in Sequences(s.w.db.pending)
  }

  lemma PrefixGrows<T>(a: seq<T>, b: seq<T>, n: nat)
    requires n <= |b|
    ensures a + b[..n] <= a + b
  {
  }

  lemma PrefixShrinks<T>(a: seq<T>, b: seq<T>, c: seq<T>)
    requires a + b <= a + c
    ensures b <= c
  {
    assert |b| <= |c|;
    forall i | 0 <= i < |b| ensures b[i] == c[i] {
      assert (a + b)[|a| + i] == (a + c)[|a| + i];
    }
  }

  lemma NextHead(s: System, f: Flight)
    requires s.h.enqueued == s.h.resolved + Tags(s.w.db.pending) && f.rows != [] && IsNext(s, f)
    ensures HeadPending(s, f)
  {
    PrefixShrinks(s.h.resolved, Tags(f.rows), Tags(s.w.db.pending));
    assert Tags(f.rows)[0] == Tags(s.w.db.pending)[0];
    assert Sequences(s.w.db.pending)[0] == f.rows[0].sequence;
  }

  lemma NextExactly(cfg: Config, s: System, f: Flight)
    requires Lined(cfg, s) && InLine(cfg, s.w.db, Some(f))
    ensures IsNext(s, f) <==> HeadPending(s, f)
  {
    if Front(cfg, s.w.db, f) {
      PrefixGrows(s.h.resolved, Tags(s.w.db.pending), |f.rows|);
    }
    if IsNext(s, f) {
      NextHead(s, f);
    }
  }

  /** At every moment of every run, overlapping flushes included, the resolved rows are a prefix of
      the enqueued rows and the rest is pending; the rows of a request in flight are the very next
      ones exactly as long as their head is pending. */
  lemma FirstInFirstOut(cfg: Config, db: Database, table: Table, labels: seq<Label>)
    requires Valid(db) && Exec(cfg, Start(db, table), labels).Some?
    ensures var s := Exec(cfg, Start(db, table), labels).value;
            && s.h.resolved <= s.h.enqueued && s.h.enqueued == s.h.resolved + Tags(s.w.db.pending)
            && (forall flush | FlightOf(s, flush).Some? ::
                  IsNext(s, FlightOf(s, flush).value) <==> HeadPending(s, FlightOf(s, flush).value))
  {
    StartOrdering(cfg, db, table);
    ExecLined(cfg, Start(db, table), labels);
    var s := Exec(cfg, Start(db, table), labels).value;
    forall flush | FlightOf(s, flush).Some?
      ensures IsNext(s, FlightOf(s, flush).value) <==> HeadPending(s, FlightOf(s, flush).value)
    {
      NextExactly(cfg, s, FlightOf(s, flush).value);
    }
  }

  /** While no two requests overlap, the rows in flight are the very next ones. */
  lemma RequestIsNext(cfg: Config, db: Database, table: Table, labels: seq<Label>, flush: bool)
    requires Valid(db) && AloneRun(cfg, Start(db, table), labels) && Exec(cfg, Start(db, table), labels).Some?
    requires FlightOf(Exec(cfg, Start(db, table), labels).value, flush).Some?
    ensures var s := Exec(cfg, Start(db, table), labels).value; IsNext(s, FlightOf(s, flush).value)
  {
    StartOrdering(cfg, db, table);
    ExecOrdered(cfg, Start(db, table), labels);
    var s := Exec(cfg, Start(db, table), labels).value;
    PrefixGrows(s.h.resolved, Tags(s.w.db.pending), |FlightOf(s, flush).value.rows|);
  }

  predicate NoFlush(l: Label) {
    match l
    case StartSend(flush, _, _) => !flush
    case ServerApplies(flush) => !flush
    case ServerAnswers(flush, _, _, _) => !flush
    case _ => true
  }

  lemma NoFlushStays(cfg: Config, s: System, l: Label)
    requires s.flush.None? && NoFlush(l) && Next(cfg, s, l).Some?
    ensures Next(cfg, s, l).value.flush.None?
  {
  }

  /** Without the shutdown flush no two requests overlap. */
  lemma {:induction false} NoFlushIsAlone(cfg: Config, s: System, labels: seq<Label>)
    requires s.flush.None? && forall l :: l in labels ==> NoFlush(l)
    ensures AloneRun(cfg, s, labels)
    decreases labels
  {
    if labels != [] {
      assert labels == [labels[0]] + labels[1..];
      if Next(cfg, s, labels[0]).Some? {
        NoFlushStays(cfg, s, labels[0]);
        NoFlushIsAlone(cfg, Next(cfg, s, labels[0]).value, labels[1..]);
      }
    }
  }

  lemma FrontNumbers(db: Database, n: nat)
    requires Valid(db) && n <= |db.pending|
    ensures ValidSequences(Sequences(db.pending[..n])) && AllIn(Sequences(db.pending[..n]), Sequences(db.pending))
  {
    var front := Sequences(db.pending[..n]);
    assert front == Sequences(db.pending)[..n];
    forall i | 0 <= i < n ensures front[i] > 0 {
      assert db.pending[i] in db.pending;
    }
  }

  /** A flush takes the rows of a delivery that is still in flight, and its answer comes first. */
  const OVERTAKING := [StartSend(false, 0, None), StartSend(true, 0, None), ServerAnswers(true, Acknowledged, 0, None)]

  /** Whatever can be sent, a flush can overtake its delivery: the rows still in flight are resolved. */
  lemma FlushOvertakes(cfg: Config, db: Database, table: Table)
    requires Valid(db) && Build(cfg, db, false).Ready?
    ensures Exec(cfg, Start(db, table), OVERTAKING).Some?
    ensures var s := Exec(cfg, Start(db, table), OVERTAKING).value;
            s.main.Some? && s.h.resolved == Tags(s.main.value.rows) && !IsNext(s, s.main.value)
  {
    var s := Start(db, table);
    var Ready(rows, text) := Build(cfg, db, false);
    var f := Flight(rows, text, false);
    var both := s.(main := Some(f), flush := Some(f));
    BatchIsPrefix(cfg, db, false);
    FrontNumbers(db, |rows|);
    var t := DoAnswer(cfg, both, true, f, Acknowledged, 0, None);
    assert OVERTAKING[0..] == OVERTAKING && OVERTAKING[3..] == [];
    ExecOn(cfg, s, OVERTAKING, 0, s.(main := Some(f)));
    ExecOn(cfg, s.(main := Some(f)), OVERTAKING, 1, both);
    ExecOn(cfg, both, OVERTAKING, 2, t);
    assert t.main == Some(f) && t.h.resolved == [] + Tags(rows);
    StartOrdering(cfg, db, table);
    ExecLined(cfg, s, OVERTAKING);
    NextExactly(cfg, t, f);
    FrontRemoved(db, rows);
    HeadGone(db, t.w.db, |rows|);
  }
}
