/** Runs that lose nothing: with storage conditions as SQLite's only failures, valid events whose ids
    stand for one content each, and no row that exceeds a whole request, no process ends by itself. */
module CalmRuns {
  import opened Basics
  import opened SpoolState
  import opened SpoolRows
  import opened SpoolLaws
  import opened Batch
  import opened WorkerState
  import opened System
  import opened Steps
  import opened Fifo
  import opened Conservation
  import opened Arrivals
  import opened Verdicts
  import opened Endings
  import I = Isolation

  /** No two events share an id. */
  ghost predicate OneStory(world: set<NewEvent>) {
    forall a, b :: a in world && b in world && a.id == b.id ==> a == b
  }

  function Story(t: Tag): NewEvent {
    NewEvent(t.id, t.payload, t.created)
  }

  /** An event the spool takes and a request can carry. */
  predicate Sound(cfg: Config, e: NewEvent) {
    EventError(e, cfg.limits).None? && !I.Stuck(cfg, e.payload)
  }

  /** What the state of a calm run keeps; `world` is everything the events of the run are. */
  ghost predicate Calm(cfg: Config, world: set<NewEvent>, prior: set<Tag>, s: System) {
    && Ground(cfg, prior, s) && Ordered(cfg, s) && OneStory(world)
    && (forall e :: e in s.w.held + s.w.ingress ==> e in world && Sound(cfg, e))
    && (forall t :: t in s.h.enqueued ==> Story(t) in world && !I.Stuck(cfg, t.payload))
    && (forall t :: t in prior ==> Story(t) in world)
  }

  predicate Mild(failure: Option<SpoolError>) {
    failure.None? || Clears(failure)
  }

  /** What a calm run may meet. */
  ghost predicate CalmLabel(cfg: Config, world: set<NewEvent>, s: System, l: Label) {
    && Alone(s, l)
    && match l
       case SubmitEvent(_, e) => e in world && Sound(cfg, e)
       case PersistHeld(env) => Mild(env.failure)
       case StartSend(flush, now, failure) =>
         INT64_MIN <= now <= INT64_MAX && Mild(failure) && (flush ==> failure.None?)
       case ServerAnswers(flush, _, now, failure) =>
         INT64_MIN <= now <= INT64_MAX && Mild(failure) && (flush ==> failure.None?)
       case Restart => false
       case _ => true
  }

  ghost predicate CalmRun(cfg: Config, world: set<NewEvent>, s: System, labels: seq<Label>)
    decreases labels
  {
    labels == [] ||
    (CalmLabel(cfg, world, s, labels[0]) &&
     match Next(cfg, s, labels[0])
     case None => true
     case Some(t) => CalmRun(cfg, world, t, labels[1..]))
  }

  // ------------------------------------------------------------ nothing is fatal

  lemma {:induction false} NoFirstError(events: seq<NewEvent>, limits: Limits)
    requires forall e :: e in events ==> EventError(e, limits).None?
    ensures FirstError(events, limits).None?
  {
    if events != [] {
      assert events == [events[0]] + events[1..];
      NoFirstError(events[1..], limits);
    }
  }

  lemma NoConflict(cfg: Config, world: set<NewEvent>, prior: set<Tag>, s: System)
    requires Calm(cfg, world, prior, s)
    ensures !Conflicting(Contents(s.w.db), s.w.held)
  {
    RetainedSeen(cfg, prior, s);
    forall e | e in s.w.held ensures e in world && !Differs(Contents(s.w.db), e) {
      assert e in s.w.held + s.w.ingress;
      if e.id in Contents(s.w.db) {
        var t :| t in prior + AsTags(s.h.enqueued) && t.id == e.id
                 && (t.payload, t.created) == Contents(s.w.db)[e.id];
        assert Story(t) in world;
      }
    }
  }

  lemma PersistCalm(cfg: Config, world: set<NewEvent>, prior: set<Tag>, s: System, env: Storage)
    requires Calm(cfg, world, prior, s) && Mild(env.failure)
    ensures !Fatal(cfg, s, PersistHeld(env))
  {
    forall e | e in s.w.held ensures EventError(e, cfg.limits).None? {
      assert e in s.w.held + s.w.ingress;
    }
    NoFirstError(s.w.held, cfg.limits);
    NoConflict(cfg, world, prior, s);
    AdmitFails(Contents(s.w.db), s.w.held);
  }

  /** The operation an answer demands of rows that are the front of pending can only find the
      dead-letter store full. */
  lemma FrontServed(cfg: Config, db: Database, rows: seq<Row>, answer: Answer, now: int)
    requires Valid(db) && 0 < |rows| <= |db.pending| && Tags(rows) == Tags(db.pending)[..|rows|]
    requires INT64_MIN <= now <= INT64_MAX
    ensures var op := Demand(rows, answer, now);
            var fault := if op.None? then None else OpFault(cfg.limits, db, op.value, None);
            fault.None? || (op.value.Rejected? && fault == Some(DeadLetterFull))
  {
    FrontNumbers(db, |rows|);
    TagsSlice(db.pending, |rows|);
    TagsSequences(rows, db.pending[..|rows|]);
  }

  lemma AnswerCalm(
    cfg: Config, s: System, flush: bool, f: Flight, answer: Answer, now: int, failure: Option<SpoolError>)
    requires Ordered(cfg, s) && FlightOf(s, flush) == Some(f) && INT64_MIN <= now <= INT64_MAX
    requires Mild(failure) && (flush ==> failure.None?)
    ensures !Fatal(cfg, s, ServerAnswers(flush, answer, now, failure))
  {
    if failure.None? {
      FrontServed(cfg, s.w.db, f.rows, answer, now);
    }
  }

  lemma HeadUnstuck(cfg: Config, world: set<NewEvent>, prior: set<Tag>, s: System)
    requires Calm(cfg, world, prior, s) && s.w.db.pending != []
    ensures !I.Stuck(cfg, s.w.db.pending[0].payload)
  {
    PendingEnqueued(cfg, s, s.w.db.pending[0]);
  }

  /** Moving the head away can only find the dead-letter store full. */
  lemma HeadServed(cfg: Config, db: Database, isolate: bool, now: int)
    requires Valid(db) && db.pending != [] && INT64_MIN <= now <= INT64_MAX && Build(cfg, db, isolate).Undecodable?
    ensures var fault := OpFault(cfg.limits, db, HeadDemand(cfg, db, isolate, now).value, None);
            fault.None? || fault == Some(DeadLetterFull)
  {
    BatchIsPrefix(cfg, db, isolate);
    assert Sequences(db.pending[..1]) == [db.pending[0].sequence];
    FrontNumbers(db, 1);
  }

  lemma StartCalm(
    cfg: Config, world: set<NewEvent>, prior: set<Tag>, s: System, flush: bool, now: int, failure: Option<SpoolError>)
    requires cfg.Valid() && Calm(cfg, world, prior, s) && INT64_MIN <= now <= INT64_MAX
    requires Mild(failure) && (flush ==> failure.None?)
    ensures !Fatal(cfg, s, StartSend(flush, now, failure))
  {
    var db, isolate := s.w.db, !flush && s.isolate;
    BuildFailsExactly(cfg, db, isolate);
    if db.pending != [] {
      HeadUnstuck(cfg, world, prior, s);
      I.BuildReaches(cfg, db, isolate);
      if Build(cfg, db, isolate).Undecodable? {
        HeadServed(cfg, db, isolate, now);
      }
    }
  }

  lemma CalmGoesOn(cfg: Config, world: set<NewEvent>, prior: set<Tag>, s: System, l: Label)
    requires cfg.Valid() && Calm(cfg, world, prior, s) && CalmLabel(cfg, world, s, l) && Next(cfg, s, l).Some?
    ensures !Fatal(cfg, s, l)
  {
    match l
    case PersistHeld(env) => PersistCalm(cfg, world, prior, s, env);
    case StartSend(flush, now, failure) => StartCalm(cfg, world, prior, s, flush, now, failure);
    case ServerAnswers(flush, answer, now, failure) =>
      AnswerCalm(cfg, s, flush, FlightOf(s, flush).value, answer, now, failure);
    case _ =>
  }

  // ---------------------------------------------------------- calm stays calm

  /** Queue and rows after a step that does not end the process. */
  ghost predicate Gains(s: System, l: Label, t: System) {
    && (forall e :: e in t.w.held + t.w.ingress ==> e in s.w.held + s.w.ingress || l == SubmitEvent(true, e))
    && (forall tag :: tag in t.h.enqueued ==> tag in s.h.enqueued || Story(tag) in s.w.held)
  }

  lemma NovelRows(db: Database, limits: Limits, held: seq<NewEvent>, after: Database)
    requires Enqueue(db, limits, held).Done? && after == Enqueue(db, limits, held).db && held != []
    ensures Admit(Contents(db), held).Some?
    ensures Inserted(db, after) == NewRows(db.lastSequence, Admit(Contents(db), held).value)
  {
  }

  lemma RowStory(last: nat, events: seq<NewEvent>, tag: Tag)
    requires tag in Tags(NewRows(last, events))
    ensures Story(tag) in events
  {
    var i :| 0 <= i < |events| && Tags(NewRows(last, events))[i] == tag;
    assert Story(tag) == events[i];
  }

  /** The rows inserted are held events. */
  lemma InsertedStories(db: Database, limits: Limits, held: seq<NewEvent>, after: Database, tag: Tag)
    requires Enqueue(db, limits, held).Done? && after == Enqueue(db, limits, held).db
             && tag in Tags(Inserted(db, after))
    ensures Story(tag) in held
  {
    if held != [] {
      NovelRows(db, limits, held, after);
      AdmitNovel(Contents(db), held);
      RowStory(db.lastSequence, Admit(Contents(db), held).value, tag);
    }
  }

  lemma PersistGains(cfg: Config, s: System, env: Storage, t: System)
    requires t == DoPersist(cfg, s, env)
    ensures Gains(s, PersistHeld(env), t)
  {
    if Persist(cfg, s.w, env).Goes? {
      PersistCases(cfg, s.w, env);
      if t.w.db == s.w.db {
        assert s.w.db.pending[|s.w.db.pending|..] == [];
      } else {
        forall tag | tag in Tags(Inserted(s.w.db, t.w.db)) ensures Story(tag) in s.w.held {
          InsertedStories(s.w.db, cfg.limits, s.w.held, t.w.db, tag);
        }
      }
    }
  }

  lemma StepGains(cfg: Config, s: System, l: Label, t: System)
    requires Next(cfg, s, l) == Some(t)
    ensures Gains(s, l, t)
  {
    match l
    case PersistHeld(env) => PersistGains(cfg, s, env, t);
    case StartSend(flush, now, failure) => StartQueue(cfg, s, flush, now, failure, t);
    case ServerAnswers(flush, answer, now, failure) =>
      AnswerQueue(cfg, s, flush, FlightOf(s, flush).value, answer, now, failure);
    case _ =>
  }

  lemma CalmStays(cfg: Config, world: set<NewEvent>, prior: set<Tag>, s: System, l: Label, t: System)
    requires Calm(cfg, world, prior, s) && CalmLabel(cfg, world, s, l) && Next(cfg, s, l) == Some(t)
    ensures Calm(cfg, world, prior, t)
  {
    StepGround(cfg, prior, s, l);
    StepOrdered(cfg, s, l);
    StepGains(cfg, s, l, t);
    forall tag | tag in t.h.enqueued ensures Story(tag) in world && !I.Stuck(cfg, tag.payload) {
      if tag !in s.h.enqueued {
        assert Story(tag) in s.w.held + s.w.ingress;
      }
    }
  }

  lemma {:induction false} CalmLosesNothing(
    cfg: Config, world: set<NewEvent>, prior: set<Tag>, s: System, labels: seq<Label>)
    requires cfg.Valid() && Calm(cfg, world, prior, s) && CalmRun(cfg, world, s, labels) && Exec(cfg, s, labels).Some?
    ensures Exec(cfg, s, labels).value.h.lost == s.h.lost
    decreases labels
  {
    if labels != [] {
      var l, t := labels[0], Next(cfg, s, labels[0]).value;
      CalmGoesOn(cfg, world, prior, s, l);
      EndsExactly(cfg, s, l);
      StepLoss(cfg, s, l);
      CalmStays(cfg, world, prior, s, l, t);
      CalmLosesNothing(cfg, world, prior, t, labels[1..]);
    }
  }

  // --------------------------------------------------------------- the theorem

  /** What the process finds: no row exceeds a request, and every retained event belongs to the world. */
  ghost predicate CalmSpool(cfg: Config, world: set<NewEvent>, db: Database) {
    && Valid(db) && OneStory(world)
    && (forall r :: r in db.pending ==> Story(TagOf(r)) in world && !I.Stuck(cfg, r.payload))
    && (forall d :: d in db.dead ==> Story(DeadTag(d)) in world)
  }

  /** A full pending table, a full or read-only disk and a full dead-letter store lose nothing, however
      long they last and whatever the server answers: in every calm run no accepted event is lost. */
  lemma CalmRunLosesNothing(cfg: Config, world: set<NewEvent>, db: Database, table: Table, labels: seq<Label>)
    requires cfg.Valid() && CalmSpool(cfg, world, db) && CalmRun(cfg, world, Start(db, table), labels)
    requires Exec(cfg, Start(db, table), labels).Some?
    ensures Exec(cfg, Start(db, table), labels).value.h.lost == []
  {
    var s := Start(db, table);
    var prior := AsTags(s.h.buried);
    StartArrived(cfg, db, table);
    StartOrdering(cfg, db, table);
    forall t | t in s.h.enqueued ensures Story(t) in world && !I.Stuck(cfg, t.payload) {
      TagsIn(db.pending, t);
    }
    CalmLosesNothing(cfg, world, prior, s, labels);
  }
}
