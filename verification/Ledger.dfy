/** The counters as a ledger: what was submitted, persisted, delivered, dead-lettered and evicted
    adds up to the repeated events the spool ignored, and only a bounded number of accepted events is
    not yet durable. */
module Ledger {
  import opened Basics
  import opened SpoolState
  import opened SpoolRows
  import opened SpoolLaws
  import opened Batch
  import opened WorkerState
  import opened System
  import opened Steps
  import P = Pause

  // ------------------------------------------------------------------ counting

  /** Removing rows by distinct numbers that are all there removes that many rows. */
  lemma {:induction false} WithoutCount(rows: seq<Row>, sequences: seq<int>)
    requires PendingOrdered(rows) && ValidSequences(sequences) && AllIn(sequences, Sequences(rows))
    ensures |Without(rows, AsSet(sequences))| == |rows| - |sequences|
  {
    if sequences == [] {
      WithoutNone(rows, AsSet(sequences));
    } else {
      var n := |sequences| - 1;
      var front, q := sequences[..n], sequences[n];
      WithoutCount(rows, front);
      assert AsSet(sequences) == AsSet(front) + {q} by { assert sequences == front + [q]; }
      assert q in sequences;
      OneFewer(rows, AsSet(front), q);
    }
  }

  lemma OneFewer(rows: seq<Row>, gone: set<int>, q: int)
    requires PendingOrdered(rows) && q in Sequences(rows) && q !in gone
    ensures |Without(rows, gone + {q})| == |Without(rows, gone)| - 1
  {
    var r := RowNamed(rows, q);
    WithoutIn(rows, gone, r);
    WithoutOrdered(rows, gone);
    WithoutTwice(rows, gone, {q});
    WithoutOne(Without(rows, gone), r);
  }

  lemma MarkCount(db: Database, sequences: seq<int>)
    requires Valid(db) && MarkDelivered(db, sequences).Done?
    ensures var after := MarkDelivered(db, sequences).db;
            |after.pending| == |db.pending| - |sequences| && after.dead == db.dead
  {
    WithoutCount(db.pending, sequences);
  }

  lemma MoveCount(db: Database, limits: Limits, sequences: seq<int>, error: string, now: int)
    requires Valid(db) && MoveToDeadLetter(db, limits, sequences, error, now, false).Done?
    ensures var outcome := MoveToDeadLetter(db, limits, sequences, error, now, false);
            && outcome.value.0 == |sequences| && |outcome.db.pending| == |db.pending| - |sequences|
            && |outcome.db.dead| == |db.dead| + outcome.value.0 - outcome.value.1
  {
    if sequences != [] {
      WithoutCount(db.pending, sequences);
    }
  }

  lemma {:induction false} AdmitFresh(known: map<string, Content>, events: seq<NewEvent>)
    requires forall e :: e in events ==> e.id !in known
    requires forall i, j :: 0 <= i < j < |events| ==> events[i].id != events[j].id
    ensures Admit(known, events) == Some(events)
    decreases events
  {
    if events != [] {
      var e := events[0];
      assert events == [e] + events[1..];
      forall f | f in events[1..] ensures f.id !in known[e.id := ContentOf(e)] {
        var j :| 0 <= j < |events[1..]| && events[1..][j] == f;
        assert events[0].id != events[1 + j].id;
      }
      AdmitFresh(known[e.id := ContentOf(e)], events[1..]);
    }
  }

  // ------------------------------------------------------------- fresh queues

  predicate Retains(db: Database, id: string) {
    (exists r :: r in db.pending && r.id == id) || (exists d :: d in db.dead && d.id == id)
  }

  function Queue(w: Worker): seq<NewEvent> {
    w.held + w.ingress
  }

  /** The queued ids are pairwise different and none is in the spool. */
  ghost predicate FreshQueue(w: Worker) {
    && (forall i, j :: 0 <= i < j < |Queue(w)| ==> Queue(w)[i].id != Queue(w)[j].id)
    && (forall e :: e in Queue(w) ==> !Retains(w.db, e.id))
  }

  predicate FreshLabel(s: System, l: Label) {
    l.SubmitEvent? ==> (forall e :: e in Queue(s.w) ==> e.id != l.event.id) && !Retains(s.w.db, l.event.id)
  }

  /** The spool gains no ids except the ones enqueued. */
  lemma NoNewIds(a: Database, b: Database, id: string)
    requires Continues(a, b) && !Retains(a, id)
    requires forall r :: r in b.pending ==> r.sequence <= a.lastSequence
    requires forall d :: d in b.dead ==> d.original <= a.lastSequence
    ensures !Retains(b, id)
  {
    forall r | r in b.pending ensures r.id != id {
    }
    forall d | d in b.dead ensures d.id != id {
      assert Known(a, d);
    }
  }

  // ------------------------------------------------------------------- ledger

  /** The books, `repeats` persisted events having inserted no row. */
  ghost predicate Tallied(s: System, repeats: nat) {
    var c := s.w.count;
    && c.submitted == |s.w.ingress| + |s.w.held| + c.persisted
    && s.base.0 + c.persisted == |s.w.db.pending| + c.delivered + c.deadLettered + repeats
    && |s.w.db.dead| == s.base.1 + c.deadLettered - c.evicted
  }

  ghost predicate Balanced(s: System) {
    Tallied(s, 0)
  }

  ghost predicate Bounded(cfg: Config, s: System) {
    |s.w.ingress| <= cfg.ingressCapacity && |s.w.held| <= cfg.persistRows
  }

  ghost predicate Books(cfg: Config, s: System, repeats: nat) {
    Valid(s.w.db) && Tallied(s, repeats) && Bounded(cfg, s)
  }

  /** The held events a step stores without inserting a row: their ids are retained already. */
  function Repeated(cfg: Config, s: System, l: Label): nat {
    match l
    case PersistHeld(env) =>
      (match Persist(cfg, s.w, env)
       case Dies(_) => 0
       case Goes(w, stored) => if stored then Surplus(s.w.held, Inserted(s.w.db, w.db)) else 0)
    case _ => 0
  }

  function Surplus(events: seq<NewEvent>, rows: seq<Row>): nat {
    if |rows| <= |events| then |events| - |rows| else 0
  }

  /** The repeats behind a step: a new process counts from zero. */
  function Repeating(cfg: Config, s: System, l: Label, before: nat): nat {
    if Ends(cfg, s, l) then 0 else before + Repeated(cfg, s, l)
  }

  /** The repeats of the process that is running at the end of a run. */
  function Repeats(cfg: Config, s: System, labels: seq<Label>, before: nat): nat
    decreases labels
  {
    if labels == [] || Next(cfg, s, labels[0]).None? then before
    else Repeats(cfg, Next(cfg, s, labels[0]).value, labels[1..], Repeating(cfg, s, labels[0], before))
  }

  /** A delivery step: the tables and the counters move together. */
  ghost predicate Posts(s: System, w: Worker) {
    && Valid(w.db) && SameQueues(s.w, w)
    && w.count.submitted == s.w.count.submitted && w.count.persisted == s.w.count.persisted
    && |s.w.db.pending| + s.w.count.delivered + s.w.count.deadLettered
       == |w.db.pending| + w.count.delivered + w.count.deadLettered
    && |w.db.dead| - w.count.deadLettered + w.count.evicted
       == |s.w.db.dead| - s.w.count.deadLettered + s.w.count.evicted
    && Continues(s.w.db, w.db)
    && (forall r :: r in w.db.pending ==> r.sequence <= s.w.db.lastSequence)
    && (forall d :: d in w.db.dead ==> d.original <= s.w.db.lastSequence)
  }

  lemma PostsBooks(cfg: Config, s: System, t: System, n: nat)
    requires Books(cfg, s, n) && Posts(s, t.w) && t.base == s.base
    ensures Books(cfg, t, n)
  {
  }

  lemma PostsFresh(s: System, t: System)
    requires FreshQueue(s.w) && Posts(s, t.w)
    ensures FreshQueue(t.w)
  {
    assert Queue(t.w) == Queue(s.w);
    forall e | e in Queue(t.w) ensures !Retains(t.w.db, e.id) {
      NoNewIds(s.w.db, t.w.db, e.id);
    }
  }

  lemma SameBooks(cfg: Config, s: System, t: System, n: nat)
    requires Books(cfg, s, n) && t.w.db == s.w.db && SameQueues(s.w, t.w) && t.w.count == s.w.count && t.base == s.base
    ensures Books(cfg, t, n)
  {
  }

  lemma SameFresh(s: System, t: System)
    requires FreshQueue(s.w) && t.w.db == s.w.db && SameQueues(s.w, t.w)
    ensures FreshQueue(t.w)
  {
    assert Queue(t.w) == Queue(s.w);
  }

  lemma RestartBooks(cfg: Config, s: System)
    requires Valid(s.w.db)
    ensures Books(cfg, Restarted(s), 0) && FreshQueue(Restarted(s).w)
  {
  }

  lemma MarkPosts(s: System, w: Worker, sequences: seq<int>, limits: Limits)
    requires Valid(s.w.db) && MarkDelivered(s.w.db, sequences).Done? && w.db == MarkDelivered(s.w.db, sequences).db
    requires SameQueues(s.w, w)
    requires w.count == s.w.count.(delivered := s.w.count.delivered + |sequences|,
                        uncertainDelivered := w.count.uncertainDelivered)
    ensures Posts(s, w)
  {
    MarkCount(s.w.db, sequences);
    MarkValid(s.w.db, sequences);
    ApplyContinues(s.w.db, limits, Delivered(sequences));
  }

  lemma MovePosts(cfg: Config, s: System, w: Worker, sequences: seq<int>, error: string, now: int)
    requires Valid(s.w.db) && MoveToDeadLetter(s.w.db, cfg.limits, sequences, error, now, false).Done?
    requires var outcome := MoveToDeadLetter(s.w.db, cfg.limits, sequences, error, now, false);
             && w.db == outcome.db && SameQueues(s.w, w)
             && w.count == s.w.count.(deadLettered := s.w.count.deadLettered + outcome.value.0,
                           evicted := s.w.count.evicted + outcome.value.1)
    ensures Posts(s, w)
  {
    MoveCount(s.w.db, cfg.limits, sequences, error, now);
    MoveValid(s.w.db, cfg.limits, sequences, error, now, false);
    MoveContinues(s.w.db, cfg.limits, sequences, error, now, false);
    MoveMark(s.w.db, cfg.limits, sequences, error, now);
  }

  lemma MoveMark(db: Database, limits: Limits, sequences: seq<int>, error: string, now: int)
    ensures After(db, MoveToDeadLetter(db, limits, sequences, error, now, false)).lastSequence == db.lastSequence
  {
  }

  lemma TouchPosts(s: System, w: Worker, sequences: seq<int>)
    requires Valid(s.w.db) && SameQueues(s.w, w) && (w.db == s.w.db || Touches(s.w.db, w.db, sequences))
    requires w.count == s.w.count.(retries := w.count.retries)
    ensures Posts(s, w)
  {
    if w.db != s.w.db {
      TouchesValid(s.w.db, w.db, sequences);
      TouchesTags(s.w.db, w.db, sequences);
      assert |Tags(w.db.pending)| == |Tags(s.w.db.pending)|;
    }
    SameTagsContinue(s.w.db, w.db);
  }

  /** Tables that differ in attempt metadata only continue each other. */
  lemma SameTagsContinue(a: Database, b: Database)
    requires Valid(a) && Tags(b.pending) == Tags(a.pending) && b.dead == a.dead && b.lastSequence == a.lastSequence
    ensures Continues(a, b)
    ensures forall r :: r in b.pending ==> r.sequence <= a.lastSequence
  {
    forall r | r in b.pending ensures exists p :: p in a.pending && SameEvent(p, r) {
      TagsIn(b.pending, TagOf(r));
      TagsIn(a.pending, TagOf(r));
      var p :| p in a.pending && TagOf(p) == TagOf(r);
      assert SameEvent(p, r);
    }
  }

  lemma RejectPosts(cfg: Config, s: System, sequences: seq<int>, error: string, now: int, failure: Option<SpoolError>)
    requires Valid(s.w.db) && Reject(cfg, s.w, sequences, error, now, failure).Goes?
    ensures Posts(s, Reject(cfg, s.w, sequences, error, now, failure).w)
  {
    var step := Reject(cfg, s.w, sequences, error, now, failure);
    if step.value.DeadLetter? {
      RejectMoved(cfg, s.w, sequences, error, now, failure);
      MovePosts(cfg, s, step.w, sequences, error, now);
    } else {
      RejectRefused(cfg, s.w, sequences, error, now, failure);
      TouchPosts(s, step.w, sequences);
    }
  }

  lemma RejectMoved(cfg: Config, w: Worker, sequences: seq<int>, error: string, now: int, failure: Option<SpoolError>)
    requires var step := Reject(cfg, w, sequences, error, now, failure); step.Goes? && step.value.DeadLetter?
    ensures var outcome := MoveToDeadLetter(w.db, cfg.limits, sequences, error, now, false);
            var after := Reject(cfg, w, sequences, error, now, failure).w;
            && outcome.Done? && after.db == outcome.db && SameQueues(w, after)
            && after.count == w.count.(deadLettered := w.count.deadLettered + outcome.value.0,
                              evicted := w.count.evicted + outcome.value.1)
  {
  }

  lemma RejectRefused(cfg: Config, w: Worker, sequences: seq<int>, error: string, now: int, failure: Option<SpoolError>)
    requires var step := Reject(cfg, w, sequences, error, now, failure); step.Goes? && !step.value.DeadLetter?
    ensures var after := Reject(cfg, w, sequences, error, now, failure).w;
            after.db == w.db && SameQueues(w, after) && after.count == w.count.(retries := after.count.retries)
  {
  }

  lemma PreparePosts(cfg: Config, s: System, isolate: bool, now: int, failure: Option<SpoolError>)
    requires Valid(s.w.db) && Prepare(cfg, s.w, isolate, now, failure).Goes?
    ensures Posts(s, Prepare(cfg, s.w, isolate, now, failure).w)
  {
    match Build(cfg, s.w.db, isolate)
    case Undecodable(row) => RejectPosts(cfg, s, [row.sequence], ENCODING_ERROR, now, failure);
    case Nothing => TouchPosts(s, Retried(s.w), []);
    case _ => TouchPosts(s, s.w, []);
  }

  lemma AttemptTouches(w: Worker, sequences: seq<int>, uncertain: bool, failure: Option<SpoolError>)
    ensures var a := Attempt(w, sequences, RETRY_ERROR, uncertain, failure); a.Done? ==> Touches(w.db, a.db, sequences)
    ensures var b := Attempt(w, sequences, REJECT_ERROR, false, failure); b.Done? ==> Touches(w.db, b.db, sequences)
  {
    var a := Attempt(w, sequences, RETRY_ERROR, uncertain, failure);
    if a.Done? {
      assert After(w.db, RecordAttempt(w.db, sequences, RETRY_ERROR, uncertain)) == a.db;
    }
  }

  lemma FinishPosts(cfg: Config, s: System, rows: seq<Row>, answer: Answer, now: int, failure: Option<SpoolError>)
    requires Valid(s.w.db) && Finish(cfg, s.w, rows, answer, now, failure).Goes?
    ensures Posts(s, Finish(cfg, s.w, rows, answer, now, failure).w)
  {
    var sequences := Sequences(rows);
    var w := Finish(cfg, s.w, rows, answer, now, failure).w;
    match answer
    case Acknowledged =>
      if Struck(MarkDelivered(s.w.db, sequences), failure).Done? {
        MarkPosts(s, w, sequences, cfg.limits);
      } else {
        TouchPosts(s, w, sequences);
      }
    case Retryable(uncertain) =>
      AttemptTouches(s.w, sequences, uncertain, failure);
      TouchPosts(s, w, sequences);
    case BadRequest =>
      if |rows| > 1 {
        AttemptTouches(s.w, sequences, false, failure);
        TouchPosts(s, w, sequences);
      } else {
        RejectPosts(cfg, s, sequences, REJECT_ERROR, now, failure);
      }
    case _ => TouchPosts(s, w, sequences);
  }

  lemma ConcludedBooks(cfg: Config, s: System, flush: bool, verdict: Verdict, n: nat)
    requires Books(cfg, s, n)
    ensures Books(cfg, Concluded(s, flush, verdict), if flush && verdict.Trouble? then 0 else n)
    ensures FreshQueue(s.w) ==> FreshQueue(Concluded(s, flush, verdict).w)
  {
    if flush && verdict.Trouble? {
      RestartBooks(cfg, s);
    } else {
      SameBooks(cfg, s, Concluded(s, flush, verdict), n);
      if FreshQueue(s.w) {
        SameFresh(s, Concluded(s, flush, verdict));
      }
    }
  }

  /** A delivery that ended: `t` is the state in front of the loop's conclusions. */
  lemma EndedBooks(cfg: Config, s: System, t: System, flush: bool, verdict: Verdict, n: nat)
    requires Books(cfg, s, n) && Posts(s, t.w) && t.base == s.base
    ensures Books(cfg, Concluded(t, flush, verdict), if flush && verdict.Trouble? then 0 else n)
    ensures FreshQueue(s.w) ==> FreshQueue(Concluded(t, flush, verdict).w)
  {
    PostsBooks(cfg, s, t, n);
    if FreshQueue(s.w) {
      PostsFresh(s, t);
    }
    ConcludedBooks(cfg, t, flush, verdict, n);
  }

  lemma StartBooks(
    cfg: Config, s: System, t: System, flush: bool, now: int, failure: Option<SpoolError>, n: nat, after: nat)
    requires Books(cfg, s, n)
    requires t == DoStart(cfg, s, flush, now, failure) && after == Repeating(cfg, s, StartSend(flush, now, failure), n)
    ensures Books(cfg, t, after) && (FreshQueue(s.w) ==> FreshQueue(t.w))
  {
    match Prepare(cfg, s.w, !flush && s.isolate, now, failure)
    case Dies(_) => RestartBooks(cfg, s);
    case Goes(w, Send(rows, text)) => SentBooks(cfg, s, t, n);
    case Goes(w, Decided(verdict)) =>
      var h := Resolve(s.h, s.w.db.pending[..Min(1, |s.w.db.pending|)], verdict);
      DecidedBooks(cfg, s, s.(w := w, h := h), flush, verdict, now, failure, n);
  }

  lemma DecidedBooks(
    cfg: Config, s: System, t: System, flush: bool, verdict: Verdict, now: int, failure: Option<SpoolError>, n: nat)
    requires Books(cfg, s, n) && t.base == s.base
    requires Prepare(cfg, s.w, !flush && s.isolate, now, failure) == Goes(t.w, Decided(verdict))
    ensures Books(cfg, Concluded(t, flush, verdict), if flush && verdict.Trouble? then 0 else n)
    ensures FreshQueue(s.w) ==> FreshQueue(Concluded(t, flush, verdict).w)
  {
    PreparePosts(cfg, s, !flush && s.isolate, now, failure);
    EndedBooks(cfg, s, t, flush, verdict, n);
  }

  lemma SentBooks(cfg: Config, s: System, t: System, n: nat)
    requires Books(cfg, s, n) && t.w == s.w && t.base == s.base
    ensures Books(cfg, t, n) && (FreshQueue(s.w) ==> FreshQueue(t.w))
  {
    SameBooks(cfg, s, t, n);
  }

  lemma AnswerBooks(
    cfg: Config, s: System, t: System, flush: bool, f: Flight, answer: Answer, now: int,
    failure: Option<SpoolError>, n: nat, after: nat)
    requires Books(cfg, s, n) && FlightOf(s, flush) == Some(f)
    requires t == DoAnswer(cfg, s, flush, f, answer, now, failure)
    requires after == Repeating(cfg, s, ServerAnswers(flush, answer, now, failure), n)
    ensures Books(cfg, t, after) && (FreshQueue(s.w) ==> FreshQueue(t.w))
  {
    match Finish(cfg, s.w, f.rows, answer, now, failure)
    case Dies(_) => RestartBooks(cfg, s);
    case Goes(w, verdict) =>
      FinishPosts(cfg, s, f.rows, answer, now, failure);
      var u := WithFlight(s.(w := w, h := Resolve(s.h, f.rows, verdict)), flush, None);
      EndedBooks(cfg, s, u, flush, verdict, n);
  }

  /** Storing the held events: those that insert no row are the repeats. */
  lemma EnqueueBooks(cfg: Config, s: System, t: System, n: nat)
    requires Books(cfg, s, n) && Enqueue(s.w.db, cfg.limits, s.w.held).Done? && t.base == s.base
    requires t.w.db == Enqueue(s.w.db, cfg.limits, s.w.held).db && t.w.ingress == s.w.ingress && t.w.held == []
    requires t.w.count == s.w.count.(persisted := s.w.count.persisted + |s.w.held|)
    ensures Books(cfg, t, n + Surplus(s.w.held, Inserted(s.w.db, t.w.db)))
  {
    EnqueueValid(s.w.db, cfg.limits, s.w.held);
    if s.w.held != [] {
      AdmitShorter(Contents(s.w.db), s.w.held);
    }
  }

  lemma {:induction false} AdmitShorter(known: map<string, Content>, events: seq<NewEvent>)
    ensures Admit(known, events).Some? ==> |Admit(known, events).value| <= |events|
    decreases events
  {
    if events != [] {
      var e := events[0];
      AdmitShorter(if e.id in known then known else known[e.id := ContentOf(e)], events[1..]);
    }
  }

  /** Fresh events are all inserted, and the ids left in the queue are still unknown to the spool. */
  lemma EnqueueFresh(cfg: Config, s: System, t: System)
    requires Valid(s.w.db) && FreshQueue(s.w) && Enqueue(s.w.db, cfg.limits, s.w.held).Done?
    requires t.w.db == Enqueue(s.w.db, cfg.limits, s.w.held).db && t.w.ingress == s.w.ingress && t.w.held == []
    ensures FreshQueue(t.w) && Surplus(s.w.held, Inserted(s.w.db, t.w.db)) == 0
  {
    FreshEnqueued(cfg, s.w);
    QueueAfter(s, t, NewRows(s.w.db.lastSequence, s.w.held));
  }

  lemma FreshEnqueued(cfg: Config, w: Worker)
    requires Valid(w.db) && FreshQueue(w) && Enqueue(w.db, cfg.limits, w.held).Done?
    ensures var after := Enqueue(w.db, cfg.limits, w.held).db;
            after.pending == w.db.pending + NewRows(w.db.lastSequence, w.held) && after.dead == w.db.dead
  {
    forall e | e in w.held ensures e.id !in Contents(w.db) {
      ContentsExact(w.db);
      assert e in Queue(w);
    }
    forall i, j | 0 <= i < j < |w.held| ensures w.held[i].id != w.held[j].id {
      assert Queue(w)[i].id != Queue(w)[j].id;
    }
    AdmitFresh(Contents(w.db), w.held);
    assert w.held == [] ==> w.db.pending + NewRows(w.db.lastSequence, w.held) == w.db.pending;
  }

  lemma QueueAfter(s: System, t: System, rows: seq<Row>)
    requires FreshQueue(s.w) && rows == NewRows(s.w.db.lastSequence, s.w.held)
    requires t.w.db.pending == s.w.db.pending + rows && t.w.db.dead == s.w.db.dead
    requires t.w.ingress == s.w.ingress && t.w.held == []
    ensures FreshQueue(t.w)
  {
    assert Queue(t.w) == s.w.ingress;
    DistinctTail(s.w.held, s.w.ingress);
    forall e | e in s.w.ingress ensures !Retains(t.w.db, e.id) {
      NotAmongHeld(s.w.held, s.w.ingress, e);
      StillUnknown(s.w.db, t.w.db, s.w.held, e);
    }
  }

  lemma DistinctTail(xs: seq<NewEvent>, ys: seq<NewEvent>)
    requires forall i, j :: 0 <= i < j < |xs + ys| ==> (xs + ys)[i].id != (xs + ys)[j].id
    ensures forall i, j :: 0 <= i < j < |ys| ==> ys[i].id != ys[j].id
  {
    forall i, j | 0 <= i < j < |ys| ensures ys[i].id != ys[j].id {
      assert (xs + ys)[|xs| + i] == ys[i] && (xs + ys)[|xs| + j] == ys[j];
    }
  }

  lemma StillUnknown(before: Database, after: Database, events: seq<NewEvent>, e: NewEvent)
    requires !Retains(before, e.id) && forall f :: f in events ==> f.id != e.id
    requires after.pending == before.pending + NewRows(before.lastSequence, events) && after.dead == before.dead
    ensures !Retains(after, e.id)
  {
    forall r | r in after.pending ensures r.id != e.id {
      if r !in before.pending {
        var i :| 0 <= i < |events| && NewRows(before.lastSequence, events)[i] == r;
        assert events[i] in events;
      }
    }
  }

  /** An event behind the held ones has an id of its own. */
  lemma NotAmongHeld(xs: seq<NewEvent>, ys: seq<NewEvent>, e: NewEvent)
    requires forall i, j :: 0 <= i < j < |xs + ys| ==> (xs + ys)[i].id != (xs + ys)[j].id
    requires e in ys
    ensures forall f :: f in xs ==> f.id != e.id
  {
    var j :| 0 <= j < |ys| && ys[j] == e;
    forall f | f in xs ensures f.id != e.id {
      var i :| 0 <= i < |xs| && xs[i] == f;
      assert (xs + ys)[i] == f && (xs + ys)[|xs| + j] == e;
    }
  }

  lemma PersistBooks(cfg: Config, s: System, env: Storage, n: nat)
    requires Books(cfg, s, n)
    ensures Books(cfg, DoPersist(cfg, s, env), Repeating(cfg, s, PersistHeld(env), n))
    ensures FreshQueue(s.w) ==> FreshQueue(DoPersist(cfg, s, env).w) && Repeated(cfg, s, PersistHeld(env)) == 0
  {
    match Persist(cfg, s.w, env)
    case Dies(_) => RestartBooks(cfg, s);
    case Goes(w, stored) =>
      var t := DoPersist(cfg, s, env);
      if stored && s.w.held != [] {
        assert t.w.count == s.w.count.(persisted := s.w.count.persisted + |s.w.held|);
        EnqueueBooks(cfg, s, t, n);
        if FreshQueue(s.w) {
          EnqueueFresh(cfg, s, t);
        }
      } else {
        SentBooks(cfg, s, s, n);
        SameBooks(cfg, s, t, n);
        assert Queue(t.w) == Queue(s.w);
        assert Inserted(s.w.db, w.db) == [];
      }
  }

  lemma DrainBooks(cfg: Config, s: System, n: nat)
    requires Books(cfg, s, n)
    ensures Books(cfg, s.(w := Drain(cfg, s.w)), n)
    ensures FreshQueue(s.w) ==> FreshQueue(Drain(cfg, s.w))
  {
    assert Queue(Drain(cfg, s.w)) == Queue(s.w);
  }

  lemma SubmitBooks(cfg: Config, s: System, accepting: bool, event: NewEvent, h: History, n: nat)
    requires Books(cfg, s, n)
    ensures Books(cfg, s.(w := Submit(cfg, s.w, accepting, event).0, h := h), n)
    ensures FreshQueue(s.w) && FreshLabel(s, SubmitEvent(accepting, event)) ==>
              FreshQueue(Submit(cfg, s.w, accepting, event).0)
  {
    var w := Submit(cfg, s.w, accepting, event).0;
    if w.ingress == s.w.ingress {
      assert Queue(w) == Queue(s.w);
    } else {
      assert Queue(w) == Queue(s.w) + [event];
    }
  }

  /** Every step keeps the books; fresh ids stay fresh and repeat nothing. */
  lemma StepBooks(cfg: Config, s: System, l: Label, n: nat)
    requires Books(cfg, s, n) && Next(cfg, s, l).Some?
    ensures Books(cfg, Next(cfg, s, l).value, Repeating(cfg, s, l, n))
    ensures FreshQueue(s.w) && FreshLabel(s, l) ==> FreshQueue(Next(cfg, s, l).value.w) && Repeated(cfg, s, l) == 0
  {
    match l
    case SubmitEvent(accepting, event) => SubmitBooks(cfg, s, accepting, event, Next(cfg, s, l).value.h, n);
    case DrainIngress => DrainBooks(cfg, s, n);
    case PersistHeld(env) => PersistBooks(cfg, s, env, n);
    case StartSend(flush, now, failure) =>
      StartBooks(cfg, s, Next(cfg, s, l).value, flush, now, failure, n, Repeating(cfg, s, l, n));
    case ServerApplies(flush) => SentBooks(cfg, s, Next(cfg, s, l).value, n);
    case ServerAnswers(flush, answer, now, failure) =>
      AnswerBooks(
        cfg, s, Next(cfg, s, l).value, flush, FlightOf(s, flush).value, answer, now, failure, n,
        Repeating(cfg, s, l, n));
    case Restart => RestartBooks(cfg, s);
  }

  predicate FreshRun(cfg: Config, s: System, labels: seq<Label>)
    decreases labels
  {
    labels == [] ||
    (FreshLabel(s, labels[0]) &&
     match Next(cfg, s, labels[0])
     case None => true
     case Some(t) => FreshRun(cfg, t, labels[1..]))
  }

  lemma {:induction false} ExecBooks(cfg: Config, s: System, labels: seq<Label>, n: nat)
    requires Books(cfg, s, n) && Exec(cfg, s, labels).Some?
    ensures Books(cfg, Exec(cfg, s, labels).value, Repeats(cfg, s, labels, n))
    decreases labels
  {
    if labels != [] {
      StepBooks(cfg, s, labels[0], n);
      ExecBooks(cfg, Next(cfg, s, labels[0]).value, labels[1..], Repeating(cfg, s, labels[0], n));
    }
  }

  lemma {:induction false} FreshRepeatsNothing(cfg: Config, s: System, labels: seq<Label>)
    requires Books(cfg, s, 0) && FreshQueue(s.w) && FreshRun(cfg, s, labels) && Exec(cfg, s, labels).Some?
    ensures Repeats(cfg, s, labels, 0) == 0
    decreases labels
  {
    if labels != [] {
      StepBooks(cfg, s, labels[0], 0);
      FreshRepeatsNothing(cfg, Next(cfg, s, labels[0]).value, labels[1..]);
    }
  }

  /** In every run, crashes, overlapping flushes and repeated ids included, the ledger is off by
      exactly the repeats, and accepted events that are not durable never exceed the queue plus one
      persist batch. */
  lemma LedgerBalances(cfg: Config, db: Database, table: Table, labels: seq<Label>)
    requires Valid(db) && Exec(cfg, Start(db, table), labels).Some?
    ensures var s := Exec(cfg, Start(db, table), labels).value;
            var repeats := Repeats(cfg, Start(db, table), labels, 0);
            && Tallied(s, repeats) && (Balanced(s) <==> repeats == 0)
            && s.w.count.submitted - s.w.count.persisted <= cfg.ingressCapacity + cfg.persistRows
  {
    ExecBooks(cfg, Start(db, table), labels, 0);
  }

  /** With fresh event ids it balances. */
  lemma FreshLedgerBalances(cfg: Config, db: Database, table: Table, labels: seq<Label>)
    requires Valid(db) && FreshRun(cfg, Start(db, table), labels) && Exec(cfg, Start(db, table), labels).Some?
    ensures Balanced(Exec(cfg, Start(db, table), labels).value)
  {
    LedgerBalances(cfg, db, table, labels);
    FreshRepeatsNothing(cfg, Start(db, table), labels);
  }

  // -------------------------------------------------------------- a repeated id

  /** One event is submitted and stored. */
  function Round(e: NewEvent): seq<Label> {
    [SubmitEvent(true, e), DrainIngress, PersistHeld(QUIET)]
  }

  function Stored(cfg: Config, s: System, e: NewEvent): System
    requires Enqueue(s.w.db, cfg.limits, [e]).Done?
  {
    var db := Enqueue(s.w.db, cfg.limits, [e]).db;
    var count := s.w.count.(submitted := s.w.count.submitted + 1, persisted := s.w.count.persisted + 1);
    s.(w := Worker(db, [], [], count, P.Resume(s.w.pause)),
    h := s.h.(accepted := s.h.accepted + [e], enqueued := s.h.enqueued + Tags(Inserted(s.w.db, db))))
  }

  lemma RoundStores(cfg: Config, s: System, e: NewEvent, rest: seq<Label>)
    requires cfg.Valid() && s.w.held == [] && s.w.ingress == [] && |e.payload| <= cfg.maxSerializedBytes
    requires Enqueue(s.w.db, cfg.limits, [e]).Done?
    ensures Exec(cfg, s, Round(e) + rest) == Exec(cfg, Stored(cfg, s, e), rest)
  {
    var labels := Round(e) + rest;
    var count := s.w.count.(submitted := s.w.count.submitted + 1);
    var queued := s.(w := s.w.(ingress := [e], count := count), h := s.h.(accepted := s.h.accepted + [e]));
    var held := queued.(w := queued.w.(ingress := [], held := [e]));
    assert s.w.ingress + [e] == [e] && [e][..1] == [e] && [e][1..] == [] && s.w.held + [e] == [e];
    assert labels[0..] == labels && labels[3..] == rest;
    ExecOn(cfg, s, labels, 0, queued);
    ExecOn(cfg, queued, labels, 1, held);
    ExecOn(cfg, held, labels, 2, Stored(cfg, s, e));
  }

  /** Stored twice, the event is a row at most once. */
  lemma TwiceStored(cfg: Config, s: System, e: NewEvent)
    requires cfg.Valid() && Valid(s.w.db) && Within(s.w.db, cfg.limits) && Enqueue(s.w.db, cfg.limits, [e]).Done?
    ensures var t := Stored(cfg, s, e);
            && |t.w.db.pending| <= |s.w.db.pending| + 1
            && Enqueue(t.w.db, cfg.limits, [e]) == Done(0, t.w.db)
  {
    EnqueueValid(s.w.db, cfg.limits, [e]);
    ApplyWithin(s.w.db, cfg.limits, EnqueueMany([e]));
    EnqueueRetains(s.w.db, cfg.limits, [e], e);
    EnqueueAgain(Stored(cfg, s, e).w.db, cfg.limits, [e]);
    AdmitShorter(Contents(s.w.db), [e]);
  }

  /** On every spool, an event that is submitted twice unbalances the ledger. */
  lemma RepeatUnbalances(cfg: Config, db: Database, table: Table, e: NewEvent)
    requires cfg.Valid() && Valid(db) && Within(db, cfg.limits)
    requires Enqueue(db, cfg.limits, [e]).Done? && |e.payload| <= cfg.maxSerializedBytes
    ensures var labels := Round(e) + Round(e);
            Exec(cfg, Start(db, table), labels).Some? && !Balanced(Exec(cfg, Start(db, table), labels).value)
  {
    var s := Start(db, table);
    TwiceStored(cfg, s, e);
    RoundStores(cfg, s, e, Round(e));
    RoundStores(cfg, Stored(cfg, s, e), e, []);
    assert Round(e) + [] == Round(e);
  }
}
