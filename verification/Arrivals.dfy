/** From `submit` to the spool: events are stored in the order in which they were accepted. */
module Arrivals {
  import opened Basics
  import opened SpoolState
  import opened SpoolRows
  import opened SpoolLaws
  import opened Batch
  import opened WorkerState
  import opened System
  import opened Steps
  import opened Fifo
  import opened Conservation
  import L = Ledger

  // ----------------------------------------------------- where rows come from

  function AsTags(tags: seq<Tag>): set<Tag> {
    set t | t in tags
  }

  /** Every dead letter ever written was one from the start or resolved a row. */
  ghost predicate Sourced(prior: set<Tag>, s: System) {
    SourcedHistory(prior, s.h)
  }

  ghost predicate SourcedHistory(prior: set<Tag>, h: History) {
    forall t :: t in h.buried ==> t in prior || t in h.resolved
  }

  lemma ResolveSourced(prior: set<Tag>, h: History, rows: seq<Row>, verdict: Verdict)
    requires SourcedHistory(prior, h)
    ensures SourcedHistory(prior, Resolve(h, rows, verdict))
  {
  }

  lemma ConcludedSourced(prior: set<Tag>, s: System, flush: bool, verdict: Verdict)
    requires Sourced(prior, s)
    ensures Sourced(prior, Concluded(s, flush, verdict))
  {
  }

  lemma StartSourced(cfg: Config, prior: set<Tag>, s: System, flush: bool, now: int, failure: Option<SpoolError>)
    requires Sourced(prior, s)
    ensures Sourced(prior, DoStart(cfg, s, flush, now, failure))
  {
    match Prepare(cfg, s.w, !flush && s.isolate, now, failure)
    case Goes(w, Decided(verdict)) =>
      var front := s.w.db.pending[..Min(1, |s.w.db.pending|)];
      ResolveSourced(prior, s.h, front, verdict);
      ConcludedSourced(prior, s.(w := w, h := Resolve(s.h, front, verdict)), flush, verdict);
    case _ =>
  }

  lemma AnswerSourced(
    cfg: Config, prior: set<Tag>, s: System, flush: bool, f: Flight, answer: Answer, now: int,
    failure: Option<SpoolError>)
    requires Sourced(prior, s)
    ensures Sourced(prior, DoAnswer(cfg, s, flush, f, answer, now, failure))
  {
    match Finish(cfg, s.w, f.rows, answer, now, failure)
    case Goes(w, verdict) =>
      ResolveSourced(prior, s.h, f.rows, verdict);
      ConcludedSourced(prior, WithFlight(s.(w := w, h := Resolve(s.h, f.rows, verdict)), flush, None), flush, verdict);
    case _ =>
  }

  lemma StepSourced(cfg: Config, prior: set<Tag>, s: System, l: Label)
    requires Sourced(prior, s) && Next(cfg, s, l).Some?
    ensures Sourced(prior, Next(cfg, s, l).value)
  {
    match l
    case StartSend(flush, now, failure) => StartSourced(cfg, prior, s, flush, now, failure);
    case ServerAnswers(flush, answer, now, failure) =>
      AnswerSourced(cfg, prior, s, flush, FlightOf(s, flush).value, answer, now, failure);
    case _ =>
  }

  // ------------------------------------------------------ order is kept

  /** Each event in order either became the next row or repeats the content of an earlier one. */
  ghost predicate Represents(seen: set<Tag>, events: seq<NewEvent>, tags: seq<Tag>)
    decreases events
  {
    if events == [] then tags == []
    else
      || (tags != [] && Carries(tags[0], events[0]) && Represents(seen + {tags[0]}, events[1..], tags[1..]))
      || ((exists t :: t in seen && Carries(t, events[0])) && Represents(seen, events[1..], tags))
  }

  lemma {:induction false} RepresentsMore(seen: set<Tag>, more: set<Tag>, events: seq<NewEvent>, tags: seq<Tag>)
    requires Represents(seen, events, tags) && seen <= more
    ensures Represents(more, events, tags)
    decreases events
  {
    if events != [] {
      if tags != [] && Carries(tags[0], events[0]) && Represents(seen + {tags[0]}, events[1..], tags[1..]) {
        RepresentsMore(seen + {tags[0]}, more + {tags[0]}, events[1..], tags[1..]);
      } else {
        RepresentsMore(seen, more, events[1..], tags);
      }
    }
  }

  lemma {:induction false} RepresentsConcat(
    seen: set<Tag>, xs: seq<NewEvent>, a: seq<Tag>, ys: seq<NewEvent>, b: seq<Tag>)
    requires Represents(seen, xs, a) && Represents(seen + AsTags(a), ys, b)
    ensures Represents(seen, xs + ys, a + b)
    decreases xs
  {
    if xs == [] {
      assert xs + ys == ys && a + b == b;
      assert seen + AsTags(a) == seen;
    } else {
      HeadTail(xs, ys);
      if a != [] && Carries(a[0], xs[0]) && Represents(seen + {a[0]}, xs[1..], a[1..]) {
        HeadTail(a, b);
        assert seen + AsTags(a) == seen + {a[0]} + AsTags(a[1..]) by {
          assert a == [a[0]] + a[1..];
        }
        RepresentsConcat(seen + {a[0]}, xs[1..], a[1..], ys, b);
      } else {
        RepresentsConcat(seen, xs[1..], a, ys, b);
      }
    }
  }

  /** If nothing was left out, event and row correspond one to one. */
  lemma {:induction false} RepresentsAll(seen: set<Tag>, events: seq<NewEvent>, tags: seq<Tag>)
    requires Represents(seen, events, tags)
    ensures |tags| <= |events|
    ensures |tags| == |events| ==> forall i :: 0 <= i < |tags| ==> Carries(tags[i], events[i])
    decreases events
  {
    if events != [] {
      if tags != [] && Carries(tags[0], events[0]) && Represents(seen + {tags[0]}, events[1..], tags[1..]) {
        RepresentsAll(seen + {tags[0]}, events[1..], tags[1..]);
        forall i | 0 <= i < |tags| && |tags| == |events| ensures Carries(tags[i], events[i]) {
          assert i > 0 ==> tags[i] == tags[1..][i - 1] && events[i] == events[1..][i - 1];
        }
      } else {
        RepresentsAll(seen, events[1..], tags);
      }
    }
  }

  /** Storing a batch keeps its order: an event is left out only if its content is retained already. */
  lemma {:induction false} AdmitRepresents(
    known: map<string, Content>, events: seq<NewEvent>, seen: set<Tag>, last: nat)
    requires Admit(known, events).Some?
    requires forall id :: id in known ==> exists t :: t in seen && t.id == id && (t.payload, t.created) == known[id]
    ensures Represents(seen, events, Tags(NewRows(last, Admit(known, events).value)))
    decreases events
  {
    if events != [] {
      var e := events[0];
      if e.id in known {
        AdmitRepresents(known, events[1..], seen, last);
        var t :| t in seen && t.id == e.id && (t.payload, t.created) == known[e.id];
        assert Carries(t, e);
      } else {
        AdmitHead(known, events, seen, last);
      }
    }
  }

  lemma AdmitHead(known: map<string, Content>, events: seq<NewEvent>, seen: set<Tag>, last: nat)
    requires events != [] && events[0].id !in known && Admit(known, events).Some?
    requires forall id :: id in known ==> exists t :: t in seen && t.id == id && (t.payload, t.created) == known[id]
    ensures Represents(seen, events, Tags(NewRows(last, Admit(known, events).value)))
    decreases events, 0
  {
    var e := events[0];
    var grown := known[e.id := ContentOf(e)];
    var novel := Admit(known, events).value;
    var tags := Tags(NewRows(last, novel));
    assert tags[1..] == Tags(NewRows(last + 1, novel[1..]));
    assert Carries(tags[0], e);
    forall id | id in grown
      ensures exists t :: t in seen + {tags[0]} && t.id == id && (t.payload, t.created) == grown[id]
    {
      if id == e.id {
        assert tags[0] in seen + {tags[0]};
      } else {
        var t :| t in seen && t.id == id && (t.payload, t.created) == known[id];
        assert t in seen + {tags[0]};
      }
    }
    AdmitRepresents(grown, events[1..], seen + {tags[0]}, last + 1);
  }

  // ------------------------------------------------------- the running process

  /** How many events were accepted, and how many rows inserted, when the running process began. */
  datatype Mark = Mark(accepted: nat, enqueued: nat)

  function Here(s: System): Mark {
    Mark(|s.h.accepted|, |s.h.enqueued|)
  }

  /** Where the process began that is running at the end of a run. */
  function Since(cfg: Config, s: System, labels: seq<Label>, mark: Mark): Mark
    decreases labels
  {
    if labels == [] || Next(cfg, s, labels[0]).None? then mark
    else
      var t := Next(cfg, s, labels[0]).value;
      Since(cfg, t, labels[1..], if Ends(cfg, s, labels[0]) then Here(t) else mark)
  }

  /** The events accepted by the running process fall into those stored and those still queued. */
  ghost predicate Queued(s: System, mark: Mark, stored: seq<NewEvent>) {
    && mark.accepted <= |s.h.accepted| && mark.enqueued <= |s.h.enqueued|
    && s.h.accepted[mark.accepted..] == stored + s.w.held + s.w.ingress
  }

  /** Those stored are, in order, the rows inserted, `repeats` of them left out as repetitions. */
  ghost predicate Arrived(prior: set<Tag>, s: System, mark: Mark, stored: seq<NewEvent>, repeats: nat) {
    && Queued(s, mark, stored)
    && Represents(prior + AsTags(s.h.enqueued[..mark.enqueued]), stored, s.h.enqueued[mark.enqueued..])
    && |stored| == |s.h.enqueued| - mark.enqueued + repeats
  }

  /** Every retained row was enqueued or is a dead letter from the start. */
  ghost predicate Ground(cfg: Config, prior: set<Tag>, s: System) {
    Lined(cfg, s) && Conservation.Inv(s) && Sourced(prior, s)
  }

  lemma StepGround(cfg: Config, prior: set<Tag>, s: System, l: Label)
    requires Ground(cfg, prior, s) && Next(cfg, s, l).Some?
    ensures Ground(cfg, prior, Next(cfg, s, l).value)
  {
    StepLined(cfg, s, l);
    StepKeeps(cfg, s, l);
    StepSourced(cfg, prior, s, l);
  }

  lemma PendingEnqueued(cfg: Config, s: System, r: Row)
    requires Lined(cfg, s) && r in s.w.db.pending
    ensures TagOf(r) in s.h.enqueued
  {
    TagsIn(s.w.db.pending, TagOf(r));
  }

  lemma DeadSourced(cfg: Config, prior: set<Tag>, s: System, d: DeadRow)
    requires Ground(cfg, prior, s) && d in s.w.db.dead
    ensures DeadTag(d) in prior + AsTags(s.h.enqueued)
  {
    assert DeadTag(d) in s.h.buried;
  }

  lemma RetainedSeen(cfg: Config, prior: set<Tag>, s: System)
    requires Ground(cfg, prior, s)
    ensures forall id :: id in Contents(s.w.db) ==>
                           exists t :: t in prior + AsTags(s.h.enqueued) && t.id == id
                                       && (t.payload, t.created) == Contents(s.w.db)[id]
  {
    var db := s.w.db;
    ContentsExact(db);
    forall id | id in Contents(db)
      ensures exists t :: t in prior + AsTags(s.h.enqueued) && t.id == id && (t.payload, t.created) == Contents(db)[id]
    {
      if r :| r in db.pending && r.id == id {
        PendingEnqueued(cfg, s, r);
        assert TagOf(r) in prior + AsTags(s.h.enqueued);
      } else {
        var d :| d in db.dead && d.id == id;
        DeadSourced(cfg, prior, s, d);
        assert DeadTag(d) in prior + AsTags(s.h.enqueued);
      }
    }
  }

  // --------------------------------------------------------------- the steps

  /** Nothing was accepted, queued, stored or inserted. */
  predicate SameQueue(s: System, t: System) {
    t.h.accepted == s.h.accepted && t.h.enqueued == s.h.enqueued && t.w.held == s.w.held && t.w.ingress == s.w.ingress
  }

  predicate NewProcess(s: System, t: System) {
    t.h.accepted == s.h.accepted && t.h.enqueued == s.h.enqueued && t.w.held == [] && t.w.ingress == []
  }

  lemma ConcludedQueue(s: System, t: System, flush: bool, verdict: Verdict)
    requires SameQueue(s, t)
    ensures var u := Concluded(t, flush, verdict);
            if flush && verdict.Trouble? then NewProcess(s, u) else SameQueue(s, u)
  {
  }

  lemma StartQueue(cfg: Config, s: System, flush: bool, now: int, failure: Option<SpoolError>, t: System)
    requires t == DoStart(cfg, s, flush, now, failure)
    ensures if Ends(cfg, s, StartSend(flush, now, failure)) then NewProcess(s, t) else SameQueue(s, t)
  {
    var isolate := !flush && s.isolate;
    match Prepare(cfg, s.w, isolate, now, failure)
    case Goes(w, Decided(verdict)) =>
      PrepareCases(cfg, s.w, isolate, now, failure);
      var h := Resolve(s.h, s.w.db.pending[..Min(1, |s.w.db.pending|)], verdict);
      ConcludedQueue(s, s.(w := w, h := h), flush, verdict);
    case Goes(w, Send(rows, text)) => PrepareCases(cfg, s.w, isolate, now, failure);
    case Dies(_) =>
  }

  lemma AnswerQueue(
    cfg: Config, s: System, flush: bool, f: Flight, answer: Answer, now: int, failure: Option<SpoolError>)
    requires FlightOf(s, flush) == Some(f)
    ensures var t := DoAnswer(cfg, s, flush, f, answer, now, failure);
            if Ends(cfg, s, ServerAnswers(flush, answer, now, failure)) then NewProcess(s, t) else SameQueue(s, t)
  {
    if Finish(cfg, s.w, f.rows, answer, now, failure).Goes? {
      FinishCases(cfg, s.w, f.rows, answer, now, failure);
    }
  }

  lemma NewArrived(prior: set<Tag>, s: System, t: System)
    requires NewProcess(s, t)
    ensures Arrived(prior, t, Here(t), [], 0)
  {
  }

  /** A stored batch represents the held events. */
  lemma EnqueueRepresents(cfg: Config, prior: set<Tag>, s: System, after: Database)
    requires Ground(cfg, prior, s) && s.w.held != []
    requires Enqueue(s.w.db, cfg.limits, s.w.held).Done? && after == Enqueue(s.w.db, cfg.limits, s.w.held).db
    ensures Represents(prior + AsTags(s.h.enqueued), s.w.held, Tags(Inserted(s.w.db, after)))
    ensures |Inserted(s.w.db, after)| <= |s.w.held|
  {
    var novel := Admit(Contents(s.w.db), s.w.held).value;
    assert Inserted(s.w.db, after) == NewRows(s.w.db.lastSequence, novel);
    RetainedSeen(cfg, prior, s);
    AdmitRepresents(Contents(s.w.db), s.w.held, prior + AsTags(s.h.enqueued), s.w.db.lastSequence);
    L.AdmitShorter(Contents(s.w.db), s.w.held);
  }

  lemma RepresentsOnward(
    seen: set<Tag>, enqueued: seq<Tag>, n: nat, stored: seq<NewEvent>, held: seq<NewEvent>, more: seq<Tag>)
    requires n <= |enqueued| && Represents(seen + AsTags(enqueued[..n]), stored, enqueued[n..])
    requires Represents(seen + AsTags(enqueued), held, more)
    ensures (enqueued + more)[..n] == enqueued[..n]
    ensures Represents(seen + AsTags(enqueued[..n]), stored + held, (enqueued + more)[n..])
  {
    var before, own := enqueued[..n], enqueued[n..];
    assert enqueued == before + own;
    assert seen + AsTags(enqueued) == seen + AsTags(before) + AsTags(own);
    assert (enqueued + more)[n..] == own + more;
    RepresentsConcat(seen + AsTags(before), stored, own, held, more);
  }

  /** Storing the held events. */
  lemma EnqueueArrived(
    cfg: Config, prior: set<Tag>, s: System, t: System, mark: Mark, stored: seq<NewEvent>, repeats: nat)
    requires Ground(cfg, prior, s) && Arrived(prior, s, mark, stored, repeats)
    requires Enqueue(s.w.db, cfg.limits, s.w.held).Done? && s.w.held != []
    requires t.w.db == Enqueue(s.w.db, cfg.limits, s.w.held).db && t.w.held == [] && t.w.ingress == s.w.ingress
    requires t.h == s.h.(enqueued := s.h.enqueued + Tags(Inserted(s.w.db, t.w.db)))
    ensures Arrived(prior, t, mark, stored + s.w.held, repeats + L.Surplus(s.w.held, Inserted(s.w.db, t.w.db)))
  {
    EnqueueRepresents(cfg, prior, s, t.w.db);
    RepresentsOnward(prior, s.h.enqueued, mark.enqueued, stored, s.w.held, Tags(Inserted(s.w.db, t.w.db)));
    assert stored + s.w.held + [] == stored + s.w.held;
  }

  lemma PersistArrived(
    cfg: Config, prior: set<Tag>, s: System, env: Storage, t: System, mark: Mark, stored: seq<NewEvent>, repeats: nat)
    returns (more: seq<NewEvent>)
    requires Ground(cfg, prior, s) && Arrived(prior, s, mark, stored, repeats)
    requires t == DoPersist(cfg, s, env) && !Ends(cfg, s, PersistHeld(env))
    ensures Arrived(prior, t, mark, more, L.Repeating(cfg, s, PersistHeld(env), repeats))
  {
    if s.w.held != [] && Persist(cfg, s.w, env).value {
      EnqueueArrived(cfg, prior, s, t, mark, stored, repeats);
      return stored + s.w.held;
    }
    assert s.w.db.pending[|s.w.db.pending|..] == [];
    assert s.h.enqueued + [] == s.h.enqueued;
    return stored;
  }

  lemma SubmitArrived(
    prior: set<Tag>, s: System, t: System, mark: Mark, stored: seq<NewEvent>, repeats: nat, e: NewEvent)
    requires Arrived(prior, s, mark, stored, repeats)
    requires t.h == s.h.(accepted := s.h.accepted + [e]) && t.w.held == s.w.held && t.w.ingress == s.w.ingress + [e]
    ensures Arrived(prior, t, mark, stored, repeats)
  {
    assert t.h.accepted[mark.accepted..] == s.h.accepted[mark.accepted..] + [e];
    SeqAssoc(stored + s.w.held, s.w.ingress, [e]);
  }

  lemma DrainArrived(
    cfg: Config, prior: set<Tag>, s: System, t: System, mark: Mark, stored: seq<NewEvent>, repeats: nat)
    requires Arrived(prior, s, mark, stored, repeats) && t == s.(w := Drain(cfg, s.w))
    ensures Arrived(prior, t, mark, stored, repeats)
  {
    assert t.w.held + t.w.ingress == s.w.held + s.w.ingress;
    SeqAssoc(stored, s.w.held, s.w.ingress);
    SeqAssoc(stored, t.w.held, t.w.ingress);
  }

  /** Every step keeps the order, and a new process starts with nothing stored or queued. */
  lemma StepArrived(
    cfg: Config, prior: set<Tag>, s: System, l: Label, t: System, mark: Mark, stored: seq<NewEvent>, repeats: nat)
    returns (more: seq<NewEvent>)
    requires Ground(cfg, prior, s) && Arrived(prior, s, mark, stored, repeats) && Next(cfg, s, l) == Some(t)
    ensures Arrived(prior, t, if Ends(cfg, s, l) then Here(t) else mark, more, L.Repeating(cfg, s, l, repeats))
  {
    more := if Ends(cfg, s, l) then [] else stored;
    match l
    case SubmitEvent(accepting, e) =>
      if Submit(cfg, s.w, accepting, e).1 {
        SubmitArrived(prior, s, t, mark, stored, repeats, e);
      }
    case DrainIngress => DrainArrived(cfg, prior, s, t, mark, stored, repeats);
    case PersistHeld(env) =>
      if !Ends(cfg, s, l) {
        more := PersistArrived(cfg, prior, s, env, t, mark, stored, repeats);
      }
    case StartSend(flush, now, failure) => StartQueue(cfg, s, flush, now, failure, t);
    case ServerAnswers(flush, answer, now, failure) =>
      AnswerQueue(cfg, s, flush, FlightOf(s, flush).value, answer, now, failure);
    case _ =>
  }

  lemma {:induction false} ExecArrived(
    cfg: Config, prior: set<Tag>, s: System, labels: seq<Label>, mark: Mark, stored: seq<NewEvent>, repeats: nat)
    returns (more: seq<NewEvent>)
    requires Ground(cfg, prior, s) && Arrived(prior, s, mark, stored, repeats) && Exec(cfg, s, labels).Some?
    ensures Arrived(prior, Exec(cfg, s, labels).value, Since(cfg, s, labels, mark), more,
                    L.Repeats(cfg, s, labels, repeats))
    ensures Ground(cfg, prior, Exec(cfg, s, labels).value)
    decreases labels
  {
    if labels == [] {
      return stored;
    }
    var l, t := labels[0], Next(cfg, s, labels[0]).value;
    more := StepArrived(cfg, prior, s, l, t, mark, stored, repeats);
    StepGround(cfg, prior, s, l);
    var next := if Ends(cfg, s, l) then Here(t) else mark;
    more := ExecArrived(cfg, prior, t, labels[1..], next, more, L.Repeating(cfg, s, l, repeats));
  }

  // ------------------------------------------------------------- the theorems

  lemma StartArrived(cfg: Config, db: Database, table: Table)
    requires Valid(db)
    ensures Ground(cfg, AsTags(Start(db, table).h.buried), Start(db, table))
    ensures Arrived(AsTags(Start(db, table).h.buried), Start(db, table), Mark(0, |db.pending|), [], 0)
  {
    var s := Start(db, table);
    StartOrdering(cfg, db, table);
    forall d | d in db.dead ensures DeadTag(d) in s.h.buried {
      var i :| 0 <= i < |db.dead| && db.dead[i] == d;
      assert s.h.buried[i] == DeadTag(d);
    }
  }

  /** The events the running process has accepted and no longer holds. */
  function StoredSince(s: System, mark: Mark): seq<NewEvent> {
    var own := if mark.accepted <= |s.h.accepted| then s.h.accepted[mark.accepted..] else [];
    var queued := |s.w.held| + |s.w.ingress|;
    if queued <= |own| then own[..|own| - queued] else own
  }

  lemma StoredIs(s: System, mark: Mark, stored: seq<NewEvent>)
    requires Queued(s, mark, stored)
    ensures StoredSince(s, mark) == stored
  {
    var own := s.h.accepted[mark.accepted..];
    assert own == stored + (s.w.held + s.w.ingress);
    assert own[..|stored|] == stored;
  }

  /** In every run the events accepted by the running process are, in order, those it stored, then the
      held ones, then the queue; and those it stored are, in order, the rows it inserted, an event being
      left out only if an earlier row or an initial dead letter has its content. */
  lemma StoredInOrder(cfg: Config, db: Database, table: Table, labels: seq<Label>)
    requires Valid(db) && Exec(cfg, Start(db, table), labels).Some?
    ensures var s := Exec(cfg, Start(db, table), labels).value;
            var mark := Since(cfg, Start(db, table), labels, Mark(0, |db.pending|));
            && mark.accepted <= |s.h.accepted| && mark.enqueued <= |s.h.enqueued|
            && s.h.accepted[mark.accepted..] == StoredSince(s, mark) + s.w.held + s.w.ingress
            && Represents(AsTags(Start(db, table).h.buried) + AsTags(s.h.enqueued[..mark.enqueued]),
                          StoredSince(s, mark), s.h.enqueued[mark.enqueued..])
  {
    var prior := AsTags(Start(db, table).h.buried);
    StartArrived(cfg, db, table);
    var stored := ExecArrived(cfg, prior, Start(db, table), labels, Mark(0, |db.pending|), [], 0);
    StoredIs(Exec(cfg, Start(db, table), labels).value, Since(cfg, Start(db, table), labels, Mark(0, |db.pending|)),
             stored);
  }

  /** Row by row, what was inserted since the mark is what was accepted since, up to what is queued. */
  ghost predicate Follows(s: System, mark: Mark) {
    && mark.accepted <= |s.h.accepted| && mark.enqueued <= |s.h.enqueued|
    && var own, rows := s.h.accepted[mark.accepted..], s.h.enqueued[mark.enqueued..];
    && |own| == |rows| + |s.w.held| + |s.w.ingress| && own[|rows|..] == s.w.held + s.w.ingress
    && forall i :: 0 <= i < |rows| ==> Carries(rows[i], own[i])
  }

  lemma ArrivedFollows(prior: set<Tag>, s: System, mark: Mark, stored: seq<NewEvent>)
    requires Arrived(prior, s, mark, stored, 0)
    ensures Follows(s, mark)
  {
    RepresentsAll(prior + AsTags(s.h.enqueued[..mark.enqueued]), stored, s.h.enqueued[mark.enqueued..]);
    assert s.h.accepted[mark.accepted..] == stored + (s.w.held + s.w.ingress);
  }

  /** FIFO from `submit`: with fresh ids the rows inserted by the running process are exactly the events
      it accepted, in the order of acceptance, up to those still held or queued. */
  lemma FifoFromSubmit(cfg: Config, db: Database, table: Table, labels: seq<Label>)
    requires Valid(db) && L.FreshRun(cfg, Start(db, table), labels) && Exec(cfg, Start(db, table), labels).Some?
    ensures Follows(Exec(cfg, Start(db, table), labels).value,
                    Since(cfg, Start(db, table), labels, Mark(0, |db.pending|)))
  {
    var prior, mark := AsTags(Start(db, table).h.buried), Mark(0, |db.pending|);
    StartArrived(cfg, db, table);
    var stored := ExecArrived(cfg, prior, Start(db, table), labels, mark, [], 0);
    L.FreshRepeatsNothing(cfg, Start(db, table), labels);
    ArrivedFollows(prior, Exec(cfg, Start(db, table), labels).value, Since(cfg, Start(db, table), labels, mark),
                   stored);
  }
}
