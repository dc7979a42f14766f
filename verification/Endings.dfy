/** When a process ends, and what that costs: the exact causes, the events lost in a run, and the runs
    that lose none. */
module Endings {
  import opened Basics
  import opened SpoolState
  import opened SpoolRows
  import opened SpoolLaws
  import opened Batch
  import opened WorkerState
  import opened System
  import opened Steps
  import opened Fifo
  import opened Verdicts
  import I = Isolation
  import P = Pause

  /** A failure that no later attempt clears, unless the table is merely full. */
  predicate Final(fault: Option<SpoolError>, full: SpoolError) {
    fault.Some? && !Clears(fault) && fault != Some(full)
  }

  /** What ends a process: an enqueue, an answer or a head refused for good, a head that no request can
      carry, a storage condition in the shutdown flush, or a restart. */
  predicate Fatal(cfg: Config, s: System, l: Label) {
    match l
    case PersistHeld(env) =>
      s.w.held != [] && LeavesRoom(s.w, env) && Final(StoreFault(cfg, s.w, env), PendingFull)
    case StartSend(flush, now, failure) =>
      var isolate := !flush && s.isolate;
      var fault := HeadFault(cfg, s.w, isolate, now, failure);
      || Build(cfg, s.w.db, isolate).TooLarge? || Build(cfg, s.w.db, isolate).PeekError?
      || Final(fault, DeadLetterFull) || (flush && Clears(fault))
    case ServerAnswers(flush, answer, now, failure) =>
      (match FlightOf(s, flush)
       case None => false
       case Some(f) =>
         var fault := AnswerFault(cfg, s.w, f.rows, answer, now, failure);
         (fault.Some? && !Clears(fault) && !NoSpaceToBury(Demand(f.rows, answer, now), fault)) || (flush
                                                                                                   && Clears(fault)))
    case Restart => true
    case _ => false
  }

  lemma PersistEnds(cfg: Config, s: System, env: Storage)
    ensures Ends(cfg, s, PersistHeld(env)) <==> Fatal(cfg, s, PersistHeld(env))
  {
    PersistEndsExactly(cfg, s.w, env);
  }

  lemma StartEnds(cfg: Config, s: System, flush: bool, now: int, failure: Option<SpoolError>)
    ensures Ends(cfg, s, StartSend(flush, now, failure)) <==> Fatal(cfg, s, StartSend(flush, now, failure))
  {
    var isolate := !flush && s.isolate;
    PrepareEndsExactly(cfg, s.w, isolate, now, failure);
    match Prepare(cfg, s.w, isolate, now, failure)
    case Goes(w, prepared) => PrepareLeavesExactly(cfg, s.w, isolate, now, failure, w, prepared);
    case Dies(_) =>
  }

  lemma AnswerEnds(
    cfg: Config, s: System, flush: bool, f: Flight, answer: Answer, now: int, failure: Option<SpoolError>)
    requires FlightOf(s, flush) == Some(f)
    ensures var l := ServerAnswers(flush, answer, now, failure); Ends(cfg, s, l) <==> Fatal(cfg, s, l)
  {
    AnswerEndsExactly(cfg, s.w, f.rows, answer, now, failure);
    if Finish(cfg, s.w, f.rows, answer, now, failure).Goes? {
      VerdictExactly(cfg, s.w, f.rows, answer, now, failure);
    }
  }

  /** A step ends the process exactly for one of the listed causes. */
  lemma EndsExactly(cfg: Config, s: System, l: Label)
    ensures Ends(cfg, s, l) <==> Fatal(cfg, s, l)
  {
    match l
    case PersistHeld(env) => PersistEnds(cfg, s, env);
    case StartSend(flush, now, failure) => StartEnds(cfg, s, flush, now, failure);
    case ServerAnswers(flush, answer, now, failure) =>
      if FlightOf(s, flush).Some? {
        AnswerEnds(cfg, s, flush, FlightOf(s, flush).value, answer, now, failure);
      }
    case _ =>
  }

  // ------------------------------------------------------------ what is lost

  /** What a run loses: at each fatal step what was held and queued. */
  function LostIn(cfg: Config, s: System, labels: seq<Label>): seq<NewEvent>
    decreases labels
  {
    if labels == [] || Next(cfg, s, labels[0]).None? then []
    else
      (if Fatal(cfg, s, labels[0]) then s.w.held + s.w.ingress else [])
      + LostIn(cfg, Next(cfg, s, labels[0]).value, labels[1..])
  }

  lemma StartLoss(cfg: Config, s: System, flush: bool, now: int, failure: Option<SpoolError>)
    ensures var l := StartSend(flush, now, failure);
            DoStart(cfg, s, flush, now, failure).h.lost
            == s.h.lost + if Ends(cfg, s, l) then s.w.held + s.w.ingress else []
  {
    var isolate := !flush && s.isolate;
    SeqAssoc(s.h.lost, s.w.held, s.w.ingress);
    if Prepare(cfg, s.w, isolate, now, failure).Goes? {
      PrepareCases(cfg, s.w, isolate, now, failure);
    }
  }

  lemma AnswerLoss(
    cfg: Config, s: System, flush: bool, f: Flight, answer: Answer, now: int, failure: Option<SpoolError>)
    requires FlightOf(s, flush) == Some(f)
    ensures var l := ServerAnswers(flush, answer, now, failure);
            DoAnswer(cfg, s, flush, f, answer, now, failure).h.lost
            == s.h.lost + if Ends(cfg, s, l) then s.w.held + s.w.ingress else []
  {
    SeqAssoc(s.h.lost, s.w.held, s.w.ingress);
    if Finish(cfg, s.w, f.rows, answer, now, failure).Goes? {
      FinishCases(cfg, s.w, f.rows, answer, now, failure);
    }
  }

  lemma StepLoss(cfg: Config, s: System, l: Label)
    requires Next(cfg, s, l).Some?
    ensures Next(cfg, s, l).value.h.lost == s.h.lost + if Ends(cfg, s, l) then s.w.held + s.w.ingress else []
  {
    SeqAssoc(s.h.lost, s.w.held, s.w.ingress);
    match l
    case StartSend(flush, now, failure) => StartLoss(cfg, s, flush, now, failure);
    case ServerAnswers(flush, answer, now, failure) =>
      AnswerLoss(cfg, s, flush, FlightOf(s, flush).value, answer, now, failure);
    case _ =>
  }

  /** Over every run the lost events are exactly those held or queued at its fatal steps, in order. */
  lemma {:induction false} LostExactly(cfg: Config, s: System, labels: seq<Label>)
    requires Exec(cfg, s, labels).Some?
    ensures Exec(cfg, s, labels).value.h.lost == s.h.lost + LostIn(cfg, s, labels)
    decreases labels
  {
    if labels != [] {
      var t := Next(cfg, s, labels[0]).value;
      var now := if Fatal(cfg, s, labels[0]) then s.w.held + s.w.ingress else [];
      StepLoss(cfg, s, labels[0]);
      EndsExactly(cfg, s, labels[0]);
      LostExactly(cfg, t, labels[1..]);
      SeqAssoc(s.h.lost, now, LostIn(cfg, t, labels[1..]));
    }
  }

  /** No persist step loses an event because pending or the disk is full, or the disk is read-only: the
      spool, the queue, the held events and the history stay, and a pause is open. */
  lemma FullNeverLoses(cfg: Config, s: System, env: Storage)
    requires s.w.held != []
    requires !LeavesRoom(s.w, env) || Clears(StoreFault(cfg, s.w, env)) || StoreFault(cfg, s.w, env)
                                                                           == Some(PendingFull)
    ensures Next(cfg, s, PersistHeld(env)).Some?
    ensures var t := Next(cfg, s, PersistHeld(env)).value;
            && t.h == s.h && t.w.db == s.w.db && t.w.held == s.w.held && t.w.ingress == s.w.ingress
            && t.w.pause.episode.Some?
  {
    PersistEndsExactly(cfg, s.w, env);
    match Persist(cfg, s.w, env)
    case Dies(_) =>
    case Goes(w, stored) =>
      PersistLeavesExactly(cfg, s.w, env, w, stored);
      assert s.w.db.pending[|s.w.db.pending|..] == [];
      assert s.h.enqueued + [] == s.h.enqueued;
  }
}
