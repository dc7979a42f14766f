/** Which pause actions a run of the pipeline takes, and that its bookkeeping is what exactly these
    leave behind: the discipline proved for pause actions holds in every run. */
module PauseRuns {
  import opened Basics
  import opened SpoolState
  import opened Batch
  import opened WorkerState
  import opened System
  import P = Pause

  lemma {:induction false} RunConcat(p: P.Pause, a: seq<P.Action>, b: seq<P.Action>)
    ensures P.Run(p, a + b).0 == P.Run(P.Run(p, a).0, b).0
    ensures P.Run(p, a + b).1 == P.Run(p, a).1 + P.Run(P.Run(p, a).0, b).1
    decreases a
  {
    if a == [] {
      assert a + b == b;
    } else {
      var (q, log) := P.Act(p, a[0]);
      HeadTail(a, b);
      RunConcat(q, a[1..], b);
      SeqAssoc(log, P.Run(q, a[1..]).1, P.Run(P.Run(p, a).0, b).1);
    }
  }

  lemma RunOne(p: P.Pause, a: P.Action)
    ensures P.Run(p, [a]).0 == P.Act(p, a).0
  {
    assert P.Run(P.Act(p, a).0, [a][1..]) == (P.Act(p, a).0, []);
  }

  // --------------------------------------------------------- actions of a step

  /** What an attempt to store the held events does to the pause. */
  function PersistAction(cfg: Config, w: Worker, env: Storage): P.Action {
    var refused := match Struck(Enqueue(w.db, cfg.limits, w.held), env.failure)
      case Done(_, _) => None
      case Failed(error) => Some(P.ReasonOf(error));
    P.PersistAttempt(env.first, env.now, env.spool, env.second, refused)
  }

  /** How a delivery ends for the pause: an acknowledgement ends it, storage trouble opens one in the
      delivery loop and ends the process in the shutdown flush. */
  function VerdictActions(flush: bool, verdict: Verdict): Option<seq<P.Action>> {
    match verdict
    case Success => Some([P.DeliveryAcknowledged])
    case Trouble(error) => if flush then None else Some([P.DeliveryRefused(P.ReasonOf(error))])
    case _ => Some([])
  }

  /** The pause actions of one step, or None when the step ends the process. */
  function StepActions(cfg: Config, s: System, l: Label): Option<seq<P.Action>> {
    match l
    case PersistHeld(env) =>
      if Persist(cfg, s.w, env).Dies? then None
      else if s.w.held == [] then Some([])
      else Some([PersistAction(cfg, s.w, env)])
    case StartSend(flush, now, failure) =>
      (match Prepare(cfg, s.w, !flush && s.isolate, now, failure)
       case Dies(_) => None
       case Goes(_, Send(_, _)) => Some([])
       case Goes(_, Decided(verdict)) => VerdictActions(flush, verdict))
    case ServerAnswers(flush, answer, now, failure) =>
      (match FlightOf(s, flush)
       case None => Some([])
       case Some(f) =>
         match Finish(cfg, s.w, f.rows, answer, now, failure)
         case Dies(_) => None
         case Goes(_, verdict) => VerdictActions(flush, verdict))
    case Restart => None
    case _ => Some([])
  }

  /** The pause actions of the process that is running at the end of a run, in order; `before` are
      those it had taken at the start. */
  function Actions(cfg: Config, s: System, labels: seq<Label>, before: seq<P.Action>): seq<P.Action>
    decreases labels
  {
    if labels == [] || Next(cfg, s, labels[0]).None? then before
    else
      Actions(cfg, Next(cfg, s, labels[0]).value, labels[1..],
              match StepActions(cfg, s, labels[0]) case None => [] case Some(more) => before + more)
  }

  // --------------------------------------------------- steps follow their actions

  /** The bookkeeping behind a step. */
  predicate Follows(p: P.Pause, actions: Option<seq<P.Action>>, q: P.Pause) {
    match actions
    case None => q == P.Calm
    case Some(more) => q == P.Run(p, more).0
  }

  lemma PersistFollows(cfg: Config, s: System, env: Storage)
    ensures Follows(s.w.pause, StepActions(cfg, s, PersistHeld(env)), DoPersist(cfg, s, env).w.pause)
  {
    if Persist(cfg, s.w, env).Goes? && s.w.held != [] {
      PersistPauses(cfg, s.w, env);
      RunOne(s.w.pause, PersistAction(cfg, s.w, env));
    }
  }

  lemma PersistPauses(cfg: Config, w: Worker, env: Storage)
    requires Persist(cfg, w, env).Goes? && w.held != []
    ensures Persist(cfg, w, env).w.pause == P.Act(w.pause, PersistAction(cfg, w, env)).0
  {
  }

  lemma FinishPauses(cfg: Config, w: Worker, rows: seq<Row>, answer: Answer, now: int, failure: Option<SpoolError>)
    requires Finish(cfg, w, rows, answer, now, failure).Goes?
    ensures var step := Finish(cfg, w, rows, answer, now, failure);
            step.w.pause == if step.value.Success? then P.Act(w.pause, P.DeliveryAcknowledged).0 else w.pause
  {
  }

  lemma PreparePauses(cfg: Config, w: Worker, isolate: bool, now: int, failure: Option<SpoolError>)
    requires Prepare(cfg, w, isolate, now, failure).Goes?
    ensures var step := Prepare(cfg, w, isolate, now, failure);
            step.w.pause == w.pause && (step.value.Decided? ==> !step.value.verdict.Success?)
  {
  }

  /** `s` stands behind the delivery, its pause already ended if the rows were acknowledged. */
  lemma ConcludedFollows(p: P.Pause, s: System, flush: bool, verdict: Verdict)
    requires s.w.pause == if verdict.Success? then P.Act(p, P.DeliveryAcknowledged).0 else p
    ensures Follows(p, VerdictActions(flush, verdict), Concluded(s, flush, verdict).w.pause)
  {
    match verdict
    case Success => RunOne(p, P.DeliveryAcknowledged);
    case Trouble(error) => RunOne(p, P.DeliveryRefused(P.ReasonOf(error)));
    case _ =>
  }

  lemma StartFollows(cfg: Config, s: System, flush: bool, now: int, failure: Option<SpoolError>)
    ensures Follows(s.w.pause, StepActions(cfg, s, StartSend(flush, now, failure)),
                    DoStart(cfg, s, flush, now, failure).w.pause)
  {
    var isolate := !flush && s.isolate;
    match Prepare(cfg, s.w, isolate, now, failure)
    case Goes(w, Decided(verdict)) =>
      PreparePauses(cfg, s.w, isolate, now, failure);
      var t := s.(w := w, h := Resolve(s.h, s.w.db.pending[..Min(1, |s.w.db.pending|)], verdict));
      ConcludedFollows(s.w.pause, t, flush, verdict);
    case _ =>
  }

  lemma AnswerFollows(
    cfg: Config, s: System, flush: bool, f: Flight, answer: Answer, now: int, failure: Option<SpoolError>)
    requires FlightOf(s, flush) == Some(f)
    ensures Follows(s.w.pause, StepActions(cfg, s, ServerAnswers(flush, answer, now, failure)),
                    DoAnswer(cfg, s, flush, f, answer, now, failure).w.pause)
  {
    match Finish(cfg, s.w, f.rows, answer, now, failure)
    case Goes(w, verdict) =>
      FinishPauses(cfg, s.w, f.rows, answer, now, failure);
      ConcludedFollows(s.w.pause, WithFlight(s.(w := w, h := Resolve(s.h, f.rows, verdict)), flush, None), flush,
                       verdict);
    case _ =>
  }

  lemma StepFollows(cfg: Config, s: System, l: Label)
    requires Next(cfg, s, l).Some?
    ensures Follows(s.w.pause, StepActions(cfg, s, l), Next(cfg, s, l).value.w.pause)
  {
    match l
    case PersistHeld(env) => PersistFollows(cfg, s, env);
    case StartSend(flush, now, failure) => StartFollows(cfg, s, flush, now, failure);
    case ServerAnswers(flush, answer, now, failure) =>
      AnswerFollows(cfg, s, flush, FlightOf(s, flush).value, answer, now, failure);
    case _ =>
  }

  lemma {:induction false} ExecFollows(cfg: Config, s: System, labels: seq<Label>, before: seq<P.Action>)
    requires s.w.pause == P.Run(P.Calm, before).0 && Exec(cfg, s, labels).Some?
    ensures Exec(cfg, s, labels).value.w.pause == P.Run(P.Calm, Actions(cfg, s, labels, before)).0
    decreases labels
  {
    if labels != [] {
      var l := labels[0];
      StepFollows(cfg, s, l);
      match StepActions(cfg, s, l)
      case None => ExecFollows(cfg, Next(cfg, s, l).value, labels[1..], []);
      case Some(more) =>
        RunConcat(P.Calm, before, more);
        ExecFollows(cfg, Next(cfg, s, l).value, labels[1..], before + more);
    }
  }

  /** In every reachable state of the pipeline the bookkeeping is what the pause actions of the running
      process leave behind; their log keeps the discipline, and the counters balance. */
  lemma PausesBalance(cfg: Config, db: Database, table: Table, labels: seq<Label>)
    requires Exec(cfg, Start(db, table), labels).Some?
    ensures var p := Exec(cfg, Start(db, table), labels).value.w.pause;
            var (q, log) := P.Run(P.Calm, Actions(cfg, Start(db, table), labels, []));
            && p == q && P.Balanced(p) && P.Keeps(p, log)
            && P.RewritesApart(log) && P.PassesApart(log) && P.EnqueuesChecked(log)
  {
    ExecFollows(cfg, Start(db, table), labels, []);
    P.PauseDiscipline(Actions(cfg, Start(db, table), labels, []));
    P.PauseKept(Actions(cfg, Start(db, table), labels, []));
  }
}
