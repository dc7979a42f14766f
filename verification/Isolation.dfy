/** Bad-row isolation: against a server that only accepts or rejects, the delivery loop settles every
    row in front of the first one it cannot put into a request, with at most two requests a row. */
module Isolation {
  import opened Basics
  import opened SpoolState
  import opened SpoolRows
  import opened SpoolLaws
  import opened Ilp
  import IlpParser
  import opened Batch
  import opened WorkerState
  import opened System
  import opened Steps
  import opened Fifo
  import opened ExactlyOnce

  // --------------------------------------------------------------- stuck rows

  /** A head like this ends the worker: it cannot be peeked, or its encoding exceeds a whole request. */
  predicate Stuck(cfg: Config, payload: Bytes) {
    || |payload| > MAX_SQLITE_BATCH_BYTES
    || (Encoding(cfg, payload).Some? && ByteLength(Encoding(cfg, payload).value) > cfg.deliveryBytes)
  }

  /** How many rows stand in front of the first stuck one. */
  function Reach(cfg: Config, tags: seq<Tag>): (n: nat)
    ensures n <= |tags| && (n < |tags| ==> Stuck(cfg, tags[n].payload))
    ensures forall i :: 0 <= i < n ==> !Stuck(cfg, tags[i].payload)
  {
    if tags == [] || Stuck(cfg, tags[0].payload) then 0 else 1 + Reach(cfg, tags[1..])
  }

  lemma {:induction false} ReachIs(cfg: Config, tags: seq<Tag>, n: nat)
    requires n <= |tags| && (n < |tags| ==> Stuck(cfg, tags[n].payload))
    requires forall i :: 0 <= i < n ==> !Stuck(cfg, tags[i].payload)
    ensures Reach(cfg, tags) == n
  {
    if n > 0 {
      ReachIs(cfg, tags[1..], n - 1);
    }
  }

  lemma ReachBehind(cfg: Config, tags: seq<Tag>, n: nat)
    requires n <= Reach(cfg, tags)
    ensures Reach(cfg, tags[n..]) == Reach(cfg, tags) - n
  {
    ReachIs(cfg, tags[n..], Reach(cfg, tags) - n);
  }

  lemma {:induction false} AffordableRows(rows: seq<Row>, maxBytes: int, r: Row)
    requires r in rows[..Affordable(rows, maxBytes)]
    ensures |r.payload| <= maxBytes
  {
    var n := Affordable(rows, maxBytes);
    assert rows[..n] == [rows[0]] + rows[1..][..n - 1];
    if r != rows[0] {
      AffordableRows(rows[1..], maxBytes - |rows[0].payload|, r);
    }
  }

  lemma {:induction false} EncodedRow(cfg: Config, rows: seq<Row>, r: Row)
    requires AllEncode(cfg, rows) && r in rows
    ensures ByteLength(Encoding(cfg, r.payload).value) <= EncodedBytes(cfg, rows)
  {
    assert rows[0] in rows;
    if r != rows[0] {
      EncodedRow(cfg, rows[1..], r);
    }
  }

  /** Building a request fails exactly on a stuck head, and no request contains a stuck row. */
  lemma BuildReaches(cfg: Config, db: Database, isolate: bool)
    requires cfg.Valid() && db.pending != []
    ensures var built := Build(cfg, db, isolate);
            if Stuck(cfg, db.pending[0].payload) then built.TooLarge? || built.PeekError?
            else built.Undecodable? || (built.Ready? && forall r :: r in built.rows ==> !Stuck(cfg, r.payload))
  {
    var maxRows := if isolate then 1 else cfg.deliveryRows;
    var window := if |db.pending| <= maxRows then db.pending else db.pending[..maxRows];
    var k := Affordable(window, MAX_SQLITE_BATCH_BYTES);
    if k > 0 {
      var rows := window[..k];
      assert rows[0] == db.pending[0];
      AffordableRows(window, MAX_SQLITE_BATCH_BYTES, rows[0]);
      var n := Take(cfg, rows, cfg.deliveryBytes);
      TakeIsLongest(cfg, rows, cfg.deliveryBytes, n);
      forall r | r in rows[..n] ensures !Stuck(cfg, r.payload) {
        AffordableRows(window, MAX_SQLITE_BATCH_BYTES, r);
        EncodedRow(cfg, rows[..n], r);
      }
    }
  }

  // ---------------------------------------------------------------- one turn

  datatype Turn = Turn(s: System, sent: nat) | Stops

  function Serve(cfg: Config, s: System, f: Flight): System {
    s.(main := Some(f), table := if f.applied then Upsert(s.table, ParseOr(f.text)) else s.table)
  }

  function ParseOr(text: string): seq<IlpParser.IlpRow> {
    match IlpParser.ParseBatch(text) case None => [] case Some(rows) => rows
  }

  function Reply(f: Flight): Answer {
    if f.applied then Acknowledged else BadRequest
  }

  /** One pass of the delivery loop with rows pending: the server applies what it can accept and
      says so, rejects the rest, and storage does not fail. */
  function TakeTurn(cfg: Config, s: System, now: int): Turn {
    match Prepare(cfg, s.w, s.isolate, now, None)
    case Dies(_) => Stops
    case Goes(_, Decided(_)) => Turn(DoStart(cfg, s, false, now, None), 0)
    case Goes(_, Send(rows, text)) =>
      var f := Flight(rows, text, Acceptable(cfg, text));
      Turn(Exchange(cfg, s, f, now), 1)
  }

  function Exchange(cfg: Config, s: System, f: Flight, now: int): System {
    DoAnswer(cfg, Serve(cfg, s, f), false, f, Reply(f), now, None)
  }

  ghost predicate Idle(cfg: Config, s: System) {
    cfg.Wired() && Ordered(cfg, s) && Within(s.w.db, cfg.limits)
    && s.main.None? && s.flush.None?
  }

  /** Where the events stand: pending, delivered, dead-lettered. */
  datatype Standing = Standing(pending: seq<Tag>, acked: seq<Tag>, buried: seq<Tag>)

  function StandingOf(s: System): Standing {
    Standing(Tags(s.w.db.pending), s.h.acked, s.h.buried)
  }

  /** The front rows were settled: the good ones delivered, the others dead-lettered, in order. */
  ghost predicate Settles(cfg: Config, s: System, t: System, n: nat) {
    match StandingOf(t)
    case Standing(pending, acked, buried) =>
      var tags := Tags(s.w.db.pending);
      && n <= |tags| && pending == tags[n..]
      && acked == s.h.acked + GoodTags(cfg, tags[..n])
      && buried == s.h.buried + BadTags(cfg, tags[..n])
  }

  lemma DeliveredSettles(cfg: Config, s: System, t: System, rows: seq<Row>, text: string)
    requires cfg.Wired() && Advances(s, t, rows) && AllEncode(cfg, rows) && text == Payload(cfg, rows)
             && Acceptable(cfg, text)
    requires t.h == Resolve(s.h, rows, Success)
    ensures Settles(cfg, s, t, |rows|)
  {
    AcceptableRows(cfg, rows, text);
    AllGood(cfg, rows);
    TagsSlice(s.w.db.pending, |rows|);
    assert s.h.buried + [] == s.h.buried;
  }

  lemma BuriedSettles(cfg: Config, s: System, t: System, row: Row)
    requires Advances(s, t, [row]) && !Good(cfg, row.payload)
    requires t.h == Resolve(s.h, [row], DeadLetter)
    ensures Settles(cfg, s, t, 1)
  {
    assert Tags([row]) == [TagOf(row)];
    OneBad(cfg, TagOf(row));
    TagsSlice(s.w.db.pending, 1);
    assert s.h.acked + [] == s.h.acked;
  }

  /** What a turn does when the head is not stuck. */
  ghost predicate Progress(cfg: Config, s: System, turn: Turn) {
    turn.Turn? && Idle(cfg, turn.s) && Moves(cfg, s, turn.s, turn.sent)
  }

  /** Rows are settled from the front, or the batch is split, with at most one request. */
  ghost predicate Moves(cfg: Config, s: System, t: System, sent: nat) {
    && sent <= 1 && |t.w.db.pending| <= |s.w.db.pending|
    && var n := Gone(s, t);
    || (0 < n <= Reach(cfg, Tags(s.w.db.pending)) && Settles(cfg, s, t, n) && !t.isolate)
    || (!s.isolate && t.isolate && 0 < Reach(cfg, Tags(s.w.db.pending)) && n == 0 && Settles(cfg, s, t, 0))
  }

  lemma SplitSettles(cfg: Config, s: System, t: System)
    requires Stays(s, t)
    ensures Settles(cfg, s, t, 0) && |t.w.db.pending| == |s.w.db.pending|
  {
    assert |Tags(t.w.db.pending)| == |Tags(s.w.db.pending)|;
    assert Tags(s.w.db.pending)[0..] == Tags(s.w.db.pending) && Tags(s.w.db.pending)[..0] == [];
    assert s.h.acked + [] == s.h.acked && s.h.buried + [] == s.h.buried;
  }

  // ------------------------------------------------------- every turn settles

  lemma Attempted(db: Database, rows: seq<Row>)
    requires Valid(db) && 0 < |rows| <= |db.pending| && rows == db.pending[..|rows|]
    ensures MarkDelivered(db, Sequences(rows)).Done?
    ensures RecordAttempt(db, Sequences(rows), REJECT_ERROR, false).Done?
  {
    FrontNumbers(db, |rows|);
  }

  lemma Rejectable(cfg: Config, db: Database, row: Row, error: string, now: int)
    requires Valid(db) && Within(db, cfg.limits) && cfg.Valid() && db.pending != [] && row == db.pending[0]
    requires error != "" && INT64_MIN <= now <= INT64_MAX
    ensures MoveToDeadLetter(db, cfg.limits, [row.sequence], error, now, false).Done?
  {
    FrontNumbers(db, 1);
    assert Sequences(db.pending[..1]) == [row.sequence];
    DeadLetterFullExactly(db, cfg.limits, [row.sequence], error, now, false);
  }

  lemma MarkWithin(db: Database, limits: Limits, sequences: seq<int>)
    requires Valid(db) && limits.Valid() && Within(db, limits)
    ensures Within(After(db, MarkDelivered(db, sequences)), limits)
  {
    ApplyWithin(db, limits, Delivered(sequences));
  }

  lemma MovedWithin(db: Database, limits: Limits, sequences: seq<int>, error: string, now: int)
    requires Valid(db) && limits.Valid() && Within(db, limits)
    ensures Within(After(db, MoveToDeadLetter(db, limits, sequences, error, now, false)), limits)
  {
    if MoveToDeadLetter(db, limits, sequences, error, now, false).Done? {
      MoveWithin(db, limits, sequences, error, now, false);
    }
  }

  lemma AttemptWithin(db: Database, limits: Limits, sequences: seq<int>)
    requires Valid(db) && limits.Valid() && Within(db, limits)
    ensures Within(After(db, RecordAttempt(db, sequences, REJECT_ERROR, false)), limits)
  {
    ApplyWithin(db, limits, SpoolLaws.Attempted(sequences, REJECT_ERROR, false));
  }

  /** What the answer to a request does to the worker when nothing fails. */
  lemma Answered(cfg: Config, w: Worker, rows: seq<Row>, f: Flight, now: int)
    requires Valid(w.db) && Within(w.db, cfg.limits) && cfg.Valid() && INT64_MIN <= now <= INT64_MAX
    requires 0 < |rows| <= |w.db.pending| && rows == w.db.pending[..|rows|]
    ensures var step := Finish(cfg, w, rows, Reply(f), now, None);
            && step.Goes? && Within(step.w.db, cfg.limits)
            && (if f.applied then step.value.Success?
                else if |rows| > 1 then step.value.Split? else step.value.DeadLetter?)
  {
    var sequences := Sequences(rows);
    Attempted(w.db, rows);
    if f.applied {
      MarkWithin(w.db, cfg.limits, sequences);
    } else if |rows| > 1 {
      AttemptWithin(w.db, cfg.limits, sequences);
    } else {
      assert sequences == [rows[0].sequence];
      Rejectable(cfg, w.db, rows[0], REJECT_ERROR, now);
      MovedWithin(w.db, cfg.limits, sequences, REJECT_ERROR, now);
    }
  }

  /** A concluded turn that settled `n` rows, or split, is progress. */
  lemma TurnEnds(
    cfg: Config, s: System, t: System, u: System, rows: seq<Row>, verdict: Verdict, n: nat, sent: nat)
    requires u == Concluded(t, false, verdict)
    requires cfg.Wired() && Ordered(cfg, s) && Within(t.w.db, cfg.limits) && t.main.None? && t.flush.None? && sent <= 1
    requires (Advances(s, t, rows) && Valid(t.w.db)) || Stays(s, t)
    requires Settles(cfg, s, t, n) && |t.w.db.pending| == |s.w.db.pending| - n
    requires if verdict.Split? then n == 0 && !s.isolate && 0 < Reach(cfg, Tags(s.w.db.pending))
             else (verdict.Success? || verdict.DeadLetter?) && 0 < n <= Reach(cfg, Tags(s.w.db.pending))
    ensures Progress(cfg, s, Turn(u, sent))
  {
    ConcludedIdle(cfg, s, t, rows, verdict);
    ConcludedMoves(cfg, s, t, u, n, sent);
  }

  lemma ConcludedMoves(cfg: Config, s: System, t: System, u: System, n: nat, sent: nat)
    requires u.w == t.w && u.h == t.h && sent <= 1
    requires Settles(cfg, s, t, n) && |t.w.db.pending| == |s.w.db.pending| - n
    requires if u.isolate then n == 0 && !s.isolate && 0 < Reach(cfg, Tags(s.w.db.pending))
             else 0 < n <= Reach(cfg, Tags(s.w.db.pending))
    ensures Moves(cfg, s, u, sent)
  {
  }

  lemma ConcludedIdle(cfg: Config, s: System, t: System, rows: seq<Row>, verdict: Verdict)
    requires cfg.Wired() && Ordered(cfg, s) && Within(t.w.db, cfg.limits) && t.main.None? && t.flush.None?
             && !verdict.Trouble?
    requires (Advances(s, t, rows) && Valid(t.w.db)) || Stays(s, t)
    ensures var u := Concluded(t, false, verdict);
            Idle(cfg, u) && u.w == t.w && u.h == t.h && u.isolate == verdict.Split?
  {
    ConcludedOrdered(cfg, s, t, false, rows, verdict);
  }

  lemma SendProgress(cfg: Config, s: System, rows: seq<Row>, text: string, now: int)
    requires Idle(cfg, s) && cfg.Valid() && INT64_MIN <= now <= INT64_MAX
    requires IsBatch(cfg, s.w.db, rows, text) && (s.isolate ==> |rows| == 1)
    requires |rows| <= Reach(cfg, Tags(s.w.db.pending))
    ensures var f := Flight(rows, text, Acceptable(cfg, text));
            Progress(cfg, s, Turn(Exchange(cfg, s, f, now), 1))
  {
    var f := Flight(rows, text, Acceptable(cfg, text));
    var u := Serve(cfg, s, f);
    ServedOrdered(cfg, s, f);
    Answered(cfg, s.w, rows, f, now);
    match Finish(cfg, u.w, rows, Reply(f), now, None)
    case Goes(w, verdict) =>
      var t := u.(w := w, h := Resolve(u.h, rows, verdict), main := None);
      AnswerSummary(cfg, u, t, f, Reply(f), verdict, now, None);
      AnswerSettles(cfg, u, t, f, verdict);
      var done := Concluded(t, false, verdict);
      TurnEnds(cfg, u, t, done, rows, verdict, if verdict.Split? then 0 else |rows|, 1);
      Unserved(cfg, s, u, Turn(done, 1));
  }

  lemma ServedOrdered(cfg: Config, s: System, f: Flight)
    requires Idle(cfg, s) && IsBatch(cfg, s.w.db, f.rows, f.text)
    ensures Ordered(cfg, Serve(cfg, s, f)) && Front(cfg, s.w.db, f)
  {
    TagsSlice(s.w.db.pending, |f.rows|);
  }

  lemma Unserved(cfg: Config, s: System, u: System, turn: Turn)
    requires u.w == s.w && u.h == s.h && u.isolate == s.isolate && Progress(cfg, u, turn)
    ensures Progress(cfg, s, turn)
  {
  }

  lemma AnswerSettles(cfg: Config, s: System, t: System, f: Flight, verdict: Verdict)
    requires cfg.Wired() && IsBatch(cfg, s.w.db, f.rows, f.text) && f.applied == Acceptable(cfg, f.text)
    requires Answers(s, t, f.rows, Reply(f), verdict) && t.h == Resolve(s.h, f.rows, verdict)
    requires if f.applied then verdict.Success? else if |f.rows| > 1 then verdict.Split? else verdict.DeadLetter?
    ensures Settles(cfg, s, t, if verdict.Split? then 0 else |f.rows|)
    ensures |t.w.db.pending| == |s.w.db.pending| - if verdict.Split? then 0 else |f.rows|
  {
    match verdict
    case Success => DeliveredSettles(cfg, s, t, f.rows, f.text);
    case DeadLetter =>
      RejectedIsBad(cfg, f.rows, f.text);
      assert f.rows == [f.rows[0]];
      BuriedSettles(cfg, s, t, f.rows[0]);
    case _ =>
      SplitSettles(cfg, s, t);
  }

  lemma BuryProgress(cfg: Config, s: System, u: System, now: int)
    requires u == DoStart(cfg, s, false, now, None)
    requires Idle(cfg, s) && cfg.Valid() && INT64_MIN <= now <= INT64_MAX && s.w.db.pending != []
    requires Build(cfg, s.w.db, s.isolate) == Undecodable(s.w.db.pending[0])
    requires 0 < Reach(cfg, Tags(s.w.db.pending))
    ensures Prepare(cfg, s.w, s.isolate, now, None).Goes?
            && Prepare(cfg, s.w, s.isolate, now, None).value == Decided(DeadLetter)
    ensures Progress(cfg, s, Turn(u, 0))
  {
    var row := s.w.db.pending[0];
    Buriable(cfg, s.w, s.isolate, row, now);
    var t := s.(w := Prepare(cfg, s.w, s.isolate, now, None).w, h := Resolve(s.h, [row], DeadLetter));
    assert s.w.db.pending[..1] == [row];
    assert s.w.db.pending[..Min(1, |s.w.db.pending|)] == [row];
    PrepareSummary(cfg, s, t, s.isolate, DeadLetter, now, None);
    BuriedEnds(cfg, s, t, u, row);
  }

  lemma BuriedEnds(cfg: Config, s: System, t: System, u: System, row: Row)
    requires Idle(cfg, s) && s.w.db.pending != [] && row == s.w.db.pending[0] && !Good(cfg, row.payload)
    requires t.main.None? && t.flush.None? && Within(t.w.db, cfg.limits) && u == Concluded(t, false, DeadLetter)
    requires Advances(s, t, [row]) && Valid(t.w.db) && t.h == Resolve(s.h, [row], DeadLetter)
    requires 0 < Reach(cfg, Tags(s.w.db.pending))
    ensures Progress(cfg, s, Turn(u, 0))
  {
    BuriedSettles(cfg, s, t, row);
    TurnEnds(cfg, s, t, u, [row], DeadLetter, 1, 0);
  }

  lemma Buriable(cfg: Config, w: Worker, isolate: bool, row: Row, now: int)
    requires Valid(w.db) && Within(w.db, cfg.limits) && cfg.Valid() && w.db.pending != [] && row == w.db.pending[0]
    requires Build(cfg, w.db, isolate) == Undecodable(row) && INT64_MIN <= now <= INT64_MAX
    ensures var step := Prepare(cfg, w, isolate, now, None);
            step.Goes? && step.value == Decided(DeadLetter) && Within(step.w.db, cfg.limits) && !Good(cfg, row.payload)
  {
    BatchIsPrefix(cfg, w.db, isolate);
    Rejectable(cfg, w.db, row, ENCODING_ERROR, now);
    MovedWithin(w.db, cfg.limits, [row.sequence], ENCODING_ERROR, now);
  }

  /** A pass stops exactly on a stuck head; otherwise it settles rows from the front, or splits. */
  lemma TurnProgress(cfg: Config, s: System, now: int)
    requires Idle(cfg, s) && cfg.Valid() && INT64_MIN <= now <= INT64_MAX && s.w.db.pending != []
    ensures if Reach(cfg, Tags(s.w.db.pending)) == 0 then TakeTurn(cfg, s, now).Stops?
            else Progress(cfg, s, TakeTurn(cfg, s, now))
  {
    var head := s.w.db.pending[0];
    assert Tags(s.w.db.pending)[0].payload == head.payload;
    BuildReaches(cfg, s.w.db, s.isolate);
    BatchIsPrefix(cfg, s.w.db, s.isolate);
    match Build(cfg, s.w.db, s.isolate)
    case Ready(rows, text) =>
      BatchReaches(cfg, s.w.db, rows);
      SendProgress(cfg, s, rows, text, now);
    case Undecodable(row) => BuryProgress(cfg, s, DoStart(cfg, s, false, now, None), now);
    case _ =>
  }

  lemma BatchReaches(cfg: Config, db: Database, rows: seq<Row>)
    requires |rows| <= |db.pending| && rows == db.pending[..|rows|]
    requires forall r :: r in rows ==> !Stuck(cfg, r.payload)
    ensures |rows| <= Reach(cfg, Tags(db.pending))
  {
    forall i | 0 <= i < |rows| ensures !Stuck(cfg, Tags(db.pending)[i].payload) {
      assert rows[i] in rows;
    }
  }

  lemma SettlesOn(cfg: Config, a: System, b: System, c: System, n: nat, k: nat)
    requires Settles(cfg, a, b, n) && Settles(cfg, b, c, k)
    ensures Settles(cfg, a, c, n + k)
  {
    var tags := Tags(a.w.db.pending);
    assert |Tags(b.w.db.pending)| == |tags| - n;
    assert tags[n..][k..] == tags[n + k..];
    assert tags[..n + k] == tags[..n] + tags[n..][..k];
    SplitConcat(cfg, tags[..n], tags[n..][..k]);
    SeqAssoc(a.h.acked, GoodTags(cfg, tags[..n]), GoodTags(cfg, tags[n..][..k]));
    SeqAssoc(a.h.buried, BadTags(cfg, tags[..n]), BadTags(cfg, tags[n..][..k]));
  }

  /** The delivery loop with no new ingress, a server that only answers 2xx or 400, and storage that
      works. What it does is the run `labels` of the pipeline with an honest server, with `sends`
      requests: it stops after at most two of them a row, with everything in front of the first stuck
      row delivered if good and dead-lettered if not. */
  method DeliverAll(cfg: Config, start: System, clock: nat -> int)
    returns (s: System, sends: nat, ghost labels: seq<Label>)
    requires Idle(cfg, start) && cfg.Valid() && !start.isolate
    requires forall i: nat :: INT64_MIN <= clock(i) <= INT64_MAX
    ensures Runs(cfg, start, labels, s, sends)
    ensures AllSettled(cfg, start, s, sends)
  {
    s, sends, labels := start, 0, [];
    var ticks := 0;
    ghost var done: nat := 0;
    SettlesNothing(cfg, start);
    while s.w.db.pending != []
      invariant Idle(cfg, s) && Halfway(cfg, start, s, done, sends) && Runs(cfg, start, labels, s, sends)
      decreases Measure(s)
    {
      var turn, more, next := NextPass(cfg, start, s, done, sends, clock(ticks));
      if turn.Stops? {
        return;
      }
      RunsOn(cfg, start, labels, s, sends, more, turn.s, turn.sent);
      labels, done := labels + more, next;
      s, sends, ticks := turn.s, sends + turn.sent, ticks + 1;
    }
    StopSettles(cfg, start, s, done, sends);
  }

  function Measure(s: System): nat {
    2 * |s.w.db.pending| + if s.isolate then 0 else 1
  }

  /** The first `done` rows are settled, at two requests a row so far. */
  ghost predicate Halfway(cfg: Config, start: System, s: System, done: nat, sends: nat) {
    && done <= Reach(cfg, Tags(start.w.db.pending)) && Settles(cfg, start, s, done)
    && (s.isolate ==> done < Reach(cfg, Tags(start.w.db.pending)))
    && sends <= 2 * done + if s.isolate then 1 else 0
  }

  /** A pass stops exactly on a stuck head; otherwise it settles rows from the front, or splits. */
  method Pass(cfg: Config, s: System, now: int) returns (turn: Turn, ghost labels: seq<Label>)
    requires Idle(cfg, s) && cfg.Valid() && INT64_MIN <= now <= INT64_MAX && s.w.db.pending != []
    ensures if Reach(cfg, Tags(s.w.db.pending)) == 0 then turn.Stops? else Progress(cfg, s, turn)
    ensures turn.Turn? ==> Runs(cfg, s, labels, turn.s, turn.sent)
  {
    TurnProgress(cfg, s, now);
    turn, labels := TakeTurn(cfg, s, now), [];
    if turn.Turn? {
      TurnIsRun(cfg, s, now);
      labels := TurnLabels(cfg, s, now);
    }
  }

  /** The same pass, seen from the start of the loop. */
  method NextPass(cfg: Config, ghost start: System, s: System, ghost done: nat, ghost sends: nat, now: int)
    returns (turn: Turn, ghost labels: seq<Label>, ghost next: nat)
    requires Idle(cfg, s) && Halfway(cfg, start, s, done, sends) && s.w.db.pending != []
    requires cfg.Valid() && INT64_MIN <= now <= INT64_MAX
    ensures turn.Stops? ==> Settled(cfg, start, s, sends)
    ensures turn.Turn? ==> Measure(turn.s) < Measure(s) && Halfway(cfg, start, turn.s, next, sends + turn.sent)
    ensures turn.Turn? ==> Idle(cfg, turn.s) && Runs(cfg, s, labels, turn.s, turn.sent)
  {
    next := done;
    turn, labels := Pass(cfg, s, now);
    if turn.Turn? {
      next := done + Gone(s, turn.s);
      TurnSettles(cfg, start, s, turn.s, turn.sent, done, sends, next);
    } else {
      StopSettles(cfg, start, s, done, sends);
    }
  }

  /** With nothing pending or a stuck head, everything in front of the first stuck row is settled. */
  lemma StopSettles(cfg: Config, start: System, s: System, done: nat, sends: nat)
    requires Halfway(cfg, start, s, done, sends) && Reach(cfg, Tags(s.w.db.pending)) == 0
    ensures Settled(cfg, start, s, sends)
  {
    ReachBehind(cfg, Tags(start.w.db.pending), done);
  }

  ghost predicate AllSettled(cfg: Config, start: System, s: System, sends: nat) {
    Idle(cfg, s) && Settled(cfg, start, s, sends)
  }

  ghost predicate Settled(cfg: Config, start: System, s: System, sends: nat) {
    var n := Reach(cfg, Tags(start.w.db.pending));
    Settles(cfg, start, s, n) && sends <= 2 * n
  }

  /** The measure falls and the bound of two requests a row is kept. */
  lemma TurnSettles(
    cfg: Config, start: System, s: System, t: System, sent: nat, done: nat, sends: nat, next: nat)
    requires Halfway(cfg, start, s, done, sends) && Moves(cfg, s, t, sent) && next == done + Gone(s, t)
    ensures Measure(t) < Measure(s) && Halfway(cfg, start, t, next, sends + sent)
  {
    ReachBehind(cfg, Tags(start.w.db.pending), done);
    SettlesOn(cfg, start, s, t, done, Gone(s, t));
    TurnBounds(cfg, start, s, t, sent, done, sends);
  }

  lemma TurnBounds(cfg: Config, start: System, s: System, t: System, sent: nat, done: nat, sends: nat)
    requires Halfway(cfg, start, s, done, sends) && Moves(cfg, s, t, sent)
    requires Reach(cfg, Tags(s.w.db.pending)) == Reach(cfg, Tags(start.w.db.pending)) - done
    ensures var next := done + Gone(s, t);
            && next <= Reach(cfg, Tags(start.w.db.pending))
            && (t.isolate ==> next < Reach(cfg, Tags(start.w.db.pending)))
            && sends + sent <= 2 * next + (if t.isolate then 1 else 0) && Measure(t) < Measure(s)
  {
  }

  /** How many rows a turn took out of pending. */
  function Gone(s: System, t: System): nat {
    if |t.w.db.pending| <= |s.w.db.pending| then |s.w.db.pending| - |t.w.db.pending| else 0
  }

  lemma SettlesNothing(cfg: Config, s: System)
    ensures Settles(cfg, s, s, 0)
  {
    assert Tags(s.w.db.pending)[0..] == Tags(s.w.db.pending) && Tags(s.w.db.pending)[..0] == [];
    assert s.h.acked + [] == s.h.acked && s.h.buried + [] == s.h.buried;
  }

  // --------------------------------------------------- turns are honest runs

  function SendLabels(f: Flight, now: int): seq<Label> {
    [StartSend(false, now, None)] + (if f.applied then [ServerApplies(false)] else [])
    + [ServerAnswers(false, Reply(f), now, None)]
  }

  function TurnLabels(cfg: Config, s: System, now: int): seq<Label> {
    match Prepare(cfg, s.w, s.isolate, now, None)
    case Goes(_, Send(rows, text)) => SendLabels(Flight(rows, text, Acceptable(cfg, text)), now)
    case _ => [StartSend(false, now, None)]
  }

  /** Requests sent in a run: each is answered once. */
  function Requests(labels: seq<Label>): nat {
    if labels == [] then 0 else Requests(labels[..|labels| - 1]) + if labels[|labels| - 1].ServerAnswers? then 1 else 0
  }

  /** Only the delivery loop and a server that answers 2xx or 400; storage does not fail. */
  predicate Quiet(l: Label) {
    match l
    case StartSend(flush, _, failure) => !flush && failure.None?
    case ServerApplies(flush) => !flush
    case ServerAnswers(flush, answer, _, failure) =>
      !flush && failure.None? && (answer.Acknowledged? || answer.BadRequest?)
    case _ => false
  }

  /** `labels` is an honest run of the pipeline from `start` to `s` with `sends` requests. */
  ghost predicate Runs(cfg: Config, start: System, labels: seq<Label>, s: System, sends: nat) {
    && HonestRun(cfg, start, labels) && Exec(cfg, start, labels) == Some(s)
    && (forall l :: l in labels ==> Quiet(l)) && Requests(labels) == sends
  }

  lemma {:induction false} RequestsConcat(a: seq<Label>, b: seq<Label>)
    ensures Requests(a + b) == Requests(a) + Requests(b)
  {
    if b == [] {
      assert a + b == a;
    } else {
      assert (a + b)[..|a + b| - 1] == a + b[..|b| - 1];
      RequestsConcat(a, b[..|b| - 1]);
    }
  }

  lemma {:induction false} RunConcat(cfg: Config, s: System, a: seq<Label>, b: seq<Label>)
    requires HonestRun(cfg, s, a) && Exec(cfg, s, a).Some? && HonestRun(cfg, Exec(cfg, s, a).value, b)
    ensures HonestRun(cfg, s, a + b) && Exec(cfg, s, a + b) == Exec(cfg, Exec(cfg, s, a).value, b)
    decreases a
  {
    if a == [] {
      assert a + b == b;
    } else {
      HeadTail(a, b);
      RunConcat(cfg, Next(cfg, s, a[0]).value, a[1..], b);
    }
  }

  lemma RunsOn(cfg: Config, start: System, a: seq<Label>, s: System, m: nat, b: seq<Label>, t: System, n: nat)
    requires Runs(cfg, start, a, s, m) && Runs(cfg, s, b, t, n)
    ensures Runs(cfg, start, a + b, t, m + n)
  {
    RunConcat(cfg, start, a, b);
    RequestsConcat(a, b);
  }

  /** A pass is a run of the pipeline with an honest server. */
  lemma TurnIsRun(cfg: Config, s: System, now: int)
    requires s.main.None? && s.flush.None? && TakeTurn(cfg, s, now).Turn?
    ensures Runs(cfg, s, TurnLabels(cfg, s, now), TakeTurn(cfg, s, now).s, TakeTurn(cfg, s, now).sent)
  {
    match Prepare(cfg, s.w, s.isolate, now, None)
    case Goes(w, Send(rows, text)) =>
      var f := Flight(rows, text, Acceptable(cfg, text));
      SendIsRun(cfg, s, f, now);
      SendRequests(f, now);
    case Goes(_, Decided(_)) =>
      var l := StartSend(false, now, None);
      RunsOne(cfg, s, l);
      assert [l][..0] == [];
    case Dies(_) =>
  }

  lemma SendRequests(f: Flight, now: int)
    ensures Requests(SendLabels(f, now)) == 1
    ensures forall l :: l in SendLabels(f, now) ==> Quiet(l)
  {
    var front := [StartSend(false, now, None)] + if f.applied then [ServerApplies(false)] else [];
    var last := [ServerAnswers(false, Reply(f), now, None)];
    assert [StartSend(false, now, None)][..0] == [] && [ServerApplies(false)][..0] == [] && last[..0] == [];
    assert front + [] == front;
    RequestsConcat([StartSend(false, now, None)], if f.applied then [ServerApplies(false)] else []);
    RequestsConcat(front, last);
  }

  lemma SendIsRun(cfg: Config, s: System, f: Flight, now: int)
    requires s.main.None? && s.flush.None? && f.applied == Acceptable(cfg, f.text)
    requires DoStart(cfg, s, false, now, None) == s.(main := Some(f.(applied := false)))
    ensures var labels := SendLabels(f, now);
            && HonestRun(cfg, s, labels)
            && Exec(cfg, s, labels) == Some(Exchange(cfg, s, f, now))
  {
    var sent, served := s.(main := Some(f.(applied := false))), Serve(cfg, s, f);
    var last := ServerAnswers(false, Reply(f), now, None);
    RunsOne(cfg, served, last);
    if f.applied {
      ApplyRuns(cfg, sent, served, f, [last]);
      RunsMore(cfg, s, StartSend(false, now, None), sent, [ServerApplies(false), last]);
      assert [StartSend(false, now, None)] + [ServerApplies(false), last]
          == [StartSend(false, now, None)] + [ServerApplies(false)] + [last];
    } else {
      RunsMore(cfg, s, StartSend(false, now, None), sent, [last]);
      assert [StartSend(false, now, None)] + [] + [last] == [StartSend(false, now, None)] + [last];
    }
  }

  lemma ApplyRuns(cfg: Config, sent: System, served: System, f: Flight, rest: seq<Label>)
    requires sent.main == Some(f.(applied := false)) && Acceptable(cfg, f.text) && f.applied
    requires served == sent.(main := Some(f), table := Upsert(sent.table, ParseOr(f.text)))
             && HonestRun(cfg, served, rest)
    ensures HonestRun(cfg, sent, [ServerApplies(false)] + rest)
    ensures Exec(cfg, sent, [ServerApplies(false)] + rest) == Exec(cfg, served, rest)
  {
    RunsMore(cfg, sent, ServerApplies(false), served, rest);
  }

  lemma RunsOne(cfg: Config, s: System, l: Label)
    requires Next(cfg, s, l).Some? && Alone(s, l) && Honest(s, cfg, l)
    ensures Exec(cfg, s, [l]) == Next(cfg, s, l) && HonestRun(cfg, s, [l])
  {
    assert Exec(cfg, Next(cfg, s, l).value, []) == Next(cfg, s, l);
  }

  lemma RunsMore(cfg: Config, s: System, l: Label, t: System, rest: seq<Label>)
    requires Next(cfg, s, l) == Some(t) && Alone(s, l) && Honest(s, cfg, l) && HonestRun(cfg, t, rest)
    ensures HonestRun(cfg, s, [l] + rest)
    ensures Exec(cfg, s, [l] + rest) == Exec(cfg, t, rest)
  {
    assert ([l] + rest)[1..] == rest;
  }

  /** A stuck head ends the worker: the process restarts on the same spool. */
  lemma StuckEnds(cfg: Config, s: System, now: int)
    requires Idle(cfg, s) && cfg.Valid() && INT64_MIN <= now <= INT64_MAX && s.w.db.pending != []
    requires Stuck(cfg, s.w.db.pending[0].payload)
    ensures Next(cfg, s, StartSend(false, now, None)) == Some(Restarted(s))
  {
    assert Tags(s.w.db.pending)[0].payload == s.w.db.pending[0].payload;
    TurnProgress(cfg, s, now);
  }

  // -------------------------------------------------------- the table behind it

  lemma QuietEnqueues(cfg: Config, s: System, l: Label)
    requires Quiet(l) && Next(cfg, s, l).Some?
    ensures Next(cfg, s, l).value.h.enqueued == s.h.enqueued
  {
  }

  lemma {:induction false} QuietRun(cfg: Config, s: System, labels: seq<Label>)
    requires (forall l :: l in labels ==> Quiet(l)) && Exec(cfg, s, labels).Some?
    ensures Exec(cfg, s, labels).value.h.enqueued == s.h.enqueued
    decreases labels
  {
    if labels != [] {
      assert labels == [labels[0]] + labels[1..];
      QuietEnqueues(cfg, s, labels[0]);
      QuietRun(cfg, Next(cfg, s, labels[0]).value, labels[1..]);
    }
  }

  /** From a process that finds `db`: if no row is stuck, the spool is drained with at most two
      requests a row, and the table is the initial one with every good row upserted once, in order. */
  method DrainSpool(cfg: Config, db: Database, table: Table, clock: nat -> int)
    returns (s: System, sends: nat, ghost labels: seq<Label>)
    requires cfg.Wired() && Valid(db) && Within(db, cfg.limits) && cfg.Valid()
    requires forall i: nat :: INT64_MIN <= clock(i) <= INT64_MAX
    requires forall r :: r in db.pending ==> !Stuck(cfg, r.payload)
    ensures Runs(cfg, Start(db, table), labels, s, sends) && sends <= 2 * |db.pending|
    ensures s.w.db.pending == [] && s.table == Ideal(cfg, table, Tags(db.pending))
    ensures s.h.acked == GoodTags(cfg, Tags(db.pending))
  {
    StartOrdering(cfg, db, table);
    s, sends, labels := DeliverAll(cfg, Start(db, table), clock);
    BatchReaches(cfg, db, db.pending);
    assert |Tags(s.w.db.pending)| == 0;
    QuietRun(cfg, Start(db, table), labels);
    DrainedTableIsExact(cfg, db, table, labels);
  }
}
