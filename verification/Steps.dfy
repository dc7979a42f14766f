/** How each worker step changes the tables, as case lists the theorems below share. */
module Steps {
  import opened Basics
  import opened SpoolState
  import opened SpoolRows
  import opened SpoolLaws
  import opened Batch
  import opened WorkerState
  import opened System

  ghost predicate SameQueues(a: Worker, b: Worker) {
    a.ingress == b.ingress && a.held == b.held
  }

  lemma PersistCases(cfg: Config, w: Worker, env: Storage)
    requires Persist(cfg, w, env).Goes?
    ensures var after := Persist(cfg, w, env).w;
            || (after.db == w.db && SameQueues(w, after) && after.count == w.count)
            || (Enqueue(w.db, cfg.limits, w.held).Done? && after.db == Enqueue(w.db, cfg.limits, w.held).db
                && after.ingress == w.ingress && after.held == []
                && after.count == w.count.(persisted := w.count.persisted + |w.held|))
  {
  }

  /** The move behind a dead-letter verdict succeeded, and nothing else changed the tables. */
  ghost predicate Moves(cfg: Config, db: Database, after: Database, sequences: seq<int>, error: string, now: int) {
    var outcome := MoveToDeadLetter(db, cfg.limits, sequences, error, now, false);
    outcome.Done? && after == outcome.db
  }

  lemma RejectCases(cfg: Config, w: Worker, sequences: seq<int>, error: string, now: int, failure: Option<SpoolError>)
    requires Reject(cfg, w, sequences, error, now, failure).Goes?
    ensures var step := Reject(cfg, w, sequences, error, now, failure);
            && SameQueues(w, step.w)
            && (if step.value.DeadLetter? then Moves(cfg, w.db, step.w.db, sequences, error, now)
                else step.w.db == w.db && (step.value.Retry? || step.value.Trouble?))
  {
  }

  /** A request: a non-empty prefix of pending that encodes, and its encodings in order. */
  ghost predicate IsBatch(cfg: Config, db: Database, rows: seq<Row>, text: string) {
    && 0 < |rows| <= |db.pending| && rows == db.pending[..|rows|]
    && AllEncode(cfg, rows) && text == Payload(cfg, rows)
  }

  lemma PrepareCases(cfg: Config, w: Worker, isolate: bool, now: int, failure: Option<SpoolError>)
    requires Prepare(cfg, w, isolate, now, failure).Goes?
    ensures var step := Prepare(cfg, w, isolate, now, failure);
            && SameQueues(w, step.w)
            && (step.value.Send? ==>
                  && step.w == w && IsBatch(cfg, w.db, step.value.rows, step.value.text)
                  && (isolate ==> |step.value.rows| == 1))
            && (step.value.Decided? ==>
                  if step.value.verdict.DeadLetter?
                  then w.db.pending != [] && Encoding(cfg, w.db.pending[0].payload).None?
                       && Moves(cfg, w.db, step.w.db, [w.db.pending[0].sequence], ENCODING_ERROR, now)
                  else step.w.db == w.db && (step.value.verdict.Retry? || step.value.verdict.Trouble?))
  {
    BatchIsPrefix(cfg, w.db, isolate);
    var built := Build(cfg, w.db, isolate);
    if built.Undecodable? && Reject(cfg, w, [built.row.sequence], ENCODING_ERROR, now, failure).Goes? {
      RejectCases(cfg, w, [built.row.sequence], ENCODING_ERROR, now, failure);
    }
  }

  lemma FinishCases(cfg: Config, w: Worker, rows: seq<Row>, answer: Answer, now: int, failure: Option<SpoolError>)
    requires Finish(cfg, w, rows, answer, now, failure).Goes?
    ensures var step := Finish(cfg, w, rows, answer, now, failure);
            var sequences := Sequences(rows);
            && SameQueues(w, step.w)
            && (match step.value
                case Success =>
                  answer.Acknowledged? && MarkDelivered(w.db, sequences).Done?
                  && step.w.db == MarkDelivered(w.db, sequences).db
                case DeadLetter =>
                  answer.BadRequest? && |rows| <= 1 && Moves(cfg, w.db, step.w.db, sequences, REJECT_ERROR, now)
                case _ => step.w.db == w.db || Touches(w.db, step.w.db, sequences))
  {
    if answer.BadRequest? && |rows| <= 1 {
      RejectCases(cfg, w, Sequences(rows), REJECT_ERROR, now, failure);
    }
  }

  /** Some attempt metadata was recorded. */
  ghost predicate Touches(db: Database, after: Database, sequences: seq<int>) {
    || (exists uncertain: bool :: After(db, RecordAttempt(db, sequences, RETRY_ERROR, uncertain)) == after)
    || After(db, RecordAttempt(db, sequences, REJECT_ERROR, false)) == after
  }

  // --------------------------------------------------------------------- tags

  lemma TagsIn(rows: seq<Row>, t: Tag)
    ensures t in Tags(rows) <==> exists r :: r in rows && TagOf(r) == t
  {
    if t in Tags(rows) {
      var i :| 0 <= i < |rows| && Tags(rows)[i] == t;
      assert rows[i] in rows;
    }
    if r :| r in rows && TagOf(r) == t {
      var i :| 0 <= i < |rows| && rows[i] == r;
      assert Tags(rows)[i] == t;
    }
  }

  lemma TagsConcat(a: seq<Row>, b: seq<Row>)
    ensures Tags(a + b) == Tags(a) + Tags(b)
  {
  }

  lemma TouchesTags(db: Database, after: Database, sequences: seq<int>)
    requires Touches(db, after, sequences)
    ensures Tags(after.pending) == Tags(db.pending) && after.dead == db.dead && after.lastSequence == db.lastSequence
  {
  }

  lemma TouchesValid(db: Database, after: Database, sequences: seq<int>)
    requires Valid(db) && Touches(db, after, sequences)
    ensures Valid(after)
  {
    if uncertain: bool :| After(db, RecordAttempt(db, sequences, RETRY_ERROR, uncertain)) == after {
      AttemptValid(db, sequences, RETRY_ERROR, uncertain);
    } else {
      AttemptValid(db, sequences, REJECT_ERROR, false);
    }
  }

  /** Pending rows carry their numbers once: a number names one tag. */
  lemma SameNumberSameTag(rows: seq<Row>, a: Row, b: Row)
    requires PendingOrdered(rows) && a in rows && b in rows && a.sequence == b.sequence
    ensures a == b
  {
    SameIdSameRow(rows, a, b);
  }
}
