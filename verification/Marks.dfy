/** The delivery metadata of a row: over every run of spool operations its attempts, its uncertain mark
    and its last error are what the successful operations that named it say, and a dead letter carries
    them on. */
module Marks {
  import opened Basics
  import opened SpoolState
  import opened SpoolRows
  import opened SpoolLaws

  datatype Note = Note(attempts: nat, error: Option<string>, uncertain: bool)

  const Blank := Note(0, None, false)

  function NoteOf(r: Row): Note {
    Note(r.attempts, r.lastError, r.uncertain)
  }

  /** What is noted about a number: nothing for one that is not pending. */
  function NoteAt(db: Database, q: int): Note {
    if q in Sequences(db.pending) then NoteOf(RowNamed(db.pending, q)) else Blank
  }

  /** The attempt an operation records for a number: its error and whether delivery was uncertain. */
  function Noting(db: Database, op: Op, q: int): seq<(string, bool)> {
    if op.Attempted? && q in op.sequences && RecordAttempt(db, op.sequences, op.error, op.uncertain).Done?
    then [(op.error, op.uncertain)] else []
  }

  function Notings(db: Database, limits: Limits, ops: seq<Op>, q: int): seq<(string, bool)>
    decreases ops
  {
    if ops == [] then [] else Noting(db, ops[0], q) + Notings(Apply(db, limits, ops[0]), limits, ops[1..], q)
  }

  /** The move of a number to dead letter: error, time, and whether delivery was uncertain. */
  function Moving(db: Database, limits: Limits, op: Op, q: int): seq<(string, int, bool)> {
    if op.Rejected? && q in op.sequences
       && MoveToDeadLetter(db, limits, op.sequences, op.error, op.failed, op.uncertain).Done?
    then [(op.error, op.failed, op.uncertain)] else []
  }

  function Movings(db: Database, limits: Limits, ops: seq<Op>, q: int): seq<(string, int, bool)>
    decreases ops
  {
    if ops == [] then [] else Moving(db, limits, ops[0], q) + Movings(Apply(db, limits, ops[0]), limits, ops[1..], q)
  }

  /** One attempt each, the mark is sticky, and the last error counts. */
  ghost predicate Noted(before: Note, notings: seq<(string, bool)>, after: Note) {
    && after.attempts == before.attempts + |notings|
    && (after.uncertain <==> before.uncertain || exists i :: 0 <= i < |notings| && notings[i].1)
    && after.error == if notings == [] then before.error else Some(notings[|notings| - 1].0)
  }

  lemma NotedNothing(a: Note)
    ensures Noted(a, [], a)
  {
  }

  lemma NotedOn(a: Note, xs: seq<(string, bool)>, b: Note, ys: seq<(string, bool)>, c: Note)
    requires Noted(a, xs, b) && Noted(b, ys, c)
    ensures Noted(a, xs + ys, c)
  {
    if i :| 0 <= i < |xs| && xs[i].1 {
      assert (xs + ys)[i].1;
    }
    if i :| 0 <= i < |ys| && ys[i].1 {
      assert (xs + ys)[|xs| + i].1;
    }
  }

  // -------------------------------------------------------------- single numbers

  lemma NumberIn(rows: seq<Row>, r: Row)
    requires r in rows
    ensures r.sequence in Sequences(rows)
  {
    var i :| 0 <= i < |rows| && rows[i] == r;
    assert Sequences(rows)[i] == r.sequence;
  }

  lemma RowAt(db: Database, r: Row)
    requires Valid(db) && r in db.pending
    ensures r.sequence in Sequences(db.pending) && NoteAt(db, r.sequence) == NoteOf(r)
  {
    NumberIn(db.pending, r);
    SameIdSameRow(db.pending, RowNamed(db.pending, r.sequence), r);
  }

  /** A number at or below the mark that is not pending never is again. */
  lemma GoneStays(db: Database, limits: Limits, op: Op, q: int)
    requires Valid(db) && q <= db.lastSequence && q !in Sequences(db.pending)
    ensures q !in Sequences(Apply(db, limits, op).pending) && q <= Apply(db, limits, op).lastSequence
    ensures Noting(db, op, q) == [] && Moving(db, limits, op, q) == []
  {
    var after := Apply(db, limits, op);
    ApplyContinues(db, limits, op);
    forall i | 0 <= i < |after.pending| ensures Sequences(after.pending)[i] != q {
      var r := after.pending[i];
      assert r in after.pending;
      if r.sequence <= db.lastSequence {
        var p :| p in db.pending && SameEvent(p, r);
        NumberIn(db.pending, p);
      }
    }
  }

  lemma {:induction false} GoneForGood(db: Database, limits: Limits, ops: seq<Op>, q: int)
    requires Valid(db) && q <= db.lastSequence && q !in Sequences(db.pending)
    ensures Notings(db, limits, ops, q) == [] && Movings(db, limits, ops, q) == []
    ensures q !in Sequences(Run(db, limits, ops).pending)
    decreases ops
  {
    if ops != [] {
      ApplyValid(db, limits, ops[0]);
      GoneStays(db, limits, ops[0], q);
      GoneForGood(Apply(db, limits, ops[0]), limits, ops[1..], q);
    }
  }

  /** A number above the mark names nothing yet. */
  lemma NotYet(db: Database, limits: Limits, op: Op, q: int)
    requires Valid(db) && q > db.lastSequence
    ensures q !in Sequences(db.pending) && Noting(db, op, q) == [] && Moving(db, limits, op, q) == []
  {
    forall i | 0 <= i < |db.pending| ensures Sequences(db.pending)[i] != q {
      assert db.pending[i] in db.pending;
    }
  }

  // ------------------------------------------------------------- one operation

  lemma TouchedNoted(db: Database, sequences: seq<int>, error: string, uncertain: bool, r: Row, p: Row)
    requires Valid(db) && p in db.pending && RecordAttempt(db, sequences, error, uncertain).Done?
    requires r in Touch(db.pending, AsSet(sequences), error, uncertain) && r.sequence == p.sequence
    ensures Noted(NoteOf(p), if p.sequence in sequences then [(error, uncertain)] else [], NoteOf(r))
  {
    var i :| 0 <= i < |db.pending| && Touch(db.pending, AsSet(sequences), error, uncertain)[i] == r;
    SameIdSameRow(db.pending, db.pending[i], p);
    if p.sequence in sequences {
      assert [(error, uncertain)][0].1 == uncertain;
    }
  }

  lemma KeptNoted(db: Database, gone: set<int>, r: Row, p: Row)
    requires Valid(db) && p in db.pending && r in Without(db.pending, gone) && r.sequence == p.sequence
    ensures r == p && p.sequence !in gone
  {
    WithoutIn(db.pending, gone, r);
    SameIdSameRow(db.pending, r, p);
  }

  /** A row that stays pending gains exactly what the operation notes about it. */
  lemma RowNoted(db: Database, limits: Limits, op: Op, r: Row, p: Row)
    requires Valid(db) && p in db.pending && r in Apply(db, limits, op).pending && r.sequence == p.sequence
    ensures Noted(NoteOf(p), Noting(db, op, p.sequence), NoteOf(r)) && Moving(db, limits, op, p.sequence) == []
  {
    match op
    case EnqueueMany(events) => StoredNoted(db, limits, events, r, p);
    case Delivered(sequences) =>
      if MarkDelivered(db, sequences).Done? {
        KeptNoted(db, AsSet(sequences), r, p);
      } else {
        SameIdSameRow(db.pending, r, p);
      }
    case Attempted(sequences, error, uncertain) =>
      if RecordAttempt(db, sequences, error, uncertain).Done? {
        TouchedNoted(db, sequences, error, uncertain, r, p);
      } else {
        SameIdSameRow(db.pending, r, p);
      }
    case Rejected(sequences, error, failed, uncertain) =>
      if MoveToDeadLetter(db, limits, sequences, error, failed, uncertain).Done? && sequences != [] {
        KeptNoted(db, AsSet(sequences), r, p);
      } else {
        SameIdSameRow(db.pending, r, p);
      }
    case Deleted(originals) => SameIdSameRow(db.pending, r, p);
  }

  lemma StoredNoted(db: Database, limits: Limits, events: seq<NewEvent>, r: Row, p: Row)
    requires Valid(db) && p in db.pending && r.sequence == p.sequence
    requires r in After(db, Enqueue(db, limits, events)).pending
    ensures r == p
  {
    if r !in db.pending {
      NewRowsShape(db.lastSequence, Admit(Contents(db), events).value);
    } else {
      SameIdSameRow(db.pending, r, p);
    }
  }

  /** Only an enqueue brings new numbers. */
  lemma OldNumber(db: Database, limits: Limits, op: Op, r: Row)
    requires Valid(db) && r in Apply(db, limits, op).pending && !op.EnqueueMany?
    ensures r.sequence <= db.lastSequence
  {
    match op
    case Delivered(sequences) => WithoutIn(db.pending, AsSet(sequences), r);
    case Attempted(sequences, error, uncertain) =>
      var i :| 0 <= i < |db.pending| && Apply(db, limits, op).pending[i] == r;
      assert db.pending[i] in db.pending;
    case Rejected(sequences, error, failed, uncertain) => WithoutIn(db.pending, AsSet(sequences), r);
    case Deleted(originals) =>
  }

  /** A row with a new number starts blank. */
  lemma NewNoted(db: Database, limits: Limits, op: Op, r: Row)
    requires Valid(db) && r in Apply(db, limits, op).pending && r.sequence > db.lastSequence
    ensures NoteOf(r) == Blank
  {
    match op
    case EnqueueMany(events) =>
      var novel := Admit(Contents(db), events).value;
      var i :| 0 <= i < |novel| && NewRows(db.lastSequence, novel)[i] == r;
    case _ => OldNumber(db, limits, op, r);
  }

  /** One operation, seen from a number that is pending behind it. */
  lemma StepNoted(db: Database, limits: Limits, op: Op, q: int)
    requires Valid(db) && q in Sequences(Apply(db, limits, op).pending)
    ensures Noted(NoteAt(db, q), Noting(db, op, q), NoteAt(Apply(db, limits, op), q))
    ensures Moving(db, limits, op, q) == []
  {
    var after := Apply(db, limits, op);
    var r := RowNamed(after.pending, q);
    ApplyValid(db, limits, op);
    RowAt(after, r);
    if q <= db.lastSequence {
      ApplyContinues(db, limits, op);
      var p :| p in db.pending && SameEvent(p, r);
      RowAt(db, p);
      RowNoted(db, limits, op, r, p);
    } else {
      NotYet(db, limits, op, q);
      NewNoted(db, limits, op, r);
    }
  }

  // --------------------------------------------------------------------- runs

  /** Over every run, a pending row carries exactly what the successful attempts that named it say. */
  lemma {:induction false} PendingNoted(db: Database, limits: Limits, ops: seq<Op>, r: Row)
    requires Valid(db) && r in Run(db, limits, ops).pending
    ensures Noted(NoteAt(db, r.sequence), Notings(db, limits, ops, r.sequence), NoteOf(r))
    decreases ops
  {
    var q := r.sequence;
    if ops == [] {
      RowAt(db, r);
      NotedNothing(NoteOf(r));
    } else {
      var op, after, rest := ops[0], Apply(db, limits, ops[0]), ops[1..];
      ApplyValid(db, limits, op);
      PendingNoted(after, limits, rest, r);
      StillNoted(db, limits, op, rest, r);
      NotedOn(NoteAt(db, q), Noting(db, op, q), NoteAt(after, q), Notings(after, limits, rest, q), NoteOf(r));
    }
  }

  /** A row pending in the end was pending all the while, or had no number yet. */
  lemma StillNoted(db: Database, limits: Limits, op: Op, rest: seq<Op>, r: Row)
    requires Valid(db) && r in Run(Apply(db, limits, op), limits, rest).pending
    ensures var q := r.sequence; Noted(NoteAt(db, q), Noting(db, op, q), NoteAt(Apply(db, limits, op), q))
  {
    var q, after := r.sequence, Apply(db, limits, op);
    ApplyValid(db, limits, op);
    ApplyContinues(db, limits, op);
    if q in Sequences(after.pending) {
      StepNoted(db, limits, op, q);
    } else {
      NumberIn(Run(after, limits, rest).pending, r);
      if q <= after.lastSequence {
        GoneForGood(after, limits, rest, q);
      } else {
        NotYet(db, limits, op, q);
        NotedNothing(Blank);
      }
    }
  }

  // ------------------------------------------------------------- dead letters

  /** The dead letter carries the row's note on, with one attempt more and what its move says. */
  predicate Carried(note: Note, m: (string, int, bool), d: DeadRow) {
    && d.attempts == note.attempts + 1 && d.uncertain == (note.uncertain || m.2)
    && d.lastError == m.0 && d.failed == m.1
  }

  lemma OriginalIn(rows: seq<DeadRow>, d: DeadRow)
    requires d in rows
    ensures d.original in Originals(rows)
  {
    var i :| 0 <= i < |rows| && rows[i] == d;
    assert Originals(rows)[i] == d.original;
  }

  /** Dead letters never change. */
  lemma DeadStays(db: Database, limits: Limits, ops: seq<Op>, d: DeadRow)
    requires Valid(db) && d in Run(db, limits, ops).dead && d.original in Originals(db.dead)
    ensures d in db.dead
  {
    var i :| 0 <= i < |db.dead| && Originals(db.dead)[i] == d.original;
    assert db.dead[i] in db.dead;
    SequencesNeverRecur(db, limits, ops);
    assert Known(db, d);
    assert forall p :: p in db.pending ==> p.sequence != d.original;
  }

  lemma BuriedCarries(db: Database, sequences: seq<int>, error: string, failed: int, uncertain: bool, d: DeadRow)
    requires Valid(db) && AllIn(sequences, Sequences(db.pending))
    requires d in Bury(Select(db.pending, sequences), error, failed, uncertain)
    ensures d.original in sequences && Carried(NoteAt(db, d.original), (error, failed, uncertain), d)
  {
    var picked := Select(db.pending, sequences);
    var i :| 0 <= i < |picked| && Bury(picked, error, failed, uncertain)[i] == d;
    assert picked[i] in db.pending && picked[i].sequence == sequences[i];
    RowAt(db, picked[i]);
  }

  /** A number that becomes a dead letter was moved, and leaves pending. */
  lemma MoveNoted(db: Database, limits: Limits, op: Op, d: DeadRow)
    requires Valid(db) && d in Apply(db, limits, op).dead && d.original !in Originals(db.dead)
    ensures op.Rejected? && Moving(db, limits, op, d.original) == [(op.error, op.failed, op.uncertain)]
    ensures Carried(NoteAt(db, d.original), (op.error, op.failed, op.uncertain), d)
    ensures Noting(db, op, d.original) == [] && d.original !in Sequences(Apply(db, limits, op).pending)
  {
    if d in db.dead {
      OriginalIn(db.dead, d);
    }
    match op
    case Rejected(sequences, error, failed, uncertain) => RejectedNoted(db, limits, sequences, error, failed,
                                                                        uncertain, d);
    case Deleted(originals) => DeadWithoutIn(db.dead, AsSet(originals), d);
    case _ =>
  }

  lemma RejectedNoted(
    db: Database, limits: Limits, sequences: seq<int>, error: string, failed: int, uncertain: bool, d: DeadRow)
    requires Valid(db) && d !in db.dead
    requires d in After(db, MoveToDeadLetter(db, limits, sequences, error, failed, uncertain)).dead
    ensures MoveToDeadLetter(db, limits, sequences, error, failed, uncertain).Done? && d.original in sequences
    ensures Carried(NoteAt(db, d.original), (error, failed, uncertain), d)
    ensures d.original
            !in Sequences(After(db, MoveToDeadLetter(db, limits, sequences, error, failed, uncertain)).pending)
  {
    var after := MoveToDeadLetter(db, limits, sequences, error, failed, uncertain).db;
    assert d in db.dead + Bury(Select(db.pending, sequences), error, failed, uncertain);
    BuriedCarries(db, sequences, error, failed, uncertain, d);
    forall i | 0 <= i < |after.pending| ensures Sequences(after.pending)[i] != d.original {
      WithoutIn(db.pending, AsSet(sequences), after.pending[i]);
    }
  }

  /** What is noted about a number up to its move, and the move. */
  ghost predicate Buries(note: Note, notings: seq<(string, bool)>, movings: seq<(string, int, bool)>, d: DeadRow) {
    exists last :: Noted(note, notings, last) && |movings| == 1 && Carried(last, movings[0], d)
  }

  /** Over every run, a dead letter was moved exactly once; it counts every successful attempt that named
      its row and one more, is uncertain exactly if one of them or the move was, and carries the error
      and the time of the move. */
  lemma {:induction false} DeadNoted(db: Database, limits: Limits, ops: seq<Op>, d: DeadRow)
    requires Valid(db) && d in Run(db, limits, ops).dead && d.original !in Originals(db.dead)
    ensures Buries(NoteAt(db, d.original), Notings(db, limits, ops, d.original), Movings(db, limits, ops, d.original),
                   d)
    decreases ops
  {
    var q := d.original;
    if ops == [] {
      OriginalIn(db.dead, d);
    } else {
      var op, after, rest := ops[0], Apply(db, limits, ops[0]), ops[1..];
      ApplyValid(db, limits, op);
      if q in Originals(after.dead) {
        MovedHere(db, limits, op, rest, d);
      } else {
        DeadNoted(after, limits, rest, d);
        BuriedLater(db, limits, op, rest, d);
      }
    }
  }

  lemma MovedHere(db: Database, limits: Limits, op: Op, rest: seq<Op>, d: DeadRow)
    requires Valid(db) && Valid(Apply(db, limits, op)) && d in Run(Apply(db, limits, op), limits, rest).dead
    requires d.original in Originals(Apply(db, limits, op).dead) && d.original !in Originals(db.dead)
    ensures var after, q := Apply(db, limits, op), d.original;
            Buries(NoteAt(db, q), Noting(db, op, q) + Notings(after, limits, rest, q),
                   Moving(db, limits, op, q) + Movings(after, limits, rest, q), d)
  {
    var after, q := Apply(db, limits, op), d.original;
    DeadStays(after, limits, rest, d);
    MoveNoted(db, limits, op, d);
    GoneForGood(after, limits, rest, q);
    NotedNothing(NoteAt(db, q));
    var m := (op.error, op.failed, op.uncertain);
    assert [m] + [] == [m];
    assert Noted(NoteAt(db, q), [], NoteAt(db, q)) && Carried(NoteAt(db, q), [m][0], d);
  }

  lemma BuriesOn(
    a: Note, xs: seq<(string, bool)>, b: Note, ys: seq<(string, bool)>, ms: seq<(string, int, bool)>, d: DeadRow)
    requires Noted(a, xs, b) && Buries(b, ys, ms, d)
    ensures Buries(a, xs + ys, ms, d)
  {
    var last :| Noted(b, ys, last) && |ms| == 1 && Carried(last, ms[0], d);
    NotedOn(a, xs, b, ys, last);
  }

  /** A number whose move comes later, seen from one operation earlier. */
  lemma BeforeMove(db: Database, limits: Limits, op: Op, rest: seq<Op>, q: int)
    requires Valid(db) && Valid(Apply(db, limits, op)) && Movings(Apply(db, limits, op), limits, rest, q) != []
    ensures Noted(NoteAt(db, q), Noting(db, op, q), NoteAt(Apply(db, limits, op), q)) && Moving(db, limits, op, q) == []
  {
    var after := Apply(db, limits, op);
    ApplyContinues(db, limits, op);
    if q in Sequences(after.pending) {
      StepNoted(db, limits, op, q);
    } else if q <= after.lastSequence {
      GoneForGood(after, limits, rest, q);
    } else {
      NotYet(db, limits, op, q);
      NotedNothing(Blank);
    }
  }

  lemma BuriedLater(db: Database, limits: Limits, op: Op, rest: seq<Op>, d: DeadRow)
    requires Valid(db) && Valid(Apply(db, limits, op))
    requires var after, q := Apply(db, limits, op), d.original;
             Buries(NoteAt(after, q), Notings(after, limits, rest, q), Movings(after, limits, rest, q), d)
    ensures var after, q := Apply(db, limits, op), d.original;
            Buries(NoteAt(db, q), Noting(db, op, q) + Notings(after, limits, rest, q),
                   Moving(db, limits, op, q) + Movings(after, limits, rest, q), d)
  {
    var after, q := Apply(db, limits, op), d.original;
    var ms := Movings(after, limits, rest, q);
    BeforeMove(db, limits, op, rest, q);
    BuriesOn(NoteAt(db, q), Noting(db, op, q), NoteAt(after, q), Notings(after, limits, rest, q), ms, d);
    assert [] + ms == ms;
  }
}
