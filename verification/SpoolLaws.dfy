/** What the spool's operations guarantee: the invariant over every run, idempotence and
    composition of enqueueing, and sequence numbers that never come back. */
module SpoolLaws {
  import opened Basics
  import opened SpoolState
  import opened SpoolRows

  // ----------------------------------------------------------- each operation

  /** Appended rows: numbered above the mark, with the events' ids. */
  lemma NewRowsShape(last: nat, events: seq<NewEvent>)
    ensures forall r :: r in NewRows(last, events) ==>
                          && last < r.sequence <= last + |events|
                          && exists e :: e in events && e.id == r.id && e.payload == r.payload
  {
    forall r | r in NewRows(last, events)
      ensures last < r.sequence <= last + |events| && exists e :: e in events && e.id == r.id && e.payload == r.payload
    {
      var i :| 0 <= i < |events| && r == NewRows(last, events)[i];
      assert events[i] in events;
    }
  }

  lemma InsertOrdered(pending: seq<Row>, last: nat, events: seq<NewEvent>)
    requires PendingOrdered(pending) && forall p :: p in pending ==> p.sequence <= last
    requires forall e, p :: e in events && p in pending ==> e.id != p.id
    requires forall i, j :: 0 <= i < j < |events| ==> events[i].id != events[j].id
    ensures PendingOrdered(pending + NewRows(last, events))
  {
    NewRowsShape(last, events);
    var rows := NewRows(last, events);
    forall i, j | 0 <= i < j < |rows| ensures rows[i].sequence < rows[j].sequence && rows[i].id != rows[j].id {
      assert events[i].id != events[j].id;
    }
    forall p, r | p in pending && r in rows ensures p.sequence < r.sequence && p.id != r.id {
    }
    JoinOrdered(pending, rows);
  }

  /** Ordered rows behind ordered rows with smaller numbers and other ids are ordered. */
  lemma JoinOrdered(a: seq<Row>, b: seq<Row>)
    requires PendingOrdered(a) && PendingOrdered(b)
    requires forall p, r :: p in a && r in b ==> p.sequence < r.sequence && p.id != r.id
    ensures PendingOrdered(a + b)
  {
    forall i, j | 0 <= i < j < |a + b|
      ensures (a + b)[i].sequence < (a + b)[j].sequence && (a + b)[i].id != (a + b)[j].id
    {
      if i < |a| <= j {
        assert a[i] in a && b[j - |a|] in b;
      }
    }
  }

  lemma InsertValid(db: Database, events: seq<NewEvent>)
    requires Valid(db)
    requires forall e :: e in events ==> e.id !in Contents(db)
    requires forall i, j :: 0 <= i < j < |events| ==> events[i].id != events[j].id
    ensures Valid(Make(db.pending + NewRows(db.lastSequence, events), db.dead, db.lastSequence + |events|))
  {
    ContentsExact(db);
    NewRowsShape(db.lastSequence, events);
    InsertOrdered(db.pending, db.lastSequence, events);
  }

  lemma EnqueueValid(db: Database, limits: Limits, events: seq<NewEvent>)
    requires Valid(db)
    ensures Valid(After(db, Enqueue(db, limits, events)))
  {
    if Enqueue(db, limits, events).Done? && events != [] {
      AdmitNovel(Contents(db), events);
      InsertValid(db, Admit(Contents(db), events).value);
    }
  }

  lemma WithoutValid(db: Database, gone: set<int>)
    requires Valid(db)
    ensures Valid(Make(Without(db.pending, gone), db.dead, db.lastSequence))
  {
    WithoutOrdered(db.pending, gone);
    forall r | r in Without(db.pending, gone) ensures r in db.pending {
      WithoutIn(db.pending, gone, r);
    }
  }

  lemma DeadWithoutValid(db: Database, gone: set<int>)
    requires Valid(db)
    ensures Valid(Make(db.pending, DeadWithout(db.dead, gone), db.lastSequence))
  {
    DeadWithoutDistinct(db.dead, gone);
    forall r | r in DeadWithout(db.dead, gone) ensures r in db.dead {
      DeadWithoutIn(db.dead, gone, r);
    }
  }

  lemma TouchValid(db: Database, which: set<int>, error: string, uncertain: bool)
    requires Valid(db)
    ensures Valid(Make(Touch(db.pending, which, error, uncertain), db.dead, db.lastSequence))
  {
    var rows := Touch(db.pending, which, error, uncertain);
    assert PendingOrdered(rows);
    TouchPlaces(db, rows, which, error, uncertain);
  }

  lemma TouchPlaces(db: Database, rows: seq<Row>, which: set<int>, error: string, uncertain: bool)
    requires Valid(db) && rows == Touch(db.pending, which, error, uncertain)
    ensures Disjoint(rows, db.dead) && InRange(rows, db.dead, db.lastSequence)
  {
    forall r | r in rows ensures exists p :: p in db.pending && SameEvent(p, r) {
      TouchIn(db.pending, which, error, uncertain, r);
    }
  }

  lemma TouchIn(rows: seq<Row>, which: set<int>, error: string, uncertain: bool, r: Row)
    requires r in Touch(rows, which, error, uncertain)
    ensures exists p :: p in rows && SameEvent(p, r)
  {
    var i :| 0 <= i < |rows| && Touch(rows, which, error, uncertain)[i] == r;
    assert SameEvent(rows[i], r);
  }

  /** Same sequence number, same event: only delivery metadata may differ. */
  predicate SameEvent(a: Row, b: Row) {
    a.sequence == b.sequence && a.id == b.id && a.payload == b.payload && a.created == b.created
  }

  lemma MarkValid(db: Database, sequences: seq<int>)
    requires Valid(db)
    ensures Valid(After(db, MarkDelivered(db, sequences)))
  {
    WithoutValid(db, AsSet(sequences));
  }

  lemma DeleteValid(db: Database, originals: seq<int>)
    requires Valid(db)
    ensures Valid(After(db, DeleteDead(db, originals)))
  {
    DeadWithoutValid(db, AsSet(originals));
  }

  lemma AttemptValid(db: Database, sequences: seq<int>, error: string, uncertain: bool)
    requires Valid(db)
    ensures Valid(After(db, RecordAttempt(db, sequences, error, uncertain)))
  {
    TouchValid(db, AsSet(sequences), error, uncertain);
  }

  lemma MoveValid(db: Database, limits: Limits, sequences: seq<int>, error: string, failed: int, uncertain: bool)
    requires Valid(db)
    ensures Valid(After(db, MoveToDeadLetter(db, limits, sequences, error, failed, uncertain)))
  {
    if MoveToDeadLetter(db, limits, sequences, error, failed, uncertain).Done? && sequences != [] {
      var all := db.dead + Bury(Select(db.pending, sequences), error, failed, uncertain);
      BuryConsistent(db, sequences, error, failed, uncertain);
      var kept := Keep(limits, all);
      SuffixDistinct(all, |all| - |kept|);
      assert forall d :: d in kept ==> d in all;
    }
  }

  /** Moving rows over keeps the two tables disjoint and each of them duplicate-free. */
  lemma BuryConsistent(db: Database, sequences: seq<int>, error: string, failed: int, uncertain: bool)
    requires Valid(db) && ValidSequences(sequences) && AllIn(sequences, Sequences(db.pending))
    ensures var all := db.dead + Bury(Select(db.pending, sequences), error, failed, uncertain);
            var rest := Without(db.pending, AsSet(sequences));
            PendingOrdered(rest) && DeadDistinct(all) && Disjoint(rest, all) && InRange(rest, all, db.lastSequence)
  {
    var picked := Select(db.pending, sequences);
    var moved := Bury(picked, error, failed, uncertain);
    var gone := AsSet(sequences);
    var rest := Without(db.pending, gone);
    WithoutOrdered(db.pending, gone);
    PickedDistinct(db, sequences);
    forall r | r in rest ensures r in db.pending && r.sequence !in gone {
      WithoutIn(db.pending, gone, r);
    }
    forall d | d in moved
      ensures exists p :: p in db.pending && p.sequence in gone && p.sequence == d.original && p.id == d.id
    {
      var i :| 0 <= i < |moved| && moved[i] == d;
      assert picked[i] in db.pending && picked[i].sequence == sequences[i];
    }
    BuriedDistinct(db, picked, error, failed, uncertain);
    BuriedDisjoint(db, rest, gone, moved);
  }

  lemma BuriedDistinct(db: Database, picked: seq<Row>, error: string, failed: int, uncertain: bool)
    requires Valid(db) && forall p :: p in picked ==> p in db.pending
    requires forall i, j :: 0 <= i < j < |picked| ==>
                              picked[i].sequence != picked[j].sequence && picked[i].id != picked[j].id
    ensures DeadDistinct(db.dead + Bury(picked, error, failed, uncertain))
  {
    var moved := Bury(picked, error, failed, uncertain);
    var all := db.dead + moved;
    var n := |db.dead|;
    forall i, j | 0 <= i < j < |all| ensures all[i].id != all[j].id && all[i].original != all[j].original {
      if i < n <= j {
        assert db.dead[i] in db.dead && picked[j - n] in db.pending;
      } else if n <= i {
        assert picked[i - n].sequence != picked[j - n].sequence;
      }
    }
  }

  lemma BuriedDisjoint(db: Database, rest: seq<Row>, gone: set<int>, moved: seq<DeadRow>)
    requires Valid(db)
    requires forall r :: r in rest ==> r in db.pending && r.sequence !in gone
    requires forall d :: d in moved ==>
                           exists p :: p in db.pending && p.sequence in gone && p.sequence == d.original && p.id == d.id
    ensures Disjoint(rest, db.dead + moved)
  {
    forall r, d | r in rest && d in db.dead + moved ensures r.id != d.id && r.sequence != d.original {
      if d in moved {
        var p :| p in db.pending && p.sequence in gone && p.sequence == d.original && p.id == d.id;
        SameIdSameRow(db.pending, r, p);
      }
    }
  }

  lemma SameIdSameRow(rows: seq<Row>, a: Row, b: Row)
    requires PendingOrdered(rows) && a in rows && b in rows
    ensures a.id == b.id || a.sequence == b.sequence ==> a == b
  {
  }

  lemma SuffixDistinct(rows: seq<DeadRow>, k: nat)
    requires DeadDistinct(rows) && k <= |rows|
    ensures DeadDistinct(rows[k..])
  {
  }

  lemma PickedDistinct(db: Database, sequences: seq<int>)
    requires Valid(db) && ValidSequences(sequences) && AllIn(sequences, Sequences(db.pending))
    ensures var picked := Select(db.pending, sequences);
            forall i, j :: 0 <= i < j < |picked| ==>
                             picked[i].sequence != picked[j].sequence && picked[i].id != picked[j].id
  {
    var picked := Select(db.pending, sequences);
    forall i, j | 0 <= i < j < |picked|
      ensures picked[i].sequence != picked[j].sequence && picked[i].id != picked[j].id
    {
      assert picked[i] in db.pending && picked[j] in db.pending;
      assert sequences[i] != sequences[j];
    }
  }

  // ------------------------------------------------------------- enqueue laws

  lemma {:induction false} FirstErrorConcat(xs: seq<NewEvent>, ys: seq<NewEvent>, limits: Limits)
    ensures FirstError(xs + ys, limits)
         == if FirstError(xs, limits).Some? then FirstError(xs, limits) else FirstError(ys, limits)
  {
    if xs == [] {
      assert xs + ys == ys;
    } else {
      assert (xs + ys)[1..] == xs[1..] + ys;
      FirstErrorConcat(xs[1..], ys, limits);
    }
  }

  lemma InsertCompose(db: Database, limits: Limits, a: seq<NewEvent>, b: seq<NewEvent>)
    requires db.stats == Tally(db.pending, db.dead)
    ensures InsertAll(db, limits, a + b).Done? <==>
            InsertAll(db, limits, a).Done? && InsertAll(InsertAll(db, limits, a).db, limits, b).Done?
    ensures InsertAll(db, limits, a + b).Done? ==>
              InsertAll(db, limits, a + b).db == InsertAll(InsertAll(db, limits, a).db, limits, b).db
  {
    InsertedBytes(db, a);
    EventBytesConcat(a, b);
    InsertedRows(db.pending, db.lastSequence, a, b);
    if InsertAll(db, limits, a).Done? {
      var middle := InsertAll(db, limits, a).db;
      assert middle.stats.pendingRows == db.stats.pendingRows + |a|;
      assert middle.stats.pendingBytes == db.stats.pendingBytes + EventBytes(a);
    }
  }

  lemma InsertedBytes(db: Database, a: seq<NewEvent>)
    ensures PendingBytes(db.pending + NewRows(db.lastSequence, a)) == PendingBytes(db.pending) + EventBytes(a)
  {
    PendingBytesConcat(db.pending, NewRows(db.lastSequence, a));
    NewRowsBytes(db.lastSequence, a);
  }

  lemma InsertedRows(pending: seq<Row>, last: nat, a: seq<NewEvent>, b: seq<NewEvent>)
    ensures (pending + NewRows(last, a)) + NewRows(last + |a|, b) == pending + NewRows(last, a + b)
  {
    NewRowsConcat(last, a, b);
    SeqAssoc(pending, NewRows(last, a), NewRows(last + |a|, b));
  }

  lemma InsertContents(db: Database, limits: Limits, novel: seq<NewEvent>)
    ensures InsertAll(db, limits, novel).Done? ==>
              Contents(InsertAll(db, limits, novel).db) == Contents(db) + EventContents(novel)
  {
    PendingContentsInsert(db.pending, db.lastSequence, novel);
    MapAssoc(DeadContents(db.dead), PendingContents(db.pending), EventContents(novel));
  }

  lemma MapAssoc<X, Y>(a: map<X, Y>, b: map<X, Y>, c: map<X, Y>)
    ensures (a + b) + c == a + (b + c)
  {
  }

  /** Enqueueing a concatenation succeeds exactly when enqueueing the parts in order does,
      and then reaches the same state with the same number of inserts. */
  lemma EnqueueCompose(db: Database, limits: Limits, xs: seq<NewEvent>, ys: seq<NewEvent>)
    requires db.stats == Tally(db.pending, db.dead)
    ensures Enqueue(db, limits, xs + ys).Done? <==>
            Enqueue(db, limits, xs).Done? && Enqueue(Enqueue(db, limits, xs).db, limits, ys).Done?
    ensures Enqueue(db, limits, xs + ys).Done? ==>
              var first := Enqueue(db, limits, xs);
              var second := Enqueue(first.db, limits, ys);
              Enqueue(db, limits, xs + ys) == Done(first.value + second.value, second.db)
  {
    if xs == [] {
      assert xs + ys == ys;
    } else if ys == [] {
      assert xs + ys == xs;
    } else {
      FirstErrorConcat(xs, ys, limits);
      EnqueueNewCompose(db, limits, xs, ys);
    }
  }

  lemma EnqueueNewCompose(db: Database, limits: Limits, xs: seq<NewEvent>, ys: seq<NewEvent>)
    requires db.stats == Tally(db.pending, db.dead)
    ensures EnqueueNew(db, limits, xs + ys).Done? <==>
            EnqueueNew(db, limits, xs).Done? && EnqueueNew(EnqueueNew(db, limits, xs).db, limits, ys).Done?
    ensures EnqueueNew(db, limits, xs + ys).Done? ==>
              var first := EnqueueNew(db, limits, xs);
              var second := EnqueueNew(first.db, limits, ys);
              EnqueueNew(db, limits, xs + ys) == Done(first.value + second.value, second.db)
  {
    var known := Contents(db);
    AdmitConcat(known, xs, ys);
    if Admit(known, xs).Some? {
      var first := Admit(known, xs).value;
      InsertContents(db, limits, first);
      var rest := Admit(known + EventContents(first), ys);
      if rest.Some? {
        InsertCompose(db, limits, first, rest.value);
      }
    }
  }

  lemma NewRowIn(last: nat, events: seq<NewEvent>, e: NewEvent)
    requires e in events
    ensures exists r :: r in NewRows(last, events) && r.id == e.id && (r.payload, r.created) == ContentOf(e)
  {
    var i :| 0 <= i < |events| && events[i] == e;
    assert NewRows(last, events)[i] == NewRow(e, last + 1 + i);
  }

  /** After a successful enqueue each event of the batch is retained with its own content. */
  lemma EnqueueRetains(db: Database, limits: Limits, events: seq<NewEvent>, e: NewEvent)
    requires Valid(db) && Enqueue(db, limits, events).Done? && e in events
    ensures Retained(Enqueue(db, limits, events).db, e)
  {
    var novel := Admit(Contents(db), events).value;
    AdmitCovers(Contents(db), events, e);
    if e in novel {
      NewRowIn(db.lastSequence, novel, e);
    } else {
      KnownRetained(db, e);
    }
    RetainedGrows(db, Enqueue(db, limits, events).db, e);
  }

  lemma KnownRetained(db: Database, e: NewEvent)
    requires Consistent(db) && e.id in Contents(db) && Contents(db)[e.id] == ContentOf(e)
    ensures Retained(db, e)
  {
    ContentsExact(db);
  }

  lemma RetainedGrows(db: Database, after: Database, e: NewEvent)
    requires after.dead == db.dead && forall r :: r in db.pending ==> r in after.pending
    ensures Retained(db, e) ==> Retained(after, e)
  {
  }

  ghost predicate Retained(db: Database, e: NewEvent) {
    || (exists r :: r in db.pending && r.id == e.id && (r.payload, r.created) == ContentOf(e))
    || (exists d :: d in db.dead && d.id == e.id && (d.payload, d.created) == ContentOf(e))
  }

  /** Repeating events that are all still retained inserts nothing and changes nothing. */
  lemma EnqueueAgain(db: Database, limits: Limits, events: seq<NewEvent>)
    requires Valid(db) && Within(db, limits)
    requires FirstError(events, limits).None?
    requires forall e :: e in events ==> Retained(db, e)
    ensures Enqueue(db, limits, events) == Done(0, db)
  {
    ContentsExact(db);
    AdmitKnown(Contents(db), events);
    assert NewRows(db.lastSequence, []) == [];
    assert db.pending + [] == db.pending;
  }

  /** A batch whose events validate is refused as conflicting exactly when some id, in the batch or
      retained in either table, would stand for two contents. */
  lemma EnqueueConflict(db: Database, limits: Limits, events: seq<NewEvent>)
    requires Valid(db) && FirstError(events, limits).None?
    ensures Enqueue(db, limits, events) == Failed(StateError) <==> Conflicting(Contents(db), events)
    ensures forall r :: r in db.pending ==> r.id in Contents(db) && Contents(db)[r.id] == (r.payload, r.created)
    ensures forall d :: d in db.dead ==> d.id in Contents(db) && Contents(db)[d.id] == (d.payload, d.created)
  {
    ContentsExact(db);
    AdmitFails(Contents(db), events);
  }

  // --------------------------------------------------------------------- runs

  datatype Op =
    | EnqueueMany(events: seq<NewEvent>)
    | Delivered(sequences: seq<int>)
    | Attempted(sequences: seq<int>, error: string, uncertain: bool)
    | Rejected(sequences: seq<int>, error: string, failed: int, uncertain: bool)
    | Deleted(originals: seq<int>)

  /** The tables after one operation: a failed one leaves them as they were. */
  function Apply(db: Database, limits: Limits, op: Op): Database {
    match op
    case EnqueueMany(events) => After(db, Enqueue(db, limits, events))
    case Delivered(sequences) => After(db, MarkDelivered(db, sequences))
    case Attempted(sequences, error, uncertain) => After(db, RecordAttempt(db, sequences, error, uncertain))
    case Rejected(sequences, error, failed, uncertain) =>
      After(db, MoveToDeadLetter(db, limits, sequences, error, failed, uncertain))
    case Deleted(originals) => After(db, DeleteDead(db, originals))
  }

  function After<T>(db: Database, outcome: Outcome<T>): Database {
    if outcome.Done? then outcome.db else db
  }

  function Run(db: Database, limits: Limits, ops: seq<Op>): Database
    decreases ops
  {
    if ops == [] then db else Run(Apply(db, limits, ops[0]), limits, ops[1..])
  }

  lemma ApplyValid(db: Database, limits: Limits, op: Op)
    requires Valid(db)
    ensures Valid(Apply(db, limits, op))
  {
    match op
    case EnqueueMany(events) => EnqueueValid(db, limits, events);
    case Delivered(sequences) => MarkValid(db, sequences);
    case Attempted(sequences, error, uncertain) => AttemptValid(db, sequences, error, uncertain);
    case Rejected(sequences, error, failed, uncertain) =>
      MoveValid(db, limits, sequences, error, failed, uncertain);
      assert Apply(db, limits, op) == After(db, MoveToDeadLetter(db, limits, sequences, error, failed, uncertain));
    case Deleted(originals) => DeleteValid(db, originals);
  }

  lemma {:induction false} FirstErrorNone(events: seq<NewEvent>, limits: Limits)
    requires FirstError(events, limits).None?
    ensures forall e :: e in events ==> EventError(e, limits).None?
  {
    if events != [] {
      FirstErrorNone(events[1..], limits);
      assert events == [events[0]] + events[1..];
    }
  }

  lemma AppendWithin(db: Database, limits: Limits, rows: seq<Row>, last: nat)
    requires Within(db, limits) && forall r :: r in rows ==> |r.payload| <= limits.maxEventBytes
    requires |db.pending| + |rows| <= limits.maxPendingRows
    requires PendingBytes(db.pending) + PendingBytes(rows) <= limits.maxPendingBytes
    ensures Within(Make(db.pending + rows, db.dead, last), limits)
  {
    PendingBytesConcat(db.pending, rows);
  }

  lemma InsertWithin(db: Database, limits: Limits, events: seq<NewEvent>)
    requires Within(db, limits) && forall e :: e in events ==> |e.payload| <= limits.maxEventBytes
    requires |db.pending| + |events| <= limits.maxPendingRows
    requires PendingBytes(db.pending) + EventBytes(events) <= limits.maxPendingBytes
    ensures Within(Make(db.pending + NewRows(db.lastSequence, events), db.dead, db.lastSequence + |events|), limits)
  {
    var rows := NewRows(db.lastSequence, events);
    NewRowsShape(db.lastSequence, events);
    NewRowsBytes(db.lastSequence, events);
    AppendWithin(db, limits, rows, db.lastSequence + |events|);
  }

  lemma EnqueueWithin(db: Database, limits: Limits, events: seq<NewEvent>)
    requires db.stats == Tally(db.pending, db.dead) && Within(db, limits) && Enqueue(db, limits, events).Done?
    ensures Within(Enqueue(db, limits, events).db, limits)
  {
    if events != [] {
      AdmitNovel(Contents(db), events);
      FirstErrorNone(events, limits);
      var novel := Admit(Contents(db), events).value;
      forall e | e in novel ensures |e.payload| <= limits.maxEventBytes {
        assert EventError(e, limits).None?;
      }
      InsertWithin(db, limits, novel);
    }
  }

  lemma MoveWithin(db: Database, limits: Limits, sequences: seq<int>, error: string, failed: int, uncertain: bool)
    requires limits.Valid() && Within(db, limits)
    requires MoveToDeadLetter(db, limits, sequences, error, failed, uncertain).Done?
    ensures Within(MoveToDeadLetter(db, limits, sequences, error, failed, uncertain).db, limits)
  {
    WithoutShrinksWithin(db, limits, AsSet(sequences));
    if sequences != [] {
      KeepFits(limits, db.dead + Bury(Select(db.pending, sequences), error, failed, uncertain));
    }
  }

  lemma TouchWithin(db: Database, limits: Limits, which: set<int>, error: string, uncertain: bool)
    requires Within(db, limits)
    ensures Within(db.(pending := Touch(db.pending, which, error, uncertain)), limits)
  {
    TouchBytes(db.pending, which, error, uncertain);
    forall r | r in Touch(db.pending, which, error, uncertain) ensures |r.payload| <= limits.maxEventBytes {
      TouchIn(db.pending, which, error, uncertain, r);
    }
  }

  lemma ApplyWithin(db: Database, limits: Limits, op: Op)
    requires Valid(db) && limits.Valid() && Within(db, limits)
    ensures Within(Apply(db, limits, op), limits)
  {
    match op
    case EnqueueMany(events) =>
      if Enqueue(db, limits, events).Done? { EnqueueWithin(db, limits, events); }
    case Delivered(sequences) =>
      WithoutShrinksWithin(db, limits, AsSet(sequences));
    case Attempted(sequences, error, uncertain) =>
      TouchWithin(db, limits, AsSet(sequences), error, uncertain);
    case Rejected(sequences, error, failed, uncertain) =>
      if MoveToDeadLetter(db, limits, sequences, error, failed, uncertain).Done? {
        MoveWithin(db, limits, sequences, error, failed, uncertain);
      }
    case Deleted(originals) =>
      DeadWithoutShrinks(db.dead, AsSet(originals));
  }

  lemma WithoutShrinksWithin(db: Database, limits: Limits, gone: set<int>)
    requires Within(db, limits)
    ensures Within(db.(pending := Without(db.pending, gone)), limits)
  {
    WithoutShrinks(db.pending, gone);
    forall r | r in Without(db.pending, gone) ensures r in db.pending {
      WithoutIn(db.pending, gone, r);
    }
  }

  /** The spool invariant over every run: counters equal the tables, ids and sequence numbers
      are unique and disjoint across both tables, and both tables stay within fixed limits. */
  lemma {:induction false} RunInvariant(db: Database, limits: Limits, ops: seq<Op>)
    requires Valid(db) && limits.Valid() && Within(db, limits)
    ensures Valid(Run(db, limits, ops)) && Within(Run(db, limits, ops), limits)
    decreases ops
  {
    if ops != [] {
      ApplyValid(db, limits, ops[0]);
      ApplyWithin(db, limits, ops[0]);
      RunInvariant(Apply(db, limits, ops[0]), limits, ops[1..]);
    }
  }

  /** `b` continues `a`: the high-water mark never falls, and a row or dead letter of `b` numbered
      at or below `a`'s mark is one that `a` already had in a table, as the same event. */
  ghost predicate Continues(a: Database, b: Database) {
    && a.lastSequence <= b.lastSequence
    && (forall r :: r in b.pending && r.sequence <= a.lastSequence ==> exists p :: p in a.pending && SameEvent(p, r))
    && (forall d :: d in b.dead && d.original <= a.lastSequence ==> Known(a, d))
  }

  ghost predicate Known(a: Database, d: DeadRow) {
    (exists p :: p in a.pending && BuriedAs(p, d)) || d in a.dead
  }

  /** The dead letter is this pending row's event. */
  predicate BuriedAs(p: Row, d: DeadRow) {
    p.sequence == d.original && p.id == d.id && p.payload == d.payload && p.created == d.created
  }

  lemma ContinuesTrans(a: Database, b: Database, c: Database)
    requires Continues(a, b) && Continues(b, c)
    ensures Continues(a, c)
  {
    forall r | r in c.pending && r.sequence <= a.lastSequence ensures exists p :: p in a.pending && SameEvent(p, r) {
      var q :| q in b.pending && SameEvent(q, r);
      var p :| p in a.pending && SameEvent(p, q);
    }
    forall d | d in c.dead && d.original <= a.lastSequence ensures Known(a, d) {
      assert Known(b, d);
      if q :| q in b.pending && BuriedAs(q, d) {
        var p :| p in a.pending && SameEvent(p, q);
      }
    }
  }

  lemma ApplyContinues(db: Database, limits: Limits, op: Op)
    requires Valid(db)
    ensures Continues(db, Apply(db, limits, op))
  {
    var after := Apply(db, limits, op);
    forall r | r in after.pending && r.sequence <= db.lastSequence
      ensures exists p :: p in db.pending && SameEvent(p, r)
    {
      PendingOrigin(db, limits, op, r);
    }
    forall d | d in after.dead ensures Known(db, d) {
      DeadOrigin(db, limits, op, d);
    }
  }

  lemma MoveContinues(db: Database, limits: Limits, sequences: seq<int>, error: string, failed: int, uncertain: bool)
    requires Valid(db)
    ensures Continues(db, After(db, MoveToDeadLetter(db, limits, sequences, error, failed, uncertain)))
  {
    var op := Rejected(sequences, error, failed, uncertain);
    var after := Apply(db, limits, op);
    assert after == After(db, MoveToDeadLetter(db, limits, sequences, error, failed, uncertain));
    ApplyContinues(db, limits, op);
    assert forall d :: d in after.dead && d.original <= db.lastSequence ==> Known(db, d);
  }

  lemma PendingOrigin(db: Database, limits: Limits, op: Op, r: Row)
    requires Valid(db) && r in Apply(db, limits, op).pending && r.sequence <= db.lastSequence
    ensures exists p :: p in db.pending && SameEvent(p, r)
  {
    if r !in db.pending {
      match op
      case EnqueueMany(events) =>
        NewRowsShape(db.lastSequence, Admit(Contents(db), events).value);
      case Attempted(sequences, error, uncertain) =>
        TouchIn(db.pending, AsSet(sequences), error, uncertain, r);
      case Delivered(sequences) =>
        WithoutIn(db.pending, AsSet(sequences), r);
      case Rejected(sequences, error, failed, uncertain) =>
        WithoutIn(db.pending, AsSet(sequences), r);
      case Deleted(originals) =>
    } else {
      assert SameEvent(r, r);
    }
  }

  lemma BuriedOrigin(db: Database, picked: seq<Row>, error: string, failed: int, uncertain: bool, d: DeadRow)
    requires d in db.dead + Bury(picked, error, failed, uncertain)
    requires forall p :: p in picked ==> p in db.pending
    ensures Known(db, d)
  {
    if d !in db.dead {
      var moved := Bury(picked, error, failed, uncertain);
      var i :| 0 <= i < |moved| && moved[i] == d;
      assert picked[i] in db.pending;
    }
  }

  lemma DeadOrigin(db: Database, limits: Limits, op: Op, d: DeadRow)
    requires Valid(db) && d in Apply(db, limits, op).dead
    ensures Known(db, d)
  {
    if d !in db.dead {
      match op
      case Rejected(sequences, error, failed, uncertain) =>
        BuriedOrigin(db, Select(db.pending, sequences), error, failed, uncertain, d);
      case Deleted(originals) =>
        DeadWithoutIn(db.dead, AsSet(originals), d);
      case EnqueueMany(events) =>
      case Attempted(sequences, error, uncertain) =>
      case Delivered(sequences) =>
    }
  }

  /** Sequence numbers never recur: in every run, a number at or below an earlier high-water
      mark still names the event it named then. */
  lemma {:induction false} SequencesNeverRecur(db: Database, limits: Limits, ops: seq<Op>)
    requires Valid(db)
    ensures Continues(db, Run(db, limits, ops))
    decreases ops
  {
    if ops == [] {
      forall r | r in db.pending ensures SameEvent(r, r) {
      }
    } else {
      ApplyValid(db, limits, ops[0]);
      ApplyContinues(db, limits, ops[0]);
      SequencesNeverRecur(Apply(db, limits, ops[0]), limits, ops[1..]);
      ContinuesTrans(db, Apply(db, limits, ops[0]), Run(db, limits, ops));
    }
  }

  // ---------------------------------------------------------- the dead letters

  /** The dead letters a run has produced, in order, including those evicted since. */
  function History(db: Database, limits: Limits, ops: seq<Op>): seq<DeadRow>
    decreases ops
  {
    if ops == [] then []
    else Produced(db, limits, ops[0]) + History(Apply(db, limits, ops[0]), limits, ops[1..])
  }

  function Produced(db: Database, limits: Limits, op: Op): seq<DeadRow> {
    match op
    case Rejected(sequences, error, failed, uncertain) =>
      if MoveToDeadLetter(db, limits, sequences, error, failed, uncertain).Done? && sequences != []
      then Bury(Select(db.pending, sequences), error, failed, uncertain)
      else []
    case _ => []
  }

  function EvictedBy(db: Database, limits: Limits, op: Op): nat {
    match op
    case Rejected(sequences, error, failed, uncertain) =>
      var outcome := MoveToDeadLetter(db, limits, sequences, error, failed, uncertain);
      if outcome.Done? then outcome.value.1 else 0
    case _ => 0
  }

  function Evicted(db: Database, limits: Limits, ops: seq<Op>): nat
    decreases ops
  {
    if ops == [] then 0 else EvictedBy(db, limits, ops[0]) + Evicted(Apply(db, limits, ops[0]), limits, ops[1..])
  }

  lemma MoveRing(db: Database, limits: Limits, sequences: seq<int>, error: string, failed: int, uncertain: bool)
    requires limits.Valid() && Fits(limits, db.dead)
    ensures var outcome := MoveToDeadLetter(db, limits, sequences, error, failed, uncertain);
            var more := Produced(db, limits, Rejected(sequences, error, failed, uncertain));
            && After(db, outcome).dead == Keep(limits, db.dead + more)
            && (if outcome.Done? then outcome.value.1 else 0) == |db.dead| + |more| - |After(db, outcome).dead|
            && Fits(limits, After(db, outcome).dead)
  {
    var outcome := MoveToDeadLetter(db, limits, sequences, error, failed, uncertain);
    if outcome.Done? && sequences != [] {
      var more := Bury(Select(db.pending, sequences), error, failed, uncertain);
      BuriedDead(db, limits, more, AsSet(sequences));
      KeepFits(limits, db.dead + more);
    } else {
      assert db.dead + [] == db.dead;
    }
  }

  lemma BuriedDead(db: Database, limits: Limits, moved: seq<DeadRow>, gone: set<int>)
    requires BuryRows(db, limits, moved, gone).Done?
    ensures var outcome := BuryRows(db, limits, moved, gone);
            && outcome.db.dead == Keep(limits, db.dead + moved)
            && outcome.value.1 == |db.dead| + |moved| - |outcome.db.dead|
  {
  }

  lemma RingStep(db: Database, limits: Limits, op: Op)
    requires limits.Valid() && Fits(limits, db.dead) && !op.Deleted?
    ensures Apply(db, limits, op).dead == Keep(limits, db.dead + Produced(db, limits, op))
    ensures EvictedBy(db, limits, op) == |db.dead| + |Produced(db, limits, op)| - |Apply(db, limits, op).dead|
    ensures Fits(limits, Apply(db, limits, op).dead)
  {
    if op.Rejected? {
      MoveRing(db, limits, op.sequences, op.error, op.failed, op.uncertain);
    } else {
      RingIdle(db, limits, op);
      assert db.dead + [] == db.dead;
    }
  }

  lemma RingIdle(db: Database, limits: Limits, op: Op)
    requires !op.Deleted? && !op.Rejected?
    ensures Apply(db, limits, op).dead == db.dead && Produced(db, limits, op) == [] && EvictedBy(db, limits, op) == 0
  {
  }

  /** Without manual deletes the dead-letter table is, after every run, the longest suffix that
      fits of everything that was ever there, and the evictions reported are the rest. */
  lemma {:induction false} RingOverRuns(db: Database, limits: Limits, ops: seq<Op>)
    requires limits.Valid() && Fits(limits, db.dead)
    requires forall op :: op in ops ==> !op.Deleted?
    ensures Run(db, limits, ops).dead == Keep(limits, db.dead + History(db, limits, ops))
    ensures Evicted(db, limits, ops) == |db.dead| + |History(db, limits, ops)| - |Run(db, limits, ops).dead|
    decreases ops
  {
    if ops == [] {
      assert db.dead + [] == db.dead;
    } else {
      var after := Apply(db, limits, ops[0]);
      var more, rest := Produced(db, limits, ops[0]), History(after, limits, ops[1..]);
      RingStep(db, limits, ops[0]);
      RingOverRuns(after, limits, ops[1..]);
      KeepAppend(limits, db.dead + more, rest);
      SeqAssoc(db.dead, more, rest);
    }
  }

  /** The rows picked by number are the rows so numbered. */
  lemma SelectIn(rows: seq<Row>, sequences: seq<int>, r: Row)
    requires PendingOrdered(rows) && AllIn(sequences, Sequences(rows)) && r in rows
    ensures r in Select(rows, sequences) <==> r.sequence in sequences
  {
    var picked := Select(rows, sequences);
    if r.sequence in sequences {
      var i :| 0 <= i < |sequences| && sequences[i] == r.sequence;
      assert picked[i] in rows && picked[i].sequence == r.sequence;
      SameIdSameRow(rows, picked[i], r);
    }
  }

  lemma BuryBig(limits: Limits, picked: seq<Row>, error: string, failed: int, uncertain: bool)
    ensures TooBig(limits, Bury(picked, error, failed, uncertain))
       <==> exists r :: r in picked && |r.payload| > limits.maxDeadBytes
  {
    var moved := Bury(picked, error, failed, uncertain);
    if r :| r in picked && |r.payload| > limits.maxDeadBytes {
      var i :| 0 <= i < |picked| && picked[i] == r;
      assert moved[i] in moved;
    }
    if d :| d in moved && |d.payload| > limits.maxDeadBytes {
      var i :| 0 <= i < |moved| && moved[i] == d;
      assert picked[i] in picked;
    }
  }

  /** The dead-letter store refuses a move exactly when a payload alone exceeds its byte limit;
      within the constructor's limits that never happens. */
  lemma DeadLetterFullExactly(
    db: Database, limits: Limits, sequences: seq<int>, error: string, failed: int, uncertain: bool)
    requires PendingOrdered(db.pending) && ValidSequences(sequences) && AllIn(sequences, Sequences(db.pending))
    requires sequences != [] && error != "" && INT64_MIN <= failed <= INT64_MAX
    ensures MoveToDeadLetter(db, limits, sequences, error, failed, uncertain) == Failed(DeadLetterFull)
       <==> exists r :: r in db.pending && r.sequence in sequences && |r.payload| > limits.maxDeadBytes
    ensures limits.Valid() && Within(db, limits) ==>
              MoveToDeadLetter(db, limits, sequences, error, failed, uncertain).Done?
  {
    var picked := Select(db.pending, sequences);
    BuryBig(limits, picked, error, failed, uncertain);
    forall r | r in db.pending ensures r in picked <==> r.sequence in sequences {
      SelectIn(db.pending, sequences, r);
    }
    assert forall r :: r in picked ==> r in db.pending;
  }
}
