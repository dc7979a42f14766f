/** `SQLiteSpool`: the operations as the source runs them, one SQL statement at a time inside a
    transaction that any statement may abort, proved against the whole-table specification. */
module Spool {
  import opened Basics
  import opened SpoolState
  import opened SpoolRows
  import opened SpoolLaws

  datatype Result<+T> = Ok(value: T) | Err(error: SpoolError)

  /** SQLite fails the numbered statement of a transaction (COMMIT included), or none. */
  datatype Fault = NoFault | FaultAt(statement: nat, error: SpoolError)

  predicate Strikes(fault: Fault, statement: nat) {
    fault.FaultAt? && fault.statement == statement
  }

  /** The call did exactly what the specification says, or SQLite failed and nothing changed. */
  predicate Performs<T(==)>(before: Database, after: Database, r: Result<T>, spec: Outcome<T>, fault: Fault) {
    || (spec.Done? && r == Ok(spec.value) && after == spec.db)
    || (spec.Failed? && r == Err(spec.error) && after == before)
    || (fault.FaultAt? && r == Err(fault.error) && after == before)
  }

  ghost predicate Counted(db: Database) {
    db.stats == Tally(db.pending, db.dead)
  }

  lemma AsSetSnoc(sequences: seq<int>, i: nat)
    requires i < |sequences|
    ensures AsSet(sequences[..i + 1]) == AsSet(sequences[..i]) + {sequences[i]}
  {
    assert sequences[..i + 1] == sequences[..i] + [sequences[i]];
  }

  lemma SequencesIn(rows: seq<Row>, q: int)
    ensures q in Sequences(rows) <==> exists r :: r in rows && r.sequence == q
  {
    if q in Sequences(rows) {
      var i :| 0 <= i < |rows| && Sequences(rows)[i] == q;
      assert rows[i] in rows;
    }
    if r :| r in rows && r.sequence == q {
      var i :| 0 <= i < |rows| && rows[i] == r;
      assert Sequences(rows)[i] == q;
    }
  }

  lemma OriginalsIn(rows: seq<DeadRow>, q: int)
    ensures q in Originals(rows) <==> exists r :: r in rows && r.original == q
  {
    if q in Originals(rows) {
      var i :| 0 <= i < |rows| && Originals(rows)[i] == q;
      assert rows[i] in rows;
    }
    if r :| r in rows && r.original == q {
      var i :| 0 <= i < |rows| && rows[i] == r;
      assert Originals(rows)[i] == q;
    }
  }

  lemma StillPresent(rows: seq<Row>, gone: set<int>, q: int)
    requires q !in gone
    ensures q in Sequences(Without(rows, gone)) <==> q in Sequences(rows)
  {
    SequencesIn(rows, q);
    SequencesIn(Without(rows, gone), q);
    if r :| r in rows && r.sequence == q {
      WithoutIn(rows, gone, r);
    }
    if r :| r in Without(rows, gone) && r.sequence == q {
      WithoutIn(rows, gone, r);
    }
  }

  lemma DeadStillPresent(rows: seq<DeadRow>, gone: set<int>, q: int)
    requires q !in gone
    ensures q in Originals(DeadWithout(rows, gone)) <==> q in Originals(rows)
  {
    OriginalsIn(rows, q);
    OriginalsIn(DeadWithout(rows, gone), q);
    if r :| r in rows && r.original == q {
      DeadWithoutIn(rows, gone, r);
    }
    if r :| r in DeadWithout(rows, gone) && r.original == q {
      DeadWithoutIn(rows, gone, r);
    }
  }

  /** Cutting out the row at `i` is deleting by its number. */
  lemma CutIsWithout(rows: seq<Row>, i: nat)
    requires i < |rows| && PendingOrdered(rows)
    ensures rows[..i] + rows[i + 1..] == Without(rows, {rows[i].sequence})
  {
    OthersStay(rows[..i], rows, i);
    OthersStay(rows[i + 1..], rows, i);
    WithoutAll([rows[i]], {rows[i].sequence});
    CutApart(rows, i, {rows[i].sequence});
  }

  lemma OthersStay(part: seq<Row>, rows: seq<Row>, i: nat)
    requires i < |rows| && PendingOrdered(rows) && (part == rows[..i] || part == rows[i + 1..])
    ensures Without(part, {rows[i].sequence}) == part
  {
    forall r | r in part ensures r.sequence != rows[i].sequence {
      var k :| 0 <= k < |part| && part[k] == r;
      assert part == rows[..i] ==> r == rows[k];
      assert part == rows[i + 1..] ==> r == rows[i + 1 + k];
    }
    WithoutNone(part, {rows[i].sequence});
  }

  lemma CutApart(rows: seq<Row>, i: nat, gone: set<int>)
    requires i < |rows|
    ensures Without(rows, gone) == Without(rows[..i], gone) + Without([rows[i]], gone) + Without(rows[i + 1..], gone)
  {
    WithoutConcat(rows[..i] + [rows[i]], rows[i + 1..], gone);
    WithoutConcat(rows[..i], [rows[i]], gone);
    assert rows == (rows[..i] + [rows[i]]) + rows[i + 1..];
  }

  lemma DeadCutIsWithout(rows: seq<DeadRow>, i: nat)
    requires i < |rows| && DeadDistinct(rows)
    ensures rows[..i] + rows[i + 1..] == DeadWithout(rows, {rows[i].original})
  {
    var gone := {rows[i].original};
    DeadWithoutNone(rows[..i], gone);
    DeadWithoutNone(rows[i + 1..], gone);
    assert DeadWithout([rows[i]], gone) == [];
    DeadCutApart(rows, i, gone);
  }

  lemma DeadCutApart(rows: seq<DeadRow>, i: nat, gone: set<int>)
    requires i < |rows|
    ensures DeadWithout(rows, gone)
         == DeadWithout(rows[..i], gone) + DeadWithout([rows[i]], gone) + DeadWithout(rows[i + 1..], gone)
  {
    DeadWithoutConcat(rows[..i] + [rows[i]], rows[i + 1..], gone);
    DeadWithoutConcat(rows[..i], [rows[i]], gone);
    assert rows == (rows[..i] + [rows[i]]) + rows[i + 1..];
  }

  // ------------------------------------------- one statement after another

  /** The tables after deleting the first `i` named rows. */
  ghost function Erased(db: Database, sequences: seq<int>, i: nat): Database
    requires i <= |sequences|
  {
    Make(Without(db.pending, AsSet(sequences[..i])), db.dead, db.lastSequence)
  }

  lemma ErasedEnds(db: Database, sequences: seq<int>)
    requires Valid(db)
    ensures Erased(db, sequences, 0) == db
    ensures Erased(db, sequences, |sequences|) == Make(Without(db.pending, AsSet(sequences)), db.dead, db.lastSequence)
  {
    WithoutNone(db.pending, AsSet(sequences[..0]));
    assert sequences[..|sequences|] == sequences;
  }

  lemma ErasedStep(db: Database, sequences: seq<int>, i: nat)
    requires Valid(db) && ValidSequences(sequences) && i < |sequences|
    ensures Valid(Erased(db, sequences, i))
    ensures Make(Without(Erased(db, sequences, i).pending, {sequences[i]}), db.dead, db.lastSequence)
         == Erased(db, sequences, i + 1)
    ensures sequences[i] in Sequences(Erased(db, sequences, i).pending) <==> sequences[i] in Sequences(db.pending)
  {
    var gone := AsSet(sequences[..i]);
    WithoutValid(db, gone);
    WithoutTwice(db.pending, gone, {sequences[i]});
    AsSetSnoc(sequences, i);
    StillPresent(db.pending, gone, sequences[i]);
  }

  ghost function DeadErased(db: Database, originals: seq<int>, i: nat): Database
    requires i <= |originals|
  {
    Make(db.pending, DeadWithout(db.dead, AsSet(originals[..i])), db.lastSequence)
  }

  lemma DeadErasedEnds(db: Database, originals: seq<int>)
    requires Valid(db)
    ensures DeadErased(db, originals, 0) == db
    ensures DeadErased(db, originals, |originals|)
         == Make(db.pending, DeadWithout(db.dead, AsSet(originals)), db.lastSequence)
  {
    DeadWithoutNone(db.dead, AsSet(originals[..0]));
    assert originals[..|originals|] == originals;
  }

  lemma DeadErasedStep(db: Database, originals: seq<int>, i: nat)
    requires Valid(db) && ValidSequences(originals) && i < |originals|
    ensures Valid(DeadErased(db, originals, i))
    ensures Make(db.pending, DeadWithout(DeadErased(db, originals, i).dead, {originals[i]}), db.lastSequence)
         == DeadErased(db, originals, i + 1)
    ensures originals[i] in Originals(DeadErased(db, originals, i).dead) <==> originals[i] in Originals(db.dead)
  {
    var gone := AsSet(originals[..i]);
    DeadWithoutValid(db, gone);
    DeadWithoutTwice(db.dead, gone, {originals[i]});
    AsSetSnoc(originals, i);
    DeadStillPresent(db.dead, gone, originals[i]);
  }

  ghost function Recorded(db: Database, sequences: seq<int>, i: nat, error: string, uncertain: bool): Database
    requires i <= |sequences|
  {
    Make(Touch(db.pending, AsSet(sequences[..i]), error, uncertain), db.dead, db.lastSequence)
  }

  lemma RecordedEnds(db: Database, sequences: seq<int>, error: string, uncertain: bool)
    requires Valid(db)
    ensures Recorded(db, sequences, 0, error, uncertain) == db
    ensures Recorded(db, sequences, |sequences|, error, uncertain)
         == Make(Touch(db.pending, AsSet(sequences), error, uncertain), db.dead, db.lastSequence)
  {
    assert Touch(db.pending, AsSet(sequences[..0]), error, uncertain) == db.pending;
    assert sequences[..|sequences|] == sequences;
  }

  lemma RecordedStep(db: Database, sequences: seq<int>, i: nat, error: string, uncertain: bool)
    requires Valid(db) && ValidSequences(sequences) && i < |sequences|
    ensures Valid(Recorded(db, sequences, i, error, uncertain))
    ensures Make(Touch(Recorded(db, sequences, i, error, uncertain).pending, {sequences[i]}, error, uncertain),
                 db.dead, db.lastSequence)
         == Recorded(db, sequences, i + 1, error, uncertain)
    ensures sequences[i] in Sequences(Recorded(db, sequences, i, error, uncertain).pending) <==>
            sequences[i] in Sequences(db.pending)
  {
    var which := AsSet(sequences[..i]);
    TouchValid(db, which, error, uncertain);
    TouchMore(db.pending, which, sequences[i], error, uncertain);
    AsSetSnoc(sequences, i);
    assert Sequences(Touch(db.pending, which, error, uncertain)) == Sequences(db.pending);
  }

  /** Touching one more number extends the set of touched numbers. */
  lemma TouchMore(rows: seq<Row>, which: set<int>, q: int, error: string, uncertain: bool)
    requires q !in which
    ensures Touch(Touch(rows, which, error, uncertain), {q}, error, uncertain)
         == Touch(rows, which + {q}, error, uncertain)
  {
  }

  lemma AffordableStep(rows: seq<Row>, i: nat, left: int)
    requires i < |rows|
    ensures Affordable(rows[i..], left) ==
            if |rows[i].payload| > left then 0 else 1 + Affordable(rows[i + 1..], left - |rows[i].payload|)
  {
    assert rows[i..][1..] == rows[i + 1..];
  }

  /** In a batch without repeated ids, what was admitted before position `i` does not matter at `i`. */
  lemma NotRepeated(known: map<string, Content>, distinct: seq<NewEvent>, i: nat)
    requires i < |distinct| && Admit(known, distinct[..i]).Some?
    requires forall a, b :: 0 <= a < b < |distinct| ==> distinct[a].id != distinct[b].id
    ensures var kept, e := Admit(known, distinct[..i]).value, distinct[i];
            Admit(known, distinct[..i + 1]) ==
            if e.id !in known then Some(kept + [e]) else if known[e.id] == ContentOf(e) then Some(kept) else None
  {
    var kept, e := Admit(known, distinct[..i]).value, distinct[i];
    AdmitSnoc(known, distinct[..i], e);
    assert distinct[..i + 1] == distinct[..i] + [e];
    NotKept(known, distinct[..i], kept, e);
  }

  /** An event whose id did not occur before is not among those kept. */
  lemma NotKept(known: map<string, Content>, front: seq<NewEvent>, kept: seq<NewEvent>, e: NewEvent)
    requires Admit(known, front) == Some(kept) && forall k :: 0 <= k < |front| ==> front[k].id != e.id
    ensures e.id !in EventContents(kept)
  {
    AdmitNovel(known, front);
    EventContentsKeys(kept);
  }

  /** The tables after the first `i` inserts. */
  ghost function Inserted(db: Database, events: seq<NewEvent>, i: nat): Database
    requires i <= |events|
  {
    Make(db.pending + NewRows(db.lastSequence, events[..i]), db.dead, db.lastSequence + i)
  }

  lemma InsertedEnds(db: Database, events: seq<NewEvent>)
    requires Counted(db)
    ensures Inserted(db, events, 0) == db
    ensures Inserted(db, events, |events|) ==
            Make(db.pending + NewRows(db.lastSequence, events), db.dead, db.lastSequence + |events|)
  {
    assert db.pending + NewRows(db.lastSequence, []) == db.pending;
    assert events[..|events|] == events;
  }

  lemma InsertedStep(db: Database, events: seq<NewEvent>, i: nat)
    requires i < |events|
    ensures var m := Inserted(db, events, i);
            Make(m.pending + [NewRow(events[i], m.lastSequence + 1)], m.dead, m.lastSequence + 1)
            == Inserted(db, events, i + 1)
  {
    var row := NewRow(events[i], db.lastSequence + i + 1);
    assert NewRows(db.lastSequence, events[..i + 1]) == NewRows(db.lastSequence, events[..i]) + [row];
    SeqAssoc(db.pending, NewRows(db.lastSequence, events[..i]), [row]);
  }

  lemma PendingContent(db: Database, r: Row)
    requires Consistent(db) && r in db.pending
    ensures r.id in Contents(db) && Contents(db)[r.id] == (r.payload, r.created)
  {
    ContentsExact(db);
  }

  lemma DeadContent(db: Database, d: DeadRow)
    requires Consistent(db) && d in db.dead
    ensures d.id in Contents(db) && Contents(db)[d.id] == (d.payload, d.created)
  {
    ContentsExact(db);
  }

  lemma NoContent(db: Database, id: string)
    requires Consistent(db) && (forall k :: 0 <= k < |db.pending| ==> db.pending[k].id != id)
    requires forall k :: 0 <= k < |db.dead| ==> db.dead[k].id != id
    ensures id !in Contents(db)
  {
    ContentsExact(db);
  }

  /** The dead-letter table after the first `i` rows of a move. */
  ghost function Ring(limits: Limits, before: seq<DeadRow>, moved: seq<DeadRow>, i: nat): seq<DeadRow>
    requires i <= |moved|
  {
    if i == 0 then before else Keep(limits, before + moved[..i])
  }

  lemma RingNext(limits: Limits, before: seq<DeadRow>, moved: seq<DeadRow>, i: nat)
    requires limits.Valid() && i < |moved|
    ensures Keep(limits, Ring(limits, before, moved, i) + [moved[i]]) == Ring(limits, before, moved, i + 1)
  {
    assert moved[..i + 1] == moved[..i] + [moved[i]];
    if i == 0 {
      assert moved[..1] == [moved[0]];
    } else {
      KeepAppend(limits, before + moved[..i], [moved[i]]);
      SeqAssoc(before, moved[..i], [moved[i]]);
    }
  }

  /** Evicting the oldest row of a ring with no room for `d` does not change what the ring will keep. */
  lemma EvictKeeps(limits: Limits, dead: seq<DeadRow>, d: DeadRow)
    requires dead != [] && !Fits(limits, dead + [d])
    ensures Keep(limits, dead + [d]) == Keep(limits, dead[1..] + [d])
  {
    assert (dead + [d])[1..] == dead[1..] + [d];
  }

  lemma FitsSnoc(limits: Limits, dead: seq<DeadRow>, d: DeadRow)
    ensures Fits(limits, dead + [d]) <==>
            |dead| + 1 <= limits.maxDeadRows && DeadBytes(dead) + |d.payload| <= limits.maxDeadBytes
  {
    DeadBytesConcat(dead, [d]);
  }

  /** Rows read one by one under their numbers are the rows selected. */
  lemma SelectUnique(rows: seq<Row>, sequences: seq<int>, records: seq<Row>)
    requires PendingOrdered(rows) && AllIn(sequences, Sequences(rows)) && |records| == |sequences|
    requires forall k :: 0 <= k < |records| ==> records[k] in rows && records[k].sequence == sequences[k]
    ensures records == Select(rows, sequences)
  {
    var picked := Select(rows, sequences);
    forall k | 0 <= k < |records| ensures records[k] == picked[k] {
      SameIdSameRow(rows, records[k], picked[k]);
    }
  }

  /** The tables after the first `i` rows of a move. */
  ghost function Moved(db: Database, limits: Limits, sequences: seq<int>, moved: seq<DeadRow>, i: nat): Database
    requires i <= |sequences| == |moved|
  {
    Make(Without(db.pending, AsSet(sequences[..i])), Ring(limits, db.dead, moved, i), db.lastSequence)
  }

  lemma MovedStep(db: Database, limits: Limits, sequences: seq<int>, moved: seq<DeadRow>, i: nat)
    requires Valid(db) && limits.Valid() && ValidSequences(sequences) && AllIn(sequences, Sequences(db.pending))
    requires i < |sequences| == |moved| && moved[i].original == sequences[i]
    ensures var m := Moved(db, limits, sequences, moved, i);
            && Counted(m) && PendingOrdered(m.pending) && sequences[i] in Sequences(m.pending)
            && Make(Without(m.pending, {sequences[i]}), Keep(limits, m.dead + [moved[i]]), m.lastSequence)
               == Moved(db, limits, sequences, moved, i + 1)
  {
    ErasedStep(db, sequences, i);
    RingNext(limits, db.dead, moved, i);
    assert sequences[i] in sequences;
  }

  lemma TooBigSnoc(limits: Limits, rows: seq<DeadRow>, i: nat)
    requires i < |rows|
    ensures TooBig(limits, rows[..i + 1]) <==> TooBig(limits, rows[..i]) || |rows[i].payload| > limits.maxDeadBytes
    ensures TooBig(limits, rows[..i + 1]) ==> TooBig(limits, rows)
  {
    assert rows[..i + 1] == rows[..i] + [rows[i]];
    assert rows == rows[..i + 1] + rows[i + 1..];
  }

  lemma MovedStart(db: Database, limits: Limits, sequences: seq<int>, moved: seq<DeadRow>)
    requires Valid(db) && |sequences| == |moved|
    ensures Moved(db, limits, sequences, moved, 0) == db
  {
    ErasedEnds(db, sequences);
  }

  lemma MovedEnds(db: Database, limits: Limits, sequences: seq<int>, moved: seq<DeadRow>)
    requires Valid(db) && |sequences| == |moved| > 0 && !TooBig(limits, moved)
    ensures var m := Moved(db, limits, sequences, moved, |moved|);
            BuryRows(db, limits, moved, AsSet(sequences)) == Done((|moved|, |db.dead| + |moved| - |m.dead|), m)
  {
    ErasedEnds(db, sequences);
    assert moved[..|moved|] == moved;
  }

  class SQLiteSpool {
    const limits: Limits
    var db: Database

    /** Connect to a stored database file. */
    constructor (limits: Limits, stored: Database)
      requires limits.Valid()
      ensures this.limits == limits && db == stored
    {
      this.limits := limits;
      db := stored;
    }

    /** `_initialize_schema`: refuse a file whose tables share an event, recount otherwise. */
    method Initialize() returns (r: Result<()>)
      requires Consistent(db.(pending := [])) && Consistent(db.(dead := []))
      modifies this
      ensures Overlap(old(db)) ==> r == Err(StateError) && db == old(db)
      ensures !Overlap(old(db)) ==> r == Ok(()) && Valid(db) && db == old(db).(stats := db.stats)
    {
      var i := 0;
      while i < |db.pending|
        invariant 0 <= i <= |db.pending| && db == old(db)
        invariant forall a, d :: 0 <= a < i && d in db.dead ==>
                                   db.pending[a].id != d.id && db.pending[a].sequence != d.original
      {
        var j := 0;
        while j < |db.dead|
          invariant 0 <= j <= |db.dead| && db == old(db)
          invariant forall b :: 0 <= b < j ==>
                                  db.pending[i].id != db.dead[b].id && db.pending[i].sequence != db.dead[b].original
        {
          if db.pending[i].id == db.dead[j].id || db.pending[i].sequence == db.dead[j].original {
            assert db.pending[i] in db.pending && db.dead[j] in db.dead;
            return Err(StateError);
          }
          j := j + 1;
        }
        i := i + 1;
      }
      var stats := Reconcile();
      db := db.(stats := stats);
      return Ok(());
    }

    /** `_reconcile_stats`: count rows and payload bytes of both tables. */
    method Reconcile() returns (stats: Stats)
      ensures stats == Tally(db.pending, db.dead)
    {
      var pendingBytes, deadBytes := 0, 0;
      for i := 0 to |db.pending|
        invariant pendingBytes == PendingBytes(db.pending[..i])
      {
        assert db.pending[..i + 1][..i] == db.pending[..i];
        pendingBytes := pendingBytes + |db.pending[i].payload|;
      }
      for i := 0 to |db.dead|
        invariant deadBytes == DeadBytes(db.dead[..i])
      {
        DeadBytesSnoc(db.dead[..i + 1]);
        assert db.dead[..i + 1][..i] == db.dead[..i];
        deadBytes := deadBytes + |db.dead[i].payload|;
      }
      assert db.pending[..|db.pending|] == db.pending && db.dead[..|db.dead|] == db.dead;
      stats := Stats(|db.pending|, pendingBytes, |db.dead|, deadBytes);
    }

    // ------------------------------------------------------------ statements

    /** DELETE FROM pending WHERE sequence = q, with its trigger. */
    method DeletePending(q: int) returns (count: nat)
      requires Counted(db) && PendingOrdered(db.pending)
      modifies this
      ensures db == Make(Without(old(db).pending, {q}), old(db).dead, old(db).lastSequence)
      ensures count == if q in Sequences(old(db).pending) then 1 else 0
    {
      var i := 0;
      while i < |db.pending| && db.pending[i].sequence != q
        invariant 0 <= i <= |db.pending| && db == old(db)
        invariant forall k :: 0 <= k < i ==> db.pending[k].sequence != q
      {
        i := i + 1;
      }
      SequencesIn(db.pending, q);
      if i == |db.pending| {
        WithoutNone(db.pending, {q});
        return 0;
      }
      assert db.pending[i] in db.pending;
      CutIsWithout(db.pending, i);
      WithoutOne(db.pending, db.pending[i]);
      var bytes := |db.pending[i].payload|;
      db := db.(pending := db.pending[..i] + db.pending[i + 1..]);
      var stats := db.stats;
      db := db.(stats := stats.(pendingRows := stats.pendingRows - 1, pendingBytes := stats.pendingBytes - bytes));
      return 1;
    }

    /** DELETE FROM dead_letter WHERE original_sequence = q, with its trigger. */
    method DeleteDeadLetter(q: int) returns (count: nat)
      requires Counted(db) && DeadDistinct(db.dead)
      modifies this
      ensures db == Make(old(db).pending, DeadWithout(old(db).dead, {q}), old(db).lastSequence)
      ensures count == if q in Originals(old(db).dead) then 1 else 0
    {
      var i := 0;
      while i < |db.dead| && db.dead[i].original != q
        invariant 0 <= i <= |db.dead| && db == old(db)
        invariant forall k :: 0 <= k < i ==> db.dead[k].original != q
      {
        i := i + 1;
      }
      OriginalsIn(db.dead, q);
      if i == |db.dead| {
        DeadWithoutNone(db.dead, {q});
        return 0;
      }
      assert db.dead[i] in db.dead;
      DeadCutIsWithout(db.dead, i);
      DeadWithoutOne(db.dead, db.dead[i]);
      var bytes := |db.dead[i].payload|;
      db := db.(dead := db.dead[..i] + db.dead[i + 1..]);
      db := db.(stats := db.stats.(deadRows := db.stats.deadRows - 1, deadBytes := db.stats.deadBytes - bytes));
      return 1;
    }

    /** UPDATE pending ... WHERE sequence = q. */
    method UpdateAttempt(q: int, error: string, uncertain: bool) returns (count: nat)
      requires Counted(db) && PendingOrdered(db.pending)
      modifies this
      ensures db == Make(Touch(old(db).pending, {q}, error, uncertain), old(db).dead, old(db).lastSequence)
      ensures count == if q in Sequences(old(db).pending) then 1 else 0
    {
      TouchBytes(db.pending, {q}, error, uncertain);
      SequencesIn(db.pending, q);
      var i := 0;
      while i < |db.pending| && db.pending[i].sequence != q
        invariant 0 <= i <= |db.pending| && db == old(db)
        invariant forall k :: 0 <= k < i ==> db.pending[k].sequence != q
      {
        i := i + 1;
      }
      if i == |db.pending| {
        assert Touch(db.pending, {q}, error, uncertain) == db.pending;
        return 0;
      }
      assert db.pending[i] in db.pending;
      db := db.(pending := db.pending[i := Touched(db.pending[i], error, uncertain)]);
      assert db.pending == Touch(old(db).pending, {q}, error, uncertain);
      return 1;
    }

    // ----------------------------------------------------------- transactions

    method MarkDelivered(sequences: seq<int>, fault: Fault) returns (r: Result<nat>)
      requires Valid(db)
      modifies this
      ensures Performs(old(db), db, r, SpoolState.MarkDelivered(old(db), sequences), fault)
    {
      if !ValidSequences(sequences) {
        return Err(ValueError);
      }
      if sequences == [] {
        WithoutNone(db.pending, AsSet([]));
        return Ok(0);
      }
      ErasedEnds(db, sequences);
      var snapshot, at := db, 1;
      if Strikes(fault, 0) {
        return Err(fault.error);
      }
      for i := 0 to |sequences|
        invariant db == Erased(snapshot, sequences, i)
        invariant AllIn(sequences[..i], Sequences(snapshot.pending))
      {
        var q := sequences[i];
        ErasedStep(snapshot, sequences, i);
        if Strikes(fault, at) {
          db := snapshot;
          return Err(fault.error);
        }
        at := at + 1;
        var count := DeletePending(q);
        if count != 1 {
          db := snapshot;
          assert q in sequences;
          return Err(StateError);
        }
      }
      if Strikes(fault, at) {
        db := snapshot;
        return Err(fault.error);
      }
      return Ok(|sequences|);
    }

    method DeleteDeadLetters(originals: seq<int>, fault: Fault) returns (r: Result<nat>)
      requires Valid(db)
      modifies this
      ensures Performs(old(db), db, r, DeleteDead(old(db), originals), fault)
    {
      if !ValidSequences(originals) {
        return Err(ValueError);
      }
      DeadErasedEnds(db, originals);
      if originals == [] {
        return Ok(0);
      }
      var snapshot, at := db, 1;
      if Strikes(fault, 0) {
        return Err(fault.error);
      }
      for i := 0 to |originals|
        invariant db == DeadErased(snapshot, originals, i)
        invariant AllIn(originals[..i], Originals(snapshot.dead))
      {
        DeadErasedStep(snapshot, originals, i);
        if Strikes(fault, at) {
          db := snapshot;
          return Err(fault.error);
        }
        at := at + 1;
        var count := DeleteDeadLetter(originals[i]);
        if count != 1 {
          db := snapshot;
          assert originals[i] in originals;
          return Err(StateError);
        }
      }
      if Strikes(fault, at) {
        db := snapshot;
        return Err(fault.error);
      }
      return Ok(|originals|);
    }

    method RecordAttempt(sequences: seq<int>, error: string, uncertain: bool, fault: Fault) returns (r: Result<nat>)
      requires Valid(db)
      modifies this
      ensures Performs(old(db), db, r, SpoolState.RecordAttempt(old(db), sequences, error, uncertain), fault)
    {
      if !ValidSequences(sequences) || error == "" {
        return Err(ValueError);
      }
      RecordedEnds(db, sequences, error, uncertain);
      if sequences == [] {
        return Ok(0);
      }
      var snapshot, at := db, 1;
      if Strikes(fault, 0) {
        return Err(fault.error);
      }
      for i := 0 to |sequences|
        invariant db == Recorded(snapshot, sequences, i, error, uncertain)
        invariant AllIn(sequences[..i], Sequences(snapshot.pending))
      {
        RecordedStep(snapshot, sequences, i, error, uncertain);
        if Strikes(fault, at) {
          db := snapshot;
          return Err(fault.error);
        }
        at := at + 1;
        var count := UpdateAttempt(sequences[i], error, uncertain);
        if count != 1 {
          db := snapshot;
          assert sequences[i] in sequences;
          return Err(StateError);
        }
      }
      if Strikes(fault, at) {
        db := snapshot;
        return Err(fault.error);
      }
      return Ok(|sequences|);
    }

    method PeekBatch(maxRows: int, maxBytes: int) returns (p: Peeked)
      ensures p == SpoolState.PeekBatch(db, maxRows, maxBytes)
    {
      if maxRows <= 0 || maxBytes <= 0 {
        return PeekFailed(ValueError);
      }
      var rows := if |db.pending| <= maxRows then db.pending else db.pending[..maxRows];
      var batch: seq<Row>, bytes := [], 0;
      while |batch| < |rows|
        invariant |batch| <= |rows| && batch == rows[..|batch|] && bytes <= maxBytes
        invariant Affordable(rows, maxBytes) == |batch| + Affordable(rows[|batch|..], maxBytes - bytes)
      {
        var row := rows[|batch|];
        var size := |row.payload|;
        AffordableStep(rows, |batch|, maxBytes - bytes);
        if bytes + size > maxBytes {
          if batch == [] {
            return PeekFailed(BatchLimitTooSmall);
          }
          return Peek(batch);
        }
        batch := batch + [row];
        bytes := bytes + size;
      }
      return Peek(batch);
    }

    // ---------------------------------------------------------- enqueue_many

    /** The content retained under an id, pending before dead letter. */
    method SelectContent(id: string) returns (found: Option<Content>)
      requires Consistent(db)
      ensures found == if id in Contents(db) then Some(Contents(db)[id]) else None
    {
      for i := 0 to |db.pending|
        invariant forall k :: 0 <= k < i ==> db.pending[k].id != id
      {
        if db.pending[i].id == id {
          PendingContent(db, db.pending[i]);
          return Some((db.pending[i].payload, db.pending[i].created));
        }
      }
      for i := 0 to |db.dead|
        invariant forall k :: 0 <= k < i ==> db.dead[k].id != id
      {
        if db.dead[i].id == id {
          DeadContent(db, db.dead[i]);
          return Some((db.dead[i].payload, db.dead[i].created));
        }
      }
      NoContent(db, id);
      return None;
    }

    /** The first validation error of the input, as `enqueue_many` meets it. */
    method ValidateAll(events: seq<NewEvent>) returns (error: Option<SpoolError>)
      ensures error == FirstError(events, limits)
    {
      for i := 0 to |events|
        invariant FirstError(events[..i], limits).None?
      {
        assert events[..i + 1] == events[..i] + [events[i]];
        FirstErrorConcat(events[..i], [events[i]], limits);
        var failure := EventError(events[i], limits);
        if failure.Some? {
          assert events == events[..i + 1] + events[i + 1..];
          FirstErrorConcat(events[..i + 1], events[i + 1..], limits);
          return failure;
        }
      }
      assert events[..|events|] == events;
      return None;
    }

    /** The `distinct_events` dictionary in insertion order, or None on a conflict. */
    method Distinct(events: seq<NewEvent>) returns (distinct: Option<seq<NewEvent>>)
      ensures distinct == Admit(map[], events)
    {
      var kept: seq<NewEvent>, seen: map<string, Content> := [], map[];
      for i := 0 to |events|
        invariant Admit(map[], events[..i]) == Some(kept) && seen == EventContents(kept)
      {
        var event := events[i];
        assert events[..i + 1] == events[..i] + [event];
        assert map[] + seen == seen;
        AdmitSnoc(map[], events[..i], event);
        if event.id !in seen {
          assert (kept + [event])[..|kept|] == kept;
          seen := seen[event.id := ContentOf(event)];
          kept := kept + [event];
        } else if seen[event.id] != ContentOf(event) {
          assert events == events[..i + 1] + events[i + 1..];
          AdmitConcat(map[], events[..i + 1], events[i + 1..]);
          return None;
        }
      }
      assert events[..|events|] == events;
      return Some(kept);
    }

    /** INSERT INTO pending, with its trigger and AUTOINCREMENT. */
    method InsertPending(event: NewEvent)
      requires Counted(db)
      modifies this
      ensures db
           == Make(old(db).pending + [NewRow(event, old(db).lastSequence + 1)], old(db).dead, old(db).lastSequence + 1)
    {
      var row := NewRow(event, db.lastSequence + 1);
      PendingBytesConcat(db.pending, [row]);
      db := db.(pending := db.pending + [row], lastSequence := db.lastSequence + 1);
      db := db.(stats := db.stats.(pendingRows := db.stats.pendingRows + 1,
      pendingBytes := db.stats.pendingBytes + |event.payload|));
    }

    method EnqueueMany(events: seq<NewEvent>, fault: Fault) returns (r: Result<nat>)
      requires Valid(db)
      modifies this
      ensures Performs(old(db), db, r, Enqueue(old(db), limits, events), fault)
    {
      var failure := ValidateAll(events);
      if failure.Some? {
        return Err(failure.value);
      }
      if events == [] {
        return Ok(0);
      }
      var distinct := Distinct(events);
      AdmitFilter(map[], Contents(db), events);
      if distinct.None? {
        return Err(StateError);
      }
      AdmitNovel(map[], events);
      r := InsertDistinct(distinct.value, fault);
    }

    /** The transaction of `enqueue_many` on a batch without repeated ids. */
    method InsertDistinct(distinct: seq<NewEvent>, fault: Fault) returns (r: Result<nat>)
      requires Valid(db) && forall i, j :: 0 <= i < j < |distinct| ==> distinct[i].id != distinct[j].id
      modifies this
      ensures Performs(old(db), db, r, EnqueueNew(old(db), limits, distinct), fault)
    {
      var snapshot, at := db, 1;
      if Strikes(fault, 0) {
        return Err(fault.error);
      }
      ghost var known := Contents(db);
      var novel: seq<NewEvent> := [];
      for i := 0 to |distinct|
        invariant db == snapshot && Admit(known, distinct[..i]) == Some(novel)
      {
        if Strikes(fault, at) {
          return Err(fault.error);
        }
        at := at + 1;
        var event := distinct[i];
        NotRepeated(known, distinct, i);
        var existing := SelectContent(event.id);
        if existing.Some? && existing.value != ContentOf(event) {
          AdmitConflict(known, distinct, event);
          return Err(StateError);
        }
        if existing.None? {
          novel := novel + [event];
        }
      }
      assert distinct[..|distinct|] == distinct;
      if Strikes(fault, at) {
        return Err(fault.error);
      }
      at := at + 1;
      if db.stats.pendingRows + |novel| > limits.maxPendingRows {
        return Err(PendingFull);
      }
      var addedBytes := SumBytes(novel);
      if db.stats.pendingBytes + addedBytes > limits.maxPendingBytes {
        return Err(PendingFull);
      }
      r := InsertRows(novel, at, fault);
    }

    method SumBytes(events: seq<NewEvent>) returns (bytes: nat)
      ensures bytes == EventBytes(events)
    {
      bytes := 0;
      for i := 0 to |events|
        invariant bytes == EventBytes(events[..i])
      {
        assert events[..i + 1] == events[..i] + [events[i]];
        EventBytesConcat(events[..i], [events[i]]);
        bytes := bytes + |events[i].payload|;
      }
      assert events[..|events|] == events;
    }

    /** The `executemany` and the COMMIT of `enqueue_many`. */
    method InsertRows(novel: seq<NewEvent>, start: nat, fault: Fault) returns (r: Result<nat>)
      requires Valid(db)
      modifies this
      ensures || (r == Ok(|novel|) && db == Make(old(db).pending + NewRows(old(db).lastSequence, novel), old(db).dead,
                                                 old(db).lastSequence + |novel|))
              || (fault.FaultAt? && r == Err(fault.error) && db == old(db))
    {
      var snapshot, at := db, start;
      InsertedEnds(db, novel);
      for i := 0 to |novel|
        invariant db == Inserted(snapshot, novel, i)
      {
        if Strikes(fault, at) {
          db := snapshot;
          return Err(fault.error);
        }
        at := at + 1;
        InsertPending(novel[i]);
        InsertedStep(snapshot, novel, i);
      }
      if Strikes(fault, at) {
        db := snapshot;
        return Err(fault.error);
      }
      return Ok(|novel|);
    }

    // ------------------------------------------------------ move_to_dead_letter

    /** SELECT ... FROM pending WHERE sequence = q. */
    method SelectPending(q: int) returns (row: Option<Row>)
      requires PendingOrdered(db.pending)
      ensures row.None? <==> q !in Sequences(db.pending)
      ensures row.Some? ==> row.value in db.pending && row.value.sequence == q
    {
      SequencesIn(db.pending, q);
      for i := 0 to |db.pending|
        invariant forall k :: 0 <= k < i ==> db.pending[k].sequence != q
      {
        if db.pending[i].sequence == q {
          return Some(db.pending[i]);
        }
      }
      return None;
    }

    /** DELETE the oldest dead letter, with its trigger. */
    method DeleteOldest()
      requires Counted(db) && db.dead != []
      modifies this
      ensures db == Make(old(db).pending, old(db).dead[1..], old(db).lastSequence)
    {
      var bytes := |db.dead[0].payload|;
      db := db.(dead := db.dead[1..]);
      db := db.(stats := db.stats.(deadRows := db.stats.deadRows - 1, deadBytes := db.stats.deadBytes - bytes));
    }

    /** INSERT INTO dead_letter, with its trigger. */
    method InsertDead(d: DeadRow)
      requires Counted(db)
      modifies this
      ensures db == Make(old(db).pending, old(db).dead + [d], old(db).lastSequence)
    {
      DeadBytesConcat(db.dead, [d]);
      db := db.(dead := db.dead + [d]);
      db := db.(stats := db.stats.(deadRows := db.stats.deadRows + 1, deadBytes := db.stats.deadBytes + |d.payload|));
    }

    method MoveToDeadLetter(sequences: seq<int>, error: string, failed: int, uncertain: bool, fault: Fault)
      returns (r: Result<(nat, nat)>)
      requires Valid(db) && limits.Valid()
      modifies this
      ensures Performs(old(db), db, r,
                       SpoolState.MoveToDeadLetter(old(db), limits, sequences, error, failed, uncertain), fault)
    {
      if !ValidSequences(sequences) || error == "" || !(INT64_MIN <= failed <= INT64_MAX) {
        return Err(ValueError);
      }
      if sequences == [] {
        return Ok((0, 0));
      }
      var at := 1;
      if Strikes(fault, 0) {
        return Err(fault.error);
      }
      var records: seq<Row> := [];
      for i := 0 to |sequences|
        invariant |records| == i && at == i + 1
        invariant AllIn(sequences[..i], Sequences(db.pending))
        invariant forall k :: 0 <= k < i ==> records[k] in db.pending && records[k].sequence == sequences[k]
        invariant db == old(db)
      {
        if Strikes(fault, at) {
          return Err(fault.error);
        }
        at := at + 1;
        var row := SelectPending(sequences[i]);
        if row.None? {
          assert sequences[i] in sequences;
          return Err(StateError);
        }
        records := records + [row.value];
      }
      assert sequences[..|sequences|] == sequences;
      SelectUnique(db.pending, sequences, records);
      r := MoveRecords(sequences, records, error, failed, uncertain, at, fault);
    }

    /** The rest of the transaction, once the rows have been read. */
    method MoveRecords(sequences: seq<int>, records: seq<Row>, error: string, failed: int, uncertain: bool,
                       start: nat, fault: Fault)
      returns (r: Result<(nat, nat)>)
      requires Valid(db) && limits.Valid()
      requires ValidSequences(sequences) && AllIn(sequences, Sequences(db.pending)) && sequences != []
      requires |records| == |sequences|
      requires forall k :: 0 <= k < |records| ==> records[k].sequence == sequences[k]
      modifies this
      ensures Performs(old(db), db, r,
                       BuryRows(old(db), limits, Bury(records, error, failed, uncertain), AsSet(sequences)), fault)
    {
      var snapshot := db;
      if Strikes(fault, start) {
        return Err(fault.error);
      }
      ghost var moved := Bury(records, error, failed, uncertain);
      var failure, evicted, at := MoveEach(sequences, records, error, failed, uncertain, start + 1, fault);
      if failure.Some? {
        db := snapshot;
        return Err(failure.value);
      }
      if Strikes(fault, at) {
        db := snapshot;
        return Err(fault.error);
      }
      MovedEnds(snapshot, limits, sequences, moved);
      assert |moved| == |records|;
      return Ok((|records|, evicted));
    }

    /** One row after the other; the caller rolls back a failure. */
    method MoveEach(sequences: seq<int>, records: seq<Row>, error: string, failed: int, uncertain: bool,
                    start: nat, fault: Fault)
      returns (failure: Option<SpoolError>, evicted: nat, at: nat)
      requires Valid(db) && limits.Valid()
      requires ValidSequences(sequences) && AllIn(sequences, Sequences(db.pending))
      requires |records| == |sequences|
      requires forall k :: 0 <= k < |records| ==> records[k].sequence == sequences[k]
      modifies this
      ensures failure.None? ==>
                var dead := Bury(records, error, failed, uncertain);
                && !TooBig(limits, dead)
                && db == Moved(old(db), limits, sequences, dead, |dead|)
                && evicted == |old(db).dead| + |dead| - |db.dead|
      ensures failure.Some? ==>
                || (failure.value == DeadLetterFull && TooBig(limits, Bury(records, error, failed, uncertain)))
                || (fault.FaultAt? && failure.value == fault.error)
    {
      evicted, at := 0, start;
      var rows, bytes := db.stats.deadRows, db.stats.deadBytes;
      ghost var snapshot, dead := db, Bury(records, error, failed, uncertain);
      MovedStart(db, limits, sequences, dead);
      for i := 0 to |records|
        invariant db == Moved(snapshot, limits, sequences, dead, i)
        invariant rows == |db.dead| && bytes == DeadBytes(db.dead)
        invariant evicted == |snapshot.dead| + i - |db.dead|
        invariant !TooBig(limits, dead[..i])
      {
        var d := Buried(records[i], error, failed, uncertain);
        MovedStep(snapshot, limits, sequences, dead, i);
        TooBigSnoc(limits, dead, i);
        var more: nat;
        failure, more, rows, bytes, at := MoveOne(d, rows, bytes, at, fault);
        if failure.Some? {
          return;
        }
        evicted := evicted + more;
      }
      assert dead[..|dead|] == dead;
      failure := None;
    }

    /** Make room, insert the dead letter, delete the pending row; the caller rolls back a failure.
        The totals are tracked locally across the rows of a move. */
    method MoveOne(d: DeadRow, currentRows: int, currentBytes: int, start: nat, fault: Fault)
      returns (failure: Option<SpoolError>, evicted: nat, rows: int, bytes: int, at: nat)
      requires currentRows == |db.dead| && currentBytes == DeadBytes(db.dead)
      requires Counted(db) && PendingOrdered(db.pending) && limits.Valid() && d.original in Sequences(db.pending)
      modifies this
      ensures failure.None? ==> |d.payload| <= limits.maxDeadBytes
      ensures failure.None? ==>
                && db == Make(Without(old(db).pending, {d.original}), Keep(limits, old(db).dead + [d]),
                              old(db).lastSequence)
                && evicted == |old(db).dead| + 1 - |db.dead|
                && rows == |db.dead| && bytes == DeadBytes(db.dead)
      ensures failure.Some? ==> (failure.value == DeadLetterFull && |d.payload| > limits.maxDeadBytes)
                                || (fault.FaultAt? && failure.value == fault.error)
    {
      failure, evicted, rows, bytes, at := MakeRoom(d, currentRows, currentBytes, start, fault);
      if failure.Some? {
        return;
      }
      if Strikes(fault, at) || Strikes(fault, at + 1) {
        return Some(fault.error), evicted, rows, bytes, at;
      }
      at := at + 2;
      BuryRow(d);
      rows, bytes := rows + 1, bytes + |d.payload|;
    }

    /** The INSERT and the DELETE of one row's move. */
    method BuryRow(d: DeadRow)
      requires Counted(db) && PendingOrdered(db.pending) && d.original in Sequences(db.pending)
      modifies this
      ensures db == Make(Without(old(db).pending, {d.original}), old(db).dead + [d], old(db).lastSequence)
      ensures DeadBytes(db.dead) == DeadBytes(old(db).dead) + |d.payload|
    {
      DeadBytesConcat(db.dead, [d]);
      InsertDead(d);
      var count := DeletePending(d.original);
      if count != 1 {
        assert false;
      }
    }

    /** The eviction loop in front of one insertion. */
    method MakeRoom(d: DeadRow, currentRows: int, currentBytes: int, start: nat, fault: Fault)
      returns (failure: Option<SpoolError>, evicted: nat, rows: int, bytes: int, at: nat)
      requires Counted(db) && limits.Valid()
      requires currentRows == |db.dead| && currentBytes == DeadBytes(db.dead)
      modifies this
      ensures db == Make(old(db).pending, db.dead, old(db).lastSequence)
      ensures failure.None? ==> db.dead + [d] == Keep(limits, old(db).dead + [d])
                                && evicted == |old(db).dead| - |db.dead|
      ensures rows == |db.dead| && bytes == DeadBytes(db.dead)
      ensures failure.None? ==> |d.payload| <= limits.maxDeadBytes
      ensures failure.Some? ==> (failure.value == DeadLetterFull && |d.payload| > limits.maxDeadBytes)
                                || (fault.FaultAt? && failure.value == fault.error)
    {
      rows, bytes := currentRows, currentBytes;
      evicted, at := 0, start;
      FitsSnoc(limits, db.dead, d);
      while rows + 1 > limits.maxDeadRows || bytes + |d.payload| > limits.maxDeadBytes
        invariant Counted(db) && rows == |db.dead| && bytes == DeadBytes(db.dead)
        invariant db == Make(old(db).pending, db.dead, old(db).lastSequence)
        invariant evicted == |old(db).dead| - |db.dead|
        invariant Keep(limits, db.dead + [d]) == Keep(limits, old(db).dead + [d])
        invariant Fits(limits, db.dead + [d]) <==>
                  rows + 1 <= limits.maxDeadRows && bytes + |d.payload| <= limits.maxDeadBytes
        decreases |db.dead|
      {
        if db.dead == [] {
          return Some(DeadLetterFull), evicted, rows, bytes, at;
        }
        if Strikes(fault, at) || Strikes(fault, at + 1) {
          return Some(fault.error), evicted, rows, bytes, at;
        }
        at := at + 2;
        EvictKeeps(limits, db.dead, d);
        rows, bytes := rows - 1, bytes - |db.dead[0].payload|;
        DeleteOldest();
        evicted := evicted + 1;
        FitsSnoc(limits, db.dead, d);
      }
      return None, evicted, rows, bytes, at;
    }
  }
}
