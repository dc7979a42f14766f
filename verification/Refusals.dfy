/** When the spool refuses an operation, and with which error. */
module Refusals {
  import opened Basics
  import opened SpoolState
  import opened SpoolRows
  import opened SpoolLaws
  import opened Verdicts

  // ------------------------------------------------------------------ enqueue

  /** An event is a mistake exactly without an id, with NUL in it, without a payload or with a time beyond
      64 bits; a sound one is too large exactly above the event limit. */
  lemma EventRefusedExactly(event: NewEvent, limits: Limits)
    ensures var sound := |event.id| > 0 && (forall c :: c in event.id ==> c != '\0') && |event.payload| > 0
                         && -0x8000_0000_0000_0000 <= event.created < 0x8000_0000_0000_0000;
            && (EventError(event, limits) == Some(ValueError) <==> !sound)
            && (EventError(event, limits) == Some(EventTooLarge) <==> sound && |event.payload| > limits.maxEventBytes)
            && (EventError(event, limits).None? <==> sound && |event.payload| <= limits.maxEventBytes)
  {
  }

  /** The position of the first event that does not validate. */
  ghost predicate FirstBad(events: seq<NewEvent>, limits: Limits, i: nat) {
    i < |events| && EventError(events[i], limits).Some? && forall j :: 0 <= j < i ==>
                                                                         EventError(events[j], limits).None?
  }

  lemma {:induction false} FirstBadDecides(events: seq<NewEvent>, limits: Limits, i: nat)
    requires FirstBad(events, limits, i)
    ensures FirstError(events, limits) == EventError(events[i], limits)
  {
    if i > 0 {
      assert FirstBad(events[1..], limits, i - 1);
      FirstBadDecides(events[1..], limits, i - 1);
    }
  }

  /** What of a batch is new: one event for each id that is not retained. */
  ghost predicate NewOnes(known: map<string, Content>, events: seq<NewEvent>, novel: seq<NewEvent>) {
    && (forall e :: e in novel ==> e in events && e.id !in known)
    && (forall i, j :: 0 <= i < j < |novel| ==> novel[i].id != novel[j].id)
    && (forall e :: e in events ==> e.id in known || e in novel)
  }

  lemma AdmitsNewOnes(known: map<string, Content>, events: seq<NewEvent>)
    requires Admit(known, events).Some?
    ensures NewOnes(known, events, Admit(known, events).value)
  {
    AdmitNovel(known, events);
    forall e | e in events ensures e.id in known || e in Admit(known, events).value {
      AdmitCovers(known, events, e);
    }
  }

  /** The pending table has no room for what is new. */
  predicate Overfull(db: Database, limits: Limits, novel: seq<NewEvent>) {
    || |db.pending| + |novel| > limits.maxPendingRows
    || PendingBytes(db.pending) + EventBytes(novel) > limits.maxPendingBytes
  }

  /** A batch with an invalid event is refused with the first one's error. */
  lemma InvalidRefused(db: Database, limits: Limits, events: seq<NewEvent>, i: nat)
    requires FirstBad(events, limits, i)
    ensures Enqueue(db, limits, events) == Failed(EventError(events[i], limits).value)
  {
    FirstBadDecides(events, limits, i);
  }

  /** Otherwise it is refused as conflicting exactly if an id would stand for two contents, as full exactly
      if what is new exceeds a limit, and else inserts exactly what is new. */
  lemma EnqueueExactly(db: Database, limits: Limits, events: seq<NewEvent>)
    requires Valid(db) && events != [] && FirstError(events, limits).None?
    ensures Enqueue(db, limits, events) == Failed(StateError) <==> Conflicting(Contents(db), events)
    ensures !Conflicting(Contents(db), events) ==>
              exists novel :: NewOnes(Contents(db), events, novel)
                              && (Enqueue(db, limits, events) == Failed(PendingFull) <==> Overfull(db, limits, novel))
                              && (!Overfull(db, limits, novel) ==>
                                    Enqueue(db, limits, events).Done? && Enqueue(db, limits, events).value == |novel|)
  {
    AdmitFails(Contents(db), events);
    if !Conflicting(Contents(db), events) {
      AdmitsNewOnes(Contents(db), events);
      var novel := Admit(Contents(db), events).value;
      assert Enqueue(db, limits, events) == InsertAll(db, limits, novel);
      assert NewOnes(Contents(db), events, novel);
    }
  }

  // ------------------------------------------------- operations on named rows

  function NumbersOf(op: Op): seq<int> {
    match op
    case EnqueueMany(_) => []
    case Delivered(sequences) => sequences
    case Attempted(sequences, _, _) => sequences
    case Rejected(sequences, _, _, _) => sequences
    case Deleted(originals) => originals
  }

  /** The arguments are ones the spool accepts at all. */
  predicate Proper(op: Op) {
    && (forall i :: 0 <= i < |NumbersOf(op)| ==> 1 <= NumbersOf(op)[i])
    && |NumbersOf(op)| == |AsSet(NumbersOf(op))|
    && (op.Attempted? || op.Rejected? ==> op.error != "")
    && (op.Rejected? ==> INT64_MIN <= op.failed <= INT64_MAX)
  }

  /** Every number names a row of the table the operation is about. */
  predicate AllThere(db: Database, op: Op) {
    forall q :: q in NumbersOf(op) ==> q in if op.Deleted? then Originals(db.dead) else Sequences(db.pending)
  }

  lemma {:induction false} DistinctCounts(numbers: seq<int>)
    ensures |AsSet(numbers)| <= |numbers|
    ensures |AsSet(numbers)| == |numbers| <==> forall i, j :: 0 <= i < j < |numbers| ==> numbers[i] != numbers[j]
  {
    if numbers != [] {
      var n := |numbers| - 1;
      var front, last := numbers[..n], numbers[n];
      DistinctCounts(front);
      assert AsSet(numbers) == AsSet(front) + {last} by { assert numbers == front + [last]; }
      if last in front {
        var i :| 0 <= i < n && front[i] == last;
        assert numbers[i] == numbers[n];
      } else {
        forall i | 0 <= i < n ensures numbers[i] != last {
          assert front[i] in front;
        }
        assert forall i, j :: 0 <= i < j < n ==> numbers[i] == front[i] && numbers[j] == front[j];
      }
    }
  }

  /** An operation on named rows is refused as a mistake exactly for improper arguments, as a conflict of
      state exactly if a number names no row, and a move alone as full, exactly for an oversized row. */
  lemma NamedExactly(db: Database, limits: Limits, op: Op)
    requires Valid(db) && !op.EnqueueMany?
    ensures var fault := OpFault(limits, db, op, None);
            && (fault == Some(ValueError) <==> !Proper(op))
            && (fault == Some(StateError) <==> Proper(op) && !AllThere(db, op))
            && (fault.None? ==> Proper(op) && AllThere(db, op))
            && (fault.Some? && Proper(op) && AllThere(db, op) ==>
                  op.Rejected? && fault == Some(DeadLetterFull)
                  && exists p :: p in db.pending && p.sequence in op.sequences && |p.payload| > limits.maxDeadBytes)
  {
    var numbers := NumbersOf(op);
    DistinctCounts(numbers);
    assert ValidSequences(numbers) <==>
           (forall i :: 0 <= i < |numbers| ==> 1 <= numbers[i]) && |numbers| == |AsSet(numbers)|;
    if op.Rejected? && Proper(op) && AllThere(db, op) && numbers != [] {
      DeadLetterFullExactly(db, limits, numbers, op.error, op.failed, op.uncertain);
    }
  }
}
