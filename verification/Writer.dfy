/** `WriterService`: the stretches of its code between two awaits, statement by statement over a
    `SQLiteSpool`, proved to do exactly what the worker steps say. */
module Writer {
  import opened Basics
  import opened SpoolState
  import opened Spool
  import opened Ilp
  import opened Batch
  import W = WorkerState
  import P = Pause

  // ------------------------------------------------------------------- batches

  /** The numbers of the rows marked uncertain. */
  function Flagged(rows: seq<Row>): seq<int> {
    if rows == [] then []
    else (if rows[0].uncertain then [rows[0].sequence] else []) + Flagged(rows[1..])
  }

  lemma {:induction false} FlaggedCount(rows: seq<Row>)
    ensures |Flagged(rows)| == W.Uncertain(rows)
  {
    if rows != [] {
      FlaggedCount(rows[1..]);
    }
  }

  lemma {:induction false} FlaggedSnoc(rows: seq<Row>, r: Row)
    ensures Flagged(rows + [r]) == Flagged(rows) + if r.uncertain then [r.sequence] else []
  {
    if rows == [] {
      assert [] + [r] == [r];
      assert Flagged([r][1..]) == [];
    } else {
      HeadTail(rows, [r]);
      FlaggedSnoc(rows[1..], r);
      SeqAssoc(if rows[0].uncertain then [rows[0].sequence] else [], Flagged(rows[1..]),
               if r.uncertain then [r.sequence] else []);
    }
  }

  lemma {:induction false} PayloadSnoc(cfg: Config, rows: seq<Row>, r: Row)
    ensures Payload(cfg, rows + [r]) == Payload(cfg, rows) + TextOf(cfg, r)
  {
    if rows == [] {
      assert [] + [r] == [r];
      assert Payload(cfg, [r][1..]) == "";
      assert Payload(cfg, [r]) == TextOf(cfg, r) + "";
    } else {
      HeadTail(rows, [r]);
      PayloadSnoc(cfg, rows[1..], r);
      SeqAssoc(TextOf(cfg, rows[0]), Payload(cfg, rows[1..]), TextOf(cfg, r));
    }
  }

  /** With `n` rows taken and room for `left` bytes, the rest decides how many more are taken. */
  ghost predicate TakenSoFar(sizes: seq<int>, budget: int, n: nat, left: int)
    requires n <= |sizes|
  {
    TakeFront(sizes, budget) == n + TakeFront(sizes[n..], left)
  }

  lemma TakenMore(sizes: seq<int>, budget: int, n: nat, left: int)
    requires n < |sizes| && TakenSoFar(sizes, budget, n, left) && 0 <= sizes[n] <= left
    ensures TakenSoFar(sizes, budget, n + 1, left - sizes[n])
  {
    assert sizes[n..][1..] == sizes[n + 1..];
  }

  lemma TakenAll(sizes: seq<int>, budget: int, n: nat, left: int)
    requires n <= |sizes| && TakenSoFar(sizes, budget, n, left)
    requires n < |sizes| ==> !(0 <= sizes[n] <= left)
    ensures TakeFront(sizes, budget) == n
  {
  }

  lemma FlaggedGrows(records: seq<Row>, n: nat)
    requires n < |records|
    ensures Flagged(records[..n + 1]) == Flagged(records[..n])
                                         + if records[n].uncertain then [records[n].sequence] else []
  {
    assert records[..n + 1] == records[..n] + [records[n]];
    FlaggedSnoc(records[..n], records[n]);
  }

  lemma PayloadGrows(cfg: Config, records: seq<Row>, n: nat)
    requires n < |records|
    ensures Payload(cfg, records[..n + 1]) == Payload(cfg, records[..n]) + TextOf(cfg, records[n])
  {
    assert records[..n + 1] == records[..n] + [records[n]];
    PayloadSnoc(cfg, records[..n], records[n]);
  }

  lemma RowTaken(cfg: Config, records: seq<Row>, n: nat, left: int, piece: string)
    requires n < |records| && Encoding(cfg, records[n].payload) == Some(piece) && ByteLength(piece) <= left
    requires TakenSoFar(Sizes(cfg, records), cfg.deliveryBytes, n, left)
    ensures TakenSoFar(Sizes(cfg, records), cfg.deliveryBytes, n + 1, left - ByteLength(piece))
    ensures Payload(cfg, records[..n + 1]) == Payload(cfg, records[..n]) + piece
  {
    TakenMore(Sizes(cfg, records), cfg.deliveryBytes, n, left);
    PayloadGrows(cfg, records, n);
  }

  /** Encode rows one after the other until one does not encode or no longer fits. */
  method TakeRows(cfg: Config, records: seq<Row>) returns (n: nat, text: string, uncertain: seq<int>)
    ensures n == Take(cfg, records, cfg.deliveryBytes)
    ensures text == Payload(cfg, records[..n]) && uncertain == Flagged(records[..n])
  {
    ghost var sizes := Sizes(cfg, records);
    var left := cfg.deliveryBytes;
    n, text, uncertain := 0, "", [];
    while n < |records|
      invariant n <= |records|
      invariant text == Payload(cfg, records[..n])
      invariant uncertain == Flagged(records[..n])
      invariant TakenSoFar(sizes, cfg.deliveryBytes, n, left)
    {
      var record := records[n];
      var encoded := Encoding(cfg, record.payload);
      if encoded.None? || ByteLength(encoded.value) > left {
        break;
      }
      RowTaken(cfg, records, n, left, encoded.value);
      FlaggedGrows(records, n);
      uncertain := uncertain + if record.uncertain then [record.sequence] else [];
      text, n, left := text + encoded.value, n + 1, left - ByteLength(encoded.value);
    }
    TakenAll(sizes, cfg.deliveryBytes, n, left);
  }

  /** The batch cut from the rows peeked; `uncertain` lists its flagged rows. A first row that cannot
      be taken is reported instead. */
  method CutBatch(cfg: Config, records: seq<Row>) returns (built: Built, uncertain: seq<int>)
    requires records != []
    ensures built == Cut(cfg, records)
    ensures uncertain == if built.Ready? then Flagged(built.rows) else []
  {
    var n, text;
    n, text, uncertain := TakeRows(cfg, records);
    if n > 0 {
      return Built.Ready(records[..n], text), uncertain;
    }
    built := if Encoding(cfg, records[0].payload).None? then Undecodable(records[0]) else TooLarge;
  }

  // ------------------------------------------------------------------ failures

  /** The failure that struck, if the call did not end as specified without one. */
  ghost function Blame<T>(r: Result<T>, spec: Outcome<T>, fault: Fault): Option<SpoolError> {
    match spec
    case Done(value, _) => if r == Ok(value) then None else if fault.FaultAt? then Some(fault.error) else None
    case Failed(error) => if r == Err(error) then None else if fault.FaultAt? then Some(fault.error) else None
  }

  /** A failure that strikes is the one SQLite reported. */
  ghost predicate Reported(failure: Option<SpoolError>, fault: Fault) {
    failure.Some? ==> fault.FaultAt? && failure.value == fault.error
  }

  datatype Ended<+T> = Returned(value: T) | Raised

  class WriterService {
    const cfg: Config
    const spool: SQLiteSpool
    var ingress: seq<NewEvent>
    var held: seq<NewEvent>
    var count: W.Counters
    var pause: P.Pause

    constructor (cfg: Config, spool: SQLiteSpool)
      requires cfg.Valid() && spool.limits == cfg.limits
      ensures this.cfg == cfg && this.spool == spool && View() == W.Worker(spool.db, [], [], W.ZERO, P.Calm)
    {
      this.cfg := cfg;
      this.spool := spool;
      ingress, held, count, pause := [], [], W.ZERO, P.Calm;
    }

    /** The worker's state as a value. */
    function View(): W.Worker
      reads this, spool
    {
      W.Worker(spool.db, ingress, held, count, pause)
    }

    ghost predicate Connected()
      reads this, spool
    {
      cfg.Valid() && spool.limits == cfg.limits && Valid(spool.db)
    }

    // ---------------------------------------------------------------- ingress

    method Submit(accepting: bool, event: NewEvent) returns (taken: bool)
      modifies this
      ensures (View(), taken) == W.Submit(cfg, old(View()), accepting, event)
    {
      if |event.payload| > cfg.maxSerializedBytes {
        count := count.(oversized := count.oversized + 1);
        return false;
      }
      if !accepting {
        return false;
      }
      if |ingress| >= cfg.ingressCapacity {
        count := count.(overflowed := count.overflowed + 1);
        return false;
      }
      ingress := ingress + [event];
      count := count.(submitted := count.submitted + 1);
      return true;
    }

    method DrainIngress()
      modifies this
      ensures View() == W.Drain(cfg, old(View()))
    {
      ghost var before, waiting := held, ingress;
      while |held| < cfg.persistRows && ingress != []
        invariant held + ingress == before + waiting && |held| >= |before| && |ingress| <= |waiting|
        invariant |held| > |before| ==> |held| <= cfg.persistRows
        invariant count == old(count) && pause == old(pause) && spool.db == old(spool.db)
        decreases |ingress|
      {
        held := held + [ingress[0]];
        ingress := ingress[1..];
      }
      Filled(before, waiting, held, ingress);
    }

    // ----------------------------------------------------------------- pauses

    method BlockOnStorage(reason: P.Reason)
      modifies this`pause
      ensures pause == P.Block(old(pause), reason)
    {
      pause := pause.(attempts := pause.attempts + 1);
      if pause.episode.None? {
        pause := pause.(episode := Some(reason), blocks := pause.blocks + 1);
      }
    }

    method ResumeAfterStorageBlock()
      modifies this`pause
      ensures pause == P.Resume(old(pause))
    {
      if pause.episode.Some? {
        pause := pause.(recoveries := pause.recoveries + 1, episode := None);
      }
      pause := pause.(rewriteAttempted := false);
    }

    /** True when the file gave space back. */
    method ReclaimSpool(now: real, answers: P.Reclaimer) returns (moved: bool)
      modifies this`pause
      ensures (pause, moved) == (P.Reclaim(old(pause), now, answers).0, P.Reclaim(old(pause), now, answers).1)
    {
      if !answers.available {
        return false;
      }
      if pause.lastReclaim.Some? && now - pause.lastReclaim.value < P.RECLAIM_INTERVAL {
        return false;
      }
      pause := pause.(lastReclaim := Some(now));
      if answers.failed {
        return false;
      }
      if !answers.incremental && !pause.rewriteAttempted {
        pause := pause.(rewriteAttempted := true);
        if answers.canCompact {
          return !answers.compactFailed;
        }
      }
      return answers.freed;
    }

    // ---------------------------------------------------------------- persist

    /** The free-space check in front of a write; a full disk is asked to give space back first. */
    method CheckStorage(first: P.Check, now: real, answers: P.Reclaimer, second: P.Check) returns (check: P.Check)
      modifies this`pause
      ensures (pause, check) == (P.Guard(old(pause), first, now, answers, second).0,
                                 P.Guard(old(pause), first, now, answers, second).1)
    {
      check := first;
      if check.NoRoom? {
        var moved := ReclaimSpool(now, answers);
        if moved {
          check := second;
        }
      }
    }

    /** `failure` is what SQLite did to the transaction, if `fault` reached it. */
    method PersistHeld(first: P.Check, now: real, answers: P.Reclaimer, second: P.Check, fault: Fault)
      returns (r: Ended<bool>, ghost failure: Option<SpoolError>)
      requires Connected()
      modifies this, spool
      ensures Reported(failure, fault)
      ensures match W.Persist(cfg, old(View()), W.Storage(first, now, answers, second, failure))
              case Goes(w, ok) => r == Returned(ok) && View() == w
              case Dies(db) => r == Raised && spool.db == db
    {
      failure := None;
      if held == [] {
        return Returned(true), None;
      }
      var check := CheckStorage(first, now, answers, second);
      if check.NoRoom? {
        BlockOnStorage(P.NoDiskSpace);
        return Returned(false), None;
      }
      r, failure := StoreHeld(fault);
    }

    method StoreHeld(fault: Fault) returns (r: Ended<bool>, ghost failure: Option<SpoolError>)
      requires Connected()
      modifies this, spool
      ensures Reported(failure, fault)
      ensures match W.Store(cfg, old(View()), failure)
              case Goes(w, ok) => r == Returned(ok) && View() == w
              case Dies(db) => r == Raised && spool.db == db
    {
      ghost var spec := Enqueue(spool.db, cfg.limits, held);
      var stored := spool.EnqueueMany(held, fault);
      failure := Blame(stored, spec, fault);
      match stored {
        case Ok(_) =>
          count := count.(persisted := count.persisted + |held|);
          held := [];
          ResumeAfterStorageBlock();
          r := Returned(true);
        case Err(error) =>
          if error.PendingFull? || error.Storage() {
            BlockOnStorage(P.ReasonOf(error));
            r := Returned(false);
          } else {
            r := Raised;
          }
      }
    }

    // --------------------------------------------------------------- delivery

    /** `_build_batch` up to the dead-letter move; `uncertain` lists the flagged rows of the batch. */
    method BuildBatch(isolate: bool) returns (built: Built, uncertain: seq<int>)
      ensures built == Build(cfg, spool.db, isolate)
      ensures uncertain == if built.Ready? then Flagged(built.rows) else []
    {
      var peeked := spool.PeekBatch(if isolate then 1 else cfg.deliveryRows, MAX_SQLITE_BATCH_BYTES);
      if peeked.PeekFailed? {
        return PeekError(peeked.error), [];
      }
      if peeked.rows == [] {
        return Nothing, [];
      }
      built, uncertain := CutBatch(cfg, peeked.rows);
    }

    /** Move rows to dead letter and count them; a full store or a storage failure is reported. */
    method RejectRows(sequences: seq<int>, error: string, now: int, fault: Fault)
      returns (r: Ended<W.Verdict>, ghost failure: Option<SpoolError>)
      requires Connected()
      modifies this, spool
      ensures Reported(failure, fault)
      ensures match W.Reject(cfg, old(View()), sequences, error, now, failure)
              case Goes(w, verdict) => r == Returned(verdict) && View() == w
              case Dies(db) => r == Raised && spool.db == db
    {
      ghost var spec := SpoolState.MoveToDeadLetter(spool.db, cfg.limits, sequences, error, now, false);
      var moved := spool.MoveToDeadLetter(sequences, error, now, false, fault);
      failure := Blame(moved, spec, fault);
      match moved {
        case Ok(counts) =>
          count := count.(deadLettered := count.deadLettered + counts.0, evicted := count.evicted + counts.1);
          r := Returned(W.DeadLetter);
        case Err(reason) =>
          if reason.DeadLetterFull? {
            count := count.(retries := count.retries + 1);
            r := Returned(W.Retry);
          } else {
            r := if reason.Storage() then Returned(W.Trouble(reason)) else Raised;
          }
      }
    }

    /** `_deliver_once` up to the request: what to send, or how the call ends without one. */
    method StartDelivery(isolate: bool, now: int, fault: Fault)
      returns (r: Ended<W.Prepared>, uncertain: seq<int>, ghost failure: Option<SpoolError>)
      requires Connected()
      modifies this, spool
      ensures Reported(failure, fault)
      ensures match W.Prepare(cfg, old(View()), isolate, now, failure)
              case Goes(w, prepared) => r == Returned(prepared) && View() == w
              case Dies(db) => r == Raised && spool.db == db
      ensures r.Returned? && r.value.Send? ==> uncertain == Flagged(r.value.rows)
    {
      failure := None;
      var built: Built;
      built, uncertain := BuildBatch(isolate);
      match built {
        case Ready(rows, text) => r := Returned(W.Send(rows, text));
        case Nothing =>
          count := count.(retries := count.retries + 1);
          r := Returned(W.Decided(W.Retry));
        case Undecodable(row) =>
          var ended: Ended<W.Verdict>;
          ended, failure := RejectRows([row.sequence], W.ENCODING_ERROR, now, fault);
          r := if ended.Raised? then Raised else Returned(W.Decided(ended.value));
        case TooLarge => r := Raised;
        case PeekError(_) => r := Raised;
      }
    }

    /** Note a failed attempt on the rows of a request. */
    method NoteAttempt(sequences: seq<int>, error: string, uncertain: bool, fault: Fault)
      returns (trouble: Option<SpoolError>, ghost failure: Option<SpoolError>)
      requires Connected()
      modifies spool
      ensures Reported(failure, fault)
      ensures match W.Attempt(old(View()), sequences, error, uncertain, failure)
              case Done(_, db) => trouble.None? && View() == old(View()).(db := db)
              case Failed(reason) => trouble == Some(reason) && View() == old(View())
    {
      ghost var spec := SpoolState.RecordAttempt(spool.db, sequences, error, uncertain);
      var noted := spool.RecordAttempt(sequences, error, uncertain, fault);
      failure := Blame(noted, spec, fault);
      trouble := if noted.Ok? then None else Some(noted.error);
    }

    /** `_deliver_once` behind the request. */
    method FinishDelivery(rows: seq<Row>, uncertain: seq<int>, answer: W.Answer, now: int, fault: Fault)
      returns (r: Ended<W.Verdict>, ghost failure: Option<SpoolError>)
      requires Connected() && uncertain == Flagged(rows)
      modifies this, spool
      ensures Reported(failure, fault)
      ensures match W.Finish(cfg, old(View()), rows, answer, now, failure)
              case Goes(w, verdict) => r == Returned(verdict) && View() == w
              case Dies(db) => r == Raised && spool.db == db
    {
      failure := None;
      var sequences := Sequences(rows);
      match answer {
        case Unauthorized => r := Returned(W.Blocked);
        case OtherPermanent => r := Returned(W.Blocked);
        case Retryable(lost) =>
          var trouble: Option<SpoolError>;
          trouble, failure := NoteAttempt(sequences, W.RETRY_ERROR, lost, fault);
          if trouble.None? {
            count := count.(retries := count.retries + 1);
            r := Returned(W.Retry);
          } else {
            r := if trouble.value.Storage() then Returned(W.Trouble(trouble.value)) else Raised;
          }
        case BadRequest =>
          if |sequences| > 1 {
            var trouble: Option<SpoolError>;
            trouble, failure := NoteAttempt(sequences, W.REJECT_ERROR, false, fault);
            r := if trouble.None? then Returned(W.Split)
            else if trouble.value.Storage() then Returned(W.Trouble(trouble.value)) else Raised;
          } else {
            r, failure := RejectRows(sequences, W.REJECT_ERROR, now, fault);
          }
        case Acknowledged =>
          r, failure := Acknowledge(rows, uncertain, fault);
      }
    }

    /** The rows were written: delete them locally and count them. */
    method Acknowledge(rows: seq<Row>, uncertain: seq<int>, fault: Fault)
      returns (r: Ended<W.Verdict>, ghost failure: Option<SpoolError>)
      requires Connected() && uncertain == Flagged(rows)
      modifies this, spool
      ensures Reported(failure, fault)
      ensures match W.Acknowledge(old(View()), rows, failure)
              case Goes(w, verdict) => r == Returned(verdict) && View() == w
              case Dies(db) => r == Raised && spool.db == db
    {
      var sequences := Sequences(rows);
      ghost var spec := SpoolState.MarkDelivered(spool.db, sequences);
      var marked := spool.MarkDelivered(sequences, fault);
      failure := Blame(marked, spec, fault);
      if marked.Ok? {
        ResumeAfterStorageBlock();
        FlaggedCount(rows);
        count := W.Delivered(count, |sequences|, |uncertain|);
        r := Returned(W.Success);
      } else {
        r := if marked.error.Storage() then Returned(W.Trouble(marked.error)) else Raised;
      }
    }
  }

  /** Filling `held` one event at a time takes the front of the queue. */
  lemma Filled(before: seq<NewEvent>, waiting: seq<NewEvent>, held: seq<NewEvent>, ingress: seq<NewEvent>)
    requires held + ingress == before + waiting && |held| >= |before| && |ingress| <= |waiting|
    ensures var n := |held| - |before|; held == before + waiting[..n] && ingress == waiting[n..]
  {
    var n := |held| - |before|;
    assert held == (held + ingress)[..|held|];
    assert (before + waiting)[..|held|] == before + waiting[..n];
    assert ingress == (held + ingress)[|held|..];
    assert (before + waiting)[|held|..] == waiting[n..];
  }
}
