/** Why one request at a time: with a server that keeps its promises, a shutdown flush that overlaps
    a delivery can leave an older row in the table of a drained spool. */
module Overlap {
  import opened Basics
  import opened SpoolState
  import opened SpoolRows
  import opened SpoolLaws
  import opened Ilp
  import opened IlpParser
  import opened Event
  import opened Batch
  import opened WorkerState
  import opened System
  import opened Steps
  import opened Fifo
  import opened ExactlyOnce
  import P = Pause

  /** The server keeps its promises; requests may overlap. */
  predicate TruthfulRun(cfg: Config, s: System, labels: seq<Label>)
    decreases labels
  {
    labels == [] ||
    (Honest(s, cfg, labels[0]) &&
     match Next(cfg, s, labels[0])
     case None => true
     case Some(t) => TruthfulRun(cfg, t, labels[1..]))
  }

  /** The exactly-once theorems assume a truthful server and no overlap, and nothing else. */
  lemma {:induction false} HonestExactly(cfg: Config, s: System, labels: seq<Label>)
    ensures HonestRun(cfg, s, labels) <==> TruthfulRun(cfg, s, labels) && AloneRun(cfg, s, labels)
    decreases labels
  {
    if labels != [] && Next(cfg, s, labels[0]).Some? {
      HonestExactly(cfg, Next(cfg, s, labels[0]).value, labels[1..]);
    }
  }

  lemma Onward(cfg: Config, s: System, labels: seq<Label>, i: nat, t: System)
    requires i < |labels| && Next(cfg, s, labels[i]) == Some(t) && Honest(s, cfg, labels[i])
    requires TruthfulRun(cfg, t, labels[i + 1..])
    ensures TruthfulRun(cfg, s, labels[i..]) && Exec(cfg, s, labels[i..]) == Exec(cfg, t, labels[i + 1..])
  {
    ExecOn(cfg, s, labels, i, t);
    assert labels[i..][1..] == labels[i + 1..];
  }

  // ------------------------------------------------------- the flush overtakes

  /** A flush is sent, applied and acknowledged; then the older body arrives. */
  const LATE := [
    StartSend(true, 0, None), ServerApplies(true), ServerAnswers(true, Acknowledged, 0, None), ServerApplies(false)]

  /** The older body in flight and the flush that takes everything disagree about a key. */
  ghost predicate Disagree(cfg: Config, s: System, f: Flight, text: string, k: Key) {
    && s.main == Some(f) && !f.applied && s.flush.None? && Front(cfg, s.w.db, f) && Acceptable(cfg, f.text)
    && Build(cfg, s.w.db, false) == Ready(s.w.db.pending, text) && Acceptable(cfg, text)
    && AllEncode(cfg, s.w.db.pending) && text == Payload(cfg, s.w.db.pending)
    && Last(RowsOf(cfg, f.rows), k).Some?
    && Last(RowsOf(cfg, f.rows), k) != Last(RowsOf(cfg, s.w.db.pending), k)
  }

  /** The states on the way: the flush is sent, applied, acknowledged. */
  function Flushing(s: System, text: string): System {
    s.(flush := Some(Flight(s.w.db.pending, text, false)))
  }

  function Flushed(s: System, text: string, table: Table): System {
    s.(flush := Some(Flight(s.w.db.pending, text, true)), table := table)
  }

  lemma FlushSends(cfg: Config, s: System, text: string)
    requires s.flush.None? && Build(cfg, s.w.db, false) == Ready(s.w.db.pending, text)
    ensures Next(cfg, s, LATE[0]) == Some(Flushing(s, text))
  {
  }

  lemma FlushApplies(cfg: Config, s: System, rows: seq<Row>, text: string, t: System)
    requires cfg.Wired() && s.flush == Some(Flight(rows, text, false))
    requires AllEncode(cfg, rows) && text == Payload(cfg, rows) && Acceptable(cfg, text)
    requires t == s.(table := Upsert(s.table, RowsOf(cfg, rows)), flush := Some(Flight(rows, text, true)))
    ensures Next(cfg, s, LATE[1]) == Some(t)
  {
    AcceptableRows(cfg, rows, text);
  }

  lemma LateApplies(cfg: Config, s: System, f: Flight, t: System)
    requires cfg.Wired() && s.main == Some(f) && !f.applied && Acceptable(cfg, f.text)
    requires AllEncode(cfg, f.rows) && f.text == Payload(cfg, f.rows)
    requires t == s.(table := Upsert(s.table, RowsOf(cfg, f.rows)), main := Some(f.(applied := true)))
    ensures Next(cfg, s, LATE[3]) == Some(t)
  {
    AcceptableRows(cfg, f.rows, f.text);
  }

  /** Four truthful steps make a truthful run. */
  lemma FourSteps(cfg: Config, s0: System, s1: System, s2: System, s3: System, s4: System)
    requires Next(cfg, s0, LATE[0]) == Some(s1) && Next(cfg, s1, LATE[1]) == Some(s2)
    requires Next(cfg, s2, LATE[2]) == Some(s3) && Next(cfg, s3, LATE[3]) == Some(s4)
    requires s2.flush.Some? && s2.flush.value.applied
    ensures TruthfulRun(cfg, s0, LATE) && Exec(cfg, s0, LATE) == Some(s4)
  {
    assert LATE[0..] == LATE && LATE[4..] == [];
    Onward(cfg, s3, LATE, 3, s4);
    Onward(cfg, s2, LATE, 2, s3);
    Onward(cfg, s1, LATE, 1, s2);
    Onward(cfg, s0, LATE, 0, s1);
  }

  lemma LateRun(cfg: Config, s: System, f: Flight, text: string, k: Key)
    requires cfg.Wired() && Valid(s.w.db) && Disagree(cfg, s, f, text, k)
    ensures TruthfulRun(cfg, s, LATE) && Exec(cfg, s, LATE).Some?
    ensures var t := Exec(cfg, s, LATE).value;
            && t.w.db.pending == [] && t.h.enqueued == s.h.enqueued
            && t.table == Upsert(Upsert(s.table, RowsOf(cfg, s.w.db.pending)), RowsOf(cfg, f.rows))
  {
    var rows := s.w.db.pending;
    var flushed := Flushed(s, text, Upsert(s.table, RowsOf(cfg, rows)));
    Delivered(cfg, flushed, rows, text);
    var answered := Next(cfg, flushed, LATE[2]).value;
    var late := answered.(table := Upsert(answered.table, RowsOf(cfg, f.rows)), main := Some(f.(applied := true)));
    FlushSends(cfg, s, text);
    FlushApplies(cfg, Flushing(s, text), rows, text, flushed);
    LateApplies(cfg, answered, f, late);
    FourSteps(cfg, s, Flushing(s, text), flushed, answered, late);
  }

  /** Acknowledging everything that is pending empties the spool. */
  lemma Delivered(cfg: Config, s: System, rows: seq<Row>, text: string)
    requires Valid(s.w.db) && rows == s.w.db.pending && rows != [] && s.flush == Some(Flight(rows, text, true))
    ensures Next(cfg, s, LATE[2]).Some?
    ensures var t := Next(cfg, s, LATE[2]).value;
            && t.w.db.pending == [] && t.h.enqueued == s.h.enqueued
            && t.table == s.table && t.main == s.main && t.flush.None?
  {
    assert rows[..|rows|] == rows;
    FrontNumbers(s.w.db, |rows|);
    assert Tags(rows) == Tags(s.w.db.pending)[..|rows|];
    FrontRemoved(s.w.db, rows);
  }

  lemma LateIsWrong(cfg: Config, initial: Table, prior: seq<Tag>, s: System, f: Flight, text: string, k: Key)
    requires Exact(cfg, initial, prior, s) && Disagree(cfg, s, f, text, k)
    ensures Lookup(Upsert(Upsert(s.table, RowsOf(cfg, s.w.db.pending)), RowsOf(cfg, f.rows)), k)
         != Lookup(Ideal(cfg, initial, s.h.enqueued), k)
  {
    var rows := RowsOf(cfg, s.w.db.pending);
    UpsertLookup(Upsert(s.table, rows), RowsOf(cfg, f.rows), k);
    AcceptableRows(cfg, s.w.db.pending, text);
    AllGood(cfg, s.w.db.pending);
    SplitConcat(cfg, s.h.resolved, Tags(s.w.db.pending));
    UpsertConcat(initial, GoodRows(cfg, s.h.resolved), rows);
    UpsertLookup(Ideal(cfg, initial, s.h.resolved), rows, k);
    LastIn(RowsOf(cfg, f.rows), k);
    RowsOfIn(cfg, f.rows, Last(RowsOf(cfg, f.rows), k).value);
    var r :| r in f.rows && RowOf(cfg, r.payload) == Last(RowsOf(cfg, f.rows), k);
    TagsIn(f.rows, TagOf(r));
    SentKeyHasLast(cfg, s.w.db.pending, TagOf(r));
  }

  // ------------------------------------------------------------ from the start

  /** `b` is stored behind a request that carries `a` only. */
  function Before(b: NewEvent): seq<Label> {
    [StartSend(false, 0, None), SubmitEvent(true, b), DrainIngress, PersistHeld(QUIET)]
  }

  /** A spool that holds `a` alone. */
  function Holding(a: NewEvent): Database {
    Make([NewRow(a, 1)], [], 1)
  }

  /** Two updates of one key that fit one request. */
  ghost predicate TwoUpdates(cfg: Config, a: NewEvent, b: NewEvent) {
    && a.id != b.id && Good(cfg, a.payload) && Good(cfg, b.payload)
    && KeyOf(cfg.means(a.payload)) == KeyOf(cfg.means(b.payload)) && cfg.means(a.payload) != cfg.means(b.payload)
    && EventError(b, cfg.limits).None? && |b.payload| <= cfg.maxSerializedBytes
    && 2 <= cfg.limits.maxPendingRows && |a.payload| + |b.payload| <= cfg.limits.maxPendingBytes
    && 2 <= cfg.deliveryRows && |a.payload| + |b.payload| <= MAX_SQLITE_BATCH_BYTES
    && ByteLength(cfg.encode(a.payload).value) + ByteLength(cfg.encode(b.payload).value) <= cfg.deliveryBytes
  }

  lemma PeekAll(db: Database, maxRows: int, maxBytes: int)
    requires 0 < |db.pending| <= maxRows && 0 < maxBytes && PendingBytes(db.pending) <= maxBytes
    ensures PeekBatch(db, maxRows, maxBytes) == Peek(db.pending)
  {
    var rows := db.pending;
    assert rows[..|rows|] == rows;
    AffordableIsLongest(rows, maxBytes, |rows|);
  }

  lemma CutAll(cfg: Config, rows: seq<Row>)
    requires rows != [] && AllEncode(cfg, rows) && EncodedBytes(cfg, rows) <= cfg.deliveryBytes
    ensures Cut(cfg, rows) == Ready(rows, Payload(cfg, rows))
  {
    assert rows[..|rows|] == rows;
    TakeIsLongest(cfg, rows, cfg.deliveryBytes, |rows|);
  }

  lemma BothFit(cfg: Config, db: Database, rows: seq<Row>)
    requires cfg.Valid() && db.pending == rows && 0 < |rows| <= cfg.deliveryRows && AllEncode(cfg, rows)
    requires PendingBytes(rows) <= MAX_SQLITE_BATCH_BYTES && EncodedBytes(cfg, rows) <= cfg.deliveryBytes
    ensures Build(cfg, db, false) == Ready(rows, Payload(cfg, rows))
  {
    PeekAll(db, cfg.deliveryRows, MAX_SQLITE_BATCH_BYTES);
    CutAll(cfg, rows);
  }

  lemma HoldingValid(cfg: Config, a: NewEvent)
    ensures Valid(Holding(a)) && Contents(Holding(a)).Keys == {a.id}
  {
    var rows := [NewRow(a, 1)];
    assert rows[..0] == [];
    assert PendingContents(rows) == map[a.id := ContentOf(a)];
  }

  /** Enqueueing `b` behind `a`. */
  lemma BothStored(cfg: Config, a: NewEvent, b: NewEvent)
    requires TwoUpdates(cfg, a, b)
    ensures Enqueue(Holding(a), cfg.limits, [b]) == Done(1, Make([NewRow(a, 1), NewRow(b, 2)], [], 2))
  {
    HoldingValid(cfg, a);
    assert [b][1..] == [];
    assert FirstError([b][1..], cfg.limits) == None;
    AdmitOne(Contents(Holding(a)), b);
    Sizing(cfg, a, b);
    var db := Holding(a);
    assert db.stats.pendingBytes == |a.payload| && EventBytes([b]) == |b.payload|;
    assert Enqueue(db, cfg.limits, [b]) == EnqueueNew(db, cfg.limits, [b]);
    assert EnqueueNew(db, cfg.limits, [b]) == InsertAll(db, cfg.limits, [b]);
    assert [NewRow(a, 1)] + NewRows(1, [b]) == [NewRow(a, 1), NewRow(b, 2)];
    assert [NewRow(a, 1)][..0] == [];
  }

  lemma Sizing(cfg: Config, a: NewEvent, b: NewEvent)
    requires TwoUpdates(cfg, a, b)
    ensures var one, two := [NewRow(a, 1)], [NewRow(a, 1), NewRow(b, 2)];
            && PendingBytes(one) == |a.payload| && PendingBytes(two) == |a.payload| + |b.payload|
            && AllEncode(cfg, two) && AllEncode(cfg, one)
            && EncodedBytes(cfg, one) <= EncodedBytes(cfg, two) <= cfg.deliveryBytes
            && RowsOf(cfg, one) == [cfg.means(a.payload)]
            && RowsOf(cfg, two) == [cfg.means(a.payload), cfg.means(b.payload)]
  {
    var one, two := [NewRow(a, 1)], [NewRow(a, 1), NewRow(b, 2)];
    assert one[..0] == [] && two[..1] == one && two[1..] == [NewRow(b, 2)] && two[1..][1..] == [] && one[1..] == [];
  }

  /** Where the flush begins: `a` is in flight, `a` and `b` are pending. */
  function Crossing(cfg: Config, a: NewEvent, b: NewEvent, table: Table): System {
    var s := Start(Holding(a), table);
    var one := [NewRow(a, 1)];
    var worker := s.w.(db := Make([NewRow(a, 1), NewRow(b, 2)], [], 2),
                  count := ZERO.(submitted := 1, persisted := 1));
    s.(w := worker, main := Some(Flight(one, Payload(cfg, one), false)),
    h := s.h.(accepted := [b], enqueued := s.h.enqueued + Tags([NewRow(b, 2)])))
  }

  /** The states on the way: sent, submitted, drained. */
  function Sent(cfg: Config, a: NewEvent, table: Table): System {
    Start(Holding(a), table).(main := Some(Flight([NewRow(a, 1)], Payload(cfg, [NewRow(a, 1)]), false)))
  }

  function Queued(cfg: Config, a: NewEvent, b: NewEvent, table: Table): System {
    var s := Sent(cfg, a, table);
    s.(w := s.w.(ingress := [b], count := ZERO.(submitted := 1)), h := s.h.(accepted := [b]))
  }

  function Drained(cfg: Config, a: NewEvent, b: NewEvent, table: Table): System {
    var s := Queued(cfg, a, b, table);
    s.(w := s.w.(ingress := [], held := [b]))
  }

  lemma SendsFirst(cfg: Config, a: NewEvent, b: NewEvent, table: Table)
    requires cfg.Valid() && TwoUpdates(cfg, a, b)
    ensures Next(cfg, Start(Holding(a), table), StartSend(false, 0, None)) == Some(Sent(cfg, a, table))
  {
    Sizing(cfg, a, b);
    BothFit(cfg, Holding(a), [NewRow(a, 1)]);
  }

  lemma Queues(cfg: Config, a: NewEvent, b: NewEvent, table: Table, s: System, t: System)
    requires cfg.Valid() && TwoUpdates(cfg, a, b) && s == Sent(cfg, a, table) && t == Queued(cfg, a, b, table)
    ensures Next(cfg, s, SubmitEvent(true, b)) == Some(t)
    ensures Next(cfg, t, DrainIngress) == Some(Drained(cfg, a, b, table))
  {
    assert s.w.ingress + [b] == [b] && [b][..1] == [b] && [b][1..] == [] && t.w.held + [b] == [b];
    assert s.h.accepted + [b] == [b];
  }

  lemma CrossingSteps(cfg: Config, a: NewEvent, b: NewEvent, table: Table)
    requires cfg.Valid() && TwoUpdates(cfg, a, b)
    ensures Next(cfg, Start(Holding(a), table), StartSend(false, 0, None)) == Some(Sent(cfg, a, table))
    ensures Next(cfg, Sent(cfg, a, table), SubmitEvent(true, b)) == Some(Queued(cfg, a, b, table))
    ensures Next(cfg, Queued(cfg, a, b, table), DrainIngress) == Some(Drained(cfg, a, b, table))
    ensures Next(cfg, Drained(cfg, a, b, table), PersistHeld(QUIET)) == Some(Crossing(cfg, a, b, table))
  {
    SendsFirst(cfg, a, b, table);
    Queues(cfg, a, b, table, Sent(cfg, a, table), Queued(cfg, a, b, table));
    Stored(cfg, a, b, table, Drained(cfg, a, b, table));
  }

  lemma CrossingExact(cfg: Config, a: NewEvent, b: NewEvent, table: Table)
    requires cfg.Valid() && cfg.Wired() && TwoUpdates(cfg, a, b)
    ensures Exact(cfg, table, [], Crossing(cfg, a, b, table))
  {
    HoldingValid(cfg, a);
    CrossingSteps(cfg, a, b, table);
    StartsExact(cfg, Holding(a), table);
    StepExact(cfg, table, [], Start(Holding(a), table), StartSend(false, 0, None));
    StepExact(cfg, table, [], Sent(cfg, a, table), SubmitEvent(true, b));
    StepExact(cfg, table, [], Queued(cfg, a, b, table), DrainIngress);
    StepExact(cfg, table, [], Drained(cfg, a, b, table), PersistHeld(QUIET));
  }

  lemma CrossingReached(cfg: Config, a: NewEvent, b: NewEvent, table: Table, rest: seq<Label>)
    requires cfg.Valid() && TwoUpdates(cfg, a, b) && TruthfulRun(cfg, Crossing(cfg, a, b, table), rest)
    ensures TruthfulRun(cfg, Start(Holding(a), table), Before(b) + rest)
    ensures Exec(cfg, Start(Holding(a), table), Before(b) + rest) == Exec(cfg, Crossing(cfg, a, b, table), rest)
  {
    var labels := Before(b) + rest;
    CrossingSteps(cfg, a, b, table);
    assert labels[4..] == rest && labels[0..] == labels;
    Onward(cfg, Drained(cfg, a, b, table), labels, 3, Crossing(cfg, a, b, table));
    Onward(cfg, Queued(cfg, a, b, table), labels, 2, Drained(cfg, a, b, table));
    Onward(cfg, Sent(cfg, a, table), labels, 1, Queued(cfg, a, b, table));
    Onward(cfg, Start(Holding(a), table), labels, 0, Sent(cfg, a, table));
  }

  lemma CrossingDisagrees(cfg: Config, a: NewEvent, b: NewEvent, table: Table, s: System, f: Flight)
    requires cfg.Valid() && cfg.Wired() && TwoUpdates(cfg, a, b)
    requires s == Crossing(cfg, a, b, table) && s.main == Some(f)
    ensures Disagree(cfg, s, f, Payload(cfg, s.w.db.pending), KeyOf(cfg.means(a.payload)))
  {
    var one, two := [NewRow(a, 1)], [NewRow(a, 1), NewRow(b, 2)];
    Sizing(cfg, a, b);
    BothFit(cfg, s.w.db, two);
    AcceptableRows(cfg, one, Payload(cfg, one));
    AcceptableRows(cfg, two, Payload(cfg, two));
    LastOfTwo(cfg.means(a.payload), cfg.means(b.payload));
    assert Tags(one) == Tags(two)[..1];
  }

  lemma LastOfTwo(x: IlpRow, y: IlpRow)
    requires KeyOf(x) == KeyOf(y)
    ensures Last([x], KeyOf(x)) == Some(x) && Last([x, y], KeyOf(x)) == Some(y)
  {
    assert [x, y][1..] == [y] && [y][1..] == [] && [x][1..] == [];
  }

  lemma Stored(cfg: Config, a: NewEvent, b: NewEvent, table: Table, held: System)
    requires TwoUpdates(cfg, a, b) && held == Drained(cfg, a, b, table)
    ensures Next(cfg, held, PersistHeld(QUIET)) == Some(Crossing(cfg, a, b, table))
  {
    BothStored(cfg, a, b);
    var after := Make([NewRow(a, 1), NewRow(b, 2)], [], 2);
    assert after.pending[1..] == [NewRow(b, 2)];
    assert Inserted(Holding(a), after) == [NewRow(b, 2)];
  }

  /** For every writer and any two updates of one key that fit one request there is a run with a
      truthful server that drains the spool and leaves the older update in the table. */
  lemma OverlapBreaksTable(cfg: Config, a: NewEvent, b: NewEvent, table: Table)
    requires cfg.Valid() && cfg.Wired() && TwoUpdates(cfg, a, b)
    ensures var labels := Before(b) + LATE;
            && Valid(Holding(a)) && TruthfulRun(cfg, Start(Holding(a), table), labels)
            && Exec(cfg, Start(Holding(a), table), labels).Some?
            && var t := Exec(cfg, Start(Holding(a), table), labels).value;
            t.w.db.pending == [] && t.table != Ideal(cfg, table, t.h.enqueued)
  {
    var s := Crossing(cfg, a, b, table);
    var text, k := Payload(cfg, s.w.db.pending), KeyOf(cfg.means(a.payload));
    HoldingValid(cfg, a);
    CrossingExact(cfg, a, b, table);
    CrossingDisagrees(cfg, a, b, table, s, s.main.value);
    LateRun(cfg, s, s.main.value, text, k);
    LateIsWrong(cfg, table, [], s, s.main.value, text, k);
    CrossingReached(cfg, a, b, table, LATE);
  }
}
