/** The durable spool as a value: its tables, its invariant, and what each operation
    does to it, stated on whole tables rather than statement by statement. */
module SpoolState {
  import opened Basics

  datatype NewEvent = NewEvent(id: string, payload: Bytes, created: int)

  datatype Row = Row(
    sequence: int, id: string, payload: Bytes, created: int,
    attempts: nat, lastError: Option<string>, uncertain: bool)

  datatype DeadRow = DeadRow(
    original: int, id: string, payload: Bytes, created: int, failed: int,
    attempts: nat, lastError: string, uncertain: bool)

  /** The `spool_stats` row, which the source keeps up to date with triggers. */
  datatype Stats = Stats(pendingRows: int, pendingBytes: int, deadRows: int, deadBytes: int)

  /** `pending` is in sequence order, `dead` in `dead_letter_id` order, and `lastSequence`
      is the AUTOINCREMENT high-water mark of `pending`. */
  datatype Database = Database(pending: seq<Row>, dead: seq<DeadRow>, stats: Stats, lastSequence: nat)

  datatype Limits = Limits(
    maxPendingRows: int, maxPendingBytes: int, maxEventBytes: int,
    maxDeadRows: int, maxDeadBytes: int)
  {
    /** What the `SQLiteSpool` constructor demands. */
    predicate Valid() {
      && 0 < maxPendingRows && 0 < maxPendingBytes && 0 < maxEventBytes
      && 0 < maxDeadRows && 0 < maxDeadBytes
      && maxEventBytes <= maxPendingBytes && maxEventBytes <= maxDeadBytes
    }
  }

  datatype SpoolError =
    | ValueError
    | EventTooLarge
    | StateError
    | PendingFull
    | DeadLetterFull
    | BatchLimitTooSmall
    | DiskFull
    | ReadOnly
    | OtherStorage
  {
    /** SpoolStorageError: the conditions a retry can clear. */
    predicate Storage() { DiskFull? || ReadOnly? }
  }

  /** A failed operation carries no database: the transaction rolled back. */
  datatype Outcome<+T> = Done(value: T, db: Database) | Failed(error: SpoolError)

  type Content = (Bytes, int)

  // ---------------------------------------------------------------- counters

  function PendingBytes(rows: seq<Row>): nat {
    if rows == [] then 0 else PendingBytes(rows[..|rows| - 1]) + |rows[|rows| - 1].payload|
  }

  function DeadBytes(rows: seq<DeadRow>): nat {
    if rows == [] then 0 else |rows[0].payload| + DeadBytes(rows[1..])
  }

  function EventBytes(events: seq<NewEvent>): nat {
    if events == [] then 0 else |events[0].payload| + EventBytes(events[1..])
  }

  function Tally(pending: seq<Row>, dead: seq<DeadRow>): Stats {
    Stats(|pending|, PendingBytes(pending), |dead|, DeadBytes(dead))
  }

  function Make(pending: seq<Row>, dead: seq<DeadRow>, last: nat): Database {
    Database(pending, dead, Tally(pending, dead), last)
  }

  // --------------------------------------------------------------- invariant

  ghost predicate PendingOrdered(rows: seq<Row>) {
    && (forall i, j :: 0 <= i < j < |rows| ==> rows[i].sequence < rows[j].sequence)
    && (forall i, j :: 0 <= i < j < |rows| ==> rows[i].id != rows[j].id)
  }

  ghost predicate DeadDistinct(rows: seq<DeadRow>) {
    forall i, j :: 0 <= i < j < |rows| ==> rows[i].id != rows[j].id && rows[i].original != rows[j].original
  }

  ghost predicate Disjoint(pending: seq<Row>, dead: seq<DeadRow>) {
    forall p, d :: p in pending && d in dead ==> p.id != d.id && p.sequence != d.original
  }

  ghost predicate InRange(pending: seq<Row>, dead: seq<DeadRow>, last: nat) {
    && (forall p :: p in pending ==> 1 <= p.sequence <= last)
    && (forall d :: d in dead ==> 1 <= d.original <= last)
  }

  /** The tables satisfy their constraints; says nothing about the counters. */
  ghost predicate Consistent(db: Database) {
    && PendingOrdered(db.pending)
    && DeadDistinct(db.dead)
    && Disjoint(db.pending, db.dead)
    && InRange(db.pending, db.dead, db.lastSequence)
  }

  ghost predicate Valid(db: Database) {
    Consistent(db) && db.stats == Tally(db.pending, db.dead)
  }

  /** Both stores are within the configured limits, and so is every retained payload. */
  ghost predicate Within(db: Database, limits: Limits) {
    && |db.pending| <= limits.maxPendingRows
    && PendingBytes(db.pending) <= limits.maxPendingBytes
    && Fits(limits, db.dead)
    && (forall p :: p in db.pending ==> |p.payload| <= limits.maxEventBytes)
  }

  // ------------------------------------------------------------ enqueue_many

  function EventError(event: NewEvent, limits: Limits): Option<SpoolError> {
    if event.id == "" || '\0' in event.id || event.payload == [] || !(INT64_MIN <= event.created <= INT64_MAX)
    then Some(ValueError)
    else if |event.payload| > limits.maxEventBytes then Some(EventTooLarge)
      else None
  }

  /** The error of the first event that does not validate. */
  function FirstError(events: seq<NewEvent>, limits: Limits): Option<SpoolError> {
    if events == [] then None
    else if EventError(events[0], limits).Some? then EventError(events[0], limits)
    else FirstError(events[1..], limits)
  }

  function ContentOf(event: NewEvent): Content {
    (event.payload, event.created)
  }

  function PendingContents(rows: seq<Row>): map<string, Content> {
    if rows == [] then map[]
    else
      var last := rows[|rows| - 1];
      PendingContents(rows[..|rows| - 1])[last.id := (last.payload, last.created)]
  }

  function DeadContents(rows: seq<DeadRow>): map<string, Content> {
    if rows == [] then map[]
    else
      var last := rows[|rows| - 1];
      DeadContents(rows[..|rows| - 1])[last.id := (last.payload, last.created)]
  }

  /** What each retained event id stands for. */
  function Contents(db: Database): map<string, Content> {
    DeadContents(db.dead) + PendingContents(db.pending)
  }

  function EventContents(events: seq<NewEvent>): map<string, Content> {
    if events == [] then map[]
    else
      var last := events[|events| - 1];
      EventContents(events[..|events| - 1])[last.id := ContentOf(last)]
  }

  /** The events that are new relative to `known`, or None when some id would get two contents. */
  function Admit(known: map<string, Content>, events: seq<NewEvent>): Option<seq<NewEvent>>
    decreases events
  {
    if events == [] then Some([])
    else
      var e := events[0];
      if e.id in known then
        if known[e.id] == ContentOf(e) then Admit(known, events[1..]) else None
      else
        match Admit(known[e.id := ContentOf(e)], events[1..])
        case None => None
        case Some(rest) => Some([e] + rest)
  }

  function NewRow(event: NewEvent, sequence: int): Row {
    Row(sequence, event.id, event.payload, event.created, 0, None, false)
  }

  function NewRows(last: nat, events: seq<NewEvent>): seq<Row> {
    seq(|events|, i requires 0 <= i < |events| => NewRow(events[i], last + 1 + i))
  }

  /** The rows inserted for events already known to be new, if they fit. */
  function InsertAll(db: Database, limits: Limits, novel: seq<NewEvent>): Outcome<nat> {
    if db.stats.pendingRows + |novel| > limits.maxPendingRows then Failed(PendingFull)
    else if db.stats.pendingBytes + EventBytes(novel) > limits.maxPendingBytes then Failed(PendingFull)
    else Done(|novel|, Make(db.pending + NewRows(db.lastSequence, novel), db.dead, db.lastSequence + |novel|))
  }

  /** `Enqueue` past validation. */
  function EnqueueNew(db: Database, limits: Limits, events: seq<NewEvent>): Outcome<nat> {
    match Admit(Contents(db), events)
    case None => Failed(StateError)
    case Some(novel) => InsertAll(db, limits, novel)
  }

  function Enqueue(db: Database, limits: Limits, events: seq<NewEvent>): Outcome<nat> {
    match FirstError(events, limits)
    case Some(error) => Failed(error)
    case None => if events == [] then Done(0, db) else EnqueueNew(db, limits, events)
  }

  // -------------------------------------------- operations named by sequence

  /** `_sequence_tuple`: positive and without duplicates. */
  predicate ValidSequences(sequences: seq<int>) {
    && (forall i :: 0 <= i < |sequences| ==> sequences[i] > 0)
    && (forall i, j :: 0 <= i < j < |sequences| ==> sequences[i] != sequences[j])
  }

  function Sequences(rows: seq<Row>): seq<int> {
    seq(|rows|, i requires 0 <= i < |rows| => rows[i].sequence)
  }

  function Originals(rows: seq<DeadRow>): seq<int> {
    seq(|rows|, i requires 0 <= i < |rows| => rows[i].original)
  }

  predicate AllIn(wanted: seq<int>, present: seq<int>) {
    forall q :: q in wanted ==> q in present
  }

  function Without(rows: seq<Row>, gone: set<int>): seq<Row> {
    if rows == [] then []
    else
      var last := rows[|rows| - 1];
      Without(rows[..|rows| - 1], gone) + if last.sequence in gone then [] else [last]
  }

  function DeadWithout(rows: seq<DeadRow>, gone: set<int>): seq<DeadRow> {
    if rows == [] then []
    else
      var last := rows[|rows| - 1];
      DeadWithout(rows[..|rows| - 1], gone) + if last.original in gone then [] else [last]
  }

  function AsSet(sequences: seq<int>): set<int> {
    set q | q in sequences
  }

  function MarkDelivered(db: Database, sequences: seq<int>): Outcome<nat> {
    if !ValidSequences(sequences) then Failed(ValueError)
    else if !AllIn(sequences, Sequences(db.pending)) then Failed(StateError)
    else Done(|sequences|, Make(Without(db.pending, AsSet(sequences)), db.dead, db.lastSequence))
  }

  function DeleteDead(db: Database, originals: seq<int>): Outcome<nat> {
    if !ValidSequences(originals) then Failed(ValueError)
    else if !AllIn(originals, Originals(db.dead)) then Failed(StateError)
    else Done(|originals|, Make(db.pending, DeadWithout(db.dead, AsSet(originals)), db.lastSequence))
  }

  function Touched(row: Row, error: string, uncertain: bool): Row {
    row.(attempts := row.attempts + 1, lastError := Some(error), uncertain := row.uncertain || uncertain)
  }

  function Touch(rows: seq<Row>, which: set<int>, error: string, uncertain: bool): seq<Row> {
    seq(|rows|, i requires 0 <= i < |rows| =>
      if rows[i].sequence in which then Touched(rows[i], error, uncertain) else rows[i])
  }

  function RecordAttempt(db: Database, sequences: seq<int>, error: string, uncertain: bool): Outcome<nat> {
    if !ValidSequences(sequences) || error == "" then Failed(ValueError)
    else if !AllIn(sequences, Sequences(db.pending)) then Failed(StateError)
    else Done(|sequences|, Make(Touch(db.pending, AsSet(sequences), error, uncertain), db.dead, db.lastSequence))
  }

  // ------------------------------------------------------ move_to_dead_letter

  predicate Fits(limits: Limits, rows: seq<DeadRow>) {
    |rows| <= limits.maxDeadRows && DeadBytes(rows) <= limits.maxDeadBytes
  }

  /** The ring buffer's content after a history of dead letters: its longest suffix that fits. */
  function Keep(limits: Limits, history: seq<DeadRow>): (kept: seq<DeadRow>)
    ensures |kept| <= |history| && kept == history[|history| - |kept|..]
  {
    if history == [] || Fits(limits, history) then history else Keep(limits, history[1..])
  }

  /** The first row named `sequence`; callers check that there is one. */
  function RowNamed(rows: seq<Row>, sequence: int): (r: Row)
    requires sequence in Sequences(rows)
    ensures r in rows && r.sequence == sequence
  {
    if rows[0].sequence == sequence then rows[0]
    else
      assert Sequences(rows) == [rows[0].sequence] + Sequences(rows[1..]);
      RowNamed(rows[1..], sequence)
  }

  function Select(rows: seq<Row>, sequences: seq<int>): (picked: seq<Row>)
    requires AllIn(sequences, Sequences(rows))
    ensures |picked| == |sequences|
    ensures forall i :: 0 <= i < |sequences| ==> picked[i] in rows && picked[i].sequence == sequences[i]
  {
    if sequences == [] then [] else [RowNamed(rows, sequences[0])] + Select(rows, sequences[1..])
  }

  function Buried(row: Row, error: string, failed: int, uncertain: bool): DeadRow {
    DeadRow(row.sequence, row.id, row.payload, row.created, failed,
            row.attempts + 1, error, row.uncertain || uncertain)
  }

  function Bury(rows: seq<Row>, error: string, failed: int, uncertain: bool): seq<DeadRow> {
    seq(|rows|, i requires 0 <= i < |rows| => Buried(rows[i], error, failed, uncertain))
  }

  predicate TooBig(limits: Limits, rows: seq<DeadRow>) {
    exists d :: d in rows && |d.payload| > limits.maxDeadBytes
  }

  /** Take the `gone` rows out of pending and append `moved`, keeping what fits;
      the result pair is (moved, evicted). */
  function BuryRows(db: Database, limits: Limits, moved: seq<DeadRow>, gone: set<int>): Outcome<(nat, nat)> {
    if TooBig(limits, moved) then Failed(DeadLetterFull)
    else
      var dead := Keep(limits, db.dead + moved);
      Done((|moved|, |db.dead| + |moved| - |dead|), Make(Without(db.pending, gone), dead, db.lastSequence))
  }

  function MoveToDeadLetter(
    db: Database, limits: Limits, sequences: seq<int>, error: string, failed: int, uncertain: bool)
    : Outcome<(nat, nat)>
  {
    if !ValidSequences(sequences) || error == "" || !(INT64_MIN <= failed <= INT64_MAX) then Failed(ValueError)
    else if sequences == [] then Done((0, 0), db)
    else if !AllIn(sequences, Sequences(db.pending)) then Failed(StateError)
    else BuryRows(db, limits, Bury(Select(db.pending, sequences), error, failed, uncertain), AsSet(sequences))
  }

  // ------------------------------------------------------------ opening again

  ghost predicate Overlap(db: Database) {
    exists p, d :: p in db.pending && d in db.dead && (p.id == d.id || p.sequence == d.original)
  }

  // -------------------------------------------------------------- peek_batch

  /** How many rows of the front fit `maxBytes`. */
  function Affordable(rows: seq<Row>, maxBytes: int): (n: nat)
    ensures n <= |rows|
  {
    if rows == [] || |rows[0].payload| > maxBytes then 0
    else 1 + Affordable(rows[1..], maxBytes - |rows[0].payload|)
  }

  datatype Peeked = Peek(rows: seq<Row>) | PeekFailed(error: SpoolError)

  function PeekBatch(db: Database, maxRows: int, maxBytes: int): Peeked {
    if maxRows <= 0 || maxBytes <= 0 then PeekFailed(ValueError)
    else
      var window := if |db.pending| <= maxRows then db.pending else db.pending[..maxRows];
      var n := Affordable(window, maxBytes);
      if window != [] && n == 0 then PeekFailed(BatchLimitTooSmall) else Peek(window[..n])
  }
}
