/** At-least-once delivery plus dedup upsert refines exactly-once: with one request at a time and a
    transactional server, lost acknowledgements, re-sends, re-batching and splits never show in the
    table once the spool is empty, and before that only as rows that are still pending. */
module ExactlyOnce {
  import opened Basics
  import opened SpoolState
  import opened SpoolLaws
  import opened Batch
  import opened WorkerState
  import opened System
  import opened Steps
  import opened Fifo
  import opened IlpParser
  import opened Event

  // ------------------------------------------------------------- good and bad

  function GoodTags(cfg: Config, tags: seq<Tag>): seq<Tag> {
    if tags == [] then []
    else (if Good(cfg, tags[0].payload) then [tags[0]] else []) + GoodTags(cfg, tags[1..])
  }

  function BadTags(cfg: Config, tags: seq<Tag>): seq<Tag> {
    if tags == [] then []
    else (if Good(cfg, tags[0].payload) then [] else [tags[0]]) + BadTags(cfg, tags[1..])
  }

  /** What the good events among `tags` say, in order. */
  function GoodRows(cfg: Config, tags: seq<Tag>): seq<IlpRow> {
    if tags == [] then []
    else (if Good(cfg, tags[0].payload) then [RowOf(cfg, tags[0].payload).value] else []) + GoodRows(cfg, tags[1..])
  }

  lemma {:induction false} GoodTagsConcat(cfg: Config, a: seq<Tag>, b: seq<Tag>)
    ensures GoodTags(cfg, a + b) == GoodTags(cfg, a) + GoodTags(cfg, b)
  {
    if a == [] {
      assert a + b == b;
    } else {
      var first := if Good(cfg, a[0].payload) then [a[0]] else [];
      HeadTail(a, b);
      GoodTagsConcat(cfg, a[1..], b);
      SeqAssoc(first, GoodTags(cfg, a[1..]), GoodTags(cfg, b));
    }
  }

  lemma {:induction false} BadTagsConcat(cfg: Config, a: seq<Tag>, b: seq<Tag>)
    ensures BadTags(cfg, a + b) == BadTags(cfg, a) + BadTags(cfg, b)
  {
    if a == [] {
      assert a + b == b;
    } else {
      var first := if Good(cfg, a[0].payload) then [] else [a[0]];
      HeadTail(a, b);
      BadTagsConcat(cfg, a[1..], b);
      SeqAssoc(first, BadTags(cfg, a[1..]), BadTags(cfg, b));
    }
  }

  lemma {:induction false} GoodRowsConcat(cfg: Config, a: seq<Tag>, b: seq<Tag>)
    ensures GoodRows(cfg, a + b) == GoodRows(cfg, a) + GoodRows(cfg, b)
  {
    if a == [] {
      assert a + b == b;
    } else {
      var first := if Good(cfg, a[0].payload) then [RowOf(cfg, a[0].payload).value] else [];
      HeadTail(a, b);
      GoodRowsConcat(cfg, a[1..], b);
      SeqAssoc(first, GoodRows(cfg, a[1..]), GoodRows(cfg, b));
    }
  }

  lemma SplitConcat(cfg: Config, a: seq<Tag>, b: seq<Tag>)
    ensures GoodTags(cfg, a + b) == GoodTags(cfg, a) + GoodTags(cfg, b)
    ensures BadTags(cfg, a + b) == BadTags(cfg, a) + BadTags(cfg, b)
    ensures GoodRows(cfg, a + b) == GoodRows(cfg, a) + GoodRows(cfg, b)
  {
    GoodTagsConcat(cfg, a, b);
    BadTagsConcat(cfg, a, b);
    GoodRowsConcat(cfg, a, b);
  }

  lemma {:induction false} AllGood(cfg: Config, rows: seq<Row>)
    requires AllEncode(cfg, rows) && forall row :: row in RowsOf(cfg, rows) ==> cfg.accepts(row)
    ensures GoodTags(cfg, Tags(rows)) == Tags(rows) && BadTags(cfg, Tags(rows)) == []
    ensures GoodRows(cfg, Tags(rows)) == RowsOf(cfg, rows)
  {
    if rows != [] {
      RowsHead(cfg, rows);
      assert Tags(rows) == [TagOf(rows[0])] + Tags(rows[1..]);
      AllGood(cfg, rows[1..]);
    }
  }

  lemma RowsHead(cfg: Config, rows: seq<Row>)
    requires AllEncode(cfg, rows) && rows != [] && forall row :: row in RowsOf(cfg, rows) ==> cfg.accepts(row)
    ensures AllEncode(cfg, rows[1..]) && forall row :: row in RowsOf(cfg, rows[1..]) ==> cfg.accepts(row)
    ensures Good(cfg, rows[0].payload) && RowsOf(cfg, rows)
                                          == [RowOf(cfg, rows[0].payload).value] + RowsOf(cfg, rows[1..])
  {
    assert rows[0] in rows;
    assert RowsOf(cfg, rows)[0] == RowOf(cfg, rows[0].payload).value;
  }

  lemma OneBad(cfg: Config, tag: Tag)
    requires !Good(cfg, tag.payload)
    ensures GoodTags(cfg, [tag]) == [] && BadTags(cfg, [tag]) == [tag] && GoodRows(cfg, [tag]) == []
  {
  }

  // ------------------------------------------------------------------ upserts

  function Lookup(table: Table, k: Key): Option<IlpRow> {
    if k in table then Some(table[k]) else None
  }

  /** The last row with key `k`. */
  function Last(rows: seq<IlpRow>, k: Key): Option<IlpRow> {
    if rows == [] then None
    else if Last(rows[1..], k).Some? then Last(rows[1..], k)
    else if KeyOf(rows[0]) == k then Some(rows[0])
    else None
  }

  /** After upserts a key holds its last row, or what it held before. */
  lemma {:induction false} UpsertLookup(table: Table, rows: seq<IlpRow>, k: Key)
    ensures Lookup(Upsert(table, rows), k) == if Last(rows, k).Some? then Last(rows, k) else Lookup(table, k)
    decreases rows
  {
    if rows != [] {
      UpsertLookup(table[KeyOf(rows[0]) := rows[0]], rows[1..], k);
    }
  }

  lemma {:induction false} UpsertConcat(table: Table, a: seq<IlpRow>, b: seq<IlpRow>)
    ensures Upsert(table, a + b) == Upsert(Upsert(table, a), b)
    decreases a
  {
    if a == [] {
      assert a + b == b;
    } else {
      HeadTail(a, b);
      UpsertConcat(table[KeyOf(a[0]) := a[0]], a[1..], b);
    }
  }

  lemma {:induction false} LastIn(rows: seq<IlpRow>, k: Key)
    requires Last(rows, k).Some?
    ensures Last(rows, k).value in rows && KeyOf(Last(rows, k).value) == k
  {
    if Last(rows[1..], k).Some? {
      LastIn(rows[1..], k);
    }
  }

  lemma {:induction false} KeyHasLast(rows: seq<IlpRow>, row: IlpRow)
    requires row in rows
    ensures Last(rows, KeyOf(row)).Some?
  {
    if row != rows[0] {
      KeyHasLast(rows[1..], row);
    }
  }

  // ------------------------------------------------------------ the invariant

  /** The table after upserting every good event among `tags` once, in order. */
  function Ideal(cfg: Config, initial: Table, tags: seq<Tag>): Table {
    Upsert(initial, GoodRows(cfg, tags))
  }

  /** The table shows, at this key, some good event that is still pending. */
  ghost predicate Ahead(cfg: Config, s: System, k: Key) {
    exists t :: t in Tags(s.w.db.pending) && Shows(cfg, s.table, t, k)
  }

  predicate Shows(cfg: Config, table: Table, t: Tag, k: Key) {
    Good(cfg, t.payload) && KeyOf(RowOf(cfg, t.payload).value) == k && Lookup(table, k) == RowOf(cfg, t.payload)
  }

  ghost predicate Settled(cfg: Config, initial: Table, s: System, k: Key) {
    Lookup(s.table, k) == Lookup(Ideal(cfg, initial, s.h.resolved), k) || Ahead(cfg, s, k)
  }

  /** An applied request is what its keys hold: nothing else has touched the table since. */
  ghost predicate Applied(cfg: Config, table: Table, f: Flight) {
    && AllEncode(cfg, f.rows) && Acceptable(cfg, f.text)
    && (forall k :: Last(RowsOf(cfg, f.rows), k).Some? ==> Lookup(table, k) == Last(RowsOf(cfg, f.rows), k))
  }

  ghost predicate Holds(cfg: Config, table: Table, f: Option<Flight>) {
    f.Some? && f.value.applied ==> Applied(cfg, table, f.value)
  }

  ghost predicate Exact(cfg: Config, initial: Table, prior: seq<Tag>, s: System) {
    && cfg.Wired() && Ordered(cfg, s)
    && (forall k :: Settled(cfg, initial, s, k))
    && Holds(cfg, s.table, s.main) && Holds(cfg, s.table, s.flush)
    && s.h.acked == GoodTags(cfg, s.h.resolved)
    && s.h.buried == prior + BadTags(cfg, s.h.resolved)
  }

  /** The server's side: a 2xx only for an applied request, a 400 only for a body it cannot accept. */
  predicate Honest(s: System, cfg: Config, l: Label) {
    match l
    case ServerAnswers(flush, answer, _, _) =>
      (match FlightOf(s, flush)
       case None => true
       case Some(f) => (answer.Acknowledged? ==> f.applied) && (answer.BadRequest? ==> !Acceptable(cfg, f.text)))
    case _ => true
  }

  predicate HonestRun(cfg: Config, s: System, labels: seq<Label>)
    decreases labels
  {
    labels == [] ||
    (Alone(s, labels[0]) && Honest(s, cfg, labels[0]) &&
     match Next(cfg, s, labels[0])
     case None => true
     case Some(t) => HonestRun(cfg, t, labels[1..]))
  }

  lemma AcceptableRows(cfg: Config, rows: seq<Row>, text: string)
    requires cfg.Wired() && AllEncode(cfg, rows) && text == Payload(cfg, rows)
    ensures Acceptable(cfg, text) <==> forall row :: row in RowsOf(cfg, rows) ==> cfg.accepts(row)
    ensures ParseBatch(text) == Some(RowsOf(cfg, rows))
  {
    ServerReads(cfg, rows);
  }

  /** A single row that the server cannot accept is not good. */
  lemma RejectedIsBad(cfg: Config, rows: seq<Row>, text: string)
    requires cfg.Wired() && AllEncode(cfg, rows) && text == Payload(cfg, rows) && |rows| == 1 && !Acceptable(cfg, text)
    ensures !Good(cfg, rows[0].payload)
  {
    AcceptableRows(cfg, rows, text);
    assert RowsOf(cfg, rows[1..]) == [];
    assert rows[0] in rows;
  }

  // -------------------------------------------------------- one key at a time

  /** Pending rows may be added, and bad ones removed: nothing shown goes missing. */
  lemma SettledGrows(cfg: Config, initial: Table, s: System, t: System, k: Key)
    requires Settled(cfg, initial, s, k) && t.table == s.table
    requires GoodRows(cfg, t.h.resolved) == GoodRows(cfg, s.h.resolved)
    requires forall tag :: tag in Tags(s.w.db.pending) && Good(cfg, tag.payload) ==> tag in Tags(t.w.db.pending)
    ensures Settled(cfg, initial, t, k)
  {
    if Ahead(cfg, s, k) {
      var tag :| tag in Tags(s.w.db.pending) && Shows(cfg, s.table, tag, k);
      assert tag in Tags(t.w.db.pending);
    }
  }

  lemma {:induction false} RowsOfIn(cfg: Config, rows: seq<Row>, row: IlpRow)
    requires AllEncode(cfg, rows) && row in RowsOf(cfg, rows)
    ensures exists r :: r in rows && RowOf(cfg, r.payload) == Some(row)
  {
    assert rows[0] in rows;
    if RowOf(cfg, rows[0].payload) != Some(row) {
      RowsOfIn(cfg, rows[1..], row);
    }
  }

  lemma {:induction false} InRowsOf(cfg: Config, rows: seq<Row>, r: Row)
    requires AllEncode(cfg, rows) && r in rows
    ensures RowOf(cfg, r.payload).Some? && RowOf(cfg, r.payload).value in RowsOf(cfg, rows)
  {
    assert rows[0] in rows;
    if r != rows[0] {
      InRowsOf(cfg, rows[1..], r);
    }
  }

  /** The server applies a batch: its keys now show rows that are still pending. */
  lemma ApplySettles(cfg: Config, initial: Table, s: System, t: System, f: Flight, k: Key)
    requires cfg.Wired() && Front(cfg, s.w.db, f) && Acceptable(cfg, f.text) && Settled(cfg, initial, s, k)
    requires t.table == Upsert(s.table, RowsOf(cfg, f.rows)) && t.w == s.w && t.h == s.h
    ensures Settled(cfg, initial, t, k)
  {
    var rows := RowsOf(cfg, f.rows);
    AcceptableRows(cfg, f.rows, f.text);
    UpsertLookup(s.table, rows, k);
    if Last(rows, k).Some? {
      LastIn(rows, k);
      RowsOfIn(cfg, f.rows, Last(rows, k).value);
      var r :| r in f.rows && RowOf(cfg, r.payload) == Last(rows, k);
      TagsIn(f.rows, TagOf(r));
      assert TagOf(r) in Tags(s.w.db.pending);
      assert Shows(cfg, t.table, TagOf(r), k);
    } else if Ahead(cfg, s, k) {
      var tag :| tag in Tags(s.w.db.pending) && Shows(cfg, s.table, tag, k);
      assert Shows(cfg, t.table, tag, k);
    }
  }

  /** An acknowledged batch leaves pending: the ideal table catches up on exactly its keys. */
  lemma SuccessSettles(cfg: Config, initial: Table, s: System, t: System, f: Flight, k: Key)
    requires cfg.Wired() && Front(cfg, s.w.db, f) && Applied(cfg, s.table, f) && Settled(cfg, initial, s, k)
    requires Advances(s, t, f.rows) && t.table == s.table
    ensures Settled(cfg, initial, t, k)
  {
    var rows := RowsOf(cfg, f.rows);
    AcceptableRows(cfg, f.rows, f.text);
    AllGood(cfg, f.rows);
    SplitConcat(cfg, s.h.resolved, Tags(f.rows));
    UpsertConcat(initial, GoodRows(cfg, s.h.resolved), rows);
    UpsertLookup(Ideal(cfg, initial, s.h.resolved), rows, k);
    if Last(rows, k).None? && Ahead(cfg, s, k) {
      var tag :| tag in Tags(s.w.db.pending) && Shows(cfg, s.table, tag, k);
      StillPending(cfg, s, t, f, tag, k);
      assert Shows(cfg, t.table, tag, k);
    }
  }

  lemma InSplit<T>(s: seq<T>, n: nat, x: T)
    requires n <= |s| && x in s
    ensures x in s[..n] || x in s[n..]
  {
  }

  lemma StillPending(cfg: Config, s: System, t: System, f: Flight, tag: Tag, k: Key)
    requires AllEncode(cfg, f.rows) && Advances(s, t, f.rows) && tag in Tags(s.w.db.pending)
    requires RowOf(cfg, tag.payload).Some? && KeyOf(RowOf(cfg, tag.payload).value) == k
    requires Last(RowsOf(cfg, f.rows), k).None?
    ensures tag in Tags(t.w.db.pending)
  {
    TagsSlice(s.w.db.pending, |f.rows|);
    InSplit(Tags(s.w.db.pending), |f.rows|, tag);
    if tag in Tags(f.rows) {
      SentKeyHasLast(cfg, f.rows, tag);
    }
  }

  lemma SentKeyHasLast(cfg: Config, rows: seq<Row>, tag: Tag)
    requires AllEncode(cfg, rows) && tag in Tags(rows)
    ensures RowOf(cfg, tag.payload).Some? && Last(RowsOf(cfg, rows), KeyOf(RowOf(cfg, tag.payload).value)).Some?
  {
    TagsIn(rows, tag);
    var r :| r in rows && TagOf(r) == tag;
    InRowsOf(cfg, rows, r);
    KeyHasLast(RowsOf(cfg, rows), RowOf(cfg, r.payload).value);
  }

  // ---------------------------------------------------------------- the steps

  /** Nothing is resolved and the table stays: exactness carries over. */
  lemma StaysExact(cfg: Config, initial: Table, prior: seq<Tag>, s: System, t: System)
    requires Exact(cfg, initial, prior, s) && Ordered(cfg, t) && t.table == s.table
    requires forall tag :: tag in Tags(s.w.db.pending) ==> tag in Tags(t.w.db.pending)
    requires t.h.resolved == s.h.resolved && t.h.acked == s.h.acked && t.h.buried == s.h.buried
    requires t.main.Some? ==> t.main == s.main || !t.main.value.applied
    requires t.flush.Some? ==> t.flush == s.flush || !t.flush.value.applied
    ensures Exact(cfg, initial, prior, t)
  {
    forall k ensures Settled(cfg, initial, t, k) {
      SettledGrows(cfg, initial, s, t, k);
    }
  }

  lemma SuccessExact(cfg: Config, initial: Table, prior: seq<Tag>, s: System, t: System, f: Flight)
    requires Exact(cfg, initial, prior, s) && (s.main == Some(f) || s.flush == Some(f)) && f.applied && Ordered(cfg, t)
    requires Advances(s, t, f.rows) && t.table == s.table && t.h == Resolve(s.h, f.rows, Success)
    requires t.main.None? && t.flush.None?
    ensures Exact(cfg, initial, prior, t)
  {
    forall k ensures Settled(cfg, initial, t, k) {
      SuccessSettles(cfg, initial, s, t, f, k);
    }
    AcceptableRows(cfg, f.rows, f.text);
    AllGood(cfg, f.rows);
    SplitConcat(cfg, s.h.resolved, Tags(f.rows));
  }

  lemma BuriedExact(cfg: Config, initial: Table, prior: seq<Tag>, s: System, t: System, row: Row)
    requires Exact(cfg, initial, prior, s) && Ordered(cfg, t) && !Good(cfg, row.payload)
    requires Advances(s, t, [row]) && t.table == s.table && t.h == Resolve(s.h, [row], DeadLetter)
    requires t.main.None? && t.flush.None?
    ensures Exact(cfg, initial, prior, t)
  {
    var tag := TagOf(row);
    assert Tags([row]) == [tag];
    OneBad(cfg, tag);
    SplitConcat(cfg, s.h.resolved, [tag]);
    TagsSlice(s.w.db.pending, 1);
    assert Tags(s.w.db.pending) == Tags(s.w.db.pending)[..1] + Tags(t.w.db.pending);
    assert GoodRows(cfg, s.h.resolved) + [] == GoodRows(cfg, s.h.resolved);
    forall k ensures Settled(cfg, initial, t, k) {
      SettledGrows(cfg, initial, s, t, k);
    }
    SeqAssoc(prior, BadTags(cfg, s.h.resolved), [tag]);
    assert GoodTags(cfg, s.h.resolved) + [] == GoodTags(cfg, s.h.resolved);
  }

  lemma ConcludedExact(cfg: Config, initial: Table, prior: seq<Tag>, s: System, flush: bool, verdict: Verdict)
    requires Exact(cfg, initial, prior, s)
    ensures Exact(cfg, initial, prior, Concluded(s, flush, verdict))
  {
    StaysExact(cfg, initial, prior, s, Concluded(s, flush, verdict));
  }

  lemma RestartExact(cfg: Config, initial: Table, prior: seq<Tag>, s: System)
    requires Exact(cfg, initial, prior, s)
    ensures Exact(cfg, initial, prior, Restarted(s))
  {
    StaysExact(cfg, initial, prior, s, Restarted(s));
  }

  lemma AnswerExact(
    cfg: Config, initial: Table, prior: seq<Tag>, s: System, flush: bool, f: Flight, answer: Answer, now: int,
    failure: Option<SpoolError>)
    requires Exact(cfg, initial, prior, s) && FlightOf(s, flush) == Some(f)
    requires (answer.Acknowledged? ==> f.applied) && (answer.BadRequest? ==> !Acceptable(cfg, f.text))
    ensures Exact(cfg, initial, prior, DoAnswer(cfg, s, flush, f, answer, now, failure))
  {
    match Finish(cfg, s.w, f.rows, answer, now, failure)
    case Dies(_) => RestartExact(cfg, initial, prior, s);
    case Goes(w, verdict) =>
      var t := WithFlight(s.(w := w, h := Resolve(s.h, f.rows, verdict)), flush, None);
      AnswerSummary(cfg, s, t, f, answer, verdict, now, failure);
      AnsweredExact(cfg, initial, prior, s, t, f, answer, verdict);
      ConcludedExact(cfg, initial, prior, t, flush, verdict);
  }

  lemma AnsweredExact(
    cfg: Config, initial: Table, prior: seq<Tag>, s: System, t: System, f: Flight, answer: Answer, verdict: Verdict)
    requires Exact(cfg, initial, prior, s) && (s.main == Some(f) || s.flush == Some(f))
    requires (answer.Acknowledged? ==> f.applied) && (answer.BadRequest? ==> !Acceptable(cfg, f.text))
    requires Answers(s, t, f.rows, answer, verdict) && t.table == s.table && t.main.None? && t.flush.None?
    requires t.h == Resolve(s.h, f.rows, verdict)
    ensures Exact(cfg, initial, prior, t)
  {
    match verdict {
      case Success =>
        AdvancesOrdered(cfg, s, t, f.rows);
        SuccessExact(cfg, initial, prior, s, t, f);
      case DeadLetter =>
        AdvancesOrdered(cfg, s, t, f.rows);
        RejectedIsBad(cfg, f.rows, f.text);
        assert f.rows == [f.rows[0]];
        BuriedExact(cfg, initial, prior, s, t, f.rows[0]);
      case _ =>
        StaysExact(cfg, initial, prior, s, t);
    }
  }

  lemma StartExact(
    cfg: Config, initial: Table, prior: seq<Tag>, s: System, flush: bool, now: int, failure: Option<SpoolError>)
    requires Exact(cfg, initial, prior, s) && s.main.None? && s.flush.None?
    ensures Exact(cfg, initial, prior, DoStart(cfg, s, flush, now, failure))
  {
    var isolate := !flush && s.isolate;
    match Prepare(cfg, s.w, isolate, now, failure)
    case Dies(_) => RestartExact(cfg, initial, prior, s);
    case Goes(w, Send(rows, text)) =>
      PrepareCases(cfg, s.w, isolate, now, failure);
      SentOrdered(cfg, s, flush, rows, text);
      StaysExact(cfg, initial, prior, s, WithFlight(s, flush, Some(Flight(rows, text, false))));
    case Goes(w, Decided(verdict)) =>
      var front := s.w.db.pending[..Min(1, |s.w.db.pending|)];
      var t := s.(w := w, h := Resolve(s.h, front, verdict));
      PrepareSummary(cfg, s, t, isolate, verdict, now, failure);
      PreparedExact(cfg, initial, prior, s, t, verdict);
      ConcludedExact(cfg, initial, prior, t, flush, verdict);
  }

  lemma PreparedExact(cfg: Config, initial: Table, prior: seq<Tag>, s: System, t: System, verdict: Verdict)
    requires Exact(cfg, initial, prior, s) && t.main.None? && t.flush.None? && t.table == s.table
    requires Prepares(cfg, s, t, verdict)
    requires t.h == Resolve(s.h, s.w.db.pending[..Min(1, |s.w.db.pending|)], verdict)
    ensures Exact(cfg, initial, prior, t)
  {
    if verdict.DeadLetter? {
      var row := s.w.db.pending[0];
      assert s.w.db.pending[..1] == [row];
      AdvancesOrdered(cfg, s, t, [row]);
      BuriedExact(cfg, initial, prior, s, t, row);
    } else {
      StaysExact(cfg, initial, prior, s, t);
    }
  }

  /** `t` is `s` behind the application of a request. */
  lemma ApplyExact(cfg: Config, initial: Table, prior: seq<Tag>, s: System, t: System, flush: bool, f: Flight)
    requires Exact(cfg, initial, prior, s) && FlightOf(s, flush) == Some(f) && Acceptable(cfg, f.text)
    requires t == WithFlight(s.(table := Upsert(s.table, ParseBatch(f.text).value)), flush, Some(f.(applied := true)))
    ensures Exact(cfg, initial, prior, t)
  {
    var rows := RowsOf(cfg, f.rows);
    AcceptableRows(cfg, f.rows, f.text);
    forall k ensures Settled(cfg, initial, t, k) {
      ApplySettles(cfg, initial, s, t, f, k);
    }
    forall k | Last(rows, k).Some? ensures Lookup(t.table, k) == Last(rows, k) {
      UpsertLookup(s.table, rows, k);
    }
  }

  lemma PersistExact(cfg: Config, initial: Table, prior: seq<Tag>, s: System, env: Storage)
    requires Exact(cfg, initial, prior, s)
    ensures Exact(cfg, initial, prior, DoPersist(cfg, s, env))
  {
    PersistOrdered(cfg, s, env);
    match Persist(cfg, s.w, env)
    case Dies(_) => RestartExact(cfg, initial, prior, s);
    case Goes(w, ok) =>
      PersistCases(cfg, s.w, env);
      if w.db != s.w.db {
        EnqueueGrows(s.w.db, cfg.limits, s.w.held);
        TagsConcat(s.w.db.pending, Inserted(s.w.db, w.db));
      }
      StaysExact(cfg, initial, prior, s, DoPersist(cfg, s, env));
  }

  lemma StepExact(cfg: Config, initial: Table, prior: seq<Tag>, s: System, l: Label)
    requires Exact(cfg, initial, prior, s) && Alone(s, l) && Honest(s, cfg, l) && Next(cfg, s, l).Some?
    ensures Exact(cfg, initial, prior, Next(cfg, s, l).value)
  {
    match l
    case SubmitEvent(_, _) => StaysExact(cfg, initial, prior, s, Next(cfg, s, l).value);
    case DrainIngress => StaysExact(cfg, initial, prior, s, Next(cfg, s, l).value);
    case PersistHeld(env) => PersistExact(cfg, initial, prior, s, env);
    case StartSend(flush, now, failure) => StartExact(cfg, initial, prior, s, flush, now, failure);
    case ServerApplies(flush) =>
      ApplyExact(cfg, initial, prior, s, Next(cfg, s, l).value, flush, FlightOf(s, flush).value);
    case ServerAnswers(flush, answer, now, failure) =>
      AnswerExact(cfg, initial, prior, s, flush, FlightOf(s, flush).value, answer, now, failure);
    case Restart => RestartExact(cfg, initial, prior, s);
  }

  lemma {:induction false} ExecExact(cfg: Config, initial: Table, prior: seq<Tag>, s: System, labels: seq<Label>)
    requires Exact(cfg, initial, prior, s) && HonestRun(cfg, s, labels) && Exec(cfg, s, labels).Some?
    ensures Exact(cfg, initial, prior, Exec(cfg, s, labels).value)
    decreases labels
  {
    if labels != [] {
      StepExact(cfg, initial, prior, s, labels[0]);
      ExecExact(cfg, initial, prior, Next(cfg, s, labels[0]).value, labels[1..]);
    }
  }

  // ------------------------------------------------------------- the theorems

  lemma StartsExact(cfg: Config, db: Database, table: Table)
    requires cfg.Wired() && Valid(db)
    ensures Exact(cfg, table, Start(db, table).h.buried, Start(db, table))
  {
    var s := Start(db, table);
    StartOrdering(cfg, db, table);
    forall k ensures Settled(cfg, table, s, k) {
    }
    assert s.h.buried + [] == s.h.buried;
  }

  /** In every run, at every key, the table holds what upserting the resolved good events once in
      order would give, or the row of a good event that is still pending; delivered events are
      exactly the good ones among the resolved, dead letters exactly the others. */
  lemma TableIsSettled(cfg: Config, db: Database, table: Table, labels: seq<Label>)
    requires cfg.Wired() && Valid(db) && HonestRun(cfg, Start(db, table), labels)
             && Exec(cfg, Start(db, table), labels).Some?
    ensures var s := Exec(cfg, Start(db, table), labels).value;
            && (forall k :: Settled(cfg, table, s, k))
            && s.h.acked == GoodTags(cfg, s.h.resolved)
            && s.h.buried == Start(db, table).h.buried + BadTags(cfg, s.h.resolved)
  {
    StartsExact(cfg, db, table);
    ExecExact(cfg, table, Start(db, table).h.buried, Start(db, table), labels);
  }

  /** Once the spool is drained the table is exactly the initial table with every good event ever
      enqueued upserted once, in enqueue order. */
  lemma DrainedTableIsExact(cfg: Config, db: Database, table: Table, labels: seq<Label>)
    requires cfg.Wired() && Valid(db) && HonestRun(cfg, Start(db, table), labels)
             && Exec(cfg, Start(db, table), labels).Some?
    requires Exec(cfg, Start(db, table), labels).value.w.db.pending == []
    ensures var s := Exec(cfg, Start(db, table), labels).value;
            s.table == Ideal(cfg, table, s.h.enqueued) && s.h.acked == GoodTags(cfg, s.h.enqueued)
  {
    TableIsSettled(cfg, db, table, labels);
    var s := Exec(cfg, Start(db, table), labels).value;
    StartOrdering(cfg, db, table);
    HonestOrdered(cfg, Start(db, table), labels);
    assert s.h.resolved + Tags([]) == s.h.resolved;
    var ideal := Ideal(cfg, table, s.h.enqueued);
    forall k ensures Lookup(s.table, k) == Lookup(ideal, k) {
      assert Settled(cfg, table, s, k);
    }
    SameLookups(s.table, ideal);
  }

  lemma SameLookups(a: Table, b: Table)
    requires forall k :: Lookup(a, k) == Lookup(b, k)
    ensures a == b
  {
    forall k ensures k in a <==> k in b {
      assert Lookup(a, k) == Lookup(b, k);
    }
    forall k | k in a ensures a[k] == b[k] {
      assert Lookup(a, k) == Lookup(b, k);
    }
  }

  lemma {:induction false} HonestOrdered(cfg: Config, s: System, labels: seq<Label>)
    requires Ordered(cfg, s) && HonestRun(cfg, s, labels) && Exec(cfg, s, labels).Some?
    ensures Ordered(cfg, Exec(cfg, s, labels).value)
    decreases labels
  {
    if labels != [] {
      StepOrdered(cfg, s, labels[0]);
      HonestOrdered(cfg, Next(cfg, s, labels[0]).value, labels[1..]);
    }
  }
}
