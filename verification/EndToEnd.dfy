/** From envelopes to the table: with a codec that reads back what it wrote, every valid event the
    server accepts ends up under its own key. */
module EndToEnd {
  import opened Basics
  import opened SpoolState
  import opened Ilp
  import opened IlpParser
  import opened Event
  import opened Batch
  import opened WorkerState
  import opened System
  import opened Fifo
  import opened Conservation
  import opened ExactlyOnce

  /** `EventEnvelope.to_bytes`, `EventEnvelope.from_bytes`, and the attribute texts that `json.loads`
      turns into an object. */
  datatype Codec = Codec(
    encode: Envelope -> Bytes, decode: Bytes -> Option<Envelope>, isJsonObject: string -> bool)

  predicate ValidEvent(codec: Codec, e: Envelope) {
    ValidEnvelope(e, codec.isJsonObject)
  }

  /** JSON reads back every valid event it wrote, and decoding refuses everything that is not valid. */
  ghost predicate RoundTrips(codec: Codec) {
    && (forall e :: ValidEvent(codec, e) ==> codec.decode(codec.encode(e)) == Some(e))
    && (forall p :: codec.decode(p).Some? ==> ValidEvent(codec, codec.decode(p).value))
  }

  /** The writer's encoder for a table: decode the envelope and hand its row to `encode_row`. */
  ghost predicate Speaks(cfg: Config, codec: Codec, table: string) {
    IsName(table) && forall p :: SpeaksOf(cfg, codec, table, p)
  }

  ghost predicate SpeaksOf(cfg: Config, codec: Codec, table: string, p: Bytes) {
    match codec.decode(p)
    case None => cfg.encode(p).None?
    case Some(e) => cfg.encode(p) == RowText(ToRow(e, table)) && cfg.means(p) == Meaning(ToRow(e, table))
  }

  /** Such a writer sends nothing but rows of `encode_row`, so the exactly-once theorems apply to it. */
  lemma SpeakerIsWired(cfg: Config, codec: Codec, table: string)
    requires Speaks(cfg, codec, table)
    ensures cfg.Wired()
  {
    forall p ensures cfg.EncodesRow(p) {
      assert SpeaksOf(cfg, codec, table, p);
    }
  }

  /** A payload is sent exactly if it decodes: encoding a decoded event never fails. */
  lemma OnlyDecodingFails(cfg: Config, codec: Codec, name: string, p: Bytes)
    requires RoundTrips(codec) && Speaks(cfg, codec, name)
    ensures Encoding(cfg, p).Some? <==> codec.decode(p).Some?
    ensures codec.decode(p).Some? ==> RowOf(cfg, p) == Some(Meaning(ToRow(codec.decode(p).value, name)))
  {
    assert SpeaksOf(cfg, codec, name, p);
    if codec.decode(p).Some? {
      ValidEventEncodes(codec.decode(p).value, name, codec.isJsonObject);
    }
  }

  lemma EventRow(cfg: Config, codec: Codec, name: string, e: Envelope)
    requires RoundTrips(codec) && Speaks(cfg, codec, name) && ValidEvent(codec, e)
    ensures RowOf(cfg, codec.encode(e)) == Some(Meaning(ToRow(e, name)))
    ensures KeyOf(Meaning(ToRow(e, name))) == (e.lastUpdated, Some(e.entityId))
  {
    OnlyDecodingFails(cfg, codec, name, codec.encode(e));
    EventKey(e, name);
  }

  lemma {:induction false} GoodRowIn(cfg: Config, tags: seq<Tag>, t: Tag)
    requires t in tags && Good(cfg, t.payload)
    ensures RowOf(cfg, t.payload).value in GoodRows(cfg, tags)
  {
    if t != tags[0] {
      GoodRowIn(cfg, tags[1..], t);
    }
  }

  lemma {:induction false} GoodRowFrom(cfg: Config, tags: seq<Tag>, row: IlpRow)
    requires row in GoodRows(cfg, tags)
    ensures exists t :: t in tags && Good(cfg, t.payload) && RowOf(cfg, t.payload) == Some(row)
  {
    var t := tags[0];
    if !(Good(cfg, t.payload) && RowOf(cfg, t.payload) == Some(row)) {
      GoodRowFrom(cfg, tags[1..], row);
      var u :| u in tags[1..] && Good(cfg, u.payload) && RowOf(cfg, u.payload) == Some(row);
      assert u in tags;
    }
  }

  /** An event of the log says `row`. */
  ghost predicate SaidBy(cfg: Config, tags: seq<Tag>, row: IlpRow) {
    exists t :: t in tags && Good(cfg, t.payload) && RowOf(cfg, t.payload) == Some(row)
  }

  /** The key of every good event of the log holds the row of the last good event with that key. */
  lemma IdealShows(cfg: Config, initial: Table, tags: seq<Tag>, t: Tag)
    requires t in tags && Good(cfg, t.payload)
    ensures var k := KeyOf(RowOf(cfg, t.payload).value);
            && k in Ideal(cfg, initial, tags)
            && Some(Ideal(cfg, initial, tags)[k]) == Last(GoodRows(cfg, tags), k)
            && SaidBy(cfg, tags, Ideal(cfg, initial, tags)[k])
  {
    var row := RowOf(cfg, t.payload).value;
    var rows := GoodRows(cfg, tags);
    GoodRowIn(cfg, tags, t);
    KeyHasLast(rows, row);
    UpsertLookup(initial, rows, KeyOf(row));
    LastIn(rows, KeyOf(row));
    GoodRowFrom(cfg, tags, Last(rows, KeyOf(row)).value);
  }

  /** The row is the event's own and says exactly what the event says. */
  predicate Shown(row: IlpRow, e: Envelope, name: string) {
    row == Meaning(ToRow(e, name)) && Says(row, e, name)
  }

  /** In every honest run that drained the spool, an enqueued event the server accepts is in the
      table: its key (last_updated, entity_id) holds the row of the last accepted event with that key,
      which is its own row if no other event shares the key. */
  lemma EventArrives(
    cfg: Config, codec: Codec, name: string, db: Database, table: Table, labels: seq<Label>, e: Envelope, t: Tag)
    requires RoundTrips(codec) && Speaks(cfg, codec, name) && ValidEvent(codec, e)
             && cfg.accepts(Meaning(ToRow(e, name)))
    requires Valid(db) && HonestRun(cfg, Start(db, table), labels) && Exec(cfg, Start(db, table), labels).Some?
    requires var s := Exec(cfg, Start(db, table), labels).value;
             s.w.db.pending == [] && t in s.h.enqueued && t.payload == codec.encode(e)
    ensures var s := Exec(cfg, Start(db, table), labels).value;
            var k: Key := (e.lastUpdated, Some(e.entityId));
            && k in s.table && Some(s.table[k]) == Last(GoodRows(cfg, s.h.enqueued), k)
            && SaidBy(cfg, s.h.enqueued, s.table[k])
            && (SharesKey(cfg, s.h.enqueued, k, t.payload) || Shown(s.table[k], e, name))
  {
    var s := Exec(cfg, Start(db, table), labels).value;
    var k: Key := (e.lastUpdated, Some(e.entityId));
    SpeakerIsWired(cfg, codec, name);
    DrainedTableIsExact(cfg, db, table, labels);
    EventRow(cfg, codec, name, e);
    RowSays(e, name, codec.isJsonObject);
    IdealShows(cfg, table, s.h.enqueued, t);
    LastIn(GoodRows(cfg, s.h.enqueued), k);
    var u :| u in s.h.enqueued && Good(cfg, u.payload) && RowOf(cfg, u.payload) == Some(s.table[k]);
    assert u.payload == t.payload || SharesKey(cfg, s.h.enqueued, k, t.payload);
  }

  // ------------------------------------------------- from submit to the table

  lemma {:induction false} GoodTagsIn(cfg: Config, tags: seq<Tag>, t: Tag)
    ensures t in GoodTags(cfg, tags) <==> t in tags && Good(cfg, t.payload)
    ensures t in BadTags(cfg, tags) <==> t in tags && !Good(cfg, t.payload)
  {
    if tags != [] {
      GoodTagsIn(cfg, tags[1..], t);
    }
  }

  /** An honest run has ended its work: nothing is queued, held or pending. */
  ghost predicate Idle(cfg: Config, db: Database, table: Table, labels: seq<Label>, s: System) {
    && Valid(db) && HonestRun(cfg, Start(db, table), labels) && Exec(cfg, Start(db, table), labels) == Some(s)
    && s.w.ingress == [] && s.w.held == [] && s.w.db.pending == []
  }

  /** Every accepted event not lost with a process is then delivered if the server accepts it, and a
      dead letter if not or if it was one from the start. */
  lemma AcceptedEnds(cfg: Config, db: Database, table: Table, labels: seq<Label>, s: System, e: NewEvent)
    requires cfg.Wired() && Idle(cfg, db, table, labels, s) && e in s.h.accepted && e !in s.h.lost
    ensures exists t :: Carries(t, e)
                        && (t in GoodTags(cfg, s.h.enqueued)
                            || t in Start(db, table).h.buried + BadTags(cfg, s.h.enqueued))
  {
    NothingLost(cfg, db, table, labels, e);
    TableIsSettled(cfg, db, table, labels);
    DrainedTableIsExact(cfg, db, table, labels);
    StartOrdering(cfg, db, table);
    HonestOrdered(cfg, Start(db, table), labels);
    assert s.h.resolved + Tags([]) == s.h.resolved;
    var t :| Carries(t, e) && Somewhere(s, t);
    assert t in GoodTags(cfg, s.h.enqueued) || t in Start(db, table).h.buried + BadTags(cfg, s.h.enqueued);
  }

  /** From `submit` to the table: a valid event that was accepted, not lost with a process, not a dead
      letter from the start, and whose row the server accepts, is in the table under its key. */
  lemma AcceptedArrives(
    cfg: Config, codec: Codec, name: string, db: Database, table: Table, labels: seq<Label>, s: System, e: Envelope,
    event: NewEvent)
    requires RoundTrips(codec) && Speaks(cfg, codec, name) && ValidEvent(codec, e)
             && cfg.accepts(Meaning(ToRow(e, name)))
    requires Idle(cfg, db, table, labels, s) && event in s.h.accepted && event !in s.h.lost
    requires event.payload == codec.encode(e) && forall t :: t in Start(db, table).h.buried ==> !Carries(t, event)
    ensures var k: Key := (e.lastUpdated, Some(e.entityId));
            && k in s.table && Some(s.table[k]) == Last(GoodRows(cfg, s.h.enqueued), k)
            && (SharesKey(cfg, s.h.enqueued, k, event.payload) || Shown(s.table[k], e, name))
  {
    SpeakerIsWired(cfg, codec, name);
    AcceptedEnds(cfg, db, table, labels, s, event);
    var t :| Carries(t, event)
             && (t in GoodTags(cfg, s.h.enqueued) || t in Start(db, table).h.buried + BadTags(cfg, s.h.enqueued));
    EventRow(cfg, codec, name, e);
    GoodTagsIn(cfg, s.h.enqueued, t);
    EventArrives(cfg, codec, name, db, table, labels, e, t);
  }

  /** Another good event of the log has the key. */
  ghost predicate SharesKey(cfg: Config, tags: seq<Tag>, k: Key, payload: Bytes) {
    exists u :: u in tags && u.payload != payload && Good(cfg, u.payload) && KeyOf(RowOf(cfg, u.payload).value) == k
  }
}
