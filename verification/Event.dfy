/** The event envelope and its one ILP row. */
module Event {
  import opened Basics
  import opened Ilp
  import opened IlpParser

  datatype Envelope = Envelope(
    eventId: string, entityId: string, state: string, attributesJson: string,
    ingestedAt: int, lastChanged: int, lastUpdated: int, contextId: Option<string>)

  /** `str.partition(".")[0]`. */
  function BeforeDot(s: string): string {
    if s == "" || s[0] == '.' then "" else [s[0]] + BeforeDot(s[1..])
  }

  predicate IsTimestamp(n: int) {
    0 <= n <= INT64_MAX
  }

  /** What `__post_init__` checks; `isJsonObject` says which texts parse to a JSON object. */
  predicate ValidEnvelope(e: Envelope, isJsonObject: string -> bool) {
    var domain := BeforeDot(e.entityId);
    && IsName(e.eventId)
    && IsName(e.entityId)
    && domain != "" && |domain| + 1 < |e.entityId|
    && '\0' !in e.state
    && IsName(e.attributesJson) && isJsonObject(e.attributesJson)
    && IsTimestamp(e.ingestedAt) && IsTimestamp(e.lastChanged) && IsTimestamp(e.lastUpdated)
    && (e.contextId.Some? ==> IsName(e.contextId.value))
  }

  /** The arguments `to_ilp` hands to `encode_row`. */
  function ToRow(e: Envelope, table: string): RowSpec {
    RowSpec(
      table,
      [("entity_id", Some(e.entityId)), ("domain", Some(BeforeDot(e.entityId)))],
      [("event_id", Str(e.eventId)),
       ("state", Str(e.state)),
       ("attributes", Str(e.attributesJson)),
       ("ingested_at", Micros(e.ingestedAt / 1000)),
       ("last_changed", Micros(e.lastChanged / 1000)),
       ("context_id", if e.contextId.None? then Null else Str(e.contextId.value))],
      e.lastUpdated)
  }

  lemma {:induction false} BeforeDotChars(s: string)
    ensures forall c :: c in BeforeDot(s) ==> c in s
  {
    if s != "" && s[0] != '.' {
      BeforeDotChars(s[1..]);
      assert s == [s[0]] + s[1..];
    }
  }

  lemma FieldPartSome(key: string, value: FieldValue)
    requires IsName(key) && !EncodeField(value).Error?
    ensures FieldPart(key, value).Some?
    ensures EncodeField(value).Text? ==> FieldPart(key, value).value != []
  {
  }

  lemma {:induction false} FieldPartsSome(fields: seq<(string, FieldValue)>)
    requires forall f :: f in fields ==> IsName(f.0) && !EncodeField(f.1).Error?
    ensures FieldParts(fields).Some?
    ensures fields != [] && EncodeField(fields[0].1).Text? ==> FieldParts(fields).value != []
  {
    if fields != [] {
      FieldPartSome(fields[0].0, fields[0].1);
      assert fields == [fields[0]] + fields[1..];
      FieldPartsSome(fields[1..]);
    }
  }

  lemma {:induction false} SymbolPartsSome(symbols: seq<(string, Option<string>)>)
    requires forall s :: s in symbols ==> IsName(s.0) && s.1.Some? && IsName(s.1.value)
    ensures SymbolParts(symbols).Some?
  {
    if symbols != [] {
      assert symbols == [symbols[0]] + symbols[1..];
      SymbolPartsSome(symbols[1..]);
    }
  }

  lemma RowEncodes(row: RowSpec)
    requires IsName(row.table) && row.fields != [] && EncodeField(row.fields[0].1).Text?
    requires forall s :: s in row.symbols ==> IsName(s.0) && s.1.Some? && IsName(s.1.value)
    requires forall f :: f in row.fields ==> IsName(f.0) && !EncodeField(f.1).Error?
    ensures RowText(row).Some?
  {
    SymbolPartsSome(row.symbols);
    FieldPartsSome(row.fields);
  }

  lemma EventNames()
    ensures IsName("event_id") && IsName("state") && IsName("attributes")
    ensures IsName("ingested_at") && IsName("last_changed") && IsName("context_id")
  {
  }

  lemma EventValues(e: Envelope, isJsonObject: string -> bool)
    requires ValidEnvelope(e, isJsonObject)
    ensures EncodeField(Str(e.eventId)).Text? && EncodeField(Str(e.state)).Text?
            && EncodeField(Str(e.attributesJson)).Text?
    ensures EncodeField(Micros(e.ingestedAt / 1000)).Text? && EncodeField(Micros(e.lastChanged / 1000)).Text?
    ensures !EncodeField(if e.contextId.None? then Null else Str(e.contextId.value)).Error?
  {
  }

  lemma EventFields(e: Envelope, table: string, isJsonObject: string -> bool)
    requires ValidEnvelope(e, isJsonObject)
    ensures forall f :: f in ToRow(e, table).fields ==> IsName(f.0) && !EncodeField(f.1).Error?
    ensures EncodeField(ToRow(e, table).fields[0].1).Text?
  {
    EventNames();
    EventValues(e, isJsonObject);
  }

  lemma EventSymbols(e: Envelope, table: string, isJsonObject: string -> bool)
    requires ValidEnvelope(e, isJsonObject)
    ensures forall s :: s in ToRow(e, table).symbols ==> IsName(s.0) && s.1.Some? && IsName(s.1.value)
  {
    BeforeDotChars(e.entityId);
  }

  /** A validated event always encodes: only a payload that fails to decode cannot be sent. */
  lemma ValidEventEncodes(e: Envelope, table: string, isJsonObject: string -> bool)
    requires ValidEnvelope(e, isJsonObject) && IsName(table)
    ensures RowText(ToRow(e, table)).Some?
  {
    EventFields(e, table, isJsonObject);
    EventSymbols(e, table, isJsonObject);
    RowEncodes(ToRow(e, table));
  }

  /** The dedup key of a row: designated timestamp and `entity_id`. */
  type Key = (int, Option<string>)

  function SymbolNamed(symbols: seq<(string, string)>, name: string): Option<string> {
    if symbols == [] then None
    else if symbols[0].0 == name then Some(symbols[0].1)
    else SymbolNamed(symbols[1..], name)
  }

  function KeyOf(row: IlpRow): Key {
    (row.timestamp, SymbolNamed(row.symbols, "entity_id"))
  }

  /** The key a server reads off an event's row is (last_updated, entity_id). */
  lemma EventKey(e: Envelope, table: string)
    ensures KeyOf(Meaning(ToRow(e, table))) == (e.lastUpdated, Some(e.entityId))
  {
    assert KeptSymbols(ToRow(e, table).symbols)[0] == ("entity_id", e.entityId);
  }

  // --------------------------------------------------- what a row says, by column

  function FieldNamed(fields: seq<(string, FieldValue)>, name: string): Option<FieldValue> {
    if fields == [] then None
    else if fields[0].0 == name then Some(fields[0].1)
    else FieldNamed(fields[1..], name)
  }

  predicate Named<T>(items: seq<(string, T)>, names: seq<string>) {
    |items| == |names| && forall i :: 0 <= i < |items| ==> items[i].0 == names[i]
  }

  const SYMBOL_COLUMNS := ["entity_id", "domain"]
  const PLAIN_COLUMNS := ["event_id", "state", "attributes", "ingested_at", "last_changed"]

  /** `domain` is the part of `entityId` in front of its first dot. */
  predicate IsDomain(domain: Option<string>, entityId: string) {
    domain.Some? && '.' !in domain.value && domain.value + "." <= entityId
  }

  /** The row carries exactly this event: each column by name, times in whole microseconds. */
  predicate Says(row: IlpRow, e: Envelope, table: string) {
    && row.table == table && row.timestamp == e.lastUpdated
    && Named(row.symbols, SYMBOL_COLUMNS)
    && SymbolNamed(row.symbols, "entity_id") == Some(e.entityId)
    && IsDomain(SymbolNamed(row.symbols, "domain"), e.entityId)
    && Named(row.fields, PLAIN_COLUMNS + if e.contextId.Some? then ["context_id"] else [])
    && FieldNamed(row.fields, "event_id") == Some(Str(e.eventId))
    && FieldNamed(row.fields, "state") == Some(Str(e.state))
    && FieldNamed(row.fields, "attributes") == Some(Str(e.attributesJson))
    && Floored(FieldNamed(row.fields, "ingested_at"), e.ingestedAt)
    && Floored(FieldNamed(row.fields, "last_changed"), e.lastChanged)
    && FieldNamed(row.fields, "context_id") == (if e.contextId.Some? then Some(Str(e.contextId.value)) else None)
  }

  /** The whole microseconds of a time in nanoseconds. */
  predicate Floored(value: Option<FieldValue>, nanos: int) {
    value.Some? && value.value.Micros? && 1000 * value.value.micros <= nanos < 1000 * (value.value.micros + 1)
  }

  lemma {:induction false} BeforeDotIs(s: string)
    requires '.' in s
    ensures IsDomain(Some(BeforeDot(s)), s)
  {
    if s[0] != '.' {
      assert s == [s[0]] + s[1..];
      BeforeDotIs(s[1..]);
      assert BeforeDot(s) + "." == [s[0]] + (BeforeDot(s[1..]) + ".");
    }
  }

  lemma {:induction false} DotInside(s: string)
    requires |BeforeDot(s)| < |s|
    ensures '.' in s
  {
    if s[0] != '.' {
      DotInside(s[1..]);
      assert s == [s[0]] + s[1..];
    }
  }

  /** Fields without a null are all kept. */
  lemma {:induction false} KeptAll(fields: seq<(string, FieldValue)>, last: (string, FieldValue))
    requires forall f :: f in fields ==> !f.1.Null?
    ensures KeptFields(fields + [last]) == fields + if last.1.Null? then [] else [last]
  {
    if fields == [] {
      assert fields + [last] == [last] && [last][1..] == [];
    } else {
      assert fields[0] in fields;
      HeadTail(fields, [last]);
      KeptAll(fields[1..], last);
    }
  }

  lemma KeptFieldsOf(e: Envelope, table: string)
    ensures Meaning(ToRow(e, table)).fields ==
            ToRow(e, table).fields[..5] + if e.contextId.Some? then [("context_id", Str(e.contextId.value))] else []
  {
    var fields := ToRow(e, table).fields;
    assert fields == fields[..5] + [fields[5]];
    KeptAll(fields[..5], fields[5]);
  }

  /** The field named `names[i]` when names and fields match one to one. */
  lemma {:induction false} FieldAt(fields: seq<(string, FieldValue)>, names: seq<string>, i: nat)
    requires Named(fields, names) && i < |names| && forall j :: 0 <= j < i ==> names[j] != names[i]
    ensures FieldNamed(fields, names[i]) == Some(fields[i].1)
  {
    if i > 0 {
      assert names[0] != names[i];
      FieldAt(fields[1..], names[1..], i - 1);
    }
  }

  lemma {:induction false} NoField(fields: seq<(string, FieldValue)>, name: string)
    requires forall f :: f in fields ==> f.0 != name
    ensures FieldNamed(fields, name) == None
  {
    if fields != [] {
      assert fields[0] in fields;
      NoField(fields[1..], name);
    }
  }

  lemma ColumnsDiffer()
    ensures forall i, j :: 0 <= i < j < 5 ==> PLAIN_COLUMNS[i] != PLAIN_COLUMNS[j]
    ensures forall i :: 0 <= i < 5 ==> PLAIN_COLUMNS[i] != "context_id"
  {
    assert |PLAIN_COLUMNS[0]| == 8 && |PLAIN_COLUMNS[1]| == 5 && |PLAIN_COLUMNS[2]| == 10;
    assert |PLAIN_COLUMNS[3]| == 11 && |PLAIN_COLUMNS[4]| == 12 && |"context_id"| == 10;
    assert PLAIN_COLUMNS[2][0] == 'a' && "context_id"[0] == 'c';
  }

  /** The row of a valid event carries exactly that event. */
  lemma RowSays(e: Envelope, table: string, isJsonObject: string -> bool)
    requires ValidEnvelope(e, isJsonObject)
    ensures Says(Meaning(ToRow(e, table)), e, table)
  {
    var row := Meaning(ToRow(e, table));
    SymbolsSay(e, table, isJsonObject);
    FieldsSay(e, table, row.fields);
  }

  lemma SymbolsSay(e: Envelope, table: string, isJsonObject: string -> bool)
    requires ValidEnvelope(e, isJsonObject)
    ensures var symbols := Meaning(ToRow(e, table)).symbols;
            && Named(symbols, SYMBOL_COLUMNS) && SymbolNamed(symbols, "entity_id") == Some(e.entityId)
            && SymbolNamed(symbols, "domain") == Some(BeforeDot(e.entityId))
            && IsDomain(Some(BeforeDot(e.entityId)), e.entityId)
  {
    var symbols := ToRow(e, table).symbols;
    assert symbols[1..][1..] == [];
    assert KeptSymbols(symbols[1..]) == [("domain", BeforeDot(e.entityId))];
    assert KeptSymbols(symbols) == [("entity_id", e.entityId), ("domain", BeforeDot(e.entityId))];
    assert |"entity_id"| == 9 && |"domain"| == 6;
    DotInside(e.entityId);
    BeforeDotIs(e.entityId);
  }

  lemma FieldsSay(e: Envelope, table: string, fields: seq<(string, FieldValue)>)
    requires fields == Meaning(ToRow(e, table)).fields
    ensures var names := PLAIN_COLUMNS + if e.contextId.Some? then ["context_id"] else [];
            && Named(fields, names)
            && FieldNamed(fields, "event_id") == Some(Str(e.eventId))
            && FieldNamed(fields, "state") == Some(Str(e.state))
            && FieldNamed(fields, "attributes") == Some(Str(e.attributesJson))
            && FieldNamed(fields, "ingested_at") == Some(Micros(e.ingestedAt / 1000))
            && FieldNamed(fields, "last_changed") == Some(Micros(e.lastChanged / 1000))
            && FieldNamed(fields, "context_id") == (if e.contextId.Some? then Some(Str(e.contextId.value)) else None)
  {
    var names := PLAIN_COLUMNS + if e.contextId.Some? then ["context_id"] else [];
    KeptFieldsOf(e, table);
    ColumnsDiffer();
    assert Named(fields, names);
    FieldAt(fields, names, 0);
    FieldAt(fields, names, 1);
    FieldAt(fields, names, 2);
    FieldAt(fields, names, 3);
    FieldAt(fields, names, 4);
    if e.contextId.Some? {
      FieldAt(fields, names, 5);
    } else {
      forall f | f in fields ensures f.0 != "context_id" {
        var i :| 0 <= i < |fields| && fields[i] == f;
        assert f.0 == names[i];
      }
      NoField(fields, "context_id");
    }
  }

  /** Equal rows come from events that agree in everything but the nanoseconds below a microsecond of
      `ingested_at` and `last_changed`. */
  lemma SameRowSameEvent(row: IlpRow, a: Envelope, b: Envelope, table: string)
    requires Says(row, a, table) && Says(row, b, table)
    ensures a.eventId == b.eventId && a.entityId == b.entityId && a.state == b.state
    ensures a.attributesJson == b.attributesJson && a.contextId == b.contextId && a.lastUpdated == b.lastUpdated
    ensures a.ingestedAt / 1000 == b.ingestedAt / 1000 && a.lastChanged / 1000 == b.lastChanged / 1000
  {
  }
}
