/** The row of an event fits the owned table: every column it names is one, with the matching type. */
module Columns {
  import opened Basics
  import opened Ilp
  import opened IlpParser
  import opened Event
  import opened Schema

  /** The column type a field value goes into. */
  function KindOf(value: FieldValue): string {
    match value
    case Str(_) => "VARCHAR"
    case Micros(_) => "TIMESTAMP"
    case _ => ""
  }

  predicate Plain(name: string, kind: string) {
    name in Owned() && Owned()[name].kind == kind && !Owned()[name].designated
  }

  lemma PlainColumns()
    ensures Plain("entity_id", "SYMBOL") && Plain("domain", "SYMBOL")
    ensures Plain("event_id", "VARCHAR") && Plain("state", "VARCHAR") && Plain("attributes", "VARCHAR")
    ensures Plain("ingested_at", "TIMESTAMP") && Plain("last_changed", "TIMESTAMP") && Plain("context_id", "VARCHAR")
  {
    assert "last_updated" != "last_changed" by {
      assert "last_updated"[5] != "last_changed"[5];
    }
  }

  /** The value of each field by its name. */
  lemma FieldValues(row: IlpRow, e: Envelope, table: string, i: nat)
    requires Says(row, e, table) && i < |row.fields|
    ensures FieldNamed(row.fields, row.fields[i].0) == Some(row.fields[i].1)
  {
    var names := PLAIN_COLUMNS + if e.contextId.Some? then ["context_id"] else [];
    ColumnsDiffer();
    FieldAt(row.fields, names, i);
  }

  /** Every column of an event's row is a column of the owned table, of the type the value has and not
      the designated one; the designated timestamp is the row's own. */
  lemma RowFitsTable(row: IlpRow, e: Envelope, table: string)
    requires Says(row, e, table)
    ensures forall i :: 0 <= i < |row.symbols| ==> Plain(row.symbols[i].0, "SYMBOL")
    ensures forall i :: 0 <= i < |row.fields| ==> Plain(row.fields[i].0, KindOf(row.fields[i].1))
  {
    PlainColumns();
    forall i | 0 <= i < |row.fields| ensures Plain(row.fields[i].0, KindOf(row.fields[i].1)) {
      FieldValues(row, e, table, i);
    }
  }

  /** Exactly the columns a row can name, and the designated timestamp. */
  lemma RowCoversTable(name: string)
    ensures name in Owned() <==> name == "last_updated" || name in SYMBOL_COLUMNS || name in PLAIN_COLUMNS
                                                                                             + ["context_id"]
    ensures name in Owned() ==> (Owned()[name].designated <==> name == "last_updated")
    ensures name in Owned() ==> (Owned()[name].key <==> name == "last_updated" || name == "entity_id")
  {
    OwnedIs(name);
  }
}
