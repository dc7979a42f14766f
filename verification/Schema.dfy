/** The owned table schema: `SHOW COLUMNS` is accepted exactly when it shows the owned table. */
module Schema {
  import opened Basics

  datatype Json =
    | Null
    | Flag(flag: bool)
    | Number(number: real)
    | Text(text: string)
    | List(items: seq<Json>)
    | Object(fields: map<string, Json>)

  /** Python's `bool(value)`. */
  predicate Truthy(value: Json) {
    match value
    case Null => false
    case Flag(flag) => flag
    case Number(number) => number != 0.0
    case Text(text) => text != ""
    case List(items) => items != []
    case Object(fields) => fields != map[]
  }

  datatype Column = Column(kind: string, designated: bool, key: bool)

  type Columns = map<string, Column>

  const EXPECTED_COLUMNS: map<string, string> := map[
                                                   "last_updated" := "TIMESTAMP",
                                                   "entity_id" := "SYMBOL",
                                                   "domain" := "SYMBOL",
                                                   "state" := "VARCHAR",
                                                   "attributes" := "VARCHAR",
                                                   "event_id" := "VARCHAR",
                                                   "context_id" := "VARCHAR",
                                                   "ingested_at" := "TIMESTAMP",
                                                   "last_changed" := "TIMESTAMP"]

  const DESIGNATED_COLUMN := "last_updated"
  const UPSERT_KEY_COLUMNS := {"last_updated", "entity_id"}

  const SHOW_NAME := 0
  const SHOW_TYPE := 1
  const SHOW_DESIGNATED := 7
  const SHOW_UPSERT_KEY := 8

  // ------------------------------------------------------------ specification

  /** The table the writer creates: `last_updated` is its designated timestamp, and `last_updated`
      with `entity_id` its upsert key. */
  function Owned(): Columns {
    map[
      "last_updated" := Column("TIMESTAMP", true, true),
      "entity_id" := Column("SYMBOL", false, true),
      "domain" := Column("SYMBOL", false, false),
      "state" := Column("VARCHAR", false, false),
      "attributes" := Column("VARCHAR", false, false),
      "event_id" := Column("VARCHAR", false, false),
      "context_id" := Column("VARCHAR", false, false),
      "ingested_at" := Column("TIMESTAMP", false, false),
      "last_changed" := Column("TIMESTAMP", false, false)]
  }

  /** The same table as the constants state it. */
  lemma OwnedIs(name: string)
    ensures name in Owned() <==> name in EXPECTED_COLUMNS
    ensures name in Owned() ==>
              Owned()[name] == Column(EXPECTED_COLUMNS[name], name == DESIGNATED_COLUMN, name in UPSERT_KEY_COLUMNS)
  {
    assert |"last_updated"| == 12 && |"last_changed"| == 12 && "last_updated"[5] != "last_changed"[5];
    assert |"entity_id"| == 9;
  }

  predicate WellFormed(row: Json) {
    row.List? && |row.items| > SHOW_UPSERT_KEY && row.items[SHOW_NAME].Text? && row.items[SHOW_TYPE].Text?
  }

  function NameOf(row: Json): string
    requires WellFormed(row)
  {
    row.items[SHOW_NAME].text
  }

  function ColumnOf(row: Json): Column
    requires WellFormed(row)
  {
    Column(row.items[SHOW_TYPE].text, Truthy(row.items[SHOW_DESIGNATED]), Truthy(row.items[SHOW_UPSERT_KEY]))
  }

  predicate AllWellFormed(rows: seq<Json>) {
    forall i :: 0 <= i < |rows| ==> WellFormed(rows[i])
  }

  /** A response shows `columns`: its rows name exactly those columns, and of several rows with one
      name the last counts. */
  ghost predicate Shows(rows: seq<Json>, columns: Columns)
    requires AllWellFormed(rows)
  {
    && (forall i :: 0 <= i < |rows| ==> NameOf(rows[i]) in columns)
    && (forall name :: name in columns ==>
                         exists i :: IsLast(rows, name, i) && columns[name] == ColumnOf(rows[i]))
  }

  ghost predicate IsLast(rows: seq<Json>, name: string, i: int)
    requires AllWellFormed(rows)
  {
    && 0 <= i < |rows| && NameOf(rows[i]) == name
    && forall j :: i < j < |rows| ==> NameOf(rows[j]) != name
  }

  /** A response shows one table only. */
  lemma ShowsOne(rows: seq<Json>, a: Columns, b: Columns)
    requires AllWellFormed(rows) && Shows(rows, a) && Shows(rows, b)
    ensures a == b
  {
    ShownIn(rows, a, b);
    ShownIn(rows, b, a);
  }

  lemma ShownIn(rows: seq<Json>, a: Columns, b: Columns)
    requires AllWellFormed(rows) && Shows(rows, a) && Shows(rows, b)
    ensures a.Keys <= b.Keys && forall name :: name in a ==> a[name] == b[name]
  {
    forall name | name in a ensures name in b && a[name] == b[name] {
      var i :| IsLast(rows, name, i) && a[name] == ColumnOf(rows[i]);
      assert NameOf(rows[i]) in b;
      var j :| IsLast(rows, name, j) && b[name] == ColumnOf(rows[j]);
      assert i == j;
    }
  }

  lemma ShowsSnoc(rows: seq<Json>, columns: Columns, row: Json)
    requires AllWellFormed(rows) && Shows(rows, columns) && WellFormed(row)
    ensures AllWellFormed(rows + [row])
    ensures Shows(rows + [row], columns[NameOf(row) := ColumnOf(row)])
  {
    var more, after := rows + [row], columns[NameOf(row) := ColumnOf(row)];
    forall i | 0 <= i < |more| ensures WellFormed(more[i]) && NameOf(more[i]) in after {
      assert i < |rows| ==> more[i] == rows[i];
    }
    forall name | name in after ensures exists k :: IsLast(more, name, k) && after[name] == ColumnOf(more[k]) {
      LastSnoc(rows, columns, row, name);
    }
  }

  lemma LastSnoc(rows: seq<Json>, columns: Columns, row: Json, name: string)
    requires AllWellFormed(rows) && Shows(rows, columns) && WellFormed(row) && AllWellFormed(rows + [row])
    requires name in columns[NameOf(row) := ColumnOf(row)]
    ensures exists k :: IsLast(rows + [row], name, k)
                        && columns[NameOf(row) := ColumnOf(row)][name] == ColumnOf((rows + [row])[k])
  {
    var more := rows + [row];
    if name == NameOf(row) {
      assert IsLast(more, name, |rows|);
    } else {
      var k :| IsLast(rows, name, k) && columns[name] == ColumnOf(rows[k]);
      assert more[k] == rows[k] && IsLast(more, name, k);
    }
  }

  // ---------------------------------------------------------------- validation

  datatype Problem =
    | MissingColumns(names: set<string>)
    | UnexpectedColumns(names: set<string>)
    | WrongTypes(names: set<string>)
    | WrongDesignated(names: set<string>)
    | WrongKeys(names: set<string>)

  datatype Validation = Matches | Mismatch(problems: seq<Problem>) | Malformed

  method ReadColumns(rows: seq<Json>) returns (actual: Option<Columns>)
    ensures actual.Some? <==> AllWellFormed(rows)
    ensures actual.Some? ==> Shows(rows, actual.value)
  {
    var columns: Columns := map[];
    for i := 0 to |rows|
      invariant AllWellFormed(rows[..i]) && Shows(rows[..i], columns)
    {
      var row := rows[i];
      if !row.List? || |row.items| <= SHOW_UPSERT_KEY || !row.items[SHOW_NAME].Text? || !row.items[SHOW_TYPE].Text? {
        return None;
      }
      ShowsSnoc(rows[..i], columns, row);
      assert rows[..i + 1] == rows[..i] + [row];
      columns := columns[row.items[SHOW_NAME].text :=
      Column(row.items[SHOW_TYPE].text, Truthy(row.items[SHOW_DESIGNATED]), Truthy(row.items[SHOW_UPSERT_KEY]))];
    }
    assert rows[..|rows|] == rows;
    return Some(columns);
  }

  /** A reported problem is a difference from the owned table, with the columns it concerns. */
  ghost predicate Real(p: Problem, actual: Columns) {
    match p
    case MissingColumns(names) => names == Owned().Keys - actual.Keys != {}
    case UnexpectedColumns(names) => names == actual.Keys - Owned().Keys != {}
    case WrongTypes(names) =>
      names != {} && forall n :: n in names <==> n in actual && n in Owned() && actual[n].kind != Owned()[n].kind
    case WrongDesignated(names) =>
      names != {DESIGNATED_COLUMN} && forall n :: n in names <==> n in actual && actual[n].designated
    case WrongKeys(names) => names != UPSERT_KEY_COLUMNS && forall n :: n in names <==> n in actual && actual[n].key
  }

  /** The differences between a table and the owned schema, in the order they are reported. */
  method Compare(actual: Columns) returns (problems: seq<Problem>)
    ensures problems == [] <==> actual == Owned()
    ensures forall p :: p in problems <==> Real(p, actual)
  {
    var expected := EXPECTED_COLUMNS;
    problems := [];
    var missing, extra := expected.Keys - actual.Keys, actual.Keys - expected.Keys;
    var wrongTypes := set name | name in expected && name in actual && actual[name].kind != expected[name];
    var designated := set name | name in actual && actual[name].designated;
    var keys := set name | name in actual && actual[name].key;
    AllReal(actual, missing, extra, wrongTypes, designated, keys);
    OnlyReal(actual, missing, extra, wrongTypes, designated, keys);
    Differs(actual, wrongTypes, designated, keys);
    if missing != {} {
      problems := problems + [MissingColumns(missing)];
    }
    if extra != {} {
      problems := problems + [UnexpectedColumns(extra)];
    }
    if wrongTypes != {} {
      problems := problems + [WrongTypes(wrongTypes)];
    }
    if designated != {DESIGNATED_COLUMN} {
      problems := problems + [WrongDesignated(designated)];
    }
    if keys != UPSERT_KEY_COLUMNS {
      problems := problems + [WrongKeys(keys)];
    }
  }

  /** Each difference, when there is one, is a real problem. */
  lemma AllReal(
    actual: Columns, missing: set<string>, extra: set<string>, wrongTypes: set<string>, designated: set<string>,
    keys: set<string>)
    requires missing == EXPECTED_COLUMNS.Keys - actual.Keys && extra == actual.Keys - EXPECTED_COLUMNS.Keys
    requires wrongTypes == set name | name in EXPECTED_COLUMNS && name in actual
                                      && actual[name].kind != EXPECTED_COLUMNS[name]
    requires designated == set name | name in actual && actual[name].designated
    requires keys == set name | name in actual && actual[name].key
    ensures missing != {} ==> Real(MissingColumns(missing), actual)
    ensures extra != {} ==> Real(UnexpectedColumns(extra), actual)
    ensures wrongTypes != {} ==> Real(WrongTypes(wrongTypes), actual)
    ensures designated != {DESIGNATED_COLUMN} ==> Real(WrongDesignated(designated), actual)
    ensures keys != UPSERT_KEY_COLUMNS ==> Real(WrongKeys(keys), actual)
    ensures missing == {} && extra == {} <==> actual.Keys == EXPECTED_COLUMNS.Keys
  {
    Kinds();
    if missing == {} && extra == {} {
      assert forall n :: n in actual.Keys <==> n in EXPECTED_COLUMNS.Keys;
    }
  }

  /** A real problem is one of these differences. */
  lemma OnlyReal(
    actual: Columns, missing: set<string>, extra: set<string>, wrongTypes: set<string>, designated: set<string>,
    keys: set<string>)
    requires missing == EXPECTED_COLUMNS.Keys - actual.Keys && extra == actual.Keys - EXPECTED_COLUMNS.Keys
    requires wrongTypes
          == set name | name in EXPECTED_COLUMNS && name in actual && actual[name].kind != EXPECTED_COLUMNS[name]
    requires designated == set name | name in actual && actual[name].designated
    requires keys == set name | name in actual && actual[name].key
    ensures forall p :: Real(p, actual) ==>
                          match p
                          case MissingColumns(names) => names == missing != {}
                          case UnexpectedColumns(names) => names == extra != {}
                          case WrongTypes(names) => names == wrongTypes != {}
                          case WrongDesignated(names) => names == designated != {DESIGNATED_COLUMN}
                          case WrongKeys(names) => names == keys != UPSERT_KEY_COLUMNS
  {
    Kinds();
  }

  lemma Kinds()
    ensures Owned().Keys == EXPECTED_COLUMNS.Keys
    ensures forall n :: n in Owned() ==> Owned()[n].kind == EXPECTED_COLUMNS[n]
  {
    forall name ensures name in Owned() <==> name in EXPECTED_COLUMNS {
      OwnedIs(name);
    }
    forall n | n in Owned() ensures Owned()[n].kind == EXPECTED_COLUMNS[n] {
      OwnedIs(n);
    }
  }

  /** No reported difference means no difference at all. */
  lemma Differs(actual: Columns, wrongTypes: set<string>, designated: set<string>, keys: set<string>)
    requires wrongTypes == set name | name in EXPECTED_COLUMNS && name in actual
                                      && actual[name].kind != EXPECTED_COLUMNS[name]
    requires designated == set name | name in actual && actual[name].designated
    requires keys == set name | name in actual && actual[name].key
    ensures Owned().Keys == EXPECTED_COLUMNS.Keys
    ensures actual == Owned() <==>
            && actual.Keys == EXPECTED_COLUMNS.Keys && wrongTypes == {}
            && designated == {DESIGNATED_COLUMN} && keys == UPSERT_KEY_COLUMNS
  {
    forall name ensures name in Owned() <==> name in EXPECTED_COLUMNS {
      OwnedIs(name);
    }
    if
      && actual.Keys == EXPECTED_COLUMNS.Keys && wrongTypes == {}
      && designated == {DESIGNATED_COLUMN} && keys == UPSERT_KEY_COLUMNS
    {
      forall name | name in actual ensures actual[name] == Owned()[name] {
        OwnedIs(name);
        assert name !in wrongTypes;
        assert actual[name].designated <==> name in designated;
        assert actual[name].key <==> name in keys;
      }
    }
    if actual == Owned() {
      forall name | name in EXPECTED_COLUMNS
        ensures actual[name] == Column(EXPECTED_COLUMNS[name], name == DESIGNATED_COLUMN, name in UPSERT_KEY_COLUMNS)
      {
        OwnedIs(name);
      }
      OwnedIs(DESIGNATED_COLUMN);
      OwnedIs("entity_id");
      assert designated == {DESIGNATED_COLUMN} && keys == UPSERT_KEY_COLUMNS;
    }
  }

  /** `validate_table_columns`: accepts exactly the responses that show the owned table. */
  method ValidateTableColumns(dataset: Json) returns (r: Validation)
    ensures r.Malformed? <==> !dataset.List? || !AllWellFormed(dataset.items)
    ensures r.Matches? <==> dataset.List? && AllWellFormed(dataset.items) && Shows(dataset.items, Owned())
    ensures r.Mismatch? ==> r.problems != []
  {
    if !dataset.List? {
      return Malformed;
    }
    var actual := ReadColumns(dataset.items);
    if actual.None? {
      return Malformed;
    }
    var problems := Compare(actual.value);
    if Shows(dataset.items, Owned()) {
      ShowsOne(dataset.items, actual.value, Owned());
    }
    r := if problems == [] then Matches else Mismatch(problems);
  }

  // ---------------------------------------------------------- ensuring the table

  /** What the server answers to one statement. */
  datatype Query = Answered(document: Json) | Refused(missingTable: bool) | Unreachable

  datatype Outcome = Ready | MismatchError | SchemaError | PermanentError | RetryableError | ValueError

  /** `IlpSchemaManager.ensure` without the retention step, whose outcome is `retention`: it returns
      normally only when the CREATE TABLE went through and the table shown is the owned one. */
  method Ensure(table: string, create: Query, show: Query, retention: Outcome) returns (r: Outcome)
    ensures r.Ready? <==>
            && table != "" && '\0' !in table && create.Answered? && retention.Ready?
            && show.Answered? && show.document.Object? && ShowsOwned(show.document.fields)
    ensures r.MismatchError? && !retention.MismatchError? ==>
              show.Answered? && show.document.Object? && !ShowsOwned(show.document.fields)
    ensures table != "" && '\0' !in table && create.Answered? && show == Refused(true) ==> r.RetryableError?
    ensures r == Verdict(table, create, show, retention)
    ensures r.SchemaError? && !retention.SchemaError? <==> Unreadable(table, create, show) && !retention.SchemaError?
  {
    if table == "" || '\0' in table {
      return ValueError;
    }
    if !create.Answered? {
      return if create.Refused? then PermanentError else RetryableError;
    }
    match show {
      case Unreachable => return RetryableError;
      case Refused(missingTable) => return if missingTable then RetryableError else PermanentError;
      case Answered(document) =>
        if !document.Object? {
          return SchemaError;
        }
        var validation := ValidateTableColumns(Dataset(document.fields));
        match validation {
          case Malformed => return SchemaError;
          case Mismatch(_) => return MismatchError;
          case Matches => return retention;
        }
    }
  }

  /** The outcome of the check, cause by cause: the name, then the two statements, then the columns. */
  ghost function Verdict(table: string, create: Query, show: Query, retention: Outcome): Outcome {
    if table == "" || '\0' in table then ValueError
    else if create.Unreachable? || (create.Answered?
                                    && (show.Unreachable? || show == Refused(true))) then RetryableError
    else if create.Refused? || show.Refused? then PermanentError
    else if Unreadable(table, create, show) then SchemaError
    else if !ShowsOwned(show.document.fields) then MismatchError
    else retention
  }

  /** The response to SHOW COLUMNS arrived and is not a list of column rows. */
  predicate Unreadable(table: string, create: Query, show: Query) {
    && table != "" && '\0' !in table && create.Answered? && show.Answered?
    && (!show.document.Object? || !Dataset(show.document.fields).List?
        || !AllWellFormed(Dataset(show.document.fields).items))
  }

  /** What `exec_query` meets: no response, or a status with a body that may be no JSON; whether an
      error text says that the table does not exist. */
  datatype Reply = Silent | Reply(status: int, body: Option<Json>, missingTable: bool)

  /** `exec_query`: a body that is no JSON object is refused before the schema check sees it. */
  function ExecQuery(reply: Reply): Query {
    match reply
    case Silent => Unreachable
    case Reply(status, body, missingTable) =>
      if !(200 <= status < 300) then
        if status in {408, 425, 429} || 500 <= status < 600 then Unreachable else Refused(missingTable)
      else if body.Some? && body.value.Object? then Answered(body.value)
      else Refused(false)
  }

  /** Over the transport only one answer is unreadable: a 2xx to SHOW COLUMNS whose body is a JSON
      object without a dataset of column rows. Any other body is a permanent error. */
  lemma UnreadableExactly(table: string, create: Reply, show: Reply)
    ensures Unreadable(table, ExecQuery(create), ExecQuery(show)) <==>
            && table != "" && '\0' !in table && ExecQuery(create).Answered?
            && show.Reply? && 200 <= show.status < 300 && show.body.Some? && show.body.value.Object?
            && !(Dataset(show.body.value.fields).List? && AllWellFormed(Dataset(show.body.value.fields).items))
    ensures show.Reply? && 200 <= show.status < 300 && (show.body.None? || !show.body.value.Object?) ==>
              ExecQuery(show) == Refused(false)
  {
  }

  function Dataset(fields: map<string, Json>): Json {
    if "dataset" in fields then fields["dataset"] else Null
  }

  ghost predicate ShowsOwned(fields: map<string, Json>) {
    var dataset := Dataset(fields);
    dataset.List? && AllWellFormed(dataset.items) && Shows(dataset.items, Owned())
  }
}
