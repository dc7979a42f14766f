/** A reader for the line protocol that knows which section it is in, and the proof that it
    undoes the encoder on whole batches. */
module IlpParser {
  import opened Basics
  import opened Ilp

  /** What one encoded row says: nulls are gone, everything else is unescaped. */
  datatype IlpRow = IlpRow(
    table: string, symbols: seq<(string, string)>, fields: seq<(string, FieldValue)>, timestamp: int)

  function KeptSymbols(symbols: seq<(string, Option<string>)>): seq<(string, string)> {
    if symbols == [] then []
    else (if symbols[0].1.None? then [] else [(symbols[0].0, symbols[0].1.value)]) + KeptSymbols(symbols[1..])
  }

  function KeptFields(fields: seq<(string, FieldValue)>): seq<(string, FieldValue)> {
    if fields == [] then []
    else (if fields[0].1.Null? then [] else [fields[0]]) + KeptFields(fields[1..])
  }

  function Meaning(row: RowSpec): IlpRow {
    IlpRow(row.table, KeptSymbols(row.symbols), KeptFields(row.fields), row.timestamp)
  }

  // ------------------------------------------------------------------ reading

  const NAME_STOPS: set<char> := {' ', ',', '='}

  /** Read up to an unescaped stop character; a backslash makes the next character ordinary. */
  function Scan(s: string, stops: set<char>): (r: (string, string))
    ensures |r.1| <= |s|
  {
    if s == "" then ("", "")
    else if s[0] == '\\' && |s| > 1 then
      var (text, rest) := Scan(s[2..], stops);
      ([s[1]] + text, rest)
    else if s[0] in stops then ("", s)
    else
      var (text, rest) := Scan(s[1..], stops);
      ([s[0]] + text, rest)
  }

  function DigitValue(c: char): int {
    c as int - '0' as int
  }

  function ParseNat(s: string): int {
    if s == "" then 0 else 10 * ParseNat(s[..|s| - 1]) + DigitValue(s[|s| - 1])
  }

  function ParseInt(s: string): int {
    if s != "" && s[0] == '-' then -ParseNat(s[1..]) else ParseNat(s)
  }

  /** An unquoted field value. */
  function ParseToken(token: string): Option<FieldValue> {
    if token == "true" then Some(Bool(true))
    else if token == "false" then Some(Bool(false))
    else if token == "" then None
    else
      var last := token[|token| - 1];
      if last == 'i' then Some(Int(ParseInt(token[..|token| - 1])))
      else if last == 't' then Some(Micros(ParseInt(token[..|token| - 1])))
      else if IsFloatRepr(token) then Some(Float(token))
      else None
  }

  function ParseValue(s: string): (r: Option<(FieldValue, string)>)
    ensures r.Some? ==> |r.value.1| <= |s|
  {
    if s != "" && s[0] == '"' then
      var (text, rest) := Scan(s[1..], {'"'});
      if rest == "" then None else Some((Str(text), rest[1..]))
    else
      var (token, rest) := Scan(s, {',', ' '});
      match ParseToken(token)
      case None => None
      case Some(value) => Some((value, rest))
  }

  /** The symbol section: `,key=value` items closed by a space. */
  function ParseSymbols(s: string): (r: Option<(seq<(string, string)>, string)>)
    ensures r.Some? ==> |r.value.1| < |s|
    decreases |s|
  {
    if s == "" then None
    else if s[0] == ' ' then Some(([], s[1..]))
    else if s[0] != ',' then None
    else
      var (key, afterKey) := Scan(s[1..], NAME_STOPS);
      if afterKey == "" || afterKey[0] != '=' then None
      else
        var (value, afterValue) := Scan(afterKey[1..], NAME_STOPS);
        match ParseSymbols(afterValue)
        case None => None
        case Some(tail) => Some(([(key, value)] + tail.0, tail.1))
  }

  /** The field section, read with a comma in front of its first item. */
  function ParseFields(s: string): (r: Option<(seq<(string, FieldValue)>, string)>)
    ensures r.Some? ==> |r.value.1| < |s|
    decreases |s|
  {
    if s == "" then None
    else if s[0] == ' ' then Some(([], s[1..]))
    else if s[0] != ',' then None
    else
      var (key, afterKey) := Scan(s[1..], NAME_STOPS);
      if afterKey == "" || afterKey[0] != '=' then None
      else
        match ParseValue(afterKey[1..])
        case None => None
        case Some(value) =>
          match ParseFields(value.1)
          case None => None
          case Some(tail) => Some(([(key, value.0)] + tail.0, tail.1))
  }

  function ParseRow(s: string): (r: Option<(IlpRow, string)>)
    ensures r.Some? ==> |r.value.1| < |s|
  {
    var (table, afterTable) := Scan(s, NAME_STOPS);
    match ParseSymbols(afterTable)
    case None => None
    case Some(symbols) =>
      match ParseFields("," + symbols.1)
      case None => None
      case Some(fields) =>
        var (stamp, rest) := Scan(fields.1, {'\n'});
        if rest == "" then None
        else Some((IlpRow(table, symbols.0, fields.0, ParseInt(stamp)), rest[1..]))
  }

  function ParseBatch(s: string): Option<seq<IlpRow>>
    decreases |s|
  {
    if s == "" then Some([])
    else
      match ParseRow(s)
      case None => None
      case Some(row) =>
        match ParseBatch(row.1)
        case None => None
        case Some(rows) => Some([row.0] + rows)
  }

  // ----------------------------------------------------------------- scanning

  /** Scanning undoes escaping, whatever follows the stop character. */
  lemma {:induction false} ScanEscaped(value: string, specials: set<char>, stops: set<char>, rest: string)
    requires '\\' in specials && stops <= specials && '\\' !in stops
    requires rest == "" || rest[0] in stops
    ensures Scan(Escape(value, specials) + rest, stops) == (value, rest)
  {
    var all := Escape(value, specials) + rest;
    if value == "" {
      assert all == rest;
    } else {
      assert value == [value[0]] + value[1..];
      var tail := Escape(value[1..], specials) + rest;
      ScanEscaped(value[1..], specials, stops, rest);
      if value[0] in specials {
        assert all == ['\\', value[0]] + tail;
        assert all[2..] == tail;
      } else {
        assert all == [value[0]] + tail;
        assert all[1..] == tail;
      }
    }
  }

  /** Text without backslashes or stops is read as it stands. */
  lemma {:induction false} ScanPlain(token: string, stops: set<char>, rest: string)
    requires forall c :: c in token ==> c != '\\' && c !in stops
    requires rest == "" || (rest[0] in stops && rest[0] != '\\')
    ensures Scan(token + rest, stops) == (token, rest)
  {
    if token == "" {
      assert token + rest == rest;
    } else {
      assert token == [token[0]] + token[1..];
      assert (token + rest)[1..] == token[1..] + rest;
      assert (token + rest)[0] == token[0] && token[0] in token;
      forall c | c in token[1..] ensures c in token {
      }
      ScanPlain(token[1..], stops, rest);
    }
  }

  lemma ScanName(name: string, rest: string)
    requires IsName(name) && rest != "" && rest[0] in NAME_STOPS
    ensures Scan(EscapeIdentifier(name).value + rest, NAME_STOPS) == (name, rest)
  {
    IdentifierChain(name);
    assert EscapeIdentifier(name).value == Escape(name, IDENTIFIER_SPECIALS);
    ScanEscaped(name, IDENTIFIER_SPECIALS, NAME_STOPS, rest);
  }

  /** Unescaping is a left inverse, so escaping never maps two strings to one text. */
  lemma EscapeInjective(a: string, b: string)
    ensures IsName(a) && IsName(b) && EscapeIdentifier(a) == EscapeIdentifier(b) ==> a == b
    ensures EscapeString(a).Some? && EscapeString(a) == EscapeString(b) ==> a == b
  {
    if IsName(a) && IsName(b) {
      ScanName(a, " ");
      ScanName(b, " ");
    }
    if EscapeString(a).Some? && EscapeString(b).Some? {
      StringChain(a);
      StringChain(b);
      ScanEscaped(a, STRING_SPECIALS, {'"'}, "");
      ScanEscaped(b, STRING_SPECIALS, {'"'}, "");
    }
  }

  // ------------------------------------------------------------------ numbers

  lemma {:induction false} NatRoundTrip(n: nat)
    ensures ParseNat(Digits(n)) == n
  {
    if n >= 10 {
      NatRoundTrip(n / 10);
      assert Digits(n)[..|Digits(n)| - 1] == Digits(n / 10);
    }
  }

  lemma IntRoundTrip(n: int)
    ensures ParseInt(IntText(n)) == n
    ensures IntText(n) != "" && forall c :: c in IntText(n) ==> c == '-' || '0' <= c <= '9'
  {
    if n < 0 {
      NatRoundTrip(-n);
      assert IntText(n)[1..] == Digits(-n);
    } else {
      NatRoundTrip(n);
      assert Digits(n)[0] in Digits(n);
    }
  }

  // ------------------------------------------------------------- field values

  lemma NumberToken(n: int, suffix: char)
    requires suffix == 'i' || suffix == 't'
    ensures ParseToken(IntText(n) + [suffix]) == Some(if suffix == 'i' then Int(n) else Micros(n))
    ensures forall c :: c in IntText(n) + [suffix] ==> c !in {'\\', ',', ' ', '"'}
  {
    IntRoundTrip(n);
    var token := IntText(n) + [suffix];
    assert token[..|token| - 1] == IntText(n);
    assert token[0] == IntText(n)[0];
    assert IntText(n)[0] in IntText(n);
  }

  lemma FloatToken(repr: FloatRepr)
    ensures ParseToken(repr) == Some(Float(repr))
    ensures forall c :: c in repr ==> c !in {'\\', ',', ' ', '"'}
  {
    assert repr[0] in repr && repr[|repr| - 1] in repr;
  }

  lemma BoolToken(flag: bool)
    ensures var token := if flag then "true" else "false";
            ParseToken(token) == Some(Bool(flag)) && forall c :: c in token ==> c !in {'\\', ',', ' ', '"'}
  {
  }

  lemma ValueRoundTrip(value: FieldValue, rest: string)
    requires EncodeField(value).Text? && rest != "" && rest[0] in {',', ' '}
    ensures ParseValue(EncodeField(value).text + rest) == Some((value, rest))
  {
    var text := EncodeField(value).text;
    match value
    case Str(raw) =>
      StringChain(raw);
      var escaped := Escape(raw, STRING_SPECIALS);
      assert text == "\"" + escaped + "\"";
      assert (text + rest)[1..] == escaped + ("\"" + rest);
      ScanEscaped(raw, STRING_SPECIALS, {'"'}, "\"" + rest);
      assert ("\"" + rest)[1..] == rest;
    case Bool(flag) =>
      BoolToken(flag);
      PlainValue(text, value, rest);
    case Int(n) =>
      NumberToken(n, 'i');
      PlainValue(text, value, rest);
    case Micros(n) =>
      NumberToken(n, 't');
      PlainValue(text, value, rest);
    case Float(repr) =>
      FloatToken(repr);
      PlainValue(text, value, rest);
  }

  lemma PlainValue(token: string, value: FieldValue, rest: string)
    requires token != "" && ParseToken(token) == Some(value)
    requires forall c :: c in token ==> c !in {'\\', ',', ' ', '"'}
    requires rest != "" && rest[0] in {',', ' '}
    ensures ParseValue(token + rest) == Some((value, rest))
  {
    assert token[0] in token && (token + rest)[0] == token[0];
    ScanPlain(token, {',', ' '}, rest);
  }

  // ----------------------------------------------------------------- sections

  /** Every item with a comma in front: the same text as one comma and the joined items. */
  function Commas(parts: seq<string>): string {
    if parts == [] then "" else "," + parts[0] + Commas(parts[1..])
  }

  lemma {:induction false} JoinIsCommas(parts: seq<string>)
    requires parts != []
    ensures "," + Join(parts) == Commas(parts)
  {
    if |parts| == 1 {
      assert Commas(parts[1..]) == "";
      assert "," + parts[0] + "" == "," + parts[0];
    } else {
      JoinIsCommas(parts[1..]);
      assert "," + (parts[0] + "," + Join(parts[1..])) == "," + parts[0] + ("," + Join(parts[1..]));
    }
  }

  lemma StartsItem(parts: seq<string>, rest: string)
    ensures Commas(parts) + " " + rest != ""
    ensures (Commas(parts) + " " + rest)[0] in {',', ' '}
  {
  }

  lemma ItemShape(k: string, v: string, parts: seq<string>, rest: string)
    ensures Commas([k + "=" + v] + parts) + " " + rest == "," + (k + ("=" + (v + (Commas(parts) + " " + rest))))
  {
    assert ([k + "=" + v] + parts)[1..] == parts;
  }

  lemma SymbolStep(key: string, value: string, tail: string, read: (seq<(string, string)>, string))
    requires IsName(key) && IsName(value) && tail != "" && tail[0] in {',', ' '}
    requires ParseSymbols(tail) == Some(read)
    ensures ParseSymbols("," + (EscapeIdentifier(key).value + ("=" + (EscapeIdentifier(value).value + tail))))
         == Some(([(key, value)] + read.0, read.1))
  {
    var afterKey := "=" + (EscapeIdentifier(value).value + tail);
    ScanName(key, afterKey);
    ScanName(value, tail);
    assert afterKey[1..] == EscapeIdentifier(value).value + tail;
    assert ("," + (EscapeIdentifier(key).value + afterKey))[1..] == EscapeIdentifier(key).value + afterKey;
  }

  lemma FieldStep(key: string, value: FieldValue, tail: string, read: (seq<(string, FieldValue)>, string))
    requires IsName(key) && EncodeField(value).Text? && tail != "" && tail[0] in {',', ' '}
    requires ParseFields(tail) == Some(read)
    ensures ParseFields("," + (EscapeIdentifier(key).value + ("=" + (EncodeField(value).text + tail))))
         == Some(([(key, value)] + read.0, read.1))
  {
    var afterKey := "=" + (EncodeField(value).text + tail);
    ScanName(key, afterKey);
    ValueRoundTrip(value, tail);
    assert afterKey[1..] == EncodeField(value).text + tail;
    assert ("," + (EscapeIdentifier(key).value + afterKey))[1..] == EscapeIdentifier(key).value + afterKey;
  }

  lemma {:induction false} SymbolsRoundTrip(symbols: seq<(string, Option<string>)>, rest: string)
    requires SymbolParts(symbols).Some?
    ensures ParseSymbols(Commas(SymbolParts(symbols).value) + " " + rest) == Some((KeptSymbols(symbols), rest))
  {
    if symbols == [] {
      assert (Commas([]) + " " + rest)[1..] == rest;
    } else {
      SymbolsRoundTrip(symbols[1..], rest);
      var parts := SymbolParts(symbols[1..]).value;
      var (key, value) := symbols[0];
      if value.None? {
        BothEmpty(SymbolParts(symbols[1..]));
        assert [] + KeptSymbols(symbols[1..]) == KeptSymbols(symbols[1..]);
      } else {
        StartsItem(parts, rest);
        ItemShape(EscapeIdentifier(key).value, EscapeIdentifier(value.value).value, parts, rest);
        SymbolStep(key, value.value, Commas(parts) + " " + rest, (KeptSymbols(symbols[1..]), rest));
      }
    }
  }

  lemma {:induction false} FieldsRoundTrip(fields: seq<(string, FieldValue)>, rest: string)
    requires FieldParts(fields).Some?
    ensures ParseFields(Commas(FieldParts(fields).value) + " " + rest) == Some((KeptFields(fields), rest))
  {
    if fields == [] {
      assert (Commas([]) + " " + rest)[1..] == rest;
    } else {
      FieldsRoundTrip(fields[1..], rest);
      var parts := FieldParts(fields[1..]).value;
      if fields[0].1.Null? {
        BothEmpty(FieldParts(fields[1..]));
        assert [] + KeptFields(fields[1..]) == KeptFields(fields[1..]);
      } else {
        FieldRead(fields[0].0, fields[0].1, parts, KeptFields(fields[1..]), rest);
      }
    }
  }

  lemma FieldRead(key: string, value: FieldValue, parts: seq<string>, kept: seq<(string, FieldValue)>, rest: string)
    requires IsName(key) && EncodeField(value).Text?
    requires ParseFields(Commas(parts) + " " + rest) == Some((kept, rest))
    ensures ParseFields(Commas([EscapeIdentifier(key).value + "=" + EncodeField(value).text] + parts) + " " + rest)
         == Some(([(key, value)] + kept, rest))
  {
    StartsItem(parts, rest);
    ItemShape(EscapeIdentifier(key).value, EncodeField(value).text, parts, rest);
    FieldStep(key, value, Commas(parts) + " " + rest, (kept, rest));
  }

  // --------------------------------------------------------------------- rows

  /** One encoded row is read back exactly, and reading stops right behind it. */
  lemma RowRoundTrip(row: RowSpec, rest: string)
    requires RowText(row).Some?
    ensures ParseRow(RowText(row).value + rest) == Some((Meaning(row), rest))
  {
    var symbols, fields := SymbolParts(row.symbols).value, FieldParts(row.fields).value;
    var stamp := IntText(row.timestamp) + ("\n" + rest);
    var afterSymbols := Join(fields) + " " + stamp;
    RowShape(row, rest);
    StartsItem(symbols, afterSymbols);
    ScanName(row.table, Commas(symbols) + " " + afterSymbols);
    SymbolsRoundTrip(row.symbols, afterSymbols);
    FieldsText(fields, stamp);
    FieldsRoundTrip(row.fields, stamp);
    StampRoundTrip(row.timestamp, rest);
  }

  lemma FieldsText(fields: seq<string>, stamp: string)
    requires fields != []
    ensures "," + (Join(fields) + " " + stamp) == Commas(fields) + " " + stamp
  {
    JoinIsCommas(fields);
    assert "," + (Join(fields) + " " + stamp) == ("," + Join(fields)) + " " + stamp;
  }

  lemma StampRoundTrip(n: int, rest: string)
    ensures Scan(IntText(n) + ("\n" + rest), {'\n'}) == (IntText(n), "\n" + rest)
    ensures ("\n" + rest)[1..] == rest && ParseInt(IntText(n)) == n
  {
    IntRoundTrip(n);
    ScanPlain(IntText(n), {'\n'}, "\n" + rest);
  }

  lemma RowShape(row: RowSpec, rest: string)
    requires RowText(row).Some?
    ensures var name := EscapeIdentifier(row.table).value;
            var symbols, fields := SymbolParts(row.symbols).value, FieldParts(row.fields).value;
            RowText(row).value + rest ==
            name + (Commas(symbols) + " " + (Join(fields) + " " + (IntText(row.timestamp) + ("\n" + rest))))
  {
    var name := EscapeIdentifier(row.table).value;
    var symbols, fields := SymbolParts(row.symbols).value, FieldParts(row.fields).value;
    if symbols != [] {
      JoinIsCommas(symbols);
    }
    LineShape(name, Commas(symbols), Join(fields), IntText(row.timestamp), rest);
  }

  lemma LineShape(a: string, b: string, c: string, d: string, rest: string)
    ensures a + b + " " + c + " " + d + "\n" + rest == a + (b + " " + (c + " " + (d + ("\n" + rest))))
  {
  }

  /** The concatenated encodings, as `b"".join` builds a batch payload. */
  function BatchText(rows: seq<RowSpec>): string
    requires forall row :: row in rows ==> RowText(row).Some?
  {
    if rows == [] then "" else RowText(rows[0]).value + BatchText(rows[1..])
  }

  function Meanings(rows: seq<RowSpec>): seq<IlpRow> {
    if rows == [] then [] else [Meaning(rows[0])] + Meanings(rows[1..])
  }

  /** Reading a batch returns exactly the rows that were encoded, in order. */
  lemma {:induction false} BatchRoundTrip(rows: seq<RowSpec>)
    requires forall row :: row in rows ==> RowText(row).Some?
    ensures ParseBatch(BatchText(rows)) == Some(Meanings(rows))
  {
    if rows != [] {
      RowRoundTrip(rows[0], BatchText(rows[1..]));
      BatchRoundTrip(rows[1..]);
    }
  }
}
