/** The ILP encoder: escaping, field values and whole rows. */
module Ilp {
  import opened Basics

  /** Python's `repr` of a finite float. */
  type FloatRepr = s: string | IsFloatRepr(s) witness "0"

  predicate IsFloatRepr(s: string) {
    s != "" && forall c :: c in s ==> '0' <= c <= '9' || c == '.' || c == '+' || c == '-' || c == 'e'
  }

  datatype FieldValue =
    | Null
    | Bool(flag: bool)
    | Micros(micros: int)
    | Int(number: int)
    | Float(repr: FloatRepr)
    | NonFinite
    | Str(text: string)

  // ---------------------------------------------------------------- escaping

  /** `str.replace` of one character. */
  function Replace(s: string, c: char, with: string): string {
    if s == "" then "" else (if s[0] == c then with else [s[0]]) + Replace(s[1..], c, with)
  }

  /** A backslash in front of every special character, in one pass. */
  function Escape(s: string, specials: set<char>): string {
    if s == "" then ""
    else (if s[0] in specials then ['\\', s[0]] else [s[0]]) + Escape(s[1..], specials)
  }

  const IDENTIFIER_SPECIALS: set<char> := {'\\', ' ', ',', '=', '\n', '\r'}
  const STRING_SPECIALS: set<char> := {'\\', '"', '\n', '\r'}

  predicate IsName(value: string) {
    value != "" && '\0' !in value
  }

  /** A chain of `replace` calls that puts a backslash in front of each of the first `n` characters. */
  function ReplaceEach(s: string, chars: string, n: nat): string
    requires n <= |chars|
  {
    if n == 0 then s else Replace(ReplaceEach(s, chars, n - 1), chars[n - 1], ['\\', chars[n - 1]])
  }

  const IDENTIFIER_CHAIN := "\\ ,=\n\r"
  const STRING_CHAIN := "\\\"\n\r"

  function EscapeIdentifier(value: string): Option<string> {
    if !IsName(value) then None else Some(ReplaceEach(value, IDENTIFIER_CHAIN, 6))
  }

  function EscapeString(value: string): Option<string> {
    if '\0' in value then None else Some(ReplaceEach(value, STRING_CHAIN, 4))
  }

  lemma {:induction false} ReplaceBackslash(s: string)
    ensures Replace(s, '\\', ['\\', '\\']) == Escape(s, {'\\'})
  {
    if s != "" {
      ReplaceBackslash(s[1..]);
    }
  }

  /** One more `replace` is one more special character, because backslashes come first. */
  lemma {:induction false} ReplaceExtends(s: string, specials: set<char>, c: char)
    requires '\\' in specials && c !in specials
    ensures Replace(Escape(s, specials), c, ['\\', c]) == Escape(s, specials + {c})
  {
    if s != "" {
      var rest := Escape(s[1..], specials);
      ReplaceExtends(s[1..], specials, c);
      if s[0] in specials {
        assert (['\\', s[0]] + rest)[1..] == [s[0]] + rest;
        assert ([s[0]] + rest)[1..] == rest;
      } else {
        assert ([s[0]] + rest)[1..] == rest;
      }
    }
  }

  /** The first `n` characters of a chain. */
  function FrontChars(chars: string, n: nat): set<char>
    requires n <= |chars|
  {
    set i | 0 <= i < n :: chars[i]
  }

  /** A chain that starts with the backslash and repeats no character is the one-pass escape. */
  lemma {:induction false} ChainEscapes(s: string, chars: string, n: nat)
    requires 0 < n <= |chars| && chars[0] == '\\'
    requires forall i, j :: 0 <= i < j < |chars| ==> chars[i] != chars[j]
    ensures ReplaceEach(s, chars, n) == Escape(s, FrontChars(chars, n))
  {
    var c := chars[n - 1];
    assert FrontChars(chars, n) == FrontChars(chars, n - 1) + {c};
    assert ReplaceEach(s, chars, 0) == s;
    if n == 1 {
      ReplaceBackslash(s);
      assert FrontChars(chars, n) == {'\\'};
    } else {
      ChainEscapes(s, chars, n - 1);
      assert chars[0] in FrontChars(chars, n - 1);
      ReplaceExtends(s, FrontChars(chars, n - 1), c);
    }
  }

  /** The chain of replacements for identifiers is the one-pass escape. */
  lemma IdentifierChain(value: string)
    requires IsName(value)
    ensures EscapeIdentifier(value) == Some(Escape(value, IDENTIFIER_SPECIALS))
  {
    ChainEscapes(value, IDENTIFIER_CHAIN, 6);
    var chain := IDENTIFIER_CHAIN;
    assert [chain[0], chain[1], chain[2], chain[3], chain[4], chain[5]] == ['\\', ' ', ',', '=', '\n', '\r'];
    forall c | c in IDENTIFIER_SPECIALS ensures c in FrontChars(chain, 6) {
      assert c in [chain[0], chain[1], chain[2], chain[3], chain[4], chain[5]];
    }
    assert FrontChars(chain, 6) == IDENTIFIER_SPECIALS;
  }

  lemma StringChain(value: string)
    requires '\0' !in value
    ensures EscapeString(value) == Some(Escape(value, STRING_SPECIALS))
  {
    ChainEscapes(value, STRING_CHAIN, 4);
    var chain := STRING_CHAIN;
    assert [chain[0], chain[1], chain[2], chain[3]] == ['\\', '"', '\n', '\r'];
    forall c | c in STRING_SPECIALS ensures c in FrontChars(chain, 4) {
      assert c in [chain[0], chain[1], chain[2], chain[3]];
    }
    assert FrontChars(chain, 4) == STRING_SPECIALS;
  }

  // ---------------------------------------------------------------- integers

  function Digit(d: nat): char
    requires d < 10
  {
    '0' + (d as char)
  }

  function Digits(n: nat): (s: string)
    ensures s != "" && forall c :: c in s ==> '0' <= c <= '9'
  {
    if n < 10 then [Digit(n)] else Digits(n / 10) + [Digit(n % 10)]
  }

  function IntText(n: int): string {
    if n < 0 then "-" + Digits(-n) else Digits(n)
  }

  // -------------------------------------------------------------------- rows

  datatype Encoded = Error | Omitted | Text(text: string)

  /** Strictly inside the signed 64-bit range, as the source tests it. */
  predicate InSigned64(n: int) {
    -0x8000_0000_0000_0000 < n < 0x8000_0000_0000_0000
  }

  function EncodeField(value: FieldValue): Encoded {
    match value
    case Null => Omitted
    case Bool(flag) => Text(if flag then "true" else "false")
    case Micros(n) => if InSigned64(n) then Text(IntText(n) + "t") else Error
    case Int(n) => if InSigned64(n) then Text(IntText(n) + "i") else Error
    case Float(repr) => Text(repr)
    case NonFinite => Error
    case Str(text) =>
      match EscapeString(text)
      case None => Error
      case Some(escaped) => Text("\"" + escaped + "\"")
  }

  /** The arguments of `encode_row`; the mappings are given as their items in order. */
  datatype RowSpec = RowSpec(
    table: string, symbols: seq<(string, Option<string>)>, fields: seq<(string, FieldValue)>, timestamp: int)

  /** The parts of one item: None is an encoding error, Some([]) an omitted item. */
  function SymbolPart(key: string, value: Option<string>): Option<seq<string>> {
    if value.None? then Some([])
    else
      match EscapeIdentifier(key)
      case None => None
      case Some(k) =>
        match EscapeIdentifier(value.value)
        case None => None
        case Some(v) => Some([k + "=" + v])
  }

  function FieldPart(key: string, value: FieldValue): Option<seq<string>> {
    match EncodeField(value)
    case Error => None
    case Omitted => Some([])
    case Text(text) =>
      match EscapeIdentifier(key)
      case None => None
      case Some(k) => Some([k + "=" + text])
  }

  function Both(a: Option<seq<string>>, b: Option<seq<string>>): Option<seq<string>> {
    if a.None? || b.None? then None else Some(a.value + b.value)
  }

  function SymbolParts(symbols: seq<(string, Option<string>)>): Option<seq<string>> {
    if symbols == [] then Some([]) else Both(SymbolPart(symbols[0].0, symbols[0].1), SymbolParts(symbols[1..]))
  }

  function FieldParts(fields: seq<(string, FieldValue)>): Option<seq<string>> {
    if fields == [] then Some([]) else Both(FieldPart(fields[0].0, fields[0].1), FieldParts(fields[1..]))
  }

  function Join(parts: seq<string>): string {
    if parts == [] then ""
    else if |parts| == 1 then parts[0]
    else parts[0] + "," + Join(parts[1..])
  }

  function RowText(row: RowSpec): Option<string> {
    match EscapeIdentifier(row.table)
    case None => None
    case Some(measurement) =>
      match SymbolParts(row.symbols)
      case None => None
      case Some(symbols) =>
        match FieldParts(row.fields)
        case None => None
        case Some(fields) =>
          if fields == [] then None
          else
            var symbolsText := if symbols == [] then "" else "," + Join(symbols);
            Some(measurement + symbolsText + " " + Join(fields) + " " + IntText(row.timestamp) + "\n")
  }

  lemma BothAssoc(a: Option<seq<string>>, b: Option<seq<string>>, c: Option<seq<string>>)
    ensures Both(Both(a, b), c) == Both(a, Both(b, c))
  {
    if a.Some? && b.Some? && c.Some? {
      assert (a.value + b.value) + c.value == a.value + (b.value + c.value);
    }
  }

  lemma BothEmpty(a: Option<seq<string>>)
    ensures Both(Some([]), a) == a && Both(a, Some([])) == a
  {
    if a.Some? {
      assert [] + a.value == a.value && a.value + [] == a.value;
    }
  }

  lemma SymbolsFrom(symbols: seq<(string, Option<string>)>, i: nat)
    requires i < |symbols|
    ensures SymbolParts(symbols[i..]) == Both(SymbolPart(symbols[i].0, symbols[i].1), SymbolParts(symbols[i + 1..]))
  {
    assert symbols[i..][1..] == symbols[i + 1..];
  }

  lemma FieldsFrom(fields: seq<(string, FieldValue)>, i: nat)
    requires i < |fields|
    ensures FieldParts(fields[i..]) == Both(FieldPart(fields[i].0, fields[i].1), FieldParts(fields[i + 1..]))
  {
    assert fields[i..][1..] == fields[i + 1..];
  }

  /** The items of a row, one after the other: None as soon as one fails. */
  method JoinSymbols(symbols: seq<(string, Option<string>)>) returns (parts: Option<seq<string>>)
    ensures parts == SymbolParts(symbols)
  {
    var done: seq<string> := [];
    BothEmpty(SymbolParts(symbols));
    assert symbols[0..] == symbols;
    for i := 0 to |symbols|
      invariant SymbolParts(symbols) == Both(Some(done), SymbolParts(symbols[i..]))
    {
      SymbolsFrom(symbols, i);
      var part := SymbolPart(symbols[i].0, symbols[i].1);
      if part.None? {
        return None;
      }
      BothAssoc(Some(done), part, SymbolParts(symbols[i + 1..]));
      done := done + part.value;
    }
    BothEmpty(Some(done));
    return Some(done);
  }

  method JoinFields(fields: seq<(string, FieldValue)>) returns (parts: Option<seq<string>>)
    ensures parts == FieldParts(fields)
  {
    var done: seq<string> := [];
    BothEmpty(FieldParts(fields));
    assert fields[0..] == fields;
    for i := 0 to |fields|
      invariant FieldParts(fields) == Both(Some(done), FieldParts(fields[i..]))
    {
      FieldsFrom(fields, i);
      var part := FieldPart(fields[i].0, fields[i].1);
      if part.None? {
        return None;
      }
      BothAssoc(Some(done), part, FieldParts(fields[i + 1..]));
      done := done + part.value;
    }
    BothEmpty(Some(done));
    return Some(done);
  }

  /** `encode_row` as it runs: two loops that append parts, then one formatted line. */
  method EncodeRow(row: RowSpec) returns (line: Option<string>)
    ensures line == RowText(row)
  {
    var measurement := EscapeIdentifier(row.table);
    if measurement.None? {
      return None;
    }
    var symbolParts := JoinSymbols(row.symbols);
    if symbolParts.None? {
      return None;
    }
    var fieldParts := JoinFields(row.fields);
    if fieldParts.None? || fieldParts.value == [] {
      return None;
    }
    var symbolsText := if symbolParts.value == [] then "" else "," + Join(symbolParts.value);
    return Some(measurement.value + symbolsText + " " + Join(fieldParts.value) + " " + IntText(row.timestamp) + "\n");
  }

  // ------------------------------------------------------------------- UTF-8

  function CharBytes(c: char): nat {
    if c < '\U{80}' then 1 else if c < '\U{800}' then 2 else if c < '\U{10000}' then 3 else 4
  }

  /** `len(text.encode("utf-8"))`. */
  function ByteLength(s: string): nat {
    if s == "" then 0 else CharBytes(s[0]) + ByteLength(s[1..])
  }

  /** The bytes of one scalar value in UTF-8. */
  function Utf8(c: char): seq<int> {
    var n := c as int;
    if n < 0x80 then [n]
    else if n < 0x800 then [0xC0 + n / 0x40, 0x80 + n % 0x40]
    else if n < 0x1_0000 then [0xE0 + n / 0x1000, 0x80 + n / 0x40 % 0x40, 0x80 + n % 0x40]
    else [0xF0 + n / 0x4_0000, 0x80 + n / 0x1000 % 0x40, 0x80 + n / 0x40 % 0x40, 0x80 + n % 0x40]
  }

  /** How many bytes a sequence has that begins with this one. */
  function Announced(first: int): nat {
    if first < 0x80 then 1 else if first < 0xE0 then 2 else if first < 0xF0 then 3 else 4
  }

  /** The scalar value the bytes stand for. */
  function FromUtf8(bytes: seq<int>): int
    requires 1 <= |bytes| <= 4
  {
    if |bytes| == 1 then bytes[0]
    else if |bytes| == 2 then (bytes[0] - 0xC0) * 0x40 + (bytes[1] - 0x80)
    else if |bytes| == 3 then ((bytes[0] - 0xE0) * 0x40 + (bytes[1] - 0x80)) * 0x40 + (bytes[2] - 0x80)
    else (((bytes[0] - 0xF0) * 0x40 + (bytes[1] - 0x80)) * 0x40 + (bytes[2] - 0x80)) * 0x40 + (bytes[3] - 0x80)
  }

  /** A character takes as many bytes as UTF-8 gives it, the first byte announces them, every byte is one,
      and they stand for that character only. */
  lemma CharIsUtf8(c: char)
    ensures |Utf8(c)| == CharBytes(c) == Announced(Utf8(c)[0])
    ensures FromUtf8(Utf8(c)) == c as int
    ensures (forall b :: b in Utf8(c) ==> 0 <= b < 256) && (forall b :: b in Utf8(c)[1..] ==> 0x80 <= b < 0xC0)
  {
    var n := c as int;
    assert n / 0x1000 == n / 0x40 / 0x40 && n / 0x4_0000 == n / 0x1000 / 0x40;
  }

  function TextUtf8(s: string): seq<int> {
    if s == "" then [] else Utf8(s[0]) + TextUtf8(s[1..])
  }

  /** The byte limit of a request counts the bytes that are sent. */
  lemma {:induction false} ByteLengthIsUtf8(s: string)
    ensures ByteLength(s) == |TextUtf8(s)|
  {
    if s != "" {
      CharIsUtf8(s[0]);
      ByteLengthIsUtf8(s[1..]);
    }
  }

  // ------------------------------------------------------------ what is refused

  /** A value is an error exactly if it is not finite, an integer on or beyond the 64-bit limits, or a
      text with NUL; exactly a null is left out. */
  lemma FieldExactly(value: FieldValue)
    ensures EncodeField(value).Error? <==>
            match value
            case NonFinite => true
            case Micros(n) => !InSigned64(n)
            case Int(n) => !InSigned64(n)
            case Str(text) => '\0' in text
            case _ => false
    ensures EncodeField(value).Omitted? <==> value.Null?
  {
  }

  predicate BadSymbol(symbol: (string, Option<string>)) {
    symbol.1.Some? && !(IsName(symbol.0) && IsName(symbol.1.value))
  }

  predicate BadField(field: (string, FieldValue)) {
    EncodeField(field.1).Error? || (EncodeField(field.1).Text? && !IsName(field.0))
  }

  lemma {:induction false} SymbolsFail(symbols: seq<(string, Option<string>)>)
    ensures SymbolParts(symbols).None? <==> exists x :: x in symbols && BadSymbol(x)
  {
    if symbols != [] {
      SymbolsFail(symbols[1..]);
      assert forall x :: x in symbols <==> x == symbols[0] || x in symbols[1..];
      assert SymbolPart(symbols[0].0, symbols[0].1).None? <==> BadSymbol(symbols[0]);
    }
  }

  lemma {:induction false} FieldsFail(fields: seq<(string, FieldValue)>)
    ensures FieldParts(fields).None? <==> exists x :: x in fields && BadField(x)
    ensures FieldParts(fields).Some? ==> (FieldParts(fields).value == [] <==> forall x :: x in fields ==> x.1.Null?)
  {
    if fields != [] {
      FieldsFail(fields[1..]);
      FieldExactly(fields[0].1);
      assert forall x :: x in fields <==> x == fields[0] || x in fields[1..];
      assert FieldPart(fields[0].0, fields[0].1).None? <==> BadField(fields[0]);
    }
  }

  /** A row is refused exactly for a bad table name, a bad symbol or field, or because every field is
      null. */
  lemma RowFailsExactly(row: RowSpec)
    ensures RowText(row).None? <==>
            || !IsName(row.table)
            || (exists x :: x in row.symbols && BadSymbol(x))
            || (exists x :: x in row.fields && BadField(x))
            || (forall x :: x in row.fields ==> x.1.Null?)
  {
    SymbolsFail(row.symbols);
    FieldsFail(row.fields);
  }
}
