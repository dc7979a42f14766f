/** Which rows the next request carries. */
module Batch {
  import opened Basics
  import opened SpoolState
  import opened SpoolRows
  import opened Ilp
  import opened IlpParser

  /** The settings of one writer; how a stored payload is decoded and encoded (None when one of the
      two fails) and what the encoding means; and which rows the server accepts. */
  datatype Config = Config(
    limits: Limits,
    ingressCapacity: nat,
    maxSerializedBytes: nat,
    persistRows: nat,
    deliveryRows: nat,
    deliveryBytes: nat,
    encode: Bytes -> Option<string>,
    means: Bytes -> IlpRow,
    accepts: IlpRow -> bool)
  {
    /** What the constructors of the spool and of `WorkerSettings` demand. */
    predicate Valid() {
      limits.Valid() && 0 < ingressCapacity && 0 < persistRows && 0 < deliveryRows && 0 < deliveryBytes
    }

    /** The payload's text is what `encode_row` gives for arguments with that meaning. */
    ghost predicate EncodesRow(p: Bytes) {
      encode(p).Some? ==> exists spec :: RowText(spec) == encode(p) && Meaning(spec) == means(p)
    }

    /** Every request is made of rows that `encode_row` produced. */
    ghost predicate Wired() {
      forall p :: EncodesRow(p)
    }
  }

  const MAX_SQLITE_BATCH_BYTES := 0x7fff_ffff_ffff_ffff

  /** The ILP text of a payload, or None when it does not decode or does not encode. */
  function Encoding(cfg: Config, payload: Bytes): Option<string> {
    cfg.encode(payload)
  }

  function TextOf(cfg: Config, row: Row): string {
    match Encoding(cfg, row.payload) case None => "" case Some(text) => text
  }

  /** The bytes a row takes in a request, or -1 if it does not encode. */
  function SizeOf(cfg: Config, row: Row): int {
    match Encoding(cfg, row.payload) case None => -1 case Some(text) => ByteLength(text)
  }

  function Sizes(cfg: Config, rows: seq<Row>): seq<int> {
    seq(|rows|, i requires 0 <= i < |rows| => SizeOf(cfg, rows[i]))
  }

  /** How many sizes of the front fit the budget. */
  function TakeFront(sizes: seq<int>, budget: int): (n: nat)
    ensures n <= |sizes|
  {
    if sizes == [] || !(0 <= sizes[0] <= budget) then 0 else 1 + TakeFront(sizes[1..], budget - sizes[0])
  }

  /** How many rows of the front encode and fit the byte budget. */
  function Take(cfg: Config, rows: seq<Row>, budget: int): (n: nat)
    ensures n <= |rows|
  {
    TakeFront(Sizes(cfg, rows), budget)
  }

  function Sum(sizes: seq<int>): int {
    if sizes == [] then 0 else sizes[0] + Sum(sizes[1..])
  }

  ghost predicate AllEncode(cfg: Config, rows: seq<Row>) {
    forall r :: r in rows ==> Encoding(cfg, r.payload).Some?
  }

  /** The payload of one request: `b"".join(payload_parts)`. */
  function Payload(cfg: Config, rows: seq<Row>): string {
    if rows == [] then ""
    else TextOf(cfg, rows[0]) + Payload(cfg, rows[1..])
  }

  function EncodedBytes(cfg: Config, rows: seq<Row>): nat {
    if rows == [] then 0
    else ByteLength(TextOf(cfg, rows[0])) + EncodedBytes(cfg, rows[1..])
  }

  lemma {:induction false} FrontIsLongest(sizes: seq<int>, budget: int, m: nat)
    requires m <= |sizes| && 0 <= budget
    ensures m <= TakeFront(sizes, budget) <==> (forall i :: 0 <= i < m ==> 0 <= sizes[i]) && Sum(sizes[..m]) <= budget
  {
    if m > 0 {
      var rest := sizes[1..];
      assert sizes[..m][1..] == rest[..m - 1];
      if 0 <= sizes[0] <= budget {
        FrontIsLongest(rest, budget - sizes[0], m - 1);
        assert (forall i :: 0 <= i < m ==> 0 <= sizes[i]) <==> (forall i :: 0 <= i < m - 1 ==> 0 <= rest[i]);
      } else if forall i :: 0 <= i < m ==> 0 <= sizes[i] {
        SumNotNegative(rest[..m - 1]);
      }
    }
  }

  lemma {:induction false} SumNotNegative(sizes: seq<int>)
    requires forall i :: 0 <= i < |sizes| ==> 0 <= sizes[i]
    ensures 0 <= Sum(sizes)
  {
    if sizes != [] {
      SumNotNegative(sizes[1..]);
    }
  }

  lemma {:induction false} SizesSum(cfg: Config, rows: seq<Row>)
    requires AllEncode(cfg, rows)
    ensures Sum(Sizes(cfg, rows)) == EncodedBytes(cfg, rows)
  {
    if rows != [] {
      assert rows[0] in rows;
      assert Sizes(cfg, rows)[1..] == Sizes(cfg, rows[1..]);
      SizesSum(cfg, rows[1..]);
    }
  }

  /** The batch is the longest prefix that encodes and fits: exactly the prefixes up to it do. */
  lemma TakeIsLongest(cfg: Config, rows: seq<Row>, budget: int, m: nat)
    requires m <= |rows| && 0 <= budget
    ensures m <= Take(cfg, rows, budget) <==> AllEncode(cfg, rows[..m]) && EncodedBytes(cfg, rows[..m]) <= budget
  {
    var sizes, front := Sizes(cfg, rows), rows[..m];
    FrontIsLongest(sizes, budget, m);
    assert Sizes(cfg, front) == sizes[..m];
    if AllEncode(cfg, front) {
      SizesSum(cfg, front);
      forall i | 0 <= i < m ensures 0 <= sizes[i] {
        assert front[i] in front;
      }
    } else {
      var r :| r in front && Encoding(cfg, r.payload).None?;
      var i :| 0 <= i < m && front[i] == r;
      assert sizes[i] == -1;
    }
  }

  datatype Built =
    | Nothing
    | Ready(rows: seq<Row>, text: string)
    | Undecodable(row: Row)
    | TooLarge
    | PeekError(error: SpoolError)

  /** The batch cut from rows already peeked. */
  function Cut(cfg: Config, rows: seq<Row>): Built {
    if rows == [] then Nothing
    else
      var n := Take(cfg, rows, cfg.deliveryBytes);
      if n > 0 then Ready(rows[..n], Payload(cfg, rows[..n]))
      else if Encoding(cfg, rows[0].payload).None? then Undecodable(rows[0])
      else TooLarge
  }

  function Build(cfg: Config, db: Database, isolate: bool): Built {
    match PeekBatch(db, if isolate then 1 else cfg.deliveryRows, MAX_SQLITE_BATCH_BYTES)
    case PeekFailed(error) => PeekError(error)
    case Peek(rows) => Cut(cfg, rows)
  }

  /** Every batch is a non-empty prefix of pending that encodes, of one row when isolating. */
  lemma BatchIsPrefix(cfg: Config, db: Database, isolate: bool)
    ensures var built := Build(cfg, db, isolate);
            && (built.Ready? ==>
                  && 0 < |built.rows| <= |db.pending| && built.rows == db.pending[..|built.rows|]
                  && AllEncode(cfg, built.rows) && built.text == Payload(cfg, built.rows)
                  && (isolate ==> |built.rows| == 1))
            && (built.Undecodable? ==>
                  db.pending != [] && built.row == db.pending[0] && Encoding(cfg, built.row.payload).None?)
  {
    var maxRows := if isolate then 1 else cfg.deliveryRows;
    match PeekBatch(db, maxRows, MAX_SQLITE_BATCH_BYTES)
    case PeekFailed(error) =>
    case Peek(rows) =>
      if rows != [] {
        var n := Take(cfg, rows, cfg.deliveryBytes);
        TakeIsLongest(cfg, rows, cfg.deliveryBytes, n);
        assert rows[..n] == db.pending[..n];
      }
  }

  function RowLimit(cfg: Config, isolate: bool): int {
    if isolate then 1 else cfg.deliveryRows
  }

  /** The request carries the longest prefix of pending within the row limit whose stored payloads can
      be peeked together, whose rows all encode, and whose encodings fit the byte limit. */
  lemma BuildIsLongest(cfg: Config, db: Database, isolate: bool, m: nat)
    requires Build(cfg, db, isolate).Ready? && m <= |db.pending| && cfg.Valid()
    ensures m <= |Build(cfg, db, isolate).rows| <==>
            && m <= RowLimit(cfg, isolate) && PendingBytes(db.pending[..m]) <= MAX_SQLITE_BATCH_BYTES
            && AllEncode(cfg, db.pending[..m]) && EncodedBytes(cfg, db.pending[..m]) <= cfg.deliveryBytes
  {
    PeekIsLongest(db, RowLimit(cfg, isolate), MAX_SQLITE_BATCH_BYTES, m);
    var rows := PeekBatch(db, RowLimit(cfg, isolate), MAX_SQLITE_BATCH_BYTES).rows;
    if m <= |rows| {
      TakeIsLongest(cfg, rows, cfg.deliveryBytes, m);
      assert rows[..m] == db.pending[..m];
    }
  }

  /** When there is no request: nothing is pending, or the head cannot be peeked, does not encode, or
      alone exceeds the byte limit. */
  lemma BuildFailsExactly(cfg: Config, db: Database, isolate: bool)
    requires cfg.Valid()
    ensures var built := Build(cfg, db, isolate);
            && (built.Nothing? <==> db.pending == [])
            && (built.PeekError? <==> db.pending != [] && |db.pending[0].payload| > MAX_SQLITE_BATCH_BYTES)
            && (db.pending != [] && |db.pending[0].payload| <= MAX_SQLITE_BATCH_BYTES ==>
                  var encoded := Encoding(cfg, db.pending[0].payload);
                  && (built.Undecodable? <==> encoded.None?)
                  && (built.TooLarge? <==> encoded.Some? && ByteLength(encoded.value) > cfg.deliveryBytes))
  {
    PeekFailsExactly(db, RowLimit(cfg, isolate), MAX_SQLITE_BATCH_BYTES);
    if db.pending != [] && |db.pending[0].payload| <= MAX_SQLITE_BATCH_BYTES {
      var rows := PeekBatch(db, RowLimit(cfg, isolate), MAX_SQLITE_BATCH_BYTES).rows;
      assert rows != [] && rows[0] == db.pending[0];
      assert Sizes(cfg, rows)[0] == SizeOf(cfg, rows[0]);
    }
  }

  // ------------------------------------------------- what the server reads

  /** What a payload means to the server. */
  function RowOf(cfg: Config, payload: Bytes): Option<IlpRow> {
    if Encoding(cfg, payload).None? then None else Some(cfg.means(payload))
  }

  /** A row the writer can encode and the server accepts. */
  predicate Good(cfg: Config, payload: Bytes) {
    match RowOf(cfg, payload)
    case None => false
    case Some(row) => cfg.accepts(row)
  }

  function RowsOf(cfg: Config, rows: seq<Row>): seq<IlpRow>
    requires AllEncode(cfg, rows)
  {
    if rows == [] then [] else [cfg.means(rows[0].payload)] + RowsOf(cfg, rows[1..])
  }

  /** The server reads exactly the rows of the batch out of the request body. */
  lemma {:induction false} ServerReads(cfg: Config, rows: seq<Row>)
    requires cfg.Wired() && AllEncode(cfg, rows)
    ensures ParseBatch(Payload(cfg, rows)) == Some(RowsOf(cfg, rows))
  {
    if rows != [] {
      assert rows[0] in rows;
      ServerReads(cfg, rows[1..]);
      OneRowRead(cfg, rows[0].payload, Payload(cfg, rows[1..]));
      BatchStep(TextOf(cfg, rows[0]), cfg.means(rows[0].payload), Payload(cfg, rows[1..]), RowsOf(cfg, rows[1..]));
    }
  }

  lemma BatchStep(text: string, row: IlpRow, rest: string, rows: seq<IlpRow>)
    requires text != "" && ParseRow(text + rest) == Some((row, rest)) && ParseBatch(rest) == Some(rows)
    ensures ParseBatch(text + rest) == Some([row] + rows)
  {
  }

  lemma OneRowRead(cfg: Config, payload: Bytes, rest: string)
    requires cfg.Wired() && Encoding(cfg, payload).Some?
    ensures ParseRow(Encoding(cfg, payload).value + rest) == Some((cfg.means(payload), rest))
    ensures Encoding(cfg, payload).value != ""
  {
    assert cfg.EncodesRow(payload);
    var spec :| RowText(spec) == cfg.encode(payload) && Meaning(spec) == cfg.means(payload);
    RowRoundTrip(spec, rest);
    RowRoundTrip(spec, "");
  }
}
