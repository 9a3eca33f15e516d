/**
The bytes a migration plan's fingerprint is computed from: frames of a kind byte, an eight-byte big-endian length and a
payload, for every value of every row of every table, then for the plan manifest. The hash itself is opaque.
*/
module Fingerprint {
  import opened Wrappers

  type Bytes = seq<byte>

  // ----- frames

  datatype Frame = Frame(kind: byte, payload: Bytes)

  const WORD := 0x1_0000_0000_0000_0000

  function Pow256(width: nat): (p: nat)
    ensures p > 0
  {
    if width == 0 then 1 else 256 * Pow256(width - 1)
  }

  /** The low `width` bytes of a number, most significant first. */
  function BigEndian(n: nat, width: nat): (b: Bytes)
    ensures |b| == width
  {
    if width == 0 then [] else BigEndian(n / 256, width - 1) + [(n % 256) as byte]
  }

  function Number(b: Bytes): nat {
    if b == [] then 0 else 256 * Number(b[..|b| - 1]) + b[|b| - 1] as nat
  }

  lemma HighBytes(n: nat, p: nat)
    requires n < 256 * p
    ensures n / 256 < p
  {
  }

  lemma {:induction false} NumberOfBigEndian(n: nat, width: nat)
    requires n < Pow256(width)
    ensures Number(BigEndian(n, width)) == n
  {
    if width > 0 {
      var b, high := BigEndian(n, width), BigEndian(n / 256, width - 1);
      assert b[..width - 1] == high && b[width - 1] as nat == n % 256;
      HighBytes(n, Pow256(width - 1));
      NumberOfBigEndian(n / 256, width - 1);
    }
  }

  lemma {:induction false} BigEndianOfNumber(b: Bytes)
    ensures BigEndian(Number(b), |b|) == b && Number(b) < Pow256(|b|)
  {
    if b != [] {
      var n := |b| - 1;
      BigEndianOfNumber(b[..n]);
      assert Number(b) / 256 == Number(b[..n]) && Number(b) % 256 == b[n] as nat;
      assert b == b[..n] + [b[n]];
    }
  }

  lemma EightBytes()
    ensures Pow256(8) == WORD
  {
    assert Pow256(4) == 0x1_0000_0000;
  }

  /** Lengths of Go slices fit a 64-bit word. */
  predicate Sized(f: Frame) { |f.payload| < WORD }

  function Encode(f: Frame): Bytes {
    [f.kind] + BigEndian(|f.payload|, 8) + f.payload
  }

  function EncodeAll(fs: seq<Frame>): Bytes {
    if fs == [] then [] else Encode(fs[0]) + EncodeAll(fs[1..])
  }

  function Decode(b: Bytes): Option<seq<Frame>>
    decreases |b|
  {
    if b == [] then Some([])
    else if |b| < 9 then None
    else
      var n := Number(b[1..9]);
      if |b| < 9 + n then None
      else match Decode(b[9 + n..])
        case None => None
        case Some(rest) => Some([Frame(b[0], b[9..9 + n])] + rest)
  }

  lemma EncodeShape(f: Frame, rest: Bytes)
    requires Sized(f)
    ensures var b := Encode(f) + rest;
      && |b| >= 9 + |f.payload| && b[0] == f.kind && Number(b[1..9]) == |f.payload|
      && b[9..9 + |f.payload|] == f.payload && b[9 + |f.payload|..] == rest
  {
    EightBytes();
    NumberOfBigEndian(|f.payload|, 8);
    var b := Encode(f) + rest;
    assert b[1..9] == BigEndian(|f.payload|, 8);
  }

  lemma DecodeFirst(f: Frame, rest: Bytes)
    requires Sized(f)
    ensures Decode(Encode(f) + rest) ==
      var read := Decode(rest); if read.None? then None else Some([f] + read.value)
  {
    EncodeShape(f, rest);
  }

  /** The framing is self-delimiting: decoding inverts encoding, for any frames. */
  lemma {:induction false} DecodeEncode(fs: seq<Frame>)
    requires forall f :: f in fs ==> Sized(f)
    ensures Decode(EncodeAll(fs)) == Some(fs)
  {
    if fs != [] {
      var first, rest := fs[0], fs[1..];
      assert first in fs && forall f :: f in rest ==> f in fs;
      DecodeEncode(rest);
      DecodeFirst(first, EncodeAll(rest));
      assert EncodeAll(fs) == Encode(first) + EncodeAll(rest);
      assert [first] + rest == fs;
    }
  }

  lemma Reassemble(b: Bytes)
    requires |b| >= 9 && |b| >= 9 + Number(b[1..9])
    ensures var n := Number(b[1..9]);
      b == Encode(Frame(b[0], b[9..9 + n])) + b[9 + n..]
  {
    var n := Number(b[1..9]);
    BigEndianOfNumber(b[1..9]);
    assert b == [b[0]] + b[1..9] + b[9..9 + n] + b[9 + n..];
  }

  /** And nothing else decodes: a byte stream has at most one reading, whose encoding it is. */
  lemma {:induction false} EncodeDecode(b: Bytes)
    requires Decode(b).Some?
    ensures EncodeAll(Decode(b).value) == b
    decreases |b|
  {
    if b != [] {
      var n := Number(b[1..9]);
      var f, tail := Frame(b[0], b[9..9 + n]), b[9 + n..];
      var rest := Decode(tail).value;
      EncodeDecode(tail);
      Reassemble(b);
      assert ([f] + rest)[0] == f && ([f] + rest)[1..] == rest;
    }
  }

  lemma {:induction false} EncodeAppend(fs: seq<Frame>, f: Frame)
    ensures EncodeAll(fs + [f]) == EncodeAll(fs) + Encode(f)
  {
    if fs == [] {
      assert [f][1..] == [];
    } else {
      assert (fs + [f])[1..] == fs[1..] + [f];
      EncodeAppend(fs[1..], f);
    }
  }

  // ----- database values

  const VERSION: byte := 1
  const TABLE: byte := 2
  const COLUMN_COUNT: byte := 3
  const COLUMN: byte := 4
  const ROW: byte := 5
  const TABLE_END: byte := 6
  const MANIFEST: byte := 7
  const NULL: byte := 8
  const INTEGER: byte := 9
  const REAL: byte := 10
  const TEXT: byte := 11
  const BLOB: byte := 12

  /** What SQLite hands back for a column; a real is its 64 bits. */
  datatype Value = Null | Integer(n: int) | Real(bits: nat) | Text(text: Bytes) | Blob(blob: Bytes) | Boolean(b: bool)

  predicate InRange(v: Value) {
    match v
    case Integer(n) => -(WORD / 2) <= n < WORD / 2
    case Real(bits) => bits < WORD
    case Text(text) => |text| < WORD
    case Blob(blob) => |blob| < WORD
    case _ => true
  }

  /** Conversion of a signed to an unsigned 64-bit integer. */
  function Unsigned(n: int): nat
    requires -(WORD / 2) <= n < WORD / 2
  {
    if n >= 0 then n else n + WORD
  }

  /** Booleans are stored, and framed, as integers. */
  function Canonical(v: Value): Value {
    if v.Boolean? then Integer(if v.b then 1 else 0) else v
  }

  function FrameOf(v: Value): Frame
    requires InRange(v)
  {
    match v
    case Null => Frame(NULL, [])
    case Integer(n) => Frame(INTEGER, BigEndian(Unsigned(n), 8))
    case Real(bits) => Frame(REAL, BigEndian(bits, 8))
    case Text(text) => Frame(TEXT, text)
    case Blob(blob) => Frame(BLOB, blob)
    case Boolean(b) => Frame(INTEGER, BigEndian(if b then 1 else 0, 8))
  }

  /** Two values have the same frame exactly when they are the same up to booleans being integers. */
  lemma ValuesAreTold(v: Value, w: Value)
    requires InRange(v) && InRange(w)
    ensures FrameOf(v) == FrameOf(w) <==> Canonical(v) == Canonical(w)
  {
    EightBytes();
    var a, b := Canonical(v), Canonical(w);
    assert FrameOf(a) == FrameOf(v) && FrameOf(b) == FrameOf(w);
    if a.Integer? && b.Integer? {
      NumberOfBigEndian(Unsigned(a.n), 8);
      NumberOfBigEndian(Unsigned(b.n), 8);
    } else if a.Real? && b.Real? {
      NumberOfBigEndian(a.bits, 8);
      NumberOfBigEndian(b.bits, 8);
    }
  }

  // ----- tables

  type Row = seq<Value>

  datatype Table = Table(name: Bytes, columns: seq<Bytes>, rows: seq<Row>)

  predicate RowOk(row: Row, width: nat) { |row| == width && forall v :: v in row ==> InRange(v) }

  /** A query returns as many values in each row as there are columns, and everything fits 64-bit lengths. */
  predicate TableOk(t: Table) {
    && |t.name| < WORD && |t.columns| < WORD
    && (forall c :: c in t.columns ==> |c| < WORD)
    && (forall row :: row in t.rows ==> RowOk(row, |t.columns|))
  }

  function CanonicalRow(row: Row): Row { seq(|row|, i requires 0 <= i < |row| => Canonical(row[i])) }

  function CanonicalRows(rows: seq<Row>): seq<Row> {
    if rows == [] then [] else [CanonicalRow(rows[0])] + CanonicalRows(rows[1..])
  }

  function CanonicalTable(t: Table): Table { t.(rows := CanonicalRows(t.rows)) }

  function CanonicalTables(ts: seq<Table>): seq<Table> {
    if ts == [] then [] else [CanonicalTable(ts[0])] + CanonicalTables(ts[1..])
  }

  function ValueFrames(row: Row): seq<Frame>
    requires forall v :: v in row ==> InRange(v)
  {
    seq(|row|, i requires 0 <= i < |row| => FrameOf(row[i]))
  }

  function ColumnFrames(columns: seq<Bytes>): seq<Frame> {
    seq(|columns|, i requires 0 <= i < |columns| => Frame(COLUMN, columns[i]))
  }

  /** The frames of rows, the end of their table, and whatever follows. */
  function RowFrames(rows: seq<Row>, width: nat, after: seq<Frame>): seq<Frame>
    requires forall row :: row in rows ==> RowOk(row, width)
  {
    if rows == [] then [Frame(TABLE_END, [])] + after
    else
      assert RowOk(rows[0], width);
      [Frame(ROW, [])] + ValueFrames(rows[0]) + RowFrames(rows[1..], width, after)
  }

  function Header(t: Table): seq<Frame> {
    [Frame(TABLE, t.name), Frame(COLUMN_COUNT, BigEndian(|t.columns|, 8))] + ColumnFrames(t.columns)
  }

  function TableFrames(ts: seq<Table>, manifest: Bytes): seq<Frame>
    requires forall t :: t in ts ==> TableOk(t)
  {
    if ts == [] then [Frame(MANIFEST, manifest)]
    else
      assert TableOk(ts[0]);
      Header(ts[0]) + RowFrames(ts[0].rows, |ts[0].columns|, TableFrames(ts[1..], manifest))
  }

  /** Everything that is fed to the hash. */
  function Input(version: Bytes, ts: seq<Table>, manifest: Bytes): Bytes
    requires forall t :: t in ts ==> TableOk(t)
  {
    EncodeAll([Frame(VERSION, version)] + TableFrames(ts, manifest))
  }

  // ----- the input determines the tables and the manifest

  lemma Split<T>(a: seq<T>, x: seq<T>, b: seq<T>, y: seq<T>)
    requires a + x == b + y && |a| == |b|
    ensures a == b && x == y
  {
    assert a == (a + x)[..|a|] && b == (b + y)[..|b|];
    assert x == (a + x)[|a|..] && y == (b + y)[|b|..];
  }

  lemma RowsAreTold(row: Row, row': Row)
    requires |row| == |row'| && (forall v :: v in row ==> InRange(v)) && (forall v :: v in row' ==> InRange(v))
    ensures ValueFrames(row) == ValueFrames(row') <==> CanonicalRow(row) == CanonicalRow(row')
  {
    forall i | 0 <= i < |row|
      ensures ValueFrames(row)[i] == ValueFrames(row')[i] <==> CanonicalRow(row)[i] == CanonicalRow(row')[i]
    {
      ValuesAreTold(row[i], row'[i]);
    }
  }

  lemma {:induction false} RowFramesTell(rows: seq<Row>, rows': seq<Row>, width: nat, after: seq<Frame>,
      after': seq<Frame>)
    requires forall row :: row in rows ==> RowOk(row, width)
    requires forall row :: row in rows' ==> RowOk(row, width)
    ensures RowFrames(rows, width, after) == RowFrames(rows', width, after') <==>
      CanonicalRows(rows) == CanonicalRows(rows') && after == after'
  {
    var fs, fs' := RowFrames(rows, width, after), RowFrames(rows', width, after');
    if rows == [] && rows' == [] {
      assert after == fs[1..] && after' == fs'[1..];
    } else if rows == [] || rows' == [] {
      assert fs[0] != fs'[0];
      assert |CanonicalRows(rows)| != |CanonicalRows(rows')|;
    } else {
      RowFramesTell(rows[1..], rows'[1..], width, after, after');
      assert rows[0] in rows && rows'[0] in rows';
      RowsAreTold(rows[0], rows'[0]);
      RowStep(fs, ValueFrames(rows[0]), RowFrames(rows[1..], width, after),
              fs', ValueFrames(rows'[0]), RowFrames(rows'[1..], width, after'));
      ConsEqual(CanonicalRow(rows[0]), CanonicalRows(rows[1..]), CanonicalRow(rows'[0]), CanonicalRows(rows'[1..]));
    }
  }

  lemma RowStep(fs: seq<Frame>, values: seq<Frame>, rest: seq<Frame>, fs': seq<Frame>, values': seq<Frame>,
      rest': seq<Frame>)
    requires fs == [Frame(ROW, [])] + values + rest && fs' == [Frame(ROW, [])] + values' + rest'
    requires |values| == |values'|
    ensures fs == fs' <==> values == values' && rest == rest'
  {
    if fs == fs' {
      Split([Frame(ROW, [])] + values, rest, [Frame(ROW, [])] + values', rest');
      Split([Frame(ROW, [])], values, [Frame(ROW, [])], values');
    }
  }

  lemma ConsEqual<T>(a: T, x: seq<T>, b: T, y: seq<T>)
    ensures [a] + x == [b] + y <==> a == b && x == y
  {
    if [a] + x == [b] + y {
      assert ([a] + x)[0] == a && ([b] + y)[0] == b;
      Split([a], x, [b], y);
    }
  }

  lemma HeadersTell(t: Table, t': Table, rest: seq<Frame>, rest': seq<Frame>)
    requires TableOk(t) && TableOk(t')
    ensures Header(t) + rest == Header(t') + rest' <==> t.name == t'.name && t.columns == t'.columns && rest == rest'
  {
    var a, b := Header(t) + rest, Header(t') + rest';
    if a == b {
      assert a[0] == b[0] && a[1] == b[1];
      EightBytes();
      NumberOfBigEndian(|t.columns|, 8);
      NumberOfBigEndian(|t'.columns|, 8);
      Split(Header(t), rest, Header(t'), rest');
      forall i | 0 <= i < |t.columns| ensures t.columns[i] == t'.columns[i] {
        assert Header(t)[2 + i] == Header(t')[2 + i];
      }
    }
  }

  lemma {:induction false} TableFramesTell(ts: seq<Table>, ts': seq<Table>, m: Bytes, m': Bytes)
    requires forall t :: t in ts ==> TableOk(t)
    requires forall t :: t in ts' ==> TableOk(t)
    ensures TableFrames(ts, m) == TableFrames(ts', m') <==> CanonicalTables(ts) == CanonicalTables(ts') && m == m'
  {
    var fs, fs' := TableFrames(ts, m), TableFrames(ts', m');
    if ts == [] && ts' == [] {
      assert fs[0] == Frame(MANIFEST, m) && fs'[0] == Frame(MANIFEST, m');
    } else if ts == [] || ts' == [] {
      assert fs[0] != fs'[0];
      assert |CanonicalTables(ts)| != |CanonicalTables(ts')|;
    } else {
      var t, t' := ts[0], ts'[0];
      assert t in ts && t' in ts';
      TableFramesTell(ts[1..], ts'[1..], m, m');
      var rest, rest' := TableFrames(ts[1..], m), TableFrames(ts'[1..], m');
      HeadersTell(t, t', RowFrames(t.rows, |t.columns|, rest), RowFrames(t'.rows, |t'.columns|, rest'));
      if t.columns == t'.columns {
        RowFramesTell(t.rows, t'.rows, |t.columns|, rest, rest');
      }
      ConsEqual(CanonicalTable(t), CanonicalTables(ts[1..]), CanonicalTable(t'), CanonicalTables(ts'[1..]));
    }
  }

  lemma AllSized(ts: seq<Table>, manifest: Bytes)
    requires forall t :: t in ts ==> TableOk(t)
    requires |manifest| < WORD
    ensures forall f :: f in TableFrames(ts, manifest) ==> Sized(f)
  {
    if ts != [] {
      var t := ts[0];
      assert t in ts;
      AllSized(ts[1..], manifest);
      RowsSized(t.rows, |t.columns|, TableFrames(ts[1..], manifest));
      forall f | f in Header(t) ensures Sized(f) {
        var i :| 0 <= i < |Header(t)| && Header(t)[i] == f;
        if i >= 2 { assert f == Frame(COLUMN, t.columns[i - 2]); }
      }
    }
  }

  lemma RowsSized(rows: seq<Row>, width: nat, after: seq<Frame>)
    requires forall row :: row in rows ==> RowOk(row, width)
    requires forall f :: f in after ==> Sized(f)
    ensures forall f :: f in RowFrames(rows, width, after) ==> Sized(f)
  {
    if rows != [] {
      assert rows[0] in rows;
      RowsSized(rows[1..], width, after);
      forall f | f in ValueFrames(rows[0]) ensures Sized(f) {
        var i :| 0 <= i < |rows[0]| && FrameOf(rows[0][i]) == f;
        assert InRange(rows[0][i]);
      }
    }
  }

  /** The byte stream determines everything that is framed: two states feed the hash the same bytes exactly when they
      have the same version, tables, columns, rows and manifest, reading booleans as the integers they are stored as. */
  lemma InputTells(version: Bytes, ts: seq<Table>, m: Bytes, version': Bytes, ts': seq<Table>, m': Bytes)
    requires (forall t :: t in ts ==> TableOk(t)) && forall t :: t in ts' ==> TableOk(t)
    requires |version| < WORD && |m| < WORD && |version'| < WORD && |m'| < WORD
    ensures Input(version, ts, m) == Input(version', ts', m') <==>
      version == version' && CanonicalTables(ts) == CanonicalTables(ts') && m == m'
  {
    var fs, fs' := TableFrames(ts, m), TableFrames(ts', m');
    AllSized(ts, m);
    AllSized(ts', m');
    DecodeEncode([Frame(VERSION, version)] + fs);
    DecodeEncode([Frame(VERSION, version')] + fs');
    ConsEqual(Frame(VERSION, version), fs, Frame(VERSION, version'), fs');
    TableFramesTell(ts, ts', m, m');
  }

  // ----- the bytes themselves

  /** Byte k of a number, from the most significant one on. */
  lemma {:induction false} BigEndianAt(n: nat, width: nat, k: nat)
    requires k < width
    ensures BigEndian(n, width)[k] as nat == n / Pow256(width - 1 - k) % 256
  {
    if k < width - 1 {
      BigEndianAt(n / 256, width - 1, k);
      DivTwice(n, Pow256(width - 2 - k));
    } else {
      assert Pow256(0) == 1;
    }
  }


  lemma DivTwice(n: nat, p: nat)
    requires p > 0
    ensures n / 256 / p == n / (256 * p)
  {
    var q, r := n / (256 * p), n % (256 * p);
    assert n == 256 * (p * q) + r;
    assert n / 256 == p * q + r / 256;
    assert r / 256 < p;
    QuotientIs(p * q + r / 256, p, q);
  }

  lemma QuotientIs(n: nat, p: nat, q: nat)
    requires p > 0 && p * q <= n < p * q + p
    ensures n / p == q
  {
    if n / p > q { MulMono(q + 1, n / p, p); }
    if n / p < q { MulMono(n / p + 1, q, p); }
  }

  lemma MulMono(a: nat, b: nat, p: nat)
    requires a <= b
    ensures a * p <= b * p
  {
  }

  /** How each kind of value is written: its code, the length of its payload, and the payload. */
  lemma ValueBytes(v: Value)
    requires InRange(v)
    ensures Encode(FrameOf(v)) ==
      match v
      case Null => [8] + BigEndian(0, 8)
      case Integer(n) => [9] + BigEndian(8, 8) + BigEndian(if n < 0 then n + 0x1_0000_0000_0000_0000 else n, 8)
      case Real(bits) => [10] + BigEndian(8, 8) + BigEndian(bits, 8)
      case Text(text) => [11] + BigEndian(|text|, 8) + text
      case Blob(blob) => [12] + BigEndian(|blob|, 8) + blob
      case Boolean(b) => [9] + BigEndian(8, 8) + BigEndian(if b then 1 else 0, 8)
  {
  }

  /** The whole stream of one table with one row, by frame codes: version, table, column count, columns, row, values,
      end of table, manifest. */
  lemma OneTableFrames(version: Bytes, name: Bytes, column: Bytes, v: Value, manifest: Bytes)
    requires InRange(v) && |name| < WORD && |column| < WORD
    ensures Input(version, [Table(name, [column], [[v]])], manifest) ==
      EncodeAll([Frame(1, version), Frame(2, name), Frame(3, BigEndian(1, 8)), Frame(4, column), Frame(5, []),
                 FrameOf(v), Frame(6, []), Frame(7, manifest)])
  {
    var t := Table(name, [column], [[v]]);
    var after := [Frame(7, manifest)];
    assert TableFrames([t][1..], manifest) == after;
    assert RowFrames([[v]][1..], 1, after) == [Frame(6, [])] + after;
    assert ValueFrames([v]) == [FrameOf(v)] && ColumnFrames([column]) == [Frame(4, column)];
    assert TableFrames([t], manifest) == Header(t) + RowFrames([[v]], 1, after);
    assert [Frame(1, version)] + TableFrames([t], manifest) ==
      [Frame(1, version), Frame(2, name), Frame(3, BigEndian(1, 8)), Frame(4, column), Frame(5, []),
       FrameOf(v), Frame(6, []), Frame(7, manifest)];
  }

  // ----- the encoder as it runs

  /** One more frame after `start` and the frames `done`. */
  lemma Fed(start: Bytes, done: seq<Frame>, f: Frame)
    ensures start + EncodeAll(done) + Encode(f) == start + EncodeAll(done + [f])
  {
    EncodeAppend(done, f);
  }

  lemma FedAll(start: Bytes, done: seq<Frame>, fs: seq<Frame>)
    ensures start + EncodeAll(done) + EncodeAll(fs) == start + EncodeAll(done + fs)
  {
    EncodeConcat(done, fs);
  }

  lemma FedNext(start: Bytes, frames: seq<Frame>, n: nat)
    requires n < |frames|
    ensures start + EncodeAll(frames[..n]) + Encode(frames[n]) == start + EncodeAll(frames[..n + 1])
  {
    Fed(start, frames[..n], frames[n]);
    assert frames[..n + 1] == frames[..n] + [frames[n]];
  }

  lemma FedTwo(start: Bytes, frames: seq<Frame>)
    requires |frames| >= 2
    ensures start + Encode(frames[0]) + Encode(frames[1]) == start + EncodeAll(frames[..2])
  {
    FedNext(start, frames, 0);
    FedNext(start, frames, 1);
  }

  class Encoder {
    /** What the digest has been fed so far. */
    var stream: Bytes

    constructor ()
      ensures stream == []
    {
      stream := [];
    }

    method WriteFrame(kind: byte, value: Bytes)
      modifies this
      ensures stream == old(stream) + Encode(Frame(kind, value))
    {
      stream := stream + [kind];
      stream := stream + BigEndian(|value|, 8);
      stream := stream + value;
    }

    method WriteUint64Frame(kind: byte, value: nat)
      requires value < WORD
      modifies this
      ensures stream == old(stream) + Encode(Frame(kind, BigEndian(value, 8)))
    {
      WriteFrame(kind, BigEndian(value, 8));
    }

    method WriteSqliteValue(value: Value)
      requires InRange(value)
      modifies this
      ensures stream == old(stream) + Encode(FrameOf(value))
    {
      match value
      case Null => WriteFrame(NULL, []);
      case Integer(n) => WriteUint64Frame(INTEGER, Unsigned(n));
      case Real(bits) => WriteUint64Frame(REAL, bits);
      case Text(text) => WriteFrame(TEXT, text);
      case Blob(blob) => WriteFrame(BLOB, blob);
      case Boolean(b) =>
        var integer := 0;
        if b {
          integer := 1;
        }
        WriteUint64Frame(INTEGER, integer);
    }

    method WriteRow(row: Row)
      requires forall v :: v in row ==> InRange(v)
      modifies this
      ensures stream == old(stream) + EncodeAll([Frame(ROW, [])] + ValueFrames(row))
    {
      ghost var start, frames := stream, [Frame(ROW, [])] + ValueFrames(row);
      FedNext(start, frames, 0);
      WriteFrame(ROW, []);
      for i := 0 to |row|
        invariant stream == start + EncodeAll(frames[..1 + i])
      {
        FedNext(start, frames, 1 + i);
        WriteSqliteValue(row[i]);
      }
      assert frames[..1 + |row|] == frames;
    }

    method WriteHeader(t: Table)
      requires TableOk(t)
      modifies this
      ensures stream == old(stream) + EncodeAll(Header(t))
    {
      ghost var start := stream;
      FedTwo(start, Header(t));
      WriteFrame(TABLE, t.name);
      WriteUint64Frame(COLUMN_COUNT, |t.columns|);
      for i := 0 to |t.columns|
        invariant stream == start + EncodeAll(Header(t)[..2 + i])
      {
        FedNext(start, Header(t), 2 + i);
        WriteFrame(COLUMN, t.columns[i]);
      }
      assert Header(t)[..2 + |t.columns|] == Header(t);
    }

    method WriteRows(rows: seq<Row>, width: nat)
      requires forall row :: row in rows ==> RowOk(row, width)
      modifies this
      ensures stream == old(stream) + EncodeAll(RowFrames(rows, width, []))
    {
      ghost var start: Bytes, done: seq<Frame> := stream, [];
      assert rows[0..] == rows && start + EncodeAll([]) == start;
      for i := 0 to |rows|
        invariant RowFrames(rows, width, []) == done + RowFrames(rows[i..], width, [])
        invariant stream == start + EncodeAll(done)
      {
        assert RowOk(rows[i], width);
        ghost var frames := [Frame(ROW, [])] + ValueFrames(rows[i]);
        FedAll(start, done, frames);
        NextRow(rows, width, i, done);
        WriteRow(rows[i]);
        done := done + frames;
      }
      assert RowFrames(rows[|rows|..], width, []) == [Frame(TABLE_END, [])];
      Fed(start, done, Frame(TABLE_END, []));
      WriteFrame(TABLE_END, []);
    }

    method WriteTable(t: Table)
      requires TableOk(t)
      modifies this
      ensures stream == old(stream) + EncodeAll(Header(t) + RowFrames(t.rows, |t.columns|, []))
    {
      FedAll(stream, Header(t), RowFrames(t.rows, |t.columns|, []));
      WriteHeader(t);
      WriteRows(t.rows, |t.columns|);
    }

    /** The whole input: version, every table in order, manifest. */
    method WritePlan(version: Bytes, ts: seq<Table>, manifest: Bytes)
      requires stream == [] && forall t :: t in ts ==> TableOk(t)
      modifies this
      ensures stream == Input(version, ts, manifest)
    {
      ghost var done := [Frame(VERSION, version)];
      ghost var whole := done + TableFrames(ts, manifest);
      Fed([], [], done[0]);
      WriteFrame(VERSION, version);
      for i := 0 to |ts|
        invariant whole == done + TableFrames(ts[i..], manifest)
        invariant stream == [] + EncodeAll(done)
      {
        assert TableOk(ts[i]);
        ghost var frames := Header(ts[i]) + RowFrames(ts[i].rows, |ts[i].columns|, []);
        FedAll([], done, frames);
        NextTable(ts, manifest, i, done);
        WriteTable(ts[i]);
        done := done + frames;
      }
      Fed([], done, Frame(MANIFEST, manifest));
      WriteFrame(MANIFEST, manifest);
    }
  }

  lemma NextRow(rows: seq<Row>, width: nat, i: nat, done: seq<Frame>)
    requires i < |rows| && forall row :: row in rows ==> RowOk(row, width)
    ensures RowOk(rows[i], width)
    ensures done + RowFrames(rows[i..], width, []) ==
      (done + ([Frame(ROW, [])] + ValueFrames(rows[i]))) + RowFrames(rows[i + 1..], width, [])
  {
    assert rows[i] in rows;
    assert rows[i..][1..] == rows[i + 1..] && rows[i..][0] == rows[i];
  }

  lemma NextTable(ts: seq<Table>, manifest: Bytes, i: nat, done: seq<Frame>)
    requires i < |ts| && forall t :: t in ts ==> TableOk(t)
    ensures TableOk(ts[i])
    ensures done + TableFrames(ts[i..], manifest) ==
      (done + (Header(ts[i]) + RowFrames(ts[i].rows, |ts[i].columns|, []))) + TableFrames(ts[i + 1..], manifest)
  {
    assert ts[i] in ts;
    assert ts[i..][1..] == ts[i + 1..] && ts[i..][0] == ts[i];
    RowsThen(ts[i].rows, |ts[i].columns|, TableFrames(ts[i + 1..], manifest));
  }

  lemma {:induction false} EncodeConcat(fs: seq<Frame>, gs: seq<Frame>)
    ensures EncodeAll(fs + gs) == EncodeAll(fs) + EncodeAll(gs)
  {
    if fs == [] {
      assert [] + gs == gs;
    } else {
      assert (fs + gs)[1..] == fs[1..] + gs;
      EncodeConcat(fs[1..], gs);
    }
  }

  lemma {:induction false} RowsThen(rows: seq<Row>, width: nat, after: seq<Frame>)
    requires forall row :: row in rows ==> RowOk(row, width)
    ensures RowFrames(rows, width, after) == RowFrames(rows, width, []) + after
  {
    if rows != [] {
      RowsThen(rows[1..], width, after);
    }
  }
}
