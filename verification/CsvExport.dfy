/**
 The CSV text of the transaction export, and a reader for it: RFC 4180, section 2, items
 5 to 7, with a line feed between records. The reader gives back every header and cell.
 */
module CsvExport {
  import opened Options

  // ---------------------------------------------------------------- the printer

  /** replace(/"/g, '""'). */
  function Doubled(s: string): string {
    if s == "" then "" else (if s[0] == '"' then "\"\"" else [s[0]]) + Doubled(s[1..])
  }

  function QuoteCell(cell: string): string {
    "\"" + Doubled(cell) + "\""
  }

  /** Headers are quoted as they stand. */
  function QuoteHeader(header: string): string {
    "\"" + header + "\""
  }

  function Join(parts: seq<string>, separator: string): string {
    if |parts| == 0 then ""
    else if |parts| == 1 then parts[0]
    else parts[0] + separator + Join(parts[1..], separator)
  }

  function QuoteCells(cells: seq<string>): (quoted: seq<string>)
    ensures |quoted| == |cells| && forall i :: 0 <= i < |cells| ==> quoted[i] == QuoteCell(cells[i])
  {
    seq(|cells|, i requires 0 <= i < |cells| => QuoteCell(cells[i]))
  }

  function QuoteHeaders(headers: seq<string>): (quoted: seq<string>)
    ensures |quoted| == |headers| && forall i :: 0 <= i < |headers| ==> quoted[i] == QuoteHeader(headers[i])
  {
    seq(|headers|, i requires 0 <= i < |headers| => QuoteHeader(headers[i]))
  }

  function PrintRow(cells: seq<string>): string {
    Join(QuoteCells(cells), ",")
  }

  function PrintRows(rows: seq<seq<string>>): (lines: seq<string>)
    ensures |lines| == |rows| && forall i :: 0 <= i < |rows| ==> lines[i] == PrintRow(rows[i])
  {
    seq(|rows|, i requires 0 <= i < |rows| => PrintRow(rows[i]))
  }

  function Print(headers: seq<string>, rows: seq<seq<string>>): string {
    Join([Join(QuoteHeaders(headers), ",")] + PrintRows(rows), "\n")
  }

  // ---------------------------------------------------------------- the export

  /** A history record as the route reads it; an absent or empty campaign or hash prints as an empty cell. */
  datatype Tx = Tx(date: string, kind: string, amount: string, campaign: Option<string>, status: string,
                   hash: Option<string>)

  const HEADERS: seq<string> := ["Date", "Type", "Amount", "Campaign", "Status", "TX Hash", "Explorer Link"]

  const EXPLORER := "https://stellar.expert/explorer/public/tx/"

  function OrEmpty(s: Option<string>): string {
    if s.Some? then s.value else ""
  }

  function Cells(tx: Tx): (cells: seq<string>)
    ensures |cells| == |HEADERS|
  {
    var hash := OrEmpty(tx.hash);
    [tx.date, tx.kind, tx.amount, OrEmpty(tx.campaign), tx.status, hash, if hash == "" then "" else EXPLORER + hash]
  }

  function AllCells(txs: seq<Tx>): (rows: seq<seq<string>>)
    ensures |rows| == |txs| && forall i :: 0 <= i < |txs| ==> rows[i] == Cells(txs[i])
  {
    seq(|txs|, i requires 0 <= i < |txs| => Cells(txs[i]))
  }

  function Export(txs: seq<Tx>): string {
    Print(HEADERS, AllCells(txs))
  }

  // ---------------------------------------------------------------- the reader

  /** Where the reader is in a field. */
  datatype Mode = Start | Bare | Quoted | QuoteInQuoted

  datatype Reader = Reader(mode: Mode, field: string, record: seq<string>, records: seq<seq<string>>)

  const BEGINNING := Reader(Start, "", [], [])

  function EndField(r: Reader): Reader {
    Reader(Start, "", r.record + [r.field], r.records)
  }

  function EndRecord(r: Reader): Reader {
    Reader(Start, "", [], r.records + [r.record + [r.field]])
  }

  function Take(r: Reader, mode: Mode, ch: char): Reader {
    Reader(mode, r.field + [ch], r.record, r.records)
  }

  /** One character; None is a syntax error. */
  function Next(r: Reader, ch: char): Option<Reader> {
    if r.mode == Quoted then
      if ch == '"' then Some(r.(mode := QuoteInQuoted)) else Some(Take(r, Quoted, ch))
    else if ch == ',' then Some(EndField(r))
    else if ch == '\n' then Some(EndRecord(r))
    else if ch == '"' then
      match r.mode
      case Start => Some(r.(mode := Quoted))
      case QuoteInQuoted => Some(Take(r, Quoted, ch))
      case _ => None
    else if r.mode == QuoteInQuoted then None
    else Some(Take(r, Bare, ch))
  }

  function Feed(r: Option<Reader>, s: string): Option<Reader>
    decreases |s|
  {
    if r.None? || s == "" then r else Feed(Next(r.value, s[0]), s[1..])
  }

  /** The end of the text ends the last record; a line feed before it is not a record of its own. */
  function Finish(r: Option<Reader>): Option<seq<seq<string>>> {
    if r.None? || r.value.mode == Quoted then None
    else if r.value.mode == Start && r.value.record == [] && r.value.records != [] then Some(r.value.records)
    else Some(EndRecord(r.value).records)
  }

  function Parse(s: string): Option<seq<seq<string>>> {
    Finish(Feed(Some(BEGINNING), s))
  }

  // ---------------------------------------------------------------- the reader reads what was printed

  lemma {:induction false} FeedParts(r: Option<Reader>, a: string, b: string)
    ensures Feed(r, a + b) == Feed(Feed(r, a), b)
    decreases |a|
  {
    if r.None? {
    } else if a == "" {
      assert a + b == b;
    } else {
      assert (a + b)[1..] == a[1..] + b;
      FeedParts(Next(r.value, a[0]), a[1..], b);
    }
  }

  lemma FeedOne(r: Reader, ch: char)
    ensures Feed(Some(r), [ch]) == Next(r, ch)
  {
    assert [ch][1..] == "";
    assert Feed(Next(r, ch), "") == Next(r, ch);
  }

  /** Inside quotes, doubled text is read as the text. */
  lemma {:induction false} FeedDoubled(r: Reader, s: string)
    requires r.mode == Quoted
    ensures Feed(Some(r), Doubled(s)) == Some(r.(field := r.field + s))
    decreases |s|
  {
    if s == "" {
      assert r.field + s == r.field;
    } else {
      var next := Take(r, Quoted, s[0]);
      FeedDoubled(next, s[1..]);
      assert next.field + s[1..] == r.field + s;
      if s[0] == '"' {
        FeedParts(Some(r), "\"\"", Doubled(s[1..]));
        FeedParts(Some(r), "\"", "\"");
        assert "\"" + "\"" == "\"\"";
        FeedOne(r, '"');
        FeedOne(r.(mode := QuoteInQuoted), '"');
      } else {
        FeedParts(Some(r), [s[0]], Doubled(s[1..]));
        FeedOne(r, s[0]);
      }
    }
  }

  /** A part, a separator, and the rest. */
  lemma FeedSeparated(r: Reader, part: string, mid: Reader, ch: char, rest: string)
    requires Feed(Some(r), part) == Some(mid)
    ensures Feed(Some(r), part + [ch] + rest) == Feed(Next(mid, ch), rest)
  {
    FeedParts(Some(r), part + [ch], rest);
    FeedParts(Some(r), part, [ch]);
    FeedOne(mid, ch);
  }

  lemma RowParts(cells: seq<string>)
    requires |cells| > 1
    ensures PrintRow(cells) == QuoteCell(cells[0]) + [','] + PrintRow(cells[1..])
  {
    assert QuoteCells(cells)[1..] == QuoteCells(cells[1..]);
  }

  function Lines(rows: seq<seq<string>>): string {
    Join(PrintRows(rows), "\n")
  }

  lemma LineParts(rows: seq<seq<string>>)
    requires |rows| > 1
    ensures Lines(rows) == PrintRow(rows[0]) + ['\n'] + Lines(rows[1..])
  {
    assert PrintRows(rows)[1..] == PrintRows(rows[1..]);
  }

  /** The reader just after the closing quote of a field. */
  function Closed(cell: string, record: seq<string>, records: seq<seq<string>>): Reader {
    Reader(QuoteInQuoted, cell, record, records)
  }

  lemma FeedCell(cell: string, record: seq<string>, records: seq<seq<string>>)
    ensures Feed(Some(Reader(Start, "", record, records)), QuoteCell(cell)) == Some(Closed(cell, record, records))
  {
    var r := Reader(Start, "", record, records);
    var inside := Reader(Quoted, "", record, records);
    FeedParts(Some(r), "\"" + Doubled(cell), "\"");
    FeedParts(Some(r), "\"", Doubled(cell));
    FeedOne(r, '"');
    FeedDoubled(inside, cell);
    assert "" + cell == cell;
    FeedOne(inside.(field := cell), '"');
  }

  /** A record's fields, up to the closing quote of the last. */
  lemma {:induction false} FeedRow(cells: seq<string>, record: seq<string>, records: seq<seq<string>>)
    requires cells != []
    ensures var n := |cells| - 1;
            Feed(Some(Reader(Start, "", record, records)), PrintRow(cells)) ==
                Some(Closed(cells[n], record + cells[..n], records))
    decreases |cells|
  {
    var r := Reader(Start, "", record, records);
    hide Feed, QuoteCell;
    FeedCell(cells[0], record, records);
    if |cells| == 1 {
      assert record + cells[..0] == record;
    } else {
      var rest := cells[1..];
      RowParts(cells);
      FeedSeparated(r, QuoteCell(cells[0]), Closed(cells[0], record, records), ',', PrintRow(rest));
      FeedRow(rest, record + [cells[0]], records);
      assert record + [cells[0]] + rest[..|rest| - 1] == record + cells[..|cells| - 1];
    }
  }

  /** What the reader makes of the rest of a text, at the start of a line. */
  function ReadFrom(records: seq<seq<string>>, rest: string): Option<seq<seq<string>>> {
    Finish(Feed(Some(Reader(Start, "", [], records)), rest))
  }

  lemma LastLine(cells: seq<string>, records: seq<seq<string>>)
    requires cells != []
    ensures ReadFrom(records, PrintRow(cells)) == Some(records + [cells])
  {
    var n := |cells| - 1;
    FeedRow(cells, [], records);
    assert [] + cells[..n] + [cells[n]] == cells;
  }

  lemma EarlierLine(cells: seq<string>, records: seq<seq<string>>, rest: string)
    requires cells != []
    ensures ReadFrom(records, PrintRow(cells) + ['\n'] + rest) == ReadFrom(records + [cells], rest)
  {
    var n := |cells| - 1;
    FeedRow(cells, [], records);
    assert [] + cells[..n] + [cells[n]] == cells;
    FeedSeparated(Reader(Start, "", [], records), PrintRow(cells), Closed(cells[n], [] + cells[..n], records), '\n',
                  rest);
  }

  lemma OneLine(rows: seq<seq<string>>)
    requires |rows| == 1
    ensures Lines(rows) == PrintRow(rows[0]) && rows == [rows[0]]
  {
  }

  /** Lines of records, joined by line feeds. */
  lemma {:induction false} FeedLines(rows: seq<seq<string>>, records: seq<seq<string>>)
    requires rows != [] && forall i :: 0 <= i < |rows| ==> rows[i] != []
    ensures ReadFrom(records, Lines(rows)) == Some(records + rows)
    decreases |rows|
  {
    if |rows| == 1 {
      LastLine(rows[0], records);
      OneLine(rows);
    } else {
      LineParts(rows);
      EarlierLine(rows[0], records, Lines(rows[1..]));
      FeedLines(rows[1..], records + [rows[0]]);
      assert records + [rows[0]] + rows[1..] == records + rows;
    }
  }

  // ---------------------------------------------------------------- headers

  lemma {:induction false} DoubledIsSameIff(s: string)
    ensures Doubled(s) == s <==> '"' !in s
    ensures |Doubled(s)| >= |s| && ('"' in s ==> |Doubled(s)| > |s|)
  {
    if s != "" {
      DoubledIsSameIff(s[1..]);
      assert s == [s[0]] + s[1..];
    }
  }

  /** Printing a header without escaping is right exactly because it holds no quote. */
  lemma HeaderIsCellIff(header: string)
    ensures QuoteHeader(header) == QuoteCell(header) <==> '"' !in header
  {
    DoubledIsSameIff(header);
    if QuoteHeader(header) == QuoteCell(header) {
      assert QuoteHeader(header)[1..|header| + 1] == header;
      assert |Doubled(header)| == |header|;
    }
  }

  predicate QuoteFree(headers: seq<string>) {
    forall i :: 0 <= i < |headers| ==> '"' !in headers[i]
  }

  lemma QuoteFreeHeaders(headers: seq<string>)
    requires QuoteFree(headers)
    ensures QuoteHeaders(headers) == QuoteCells(headers)
  {
    forall i | 0 <= i < |headers|
      ensures QuoteHeaders(headers)[i] == QuoteCells(headers)[i]
    {
      HeaderIsCellIff(headers[i]);
    }
  }

  /**
   Round trip: reading the printed text gives exactly the headers and the cells, for any cell
   text at all, quotes, commas and line feeds included.
   */
  lemma PrintRoundTrip(headers: seq<string>, rows: seq<seq<string>>)
    requires headers != [] && QuoteFree(headers) && forall i :: 0 <= i < |rows| ==> rows[i] != []
    ensures Parse(Print(headers, rows)) == Some([headers] + rows)
  {
    hide Print, Parse, Lines, ReadFrom;
    PrintIsLines(headers, rows);
    ParseIsReadFrom(Lines([headers] + rows));
    FeedLines([headers] + rows, []);
    assert [] + ([headers] + rows) == [headers] + rows;
  }

  lemma PrintIsLines(headers: seq<string>, rows: seq<seq<string>>)
    requires QuoteFree(headers)
    ensures Print(headers, rows) == Lines([headers] + rows)
  {
    hide Join, QuoteFree, QuoteHeader, QuoteCell;
    QuoteFreeHeaders(headers);
    assert PrintRows([headers] + rows) == [PrintRow(headers)] + PrintRows(rows);
  }

  lemma ParseIsReadFrom(text: string)
    ensures Parse(text) == ReadFrom([], text)
  {
    hide Feed, Finish;
  }

  /** The export can be read back, and two exports are the same text only when every cell agrees. */
  lemma ExportRoundTrip(txs: seq<Tx>)
    ensures Parse(Export(txs)) == Some([HEADERS] + AllCells(txs))
  {
    PrintRoundTrip(HEADERS, AllCells(txs));
  }

  lemma ExportIsInjective(txs: seq<Tx>, txs': seq<Tx>)
    requires Export(txs) == Export(txs')
    ensures AllCells(txs) == AllCells(txs')
  {
    ExportRoundTrip(txs);
    ExportRoundTrip(txs');
    assert ([HEADERS] + AllCells(txs))[1..] == AllCells(txs);
    assert ([HEADERS] + AllCells(txs'))[1..] == AllCells(txs');
  }

  // ---------------------------------------------------------------- columns

  /** The cell under a header of that name, looked for from column i on. */
  function Field(headers: seq<string>, cells: seq<string>, name: string, i: nat): Option<string>
    requires i <= |headers| == |cells|
    decreases |headers| - i
  {
    if i == |headers| then None
    else if headers[i] == name then Some(cells[i])
    else Field(headers, cells, name, i + 1)
  }

  function UnderHeader(tx: Tx, name: string): Option<string> {
    var campaign := match tx.campaign case Some(text) => text case None => "";
    var hash := match tx.hash case Some(text) => text case None => "";
    if name == "Date" then Some(tx.date)
    else if name == "Type" then Some(tx.kind)
    else if name == "Amount" then Some(tx.amount)
    else if name == "Campaign" then Some(campaign)
    else if name == "Status" then Some(tx.status)
    else if name == "TX Hash" then Some(hash)
    else if name == "Explorer Link" then Some(if hash == "" then "" else EXPLORER + hash)
    else None
  }

  lemma FieldNext(headers: seq<string>, cells: seq<string>, name: string, i: nat)
    requires i < |headers| == |cells|
    ensures Field(headers, cells, name, i) ==
            if headers[i] == name then Some(cells[i]) else Field(headers, cells, name, i + 1)
  {
  }

  /** Looked up by its header, a line's cell is the transaction's value of that name. */
  lemma CellsAreUnderTheirHeaders(tx: Tx, name: string)
    ensures Field(HEADERS, Cells(tx), name, 0) == UnderHeader(tx, name)
  {
    var (h, c) := (HEADERS, Cells(tx));
    for i := 0 to 7
      invariant forall k :: 0 <= k < i ==> h[k] != name
      invariant Field(h, c, name, 0) == Field(h, c, name, i)
    {
      FieldNext(h, c, name, i);
      if h[i] == name {
        return;
      }
    }
  }

  /** Read back, line i + 1 of the export has under each header the i-th transaction's value of that name. */
  lemma ExportedCells(txs: seq<Tx>, i: nat, name: string)
    requires i < |txs|
    ensures Parse(Export(txs)).Some?
    ensures var lines := Parse(Export(txs)).value;
            && |lines| == |txs| + 1 && lines[0] == HEADERS && |lines[i + 1]| == |HEADERS|
            && Field(lines[0], lines[i + 1], name, 0) == UnderHeader(txs[i], name)
  {
    ExportRoundTrip(txs);
    CellsAreUnderTheirHeaders(txs[i], name);
    hide Parse, Export, Field, UnderHeader, Cells;
  }
}
