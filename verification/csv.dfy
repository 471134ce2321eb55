/** The generic CSV exporter: the header line is the property names of the
    first row joined by commas, then one line per row with that row's
    values in header order. A value is written with `toString()`, missing
    or empty values as an empty cell, and a cell is wrapped in double
    quotes exactly when it contains a comma. Quotes inside a cell are not
    escaped and line breaks do not trigger quoting, so the output is not
    always parseable back; no round trip is claimed for such cells. The
    file download itself is not modelled. */
module Csv {
  import opened Wrappers
  import opened Strings
  import opened Seqs

  /** A property value of a row object. */
  datatype Value = Undefined | Null | Str(s: string) | Num(n: int) | Bool(b: bool)

  /** A row object: its own properties in key order. A JavaScript object
      cannot hold a key twice; the model does not require distinct keys,
      which only admits more rows than the source can receive: `Get` reads
      the first entry for a key, and every statement about rows holds for
      all of them. */
  type Row = seq<(string, Value)>

  /** What `Object.keys(undefined)` throws for an empty input. */
  const NoDataMessage := "Cannot convert undefined or null to object"

  /** `row[key]`: the value stored under `key`, or `undefined`. */
  function Get(row: Row, key: string): Value
    decreases |row|
  {
    if |row| == 0 then Undefined
    else if row[0].0 == key then row[0].1
    else Get(row[1..], key)
  }

  /** `row[key]?.toString() || ''`. */
  function CellText(v: Value): (t: string)
    ensures (v.Undefined? || v.Null? || v == Str([])) ==> t == []
    ensures v.Str? ==> t == v.s
    ensures v.Num? ==> t == IntToString(v.n)
  {
    match v
    case Undefined => []
    case Null => []
    case Str(s) => s
    case Num(n) => IntToString(n)
    case Bool(b) => if b then "true" else "false"
  }

  /** `cell.includes(',') ? `"${cell}"` : cell`: quoted exactly when the cell
      contains a comma, and otherwise written verbatim. */
  function QuoteIfComma(cell: string): (q: string)
    ensures ',' in cell ==> q == ['"'] + cell + ['"']
    ensures ',' !in cell ==> q == cell
    ensures ',' in q <==> ',' in cell
    ensures '\n' in q <==> '\n' in cell
  {
    if ',' in cell then ['"'] + cell + ['"'] else cell
  }

  /** The cells of one data line, one per header, in header order. */
  function RowCells(headers: seq<string>, row: Row): (cells: seq<string>)
    ensures |cells| == |headers|
    ensures forall i :: 0 <= i < |headers| ==> cells[i] == QuoteIfComma(CellText(Get(row, headers[i])))
  {
    seq(|headers|, i requires 0 <= i < |headers| => QuoteIfComma(CellText(Get(row, headers[i]))))
  }

  function RowLine(headers: seq<string>, row: Row): string {
    Join(RowCells(headers, row), ',')
  }

  /** The records of the file (`csvRows`): the header record, then one
      record per row. A record is one line only when its cells hold no line
      break. */
  function CsvLines(data: seq<Row>): (lines: seq<string>)
    requires |data| > 0
    ensures |lines| == |data| + 1
  {
    var headers := Keys(data[0]);
    [Join(headers, ',')] + seq(|data|, i requires 0 <= i < |data| => RowLine(headers, data[i]))
  }

  /** `exportToCSV`'s file content; an empty input throws. */
  function ExportToCsv(data: seq<Row>): (r: Result<string>)
    ensures data == [] <==> r == Err(NoDataMessage)
    ensures data != [] ==> r.Ok? && r.value == Join(CsvLines(data), '\n')
  {
    if |data| == 0 then Err(NoDataMessage) else Ok(Join(CsvLines(data), '\n'))
  }

  /** No header and no cell text contains a line break. */
  predicate NoLineBreaks(data: seq<Row>)
    requires |data| > 0
  {
    var headers := Keys(data[0]);
    && (forall j :: 0 <= j < |headers| ==> '\n' !in headers[j])
    && (forall i, j :: 0 <= i < |data| && 0 <= j < |headers| ==> '\n' !in CellText(Get(data[i], headers[j])))
  }

  /** Without line breaks in the data, the file has exactly one line more
      than there are rows: first the header names joined by commas, then
      each row's line. */
  lemma CsvLineStructure(data: seq<Row>)
    requires |data| > 0 && NoLineBreaks(data)
    ensures
      var headers := Keys(data[0]);
      var lines := Split(ExportToCsv(data).value, '\n');
      && |lines| == |data| + 1
      && lines[0] == Join(headers, ',')
      && forall i :: 0 <= i < |data| ==> lines[i + 1] == RowLine(headers, data[i])
  {
    var headers := Keys(data[0]);
    var lines := CsvLines(data);
    JoinExcludes(headers, ',', '\n');
    forall i | 0 <= i < |data|
      ensures '\n' !in RowLine(headers, data[i])
    {
      JoinExcludes(RowCells(headers, data[i]), ',', '\n');
    }
    SplitJoin(lines, '\n');
  }

  /** A line whose cells contain no comma splits back, at the commas, into
      exactly one cell per header, in header order. */
  lemma RowLineCells(headers: seq<string>, row: Row)
    requires |headers| > 0
    requires forall j :: 0 <= j < |headers| ==> ',' !in CellText(Get(row, headers[j]))
    ensures
      var cells := Split(RowLine(headers, row), ',');
      && |cells| == |headers|
      && forall j :: 0 <= j < |headers| ==> cells[j] == CellText(Get(row, headers[j]))
  {
    SplitJoin(RowCells(headers, row), ',');
  }
}
