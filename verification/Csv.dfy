/** CSV export and import of the data runtime (data_runtime.rs). */
module Csv {
  import opened Text

  type Row = seq<string>
  /** A record whose values are strings; it has no entry for an absent column. */
  type Record = map<string, string>

  datatype DataSet = DataSet(schema: seq<string>, records: seq<Record>)

  datatype CsvError = UnterminatedQuotedField

  // ---- Writing ----

  predicate NeedsQuotes(cell: string) {
    ',' in cell || '"' in cell || '\n' in cell || '\r' in cell
  }

  function DoubleQuotes(s: string): string {
    if s == "" then ""
    else (if s[0] == '"' then "\"\"" else [s[0]]) + DoubleQuotes(s[1..])
  }

  function Escape(cell: string): string {
    if NeedsQuotes(cell) then "\"" + DoubleQuotes(cell) + "\"" else cell
  }

  function RowText(cells: Row): string {
    if cells == [] then ""
    else if |cells| == 1 then Escape(cells[0])
    else Escape(cells[0]) + "," + RowText(cells[1..])
  }

  function CsvText(rows: seq<Row>, eol: string): string {
    if rows == [] then "" else RowText(rows[0]) + eol + CsvText(rows[1..], eol)
  }

  function Headers(dataset: DataSet): Row {
    if dataset.schema == [] then ["value"] else dataset.schema
  }

  function Cells(headers: Row, record: Record): Row {
    seq(|headers|, i requires 0 <= i < |headers| => if headers[i] in record then record[headers[i]] else "")
  }

  /** The table an export is meant to contain: the header row, then one row of cells per record. */
  function Table(dataset: DataSet): seq<Row> {
    [Headers(dataset)] + seq(|dataset.records|, i requires 0 <= i < |dataset.records| =>
        Cells(Headers(dataset), dataset.records[i]))
  }

  /** A cell is quoted exactly when it contains a comma, a quote or a line-end character. */
  lemma EscapeMeaning(cell: string)
    ensures (forall c :: c in cell ==> c !in [',', '"', '\n', '\r']) ==> Escape(cell) == cell
    ensures (exists c :: c in cell && c in [',', '"', '\n', '\r']) ==>
              |Escape(cell)| >= |cell| + 2 && Escape(cell)[0] == '"' && Escape(cell)[|Escape(cell)| - 1] == '"'
  {
    DoublingGrows(cell);
  }

  lemma {:induction false} DoublingGrows(s: string)
    ensures |DoubleQuotes(s)| >= |s|
  {
    if s != "" { DoublingGrows(s[1..]); }
  }

  /** The header row is the schema, or the one column value; a record without a column has an empty cell there. */
  lemma TableMeaning(dataset: DataSet, i: nat, k: nat)
    requires i < |dataset.records| && k < |Table(dataset)[0]|
    ensures var table, record := Table(dataset), dataset.records[i];
            && |table| == 1 + |dataset.records| && |table[1 + i]| == |table[0]|
            && table[0] == (if dataset.schema == [] then ["value"] else dataset.schema)
            && table[1 + i][k] == if table[0][k] in record then record[table[0][k]] else ""
  {
  }

  method DatasetToCsv(dataset: DataSet) returns (out: string)
    ensures out == CsvText(Table(dataset), "\n")
  {
    hide RowText, Headers, Cells;
    var headers := Headers(dataset);
    out := RowText(headers) + "\n";
    ghost var table := Table(dataset);
    assert table[..1] == [headers];
    CsvTextAppend([], headers, "\n");
    var i := 0;
    while i < |dataset.records|
      invariant 0 <= i <= |dataset.records|
      invariant out == CsvText(table[..i + 1], "\n")
    {
      var cells := Cells(headers, dataset.records[i]);
      CsvTextAppend(table[..i + 1], cells, "\n");
      assert table[..i + 2] == table[..i + 1] + [cells];
      out := out + RowText(cells) + "\n";
      i := i + 1;
    }
    assert table[..i + 1] == table;
  }

  lemma OneRowText(row: Row, eol: string)
    ensures CsvText([row], eol) == RowText(row) + eol
  {
    assert [row][1..] == [] && RowText(row) + eol + "" == RowText(row) + eol;
  }

  lemma Associate(a: string, b: string, c: string, d: string)
    ensures a + (b + c + d) == a + b + c + d
  {
  }

  lemma {:induction false} CsvTextAppend(rows: seq<Row>, row: Row, eol: string)
    ensures CsvText(rows + [row], eol) == CsvText(rows, eol) + RowText(row) + eol
  {
    if rows == [] {
      assert rows + [row] == [row];
      OneRowText(row, eol);
      assert "" + RowText(row) == RowText(row);
    } else {
      var longer := rows + [row];
      assert longer[0] == rows[0] && longer[1..] == rows[1..] + [row];
      CsvTextAppend(rows[1..], row, eol);
      Associate(RowText(rows[0]) + eol, CsvText(rows[1..], eol), RowText(row), eol);
    }
  }

  // ---- Parsing ----

  /** What the parser has built so far. */
  datatype Parser = Parser(rows: seq<Row>, row: Row, field: string, inQuotes: bool) {
    function EndField(): Parser { this.(row := row + [field], field := "") }
    function EndRow(): Parser { this.(rows := rows + [row + [field]], row := [], field := "") }
    function Push(c: char): Parser { this.(field := field + [c]) }
  }

  const NEW_PARSER := Parser([], [], "", false)

  function Consume(p: Parser, text: string): Parser
    decreases |text|
  {
    if text == "" then p
    else
      var rest := text[1..];
      match text[0]
      case '"' =>
        if p.inQuotes && rest != "" && rest[0] == '"' then Consume(p.Push('"'), rest[1..])
        else Consume(p.(inQuotes := !p.inQuotes), rest)
      case c =>
        if p.inQuotes then Consume(p.Push(c), rest)
        else if c == ',' then Consume(p.EndField(), rest)
        else if c == '\n' then Consume(p.EndRow(), rest)
        else if c == '\r' then Consume(p, rest)
        else Consume(p.Push(c), rest)
  }

  function Finish(p: Parser): Result<seq<Row>, CsvError> {
    if p.inQuotes then Err(UnterminatedQuotedField)
    else if p.field != "" || p.row != [] then Ok(p.EndRow().rows)
    else Ok(p.rows)
  }

  function Parse(text: string): Result<seq<Row>, CsvError> {
    Finish(Consume(NEW_PARSER, text))
  }

  method ParseCsvRecords(text: string) returns (r: Result<seq<Row>, CsvError>)
    ensures r == Parse(text)
  {
    var rows: seq<Row>, row: Row, field, inQuotes := [], [], "", false;
    var i := 0;
    assert text[0..] == text;
    while i < |text|
      invariant 0 <= i <= |text|
      invariant Consume(NEW_PARSER, text) == Consume(Parser(rows, row, field, inQuotes), text[i..])
      decreases |text| - i
    {
      var c := text[i];
      i := i + 1;
      assert text[i - 1..][1..] == text[i..];
      if c == '"' && inQuotes && i < |text| && text[i] == '"' {
        assert text[i..][1..] == text[i + 1..];
        field := field + ['"'];
        i := i + 1;
      } else if c == '"' {
        inQuotes := !inQuotes;
      } else if c == ',' && !inQuotes {
        row, field := row + [field], "";
      } else if c == '\n' && !inQuotes {
        rows, row, field := rows + [row + [field]], [], "";
      } else if c == '\r' && !inQuotes {
      } else {
        field := field + [c];
      }
    }
    if inQuotes {
      return Err(UnterminatedQuotedField);
    }
    if field != "" || row != [] {
      row := row + [field];
      rows := rows + [row];
    }
    return Ok(rows);
  }

  function QuoteCount(text: string): nat {
    if text == "" then 0 else (if text[0] == '"' then 1 else 0) + QuoteCount(text[1..])
  }

  lemma {:induction false} ConsumeParity(p: Parser, text: string)
    ensures Consume(p, text).inQuotes <==> (p.inQuotes <==> QuoteCount(text) % 2 == 0)
    decreases |text|
  {
    if text != "" {
      var rest := text[1..];
      if text[0] == '"' {
        if p.inQuotes && rest != "" && rest[0] == '"' {
          ConsumeParity(p.Push('"'), rest[1..]);
        } else {
          ConsumeParity(p.(inQuotes := !p.inQuotes), rest);
        }
      } else {
        ConsumeParity(p.Push(text[0]), rest);
        ConsumeParity(p.EndField(), rest);
        ConsumeParity(p.EndRow(), rest);
        ConsumeParity(p, rest);
      }
    }
  }

  /** The parser rejects exactly the texts with an odd number of quote characters. */
  lemma ParseFailsIffOddQuotes(text: string)
    ensures Parse(text).Err? <==> QuoteCount(text) % 2 == 1
  {
    ConsumeParity(NEW_PARSER, text);
  }

  // ---- The parser undoes the writer ----

  lemma {:induction false} ConsumePlain(p: Parser, cell: string, rest: string)
    requires !p.inQuotes && !NeedsQuotes(cell)
    ensures Consume(p, cell + rest) == Consume(p.(field := p.field + cell), rest)
    decreases |cell|
  {
    if cell == "" {
      assert cell + rest == rest && p.field + cell == p.field;
    } else {
      assert (cell + rest)[1..] == cell[1..] + rest;
      assert p.field + cell == p.field + [cell[0]] + cell[1..];
      ConsumePlain(p.Push(cell[0]), cell[1..], rest);
    }
  }

  lemma {:induction false} ConsumeQuoted(p: Parser, cell: string, rest: string)
    requires p.inQuotes && (rest == "" || rest[0] != '"')
    ensures Consume(p, DoubleQuotes(cell) + "\"" + rest) ==
            Consume(p.(field := p.field + cell, inQuotes := false), rest)
    decreases |cell|
  {
    var text := DoubleQuotes(cell) + "\"" + rest;
    if cell == "" {
      assert text[0] == '"' && text[1..] == rest && p.field + cell == p.field;
    } else {
      var tail := DoubleQuotes(cell[1..]) + "\"" + rest;
      assert p.field + cell == p.field + [cell[0]] + cell[1..];
      ConsumeQuoted(p.Push(cell[0]), cell[1..], rest);
      if cell[0] == '"' {
        assert text[1..][1..] == tail && text[1] == '"';
      } else {
        assert text[1..] == tail;
      }
    }
  }

  lemma ConsumeCell(p: Parser, cell: string, rest: string)
    requires !p.inQuotes && p.field == "" && (rest == "" || rest[0] != '"')
    ensures Consume(p, Escape(cell) + rest) == Consume(p.(field := cell), rest)
  {
    assert p.field + cell == cell;
    if NeedsQuotes(cell) {
      var inner := DoubleQuotes(cell) + "\"" + rest;
      assert Escape(cell) + rest == ['"'] + inner;
      ConsumeOpeningQuote(p, inner);
      ConsumeQuoted(p.(inQuotes := true), cell, rest);
    } else {
      ConsumePlain(p, cell, rest);
    }
  }

  lemma ConsumeOpeningQuote(p: Parser, rest: string)
    requires !p.inQuotes
    ensures Consume(p, ['"'] + rest) == Consume(p.(inQuotes := true), rest)
  {
    assert (['"'] + rest)[1..] == rest;
  }

  /** A line ending the parser accepts: LF, or CR LF as section 2 of RFC 4180 has it. */
  predicate IsEol(eol: string) { eol == "\n" || eol == "\r\n" }

  lemma ConsumeEol(p: Parser, eol: string, rest: string)
    requires !p.inQuotes && IsEol(eol)
    ensures Consume(p, eol + rest) == Consume(p.EndRow(), rest)
  {
    if eol == "\n" {
      assert (eol + rest)[1..] == rest;
    } else {
      assert (eol + rest)[1..] == "\n" + rest && ("\n" + rest)[1..] == rest;
    }
  }

  lemma ConsumeLastCell(p: Parser, cell: string, eol: string, rest: string)
    requires !p.inQuotes && p.field == "" && IsEol(eol)
    ensures Consume(p, Escape(cell) + (eol + rest)) == Consume(p.(rows := p.rows + [p.row + [cell]], row := []), rest)
  {
    ConsumeCell(p, cell, eol + rest);
    ConsumeEol(p.(field := cell), eol, rest);
  }

  lemma ConsumeInnerCell(p: Parser, cell: string, rest: string)
    requires !p.inQuotes && p.field == ""
    ensures Consume(p, Escape(cell) + ("," + rest)) == Consume(p.(row := p.row + [cell]), rest)
  {
    ConsumeCell(p, cell, "," + rest);
    assert ("," + rest)[1..] == rest;
  }

  lemma AssociateCell(first: string, tail: string, eol: string, rest: string)
    ensures first + eol + rest == first + (eol + rest)
    ensures first + "," + tail + eol + rest == first + ("," + (tail + eol + rest))
  {
    assert first + "," + tail + eol + rest == first + ("," + tail + eol + rest);
    assert "," + tail + eol + rest == "," + (tail + eol + rest);
  }

  lemma {:induction false} ConsumeRow(p: Parser, cells: Row, eol: string, rest: string)
    requires !p.inQuotes && p.field == "" && cells != [] && IsEol(eol)
    ensures Consume(p, RowText(cells) + eol + rest) == Consume(p.(rows := p.rows + [p.row + cells], row := []), rest)
    decreases |cells|
  {
    var first, tail := Escape(cells[0]), RowText(cells[1..]);
    AssociateCell(first, tail, eol, rest);
    if |cells| == 1 {
      ConsumeLastCell(p, cells[0], eol, rest);
      assert cells == [cells[0]];
    } else {
      var next := p.(row := p.row + [cells[0]]);
      ConsumeInnerCell(p, cells[0], tail + eol + rest);
      ConsumeRow(next, cells[1..], eol, rest);
      assert next.row + cells[1..] == p.row + cells;
    }
  }

  lemma {:induction false} ConsumeTable(p: Parser, rows: seq<Row>, eol: string, rest: string)
    requires !p.inQuotes && p.field == "" && p.row == [] && IsEol(eol)
    requires forall k :: 0 <= k < |rows| ==> rows[k] != []
    ensures Consume(p, CsvText(rows, eol) + rest) == Consume(p.(rows := p.rows + rows), rest)
    decreases |rows|
  {
    hide Consume, RowText;
    if rows == [] {
      assert p.rows + rows == p.rows && CsvText(rows, eol) + rest == rest;
    } else {
      var first, tail := RowText(rows[0]) + eol, CsvText(rows[1..], eol);
      assert first + tail + rest == first + (tail + rest);
      ConsumeRow(p, rows[0], eol, tail + rest);
      assert p.row + rows[0] == rows[0];
      ConsumeTable(p.(rows := p.rows + [rows[0]]), rows[1..], eol, rest);
      assert p.rows + [rows[0]] + rows[1..] == p.rows + rows;
    }
  }

  /** Parsing the text of a table gives the table back, whatever the cells contain and with either line ending. */
  lemma ParseUndoesWrite(rows: seq<Row>, eol: string)
    requires IsEol(eol) && forall k :: 0 <= k < |rows| ==> rows[k] != []
    ensures Parse(CsvText(rows, eol)) == Ok(rows)
  {
    ConsumeTable(NEW_PARSER, rows, eol, "");
    assert NEW_PARSER.rows + rows == rows && CsvText(rows, eol) + "" == CsvText(rows, eol);
  }

  lemma ConsumeOnlyCell(p: Parser, cell: string)
    requires !p.inQuotes && p.field == ""
    ensures Consume(p, Escape(cell)) == p.(field := cell)
  {
    hide Escape;
    ConsumeCell(p, cell, "");
    assert Escape(cell) + "" == Escape(cell);
  }

  lemma {:induction false} ConsumeOpenRow(p: Parser, cells: Row, last: string)
    requires !p.inQuotes && p.field == ""
    ensures Consume(p, RowText(cells + [last])) == p.(row := p.row + cells, field := last)
    decreases |cells|
  {
    hide Escape, Consume;
    var row := cells + [last];
    if cells == [] {
      ConsumeOnlyCell(p, last);
      assert row == [last] && p.row + cells == p.row;
    } else {
      var next, tail := p.(row := p.row + [cells[0]]), RowText(cells[1..] + [last]);
      assert row[0] == cells[0] && row[1..] == cells[1..] + [last];
      assert Escape(cells[0]) + "," + tail == Escape(cells[0]) + ("," + tail);
      ConsumeInnerCell(p, cells[0], tail);
      ConsumeOpenRow(next, cells[1..], last);
      assert p.row + [cells[0]] + cells[1..] == p.row + cells;
    }
  }

  /** Without the last line ending the last row is read all the same, unless it is a single empty cell: then there is
      nothing left to read. */
  lemma ParseWithoutLastEol(rows: seq<Row>, eol: string)
    requires IsEol(eol) && rows != [] && forall k :: 0 <= k < |rows| ==> rows[k] != []
    ensures var n := |rows| - 1;
            Parse(CsvText(rows[..n], eol) + RowText(rows[n])) == Ok(if rows[n] == [""] then rows[..n] else rows)
  {
    hide Consume, RowText;
    var n := |rows| - 1;
    var before := NEW_PARSER.(rows := rows[..n]);
    ConsumeTable(NEW_PARSER, rows[..n], eol, RowText(rows[n]));
    assert NEW_PARSER.rows + rows[..n] == rows[..n];
    var m := |rows[n]| - 1;
    assert rows[n] == rows[n][..m] + [rows[n][m]];
    ConsumeOpenRow(before, rows[n][..m], rows[n][m]);
    assert [] + rows[n][..m] == rows[n][..m];
    assert rows[..n] + [rows[n]] == rows;
  }

  /** Hence parsing an export gives the header row and one row of cells per record. */
  lemma ExportParses(dataset: DataSet, eol: string)
    requires IsEol(eol)
    ensures Parse(CsvText(Table(dataset), eol)) == Ok(Table(dataset))
  {
    ParseUndoesWrite(Table(dataset), eol);
  }

  // ---- Reading an export back ----

  function NumberedColumn(index: nat): string { "column_" + Decimal(index + 1) }

  function ColumnNames(header: Row): Row {
    seq(|header|, i requires 0 <= i < |header| =>
      var trimmed := Trim(header[i]); if trimmed == "" then NumberedColumn(i) else trimmed)
  }

  /** The first n columns of a row, inserted from left to right. */
  function RecordOf(names: Row, row: Row, n: nat): Record
    requires n <= |names|
  {
    if n == 0 then map[]
    else RecordOf(names, row, n - 1)[names[n - 1] := if n - 1 < |row| then row[n - 1] else ""]
  }

  function Max(a: nat, b: nat): nat { if a < b then b else a }

  function ReadRows(rows: seq<Row>, hasHeader: bool, maxRows: nat): seq<Record> {
    var first := if rows == [] then [] else rows[0];
    var rest := if rows == [] then [] else rows[1..];
    var names := if hasHeader && first != [] then ColumnNames(first)
        else seq(|first|, i requires 0 <= i < |first| => NumberedColumn(i));
    var dataRows := if hasHeader || first == [] then rest else [first] + rest;
    var limit := Max(maxRows, 1);
    var limited := if |dataRows| <= limit then dataRows else dataRows[..limit];
    seq(|limited|, i requires 0 <= i < |limited| => RecordOf(names, limited[i], |names|))
  }

  function ReadCsvDataset(text: string, hasHeader: bool, maxRows: nat): Result<seq<Record>, CsvError> {
    match Parse(text)
    case Err(e) => Err(e)
    case Ok(rows) => Ok(ReadRows(rows, hasHeader, maxRows))
  }

  /** The name of a column: its trimmed header cell, or its number when that is blank or there is no header row. */
  function NameOfColumn(first: Row, hasHeader: bool, k: nat): string
    requires k < |first|
  {
    if hasHeader && Trim(first[k]) != "" then Trim(first[k]) else "column_" + Decimal(k + 1)
  }

  /** The last column with this name. */
  predicate LastNamed(first: Row, hasHeader: bool, k: nat) {
    k < |first|
    && forall j :: k < j < |first| ==> NameOfColumn(first, hasHeader, j) != NameOfColumn(first, hasHeader, k)
  }

  lemma {:induction false} RecordOfLast(names: Row, row: Row, n: nat, k: nat)
    requires k < n <= |names| && forall j :: k < j < n ==> names[j] != names[k]
    ensures names[k] in RecordOf(names, row, n)
    ensures RecordOf(names, row, n)[names[k]] == if k < |row| then row[k] else ""
  {
    if k < n - 1 { RecordOfLast(names, row, n - 1, k); }
  }

  /**
    * Without a header row the first row is a record too. At least one record is read, and no more than the limit. The
    * last column of a name gives its value; a row that is too short gives empty values.
    */
  lemma ReadRowsMeaning(first: Row, rest: seq<Row>, hasHeader: bool, maxRows: nat, i: nat, k: nat)
    requires first != [] && LastNamed(first, hasHeader, k)
    ensures var data := if hasHeader then rest else [first] + rest;
            var records := ReadRows([first] + rest, hasHeader, maxRows);
            && |records| == (if |data| <= Max(maxRows, 1) then |data| else Max(maxRows, 1))
            && (i < |records| ==>
                  && NameOfColumn(first, hasHeader, k) in records[i]
                  && records[i][NameOfColumn(first, hasHeader, k)] == if k < |data[i]| then data[i][k] else "")
  {
    hide RecordOf, Trim, Decimal;
    var rows := [first] + rest;
    assert rows[1..] == rest;
    var names := if hasHeader then ColumnNames(first)
                 else seq(|first|, j requires 0 <= j < |first| => NumberedColumn(j));
    assert forall j :: 0 <= j < |first| ==> names[j] == NameOfColumn(first, hasHeader, j);
    var data := if hasHeader then rest else [first] + rest;
    if i < |ReadRows(rows, hasHeader, maxRows)| {
      RecordOfLast(names, data[i], |names|, k);
    }
  }

  predicate CleanName(name: string) { name != "" && Trim(name) == name }

  /** The schema write_dataset gives a dataset: the keys of its records, each once. */
  ghost predicate SchemaFromRecords(dataset: DataSet) {
    && NoDup(dataset.schema)
    && (forall name :: name in dataset.schema <==> exists i :: 0 <= i < |dataset.records| && name in dataset.records[i])
  }

  function SeqSet(names: Row): set<string> { set name | name in names }

  lemma {:induction false} RecordOfKeys(names: Row, row: Row, n: nat)
    requires n <= |names|
    ensures RecordOf(names, row, n).Keys == SeqSet(names[..n])
  {
    if n > 0 {
      RecordOfKeys(names, row, n - 1);
      assert names[..n] == names[..n - 1] + [names[n - 1]];
      assert SeqSet(names[..n]) == SeqSet(names[..n - 1]) + {names[n - 1]};
    }
  }

  lemma {:induction false} RecordOfCells(names: Row, record: Record, n: nat)
    requires NoDup(names) && n <= |names|
    ensures var r := RecordOf(names, Cells(names, record), n);
            forall k :: 0 <= k < n ==> names[k] in r && (names[k] in record ==> r[names[k]] == record[names[k]])
  {
    if n > 0 { RecordOfCells(names, record, n - 1); }
  }

  lemma NumberedColumnClean(index: nat)
    ensures CleanName(NumberedColumn(index))
  {
    var digits := Decimal(index + 1);
    var name := NumberedColumn(index);
    forall k | 0 <= k < |name|
      ensures !IsWhitespace(name[k])
    {
      if k >= 7 { assert name[k] == digits[k - 7]; }
    }
    TrimOfSolid(name);
  }

  predicate AllClean(names: Row) {
    forall name :: name in names ==> CleanName(name)
  }

  lemma ColumnNamesClean(header: Row)
    ensures AllClean(ColumnNames(header))
    ensures AllClean(header) ==> ColumnNames(header) == header
  {
    forall i | 0 <= i < |header|
      ensures CleanName(ColumnNames(header)[i])
      ensures CleanName(header[i]) ==> ColumnNames(header)[i] == header[i]
    {
      NumberedColumnClean(i);
      TrimIdempotent(header[i]);
    }
  }

  /** What reading the export of a dataset gives, before any condition. */
  lemma ReadBackRows(dataset: DataSet, eol: string, maxRows: nat, names: Row)
    requires IsEol(eol) && names == ColumnNames(Headers(dataset)) && |dataset.records| <= Max(maxRows, 1)
    ensures var r := ReadCsvDataset(CsvText(Table(dataset), eol), true, maxRows);
            && r.Ok? && |r.value| == |dataset.records|
            && forall i :: 0 <= i < |dataset.records| ==>
               r.value[i] == RecordOf(names, Cells(Headers(dataset), dataset.records[i]), |names|)
  {
    ExportParses(dataset, eol);
    var table := Table(dataset);
    assert table[0] == Headers(dataset) != [];
    var rest := table[1..];
    assert forall i :: 0 <= i < |dataset.records| ==> rest[i] == Cells(Headers(dataset), dataset.records[i]);
  }

  lemma ReadBackLength(dataset: DataSet, eol: string, maxRows: nat)
    requires IsEol(eol) && |dataset.records| > Max(maxRows, 1)
    ensures ReadCsvDataset(CsvText(Table(dataset), eol), true, maxRows) != Ok(dataset.records)
  {
    ExportParses(dataset, eol);
    assert |Table(dataset)[1..]| == |dataset.records|;
  }

  /** Every record has every column of a non-empty schema, and every column name is non-empty and trimmed. */
  ghost predicate Portable(dataset: DataSet) {
    dataset.records != [] ==>
      && dataset.schema != []
      && AllClean(dataset.schema)
      && forall i :: 0 <= i < |dataset.records| ==> dataset.records[i].Keys == SeqSet(dataset.schema)
  }

  lemma RecordOfAllCells(names: Row, record: Record)
    requires NoDup(names) && record.Keys == SeqSet(names)
    ensures RecordOf(names, Cells(names, record), |names|) == record
  {
    var r := RecordOf(names, Cells(names, record), |names|);
    assert names[..|names|] == names;
    RecordOfKeys(names, Cells(names, record), |names|);
    RecordOfCells(names, record, |names|);
    forall name | name in names
      ensures r[name] == record[name]
    {
      var k :| 0 <= k < |names| && names[k] == name;
    }
  }

  /** If every record has exactly the cleaned-up column names, the names needed no cleaning. */
  lemma CleanIfSameKeys(dataset: DataSet, names: Row)
    requires SchemaFromRecords(dataset) && dataset.records != [] && names != [] && AllClean(names)
    requires forall i :: 0 <= i < |dataset.records| ==> dataset.records[i].Keys == SeqSet(names)
    ensures dataset.schema != [] && AllClean(dataset.schema)
  {
    var schema, records := dataset.schema, dataset.records;
    assert names[0] in records[0] && names[0] in schema;
    forall name | name in schema
      ensures name in names
    {
      var i :| 0 <= i < |records| && name in records[i];
    }
  }

  /** Reading an export back returns the same records exactly when no row is cut off and the dataset is portable. */
  lemma ReadBack(dataset: DataSet, eol: string, maxRows: nat)
    requires IsEol(eol) && SchemaFromRecords(dataset)
    ensures ReadCsvDataset(CsvText(Table(dataset), eol), true, maxRows) == Ok(dataset.records) <==>
            |dataset.records| <= Max(maxRows, 1) && Portable(dataset)
  {
    if |dataset.records| > Max(maxRows, 1) {
      ReadBackLength(dataset, eol, maxRows);
    } else {
      var headers := Headers(dataset);
      ReadBackRows(dataset, eol, maxRows, ColumnNames(headers));
      ColumnNamesClean(headers);
      SameRecordsIffPortable(dataset, ReadCsvDataset(CsvText(Table(dataset), eol), true, maxRows).value,
          ColumnNames(headers));
    }
  }

  lemma SameRecordsIffPortable(dataset: DataSet, back: seq<Record>, names: Row)
    requires SchemaFromRecords(dataset) && |names| == |Headers(dataset)| && AllClean(names)
    requires AllClean(Headers(dataset)) ==> names == Headers(dataset)
    requires |back| == |dataset.records|
    requires forall i :: 0 <= i < |back| ==>
             back[i] == RecordOf(names, Cells(Headers(dataset), dataset.records[i]), |names|)
    ensures back == dataset.records <==> Portable(dataset)
  {
    var records, headers := dataset.records, Headers(dataset);
    if back == records != [] {
      forall i | 0 <= i < |records|
        ensures records[i].Keys == SeqSet(names)
      {
        RecordOfKeys(names, Cells(headers, records[i]), |names|);
        assert names[..|names|] == names;
      }
      CleanIfSameKeys(dataset, names);
    }
    if Portable(dataset) {
      forall i | 0 <= i < |records|
        ensures back[i] == records[i]
      {
        RecordOfAllCells(names, records[i]);
      }
    }
  }
}
