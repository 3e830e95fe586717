/** What the CSV parser (data_runtime.rs) reads in any text that it accepts, not only in those that the writer makes. */
module CsvTexts {
  import opened Text
  import opened Csv

  // ---- Raw texts ----

  /** A piece of a raw cell: an ordinary character, a carriage return, or a quoted stretch that stands for s. */
  datatype Piece = Plain(c: char) | Return | Quoted(s: string)

  type Cell = seq<Piece>

  predicate IsOrdinary(c: char) { c != ',' && c != '"' && c != '\n' && c != '\r' }

  /** No two quoted stretches touch: they would be one, with a quote between them. */
  predicate CellOk(cell: Cell) {
    cell == [] ||
    (&& (cell[0].Plain? ==> IsOrdinary(cell[0].c))
     && (cell[0].Quoted? && |cell| > 1 ==> !cell[1].Quoted?)
     && CellOk(cell[1..]))
  }

  function PieceText(piece: Piece): string {
    match piece
    case Plain(c) => [c]
    case Return => "\r"
    case Quoted(s) => "\"" + DoubleQuotes(s) + "\""
  }

  function CellText(cell: Cell): string {
    if cell == [] then "" else PieceText(cell[0]) + CellText(cell[1..])
  }

  function LineText(cells: seq<Cell>): string {
    if cells == [] then ""
    else if |cells| == 1 then CellText(cells[0])
    else CellText(cells[0]) + ("," + LineText(cells[1..]))
  }

  /** Lines of cells, with a line feed between one line and the next. */
  function RawText(lines: seq<seq<Cell>>): string {
    if lines == [] then ""
    else if |lines| == 1 then LineText(lines[0])
    else LineText(lines[0]) + ("\n" + RawText(lines[1..]))
  }

  predicate LineOk(cells: seq<Cell>) {
    cells != [] && CellOk(cells[0]) && (|cells| > 1 ==> LineOk(cells[1..]))
  }

  predicate LinesOk(lines: seq<seq<Cell>>) {
    lines != [] && LineOk(lines[0]) && (|lines| > 1 ==> LinesOk(lines[1..]))
  }

  // ---- What is read ----

  function PieceValue(piece: Piece): string {
    match piece
    case Plain(c) => [c]
    case Return => ""
    case Quoted(s) => s
  }

  function CellValue(cell: Cell): string {
    if cell == [] then "" else PieceValue(cell[0]) + CellValue(cell[1..])
  }

  function LineValues(cells: seq<Cell>): Row {
    seq(|cells|, k requires 0 <= k < |cells| => CellValue(cells[k]))
  }

  function AllValues(lines: seq<seq<Cell>>): seq<Row> {
    seq(|lines|, k requires 0 <= k < |lines| => LineValues(lines[k]))
  }

  predicate NoQuoteNext(rest: string) { rest == "" || rest[0] != '"' }

  lemma AfterQuoted(cell: Cell, rest: string)
    requires CellOk(cell) && (cell == [] || !cell[0].Quoted?) && NoQuoteNext(rest)
    ensures NoQuoteNext(CellText(cell) + rest)
  {
    if cell == [] {
      assert CellText(cell) + rest == rest;
    }
  }

  lemma ConsumeOne(p: Parser, c: char, rest: string)
    requires !p.inQuotes && c != '"' && c != ',' && c != '\n'
    ensures Consume(p, [c] + rest) == Consume(if c == '\r' then p else p.Push(c), rest)
  {
    assert ([c] + rest)[1..] == rest;
  }

  lemma ConsumePiece(p: Parser, piece: Piece, rest: string)
    requires !p.inQuotes && (piece.Plain? ==> IsOrdinary(piece.c)) && (piece.Quoted? ==> NoQuoteNext(rest))
    ensures Consume(p, PieceText(piece) + rest) == Consume(p.(field := p.field + PieceValue(piece)), rest)
  {
    hide Consume, DoubleQuotes;
    match piece
    case Plain(c) => ConsumeOne(p, c, rest);
    case Return =>
      ConsumeOne(p, '\r', rest);
      assert p.field + "" == p.field;
    case Quoted(s) =>
      var inner := DoubleQuotes(s) + "\"" + rest;
      assert PieceText(piece) + rest == ['"'] + inner;
      ConsumeOpeningQuote(p, inner);
      ConsumeQuoted(p.(inQuotes := true), s, rest);
  }

  lemma {:induction false} ConsumeRawCell(p: Parser, cell: Cell, rest: string)
    requires !p.inQuotes && CellOk(cell) && NoQuoteNext(rest)
    ensures Consume(p, CellText(cell) + rest) == Consume(p.(field := p.field + CellValue(cell)), rest)
    decreases |cell|
  {
    hide Consume, PieceText, PieceValue;
    if cell == [] {
      assert CellText(cell) + rest == rest && p.field + CellValue(cell) == p.field;
    } else {
      var first, tail := PieceText(cell[0]), CellText(cell[1..]);
      assert CellText(cell) + rest == first + (tail + rest) by { assert CellText(cell) == first + tail; }
      if cell[0].Quoted? { AfterQuoted(cell[1..], rest); }
      ConsumePiece(p, cell[0], tail + rest);
      var next := p.(field := p.field + PieceValue(cell[0]));
      ConsumeRawCell(next, cell[1..], rest);
      assert next.field + CellValue(cell[1..]) == p.field + (PieceValue(cell[0]) + CellValue(cell[1..]));
    }
  }

  lemma {:induction false} ConsumeLine(p: Parser, cells: seq<Cell>, rest: string)
    requires !p.inQuotes && p.field == "" && LineOk(cells) && NoQuoteNext(rest)
    ensures var values, n := LineValues(cells), |cells| - 1;
            Consume(p, LineText(cells) + rest) == Consume(p.(row := p.row + values[..n], field := values[n]), rest)
    decreases |cells|
  {
    hide Consume, CellText, CellValue, CellOk;
    var value := CellValue(cells[0]);
    assert p.field + value == value;
    if |cells| == 1 {
      ConsumeRawCell(p, cells[0], rest);
      assert p.row + LineValues(cells)[..0] == p.row;
    } else {
      var more := LineText(cells[1..]) + rest;
      assert LineText(cells) + rest == CellText(cells[0]) + ("," + more);
      ConsumeRawCell(p, cells[0], "," + more);
      ConsumeComma(p.(field := value), more);
      ConsumeLine(p.(row := p.row + [value]), cells[1..], rest);
      assert [value] + LineValues(cells[1..]) == LineValues(cells);
      assert p.row + [value] + LineValues(cells[1..])[..|cells| - 2] == p.row + LineValues(cells)[..|cells| - 1];
    }
  }

  lemma ConsumeComma(p: Parser, rest: string)
    requires !p.inQuotes
    ensures Consume(p, "," + rest) == Consume(p.EndField(), rest)
  {
    assert ("," + rest)[1..] == rest;
  }

  /** The rows that the lines give: a last line of one empty cell gives none. */
  function RowsRead(lines: seq<seq<Cell>>): seq<Row> {
    var values := AllValues(lines);
    if values != [] && values[|values| - 1] == [""] then values[..|values| - 1] else values
  }

  lemma {:induction false} FinishLines(p: Parser, lines: seq<seq<Cell>>)
    requires !p.inQuotes && p.field == "" && p.row == [] && LinesOk(lines)
    ensures Finish(Consume(p, RawText(lines))) == Ok(p.rows + RowsRead(lines))
    decreases |lines|
  {
    hide Consume, Finish, LineText, LineValues, LineOk, RowsRead;
    RowsReadStep(lines);
    if |lines| == 1 {
      LastLine(p, lines[0]);
    } else {
      var more := RawText(lines[1..]);
      NextLine(p, lines[0], more);
      var next := p.(rows := p.rows + [LineValues(lines[0])]);
      FinishLines(next, lines[1..]);
      assert next.rows + RowsRead(lines[1..]) == p.rows + ([LineValues(lines[0])] + RowsRead(lines[1..]));
    }
  }

  lemma RowsReadStep(lines: seq<seq<Cell>>)
    requires lines != []
    ensures RowsRead(lines) ==
            if |lines| > 1 then [LineValues(lines[0])] + RowsRead(lines[1..])
            else if LineValues(lines[0]) == [""] then [] else [LineValues(lines[0])]
  {
    hide LineValues;
    if |lines| > 1 {
      assert AllValues(lines) == [LineValues(lines[0])] + AllValues(lines[1..]);
    } else {
      assert AllValues(lines) == [LineValues(lines[0])];
    }
  }

  lemma SplitLast(row: Row)
    requires row != []
    ensures [] + row[..|row| - 1] + [row[|row| - 1]] == row && [] + row[..|row| - 1] == row[..|row| - 1]
  {
  }

  lemma NextLine(p: Parser, cells: seq<Cell>, more: string)
    requires !p.inQuotes && p.field == "" && p.row == [] && LineOk(cells)
    ensures Consume(p, LineText(cells) + ("\n" + more)) == Consume(p.(rows := p.rows + [LineValues(cells)]), more)
  {
    hide Consume, LineText, CellValue, CellOk;
    var values := LineValues(cells);
    ConsumeLine(p, cells, "\n" + more);
    SplitLast(values);
    ConsumeEol(p.(row := values[..|values| - 1], field := values[|values| - 1]), "\n", more);
  }

  lemma LastLine(p: Parser, cells: seq<Cell>)
    requires !p.inQuotes && p.field == "" && p.row == [] && LineOk(cells)
    ensures Finish(Consume(p, LineText(cells)))
         == Ok(p.rows + if LineValues(cells) == [""] then [] else [LineValues(cells)])
  {
    hide LineText, CellValue, CellOk;
    var values := LineValues(cells);
    ConsumeLine(p, cells, "");
    assert LineText(cells) + "" == LineText(cells);
    SplitLast(values);
    assert p.rows + [] == p.rows;
  }

  /** The parser reads every cell by itself: ordinary characters stand for themselves, carriage returns outside quotes
      vanish, and a quoted stretch stands for its content, wherever in the cell it is. */
  lemma ParseMeaning(lines: seq<seq<Cell>>)
    requires LinesOk(lines)
    ensures Parse(RawText(lines)) == Ok(RowsRead(lines))
  {
    hide Consume, Finish, RowsRead, RawText, LinesOk;
    FinishLines(NEW_PARSER, lines);
    assert NEW_PARSER.rows + RowsRead(lines) == RowsRead(lines);
  }

  // ---- Every accepted text is raw text ----

  /** The quoted stretch that begins after an opening quote, and what follows its closing quote. */
  lemma {:induction false} ReadQuoted(text: string) returns (s: string, rest: string)
    requires QuoteCount(text) % 2 == 1
    ensures text == DoubleQuotes(s) + "\"" + rest && NoQuoteNext(rest)
    ensures |rest| < |text| && QuoteCount(rest) % 2 == 0
    decreases |text|
  {
    if text[0] != '"' {
      s, rest := ReadQuoted(text[1..]);
      Doubled(text[0], s, rest);
      assert text == [text[0]] + text[1..];
      s := [text[0]] + s;
    } else if |text| > 1 && text[1] == '"' {
      assert text[1..][1..] == text[2..];
      s, rest := ReadQuoted(text[2..]);
      Doubled('"', s, rest);
      assert text == "\"\"" + text[2..];
      s := ['"'] + s;
    } else {
      s, rest := "", text[1..];
    }
  }

  lemma Doubled(c: char, s: string, rest: string)
    ensures DoubleQuotes([c] + s) + "\"" + rest ==
            (if c == '"' then "\"\"" else [c]) + (DoubleQuotes(s) + "\"" + rest)
  {
    assert ([c] + s)[1..] == s;
  }

  lemma PushPiece(piece: Piece, cells: seq<Cell>)
    requires LineOk(cells) && (piece.Plain? ==> IsOrdinary(piece.c))
    requires piece.Quoted? && cells[0] != [] ==> !cells[0][0].Quoted?
    ensures var more := [[piece] + cells[0]] + cells[1..];
            LineOk(more) && LineText(more) == PieceText(piece) + LineText(cells)
  {
    PushOnCell(piece, cells[0]);
    hide PieceText, CellText, CellOk, LineText, LineOk;
    FirstCell(cells, [piece] + cells[0], PieceText(piece));
  }

  /** A longer first cell makes a longer line. */
  lemma FirstCell(cells: seq<Cell>, cell: Cell, prefix: string)
    requires LineOk(cells) && CellOk(cell) && CellText(cell) == prefix + CellText(cells[0])
    ensures var more := [cell] + cells[1..]; LineOk(more) && LineText(more) == prefix + LineText(cells)
  {
    hide CellText, CellOk;
    var more := [cell] + cells[1..];
    assert more[0] == cell && more[1..] == cells[1..];
    if |cells| > 1 {
      var rest := "," + LineText(cells[1..]);
      assert prefix + CellText(cells[0]) + rest == prefix + (CellText(cells[0]) + rest);
    }
  }

  lemma PushOnCell(piece: Piece, cell: Cell)
    requires CellOk(cell) && (piece.Plain? ==> IsOrdinary(piece.c))
    requires piece.Quoted? && cell != [] ==> !cell[0].Quoted?
    ensures CellOk([piece] + cell) && CellText([piece] + cell) == PieceText(piece) + CellText(cell)
  {
    hide PieceText;
    assert ([piece] + cell)[1..] == cell;
  }

  /** A longer first line makes a longer text. */
  lemma FirstLine(lines: seq<seq<Cell>>, line: seq<Cell>, prefix: string)
    requires LinesOk(lines) && LineOk(line) && LineText(line) == prefix + LineText(lines[0])
    ensures var more := [line] + lines[1..]; LinesOk(more) && RawText(more) == prefix + RawText(lines)
  {
    hide LineText, LineOk;
    var more := [line] + lines[1..];
    assert more[0] == line && more[1..] == lines[1..];
    if |lines| > 1 {
      var rest := "\n" + RawText(lines[1..]);
      assert prefix + LineText(lines[0]) + rest == prefix + (LineText(lines[0]) + rest);
    }
  }

  lemma PushOnFirst(piece: Piece, lines: seq<seq<Cell>>)
    requires LinesOk(lines) && (piece.Plain? ==> IsOrdinary(piece.c))
    requires piece.Quoted? && lines[0][0] != [] ==> !lines[0][0][0].Quoted?
    ensures var more := [[[piece] + lines[0][0]] + lines[0][1..]] + lines[1..];
            LinesOk(more) && RawText(more) == PieceText(piece) + RawText(lines)
  {
    hide PieceText, LineText, CellOk;
    PushPiece(piece, lines[0]);
    FirstLine(lines, [[piece] + lines[0][0]] + lines[0][1..], PieceText(piece));
  }

  lemma NewCellInLine(cells: seq<Cell>)
    requires LineOk(cells)
    ensures LineOk([[]] + cells) && LineText([[]] + cells) == "," + LineText(cells)
  {
    hide CellOk;
    EmptyCellOk([]);
    var line: seq<Cell> := [[]] + cells;
    assert line[0] == [] && line[1..] == cells;
    assert "" + ("," + LineText(cells)) == "," + LineText(cells);
  }

  lemma NewCell(lines: seq<seq<Cell>>)
    requires LinesOk(lines)
    ensures var more := [[[]] + lines[0]] + lines[1..]; LinesOk(more) && RawText(more) == "," + RawText(lines)
  {
    NewCellInLine(lines[0]);
    hide LineText, LineOk, RawText, LinesOk;
    FirstLine(lines, [[]] + lines[0], ",");
  }

  lemma NewLine(lines: seq<seq<Cell>>)
    requires LinesOk(lines)
    ensures var more := [[[]]] + lines; LinesOk(more) && RawText(more) == "\n" + RawText(lines)
  {
    hide CellOk;
    EmptyCellOk([]);
    var more: seq<seq<Cell>> := [[[]]] + lines;
    assert more[1..] == lines && LineText(more[0]) == "";
    assert RawText(more) == "" + ("\n" + RawText(lines));
  }

  lemma EmptyCellOk(cell: Cell)
    requires cell == []
    ensures CellOk(cell) && CellText(cell) == ""
  {
  }

  /** Text that begins with a quoted stretch begins with a quote. */
  lemma FirstPiece(lines: seq<seq<Cell>>)
    requires LinesOk(lines) && lines[0][0] != [] && lines[0][0][0].Quoted?
    ensures RawText(lines) != "" && RawText(lines)[0] == '"'
  {
    hide DoubleQuotes, CellOk;
    var piece := lines[0][0][0];
    assert PieceText(piece)[0] == '"';
    assert CellText(lines[0][0])[0] == '"';
    assert LineText(lines[0])[0] == '"';
  }

  /** Every text with an even number of quotes, that is, every one that the parser accepts, is the text of raw lines. */
  lemma {:induction false} EveryAcceptedText(text: string) returns (lines: seq<seq<Cell>>)
    requires QuoteCount(text) % 2 == 0
    ensures LinesOk(lines) && RawText(lines) == text
    decreases |text|
  {
    hide PieceText, LineText, RawText, CellOk, LinesOk;
    if text == "" {
      lines := [[[]]];
      EmptyText(lines);
    } else if text[0] == '"' {
      var s, rest := ReadQuoted(text[1..]);
      lines := EveryAcceptedText(rest);
      Shape(lines);
      if lines[0][0] != [] && lines[0][0][0].Quoted? { FirstPiece(lines); }
      PushOnFirst(Quoted(s), lines);
      QuotedText(s, rest, text);
      lines := [[[Quoted(s)] + lines[0][0]] + lines[0][1..]] + lines[1..];
    } else {
      lines := EveryAcceptedText(text[1..]);
      Shape(lines);
      assert text == [text[0]] + text[1..];
      if text[0] == ',' {
        NewCell(lines);
        lines := [[[]] + lines[0]] + lines[1..];
      } else if text[0] == '\n' {
        NewLine(lines);
        lines := [[[]]] + lines;
      } else {
        var piece := if text[0] == '\r' then Return else Plain(text[0]);
        assert PieceText(piece) == [text[0]] by { CharText(piece, text[0]); }
        PushOnFirst(piece, lines);
        lines := [[[piece] + lines[0][0]] + lines[0][1..]] + lines[1..];
      }
    }
  }

  lemma Shape(lines: seq<seq<Cell>>)
    requires LinesOk(lines)
    ensures lines != [] && lines[0] != []
  {
    assert LineOk(lines[0]);
  }

  lemma EmptyText(lines: seq<seq<Cell>>)
    requires lines == [[[]]]
    ensures LinesOk(lines) && RawText(lines) == ""
  {
    EmptyCellOk(lines[0][0]);
  }

  lemma CharText(piece: Piece, c: char)
    requires piece == if c == '\r' then Return else Plain(c)
    ensures PieceText(piece) == [c]
  {
  }

  lemma QuotedText(s: string, rest: string, text: string)
    requires text != "" && text[0] == '"' && text[1..] == DoubleQuotes(s) + "\"" + rest
    ensures text == PieceText(Quoted(s)) + rest
  {
    assert text == "\"" + text[1..];
  }
}
