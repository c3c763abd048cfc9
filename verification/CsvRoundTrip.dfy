/** Reading undoes writing, and what reading returns on arbitrary text. */
module CsvRoundTrip {
  import opened Csv

  // ----- one cell

  lemma {:induction false} PlainCellReadsBack(cell: string, rest: string)
    requires !NeedsQuotes(cell) && EndsCell(rest)
    ensures ReadCell(cell + rest, false) == (cell, rest)
  {
    if cell == "" {
      assert cell + rest == rest;
    } else {
      assert forall i :: 0 <= i < |cell[1..]| ==> cell[1..][i] == cell[i + 1];
      PlainCellReadsBack(cell[1..], rest);
      assert (cell + rest)[1..] == cell[1..] + rest;
      assert [cell[0]] + cell[1..] == cell;
    }
  }

  lemma {:induction false} QuotedCellReadsBack(cell: string, rest: string)
    requires EndsCell(rest)
    ensures ReadCell(DoubleQuotes(cell) + "\"" + rest, true) == (cell, rest)
  {
    var t := DoubleQuotes(cell) + "\"" + rest;
    if cell == "" {
      assert t == "\"" + rest && t[1..] == rest;
    } else {
      var tail := DoubleQuotes(cell[1..]) + "\"" + rest;
      QuotedCellReadsBack(cell[1..], rest);
      assert [cell[0]] + cell[1..] == cell;
      if cell[0] == '"' {
        assert t == "\"\"" + tail && t[2..] == tail;
      } else {
        assert t == [cell[0]] + tail && t[1..] == tail;
      }
    }
  }

  lemma CellReadsBack(cell: string, rest: string)
    requires EndsCell(rest)
    ensures ReadCell(Escape(cell) + rest, false) == (cell, rest)
  {
    hide DoubleQuotes;
    if NeedsQuotes(cell) {
      var t := Escape(cell) + rest;
      assert t[1..] == DoubleQuotes(cell) + "\"" + rest;
      QuotedCellReadsBack(cell, rest);
    } else {
      PlainCellReadsBack(cell, rest);
    }
  }

  // ----- one row, all rows

  lemma {:induction false} RowReadsBack(before: Row, row: Row, rest: string)
    requires row != [] && (rest == "" || IsLineEnd(rest[0]))
    ensures ReadRow(before, "", false, JoinRow(row) + rest) == (before + row, rest)
    decreases |row|
  {
    hide ReadCell, Escape;
    var cell := row[0];
    assert "" + cell == cell;
    if |row| == 1 {
      CellReadsBack(cell, rest);
      assert [cell] == row;
    } else {
      var tail := "," + (JoinRow(row[1..]) + rest);
      CellReadsBack(cell, tail);
      assert JoinRow(row) + rest == Escape(cell) + tail;
      assert tail[1..] == JoinRow(row[1..]) + rest;
      RowReadsBack(before + [cell], row[1..], rest);
      assert before + [cell] + row[1..] == before + row;
    }
  }

  /** Printing and then reading gives every matrix of non-empty rows back, whatever its cells hold. */
  lemma {:induction false} ParseUndoesPrint(rows: seq<Row>)
    requires Printable(rows)
    ensures ParseMatrix(PrintMatrix(rows)) == rows
    decreases |rows|
  {
    var first := rows[0];
    if |rows| == 1 {
      RowReadsBack([], first, "");
      assert JoinRow(first) + "" == JoinRow(first);
      assert [] + first == first && [first] == rows;
    } else {
      var rest := "\r\n" + PrintMatrix(rows[1..]);
      RowReadsBack([], first, rest);
      assert PrintMatrix(rows) == JoinRow(first) + rest;
      assert [] + first == first;
      assert rest[2..] == PrintMatrix(rows[1..]);
      ParseUndoesPrint(rows[1..]);
      assert [first] + rows[1..] == rows;
    }
  }

  /** A matrix survives printing and reading exactly when it has a row and no row is empty. */
  lemma RoundTripIff(rows: seq<Row>)
    ensures ParseMatrix(PrintMatrix(rows)) == rows <==> Printable(rows)
  {
    if Printable(rows) {
      ParseUndoesPrint(rows);
    }
  }

  /** Every text can be printed back after reading, and reading that again changes nothing. */
  lemma ReadingIsStable(t: string)
    ensures ParseMatrix(PrintMatrix(ParseMatrix(t))) == ParseMatrix(t)
  {
    ParseUndoesPrint(ParseMatrix(t));
  }

  // ----- how many rows, and which characters survive

  /** Number of line ends outside quotes, CR LF counted once; `quoted` is the state at the front of t. */
  function LineEnds(t: string, quoted: bool): nat
    decreases |t|
  {
    if t == "" then 0
    else if t[0] == '"' then
      if quoted && |t| > 1 && t[1] == '"' then LineEnds(t[2..], true) else LineEnds(t[1..], !quoted)
    else if !quoted && IsLineEnd(t[0]) then 1 + LineEnds(AfterLineEnd(t), false)
    else LineEnds(t[1..], quoted)
  }

  lemma {:induction false} CellKeepsLineEnds(t: string, quoted: bool)
    ensures LineEnds(t, quoted) == LineEnds(ReadCell(t, quoted).1, false)
    decreases |t|
  {
    if t == "" {
    } else if t[0] == '"' {
      if quoted && |t| > 1 && t[1] == '"' {
        CellKeepsLineEnds(t[2..], true);
      } else {
        CellKeepsLineEnds(t[1..], !quoted);
      }
    } else if quoted || !EndsCell(t) {
      CellKeepsLineEnds(t[1..], quoted);
    }
  }

  lemma {:induction false} RowKeepsLineEnds(row: Row, cell: string, quoted: bool, t: string)
    ensures LineEnds(t, quoted) == LineEnds(ReadRow(row, cell, quoted, t).1, false)
    decreases |t|
  {
    CellKeepsLineEnds(t, quoted);
    var (tail, rest) := ReadCell(t, quoted);
    if rest != "" && rest[0] == ',' {
      RowKeepsLineEnds(row + [cell + tail], "", false, rest[1..]);
    }
  }

  lemma {:induction false} RowsCountLineEnds(row: Row, cell: string, quoted: bool, t: string)
    ensures |ReadRows(row, cell, quoted, t)| == 1 + LineEnds(t, quoted)
    decreases |t|
  {
    RowKeepsLineEnds(row, cell, quoted, t);
    var rest := ReadRow(row, cell, quoted, t).1;
    if rest != "" {
      RowsCountLineEnds([], "", false, AfterLineEnd(rest));
    }
  }

  /** One row more than there are unquoted line ends, at least one, and none of them empty. */
  lemma RowCount(t: string)
    ensures |ParseMatrix(t)| == 1 + LineEnds(t, false)
    ensures Printable(ParseMatrix(t))
  {
    RowsCountLineEnds([], "", false, t);
  }

  // ----- text without quotes

  predicate QuoteFree(t: string) {
    forall i :: 0 <= i < |t| ==> t[i] != '"'
  }

  /** Every line end of t written as CR LF. */
  function WithCrLf(t: string): string
    decreases |t|
  {
    if t == "" then ""
    else if IsLineEnd(t[0]) then "\r\n" + WithCrLf(AfterLineEnd(t))
    else [t[0]] + WithCrLf(t[1..])
  }

  lemma {:induction false} PlainCellIsPrefix(t: string)
    requires QuoteFree(t)
    ensures var (cell, rest) := ReadCell(t, false);
            t == cell + rest && !NeedsQuotes(cell) && QuoteFree(rest)
    decreases |t|
  {
    if !EndsCell(t) {
      PlainCellIsPrefix(t[1..]);
      assert [t[0]] + t[1..] == t;
    }
  }

  lemma {:induction false} PlainTextKeepsCells(cell: string, rest: string)
    requires !NeedsQuotes(cell)
    ensures WithCrLf(cell + rest) == cell + WithCrLf(rest)
  {
    if cell == "" {
      assert cell + rest == rest;
    } else {
      PlainTextKeepsCells(cell[1..], rest);
      assert (cell + rest)[1..] == cell[1..] + rest;
      assert [cell[0]] + (cell[1..] + WithCrLf(rest)) == cell + WithCrLf(rest);
    }
  }

  lemma {:induction false} PlainRowPrintsBack(before: Row, t: string) returns (row: Row)
    requires QuoteFree(t)
    ensures row != [] && ReadRow(before, "", false, t).0 == before + row
    ensures var rest := ReadRow(before, "", false, t).1;
            QuoteFree(rest) && WithCrLf(t) == JoinRow(row) + WithCrLf(rest)
    decreases |t|
  {
    hide WithCrLf, ReadCell, NeedsQuotes, DoubleQuotes;
    var (cell, rest) := ReadCell(t, false);
    PlainCellIsPrefix(t);
    PlainTextKeepsCells(cell, rest);
    assert "" + cell == cell && Escape(cell) == cell;
    if rest != "" && rest[0] == ',' {
      var tail := PlainRowPrintsBack(before + [cell], rest[1..]);
      row := [cell] + tail;
      assert before + [cell] + tail == before + row && row[1..] == tail;
      assert WithCrLf(rest) == "," + WithCrLf(rest[1..]) by {
        CommaIsNoLineEnd(rest);
      }
      var after := WithCrLf(ReadRow(before + [cell], "", false, rest[1..]).1);
      assert cell + ("," + (JoinRow(tail) + after)) == cell + "," + JoinRow(tail) + after;
    } else {
      row := [cell];
    }
  }

  lemma CommaIsNoLineEnd(t: string)
    requires t != "" && t[0] == ','
    ensures WithCrLf(t) == "," + WithCrLf(t[1..])
  {
  }

  /** Text without quotes is printed back unchanged, up to every line end becoming CR LF. */
  lemma {:induction false} PlainTextPrintsBack(t: string)
    requires QuoteFree(t)
    ensures PrintMatrix(ParseMatrix(t)) == WithCrLf(t)
    decreases |t|
  {
    var row := PlainRowPrintsBack([], t);
    assert [] + row == row;
    var rest := ReadRow([], "", false, t).1;
    if rest != "" {
      PlainTextPrintsBack(AfterLineEnd(rest));
      assert ParseMatrix(t)[1..] == ParseMatrix(AfterLineEnd(rest));
      assert JoinRow(row) + ("\r\n" + WithCrLf(AfterLineEnd(rest)))
          == JoinRow(row) + "\r\n" + WithCrLf(AfterLineEnd(rest));
    } else {
      assert JoinRow(row) + "" == JoinRow(row);
    }
  }
}
