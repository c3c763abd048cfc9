/**
 The CSV reader and writer of src/lib/csv-import.ts and src/lib/data-export.ts. A matrix is a
 sequence of rows of cells. The format is section 2 of RFC 4180; the reader also takes a lone CR or LF
 as a line end and lets a quote open or close in the middle of a cell.
 */
module Csv {
  type Row = seq<string>

  // ----- the grammar the reader follows, by recursion on the text

  predicate IsLineEnd(c: char) {
    c == '\n' || c == '\r'
  }

  predicate EndsCell(t: string) {
    t == "" || t[0] == ',' || IsLineEnd(t[0])
  }

  /** Content of the cell at the front of t and the text left at its delimiter. */
  function ReadCell(t: string, quoted: bool): (r: (string, string))
    ensures |r.1| <= |t|
    ensures r.1 != "" ==> r.1[0] == ',' || IsLineEnd(r.1[0])
  {
    if t == "" then ("", "")
    else if t[0] == '"' then
      if quoted && |t| > 1 && t[1] == '"' then
        var (cell, rest) := ReadCell(t[2..], true);
        ("\"" + cell, rest)
      else ReadCell(t[1..], !quoted)
    else if !quoted && EndsCell(t) then ("", t)
    else
      var (cell, rest) := ReadCell(t[1..], quoted);
      ([t[0]] + cell, rest)
  }

  /** The text after the line end at the front of t; CR LF is one line end. */
  function AfterLineEnd(t: string): string
    requires t != "" && IsLineEnd(t[0])
  {
    if t[0] == '\r' && |t| > 1 && t[1] == '\n' then t[2..] else t[1..]
  }

  /** The row that begins with `row` and continues with the cells of t, and the text left after it. */
  function ReadRow(row: Row, cell: string, quoted: bool, t: string): (r: (Row, string))
    ensures r.0 != [] && |r.1| <= |t|
    ensures r.1 != "" ==> IsLineEnd(r.1[0])
    decreases |t|
  {
    var (tail, rest) := ReadCell(t, quoted);
    if rest != "" && rest[0] == ',' then ReadRow(row + [cell + tail], "", false, rest[1..])
    else (row + [cell + tail], rest)
  }

  /** All rows of t, the first of which begins with the cells of `row` and then with `cell`. */
  function ReadRows(row: Row, cell: string, quoted: bool, t: string): (rows: seq<Row>)
    ensures rows != [] && forall i :: 0 <= i < |rows| ==> rows[i] != []
    decreases |t|
  {
    var (first, rest) := ReadRow(row, cell, quoted, t);
    if rest == "" then [first] else [first] + ReadRows([], "", false, AfterLineEnd(rest))
  }

  function ParseMatrix(t: string): seq<Row> {
    ReadRows([], "", false, t)
  }

  // ----- the index loop

  method ParseCsvMatrix(text: string) returns (rows: seq<Row>)
    ensures rows == ParseMatrix(text)
  {
    hide ReadRows;
    rows := [];
    var row: Row := [];
    var cell := "";
    var inQuotes := false;
    var i := 0;
    while i < |text|
      invariant i <= |text|
      invariant rows + ReadRows(row, cell, inQuotes, text[i..]) == ParseMatrix(text)
    {
      var ch := text[i];
      var hasNext := i + 1 < |text|;
      if ch == '"' {
        if inQuotes && hasNext && text[i + 1] == '"' {
          DoubledQuote(row, cell, text, i);
          cell := cell + "\"";
          i := i + 1;
        } else {
          ToggleQuote(row, cell, inQuotes, text, i);
          inQuotes := !inQuotes;
        }
      } else if ch == ',' && !inQuotes {
        Comma(row, cell, text, i);
        row := row + [cell];
        cell := "";
      } else if IsLineEnd(ch) && !inQuotes {
        LineEnd(row, cell, text, i);
        row := row + [cell];
        rows := rows + [row];
        row := [];
        cell := "";
        if ch == '\r' && hasNext && text[i + 1] == '\n' {
          i := i + 1;
        }
      } else {
        PlainChar(row, cell, inQuotes, text, i);
        cell := cell + [ch];
      }
      i := i + 1;
    }
    assert text[i..] == "";
    EndOfText(row, cell, inQuotes);
    row := row + [cell];
    rows := rows + [row];
  }

  lemma DoubledQuote(row: Row, cell: string, text: string, i: nat)
    requires i + 1 < |text| && text[i] == '"' && text[i + 1] == '"'
    ensures ReadRows(row, cell, true, text[i..]) == ReadRows(row, cell + "\"", true, text[i + 2..])
  {
    var tail := ReadCell(text[i + 2..], true).0;
    assert text[i..][2..] == text[i + 2..];
    assert cell + ("\"" + tail) == cell + "\"" + tail;
  }

  lemma ToggleQuote(row: Row, cell: string, quoted: bool, text: string, i: nat)
    requires i < |text| && text[i] == '"' && !(quoted && i + 1 < |text| && text[i + 1] == '"')
    ensures ReadRows(row, cell, quoted, text[i..]) == ReadRows(row, cell, !quoted, text[i + 1..])
  {
    assert text[i..][1..] == text[i + 1..];
  }

  lemma Comma(row: Row, cell: string, text: string, i: nat)
    requires i < |text| && text[i] == ','
    ensures ReadRows(row, cell, false, text[i..]) == ReadRows(row + [cell], "", false, text[i + 1..])
  {
    assert text[i..][1..] == text[i + 1..];
    assert cell + "" == cell;
  }

  lemma LineEnd(row: Row, cell: string, text: string, i: nat)
    requires i < |text| && IsLineEnd(text[i])
    ensures var next := if text[i] == '\r' && i + 1 < |text| && text[i + 1] == '\n' then i + 2 else i + 1;
            ReadRows(row, cell, false, text[i..]) == [row + [cell]] + ReadRows([], "", false, text[next..])
  {
    assert text[i..][1..] == text[i + 1..];
    assert i + 1 < |text| ==> text[i..][2..] == text[i + 2..];
    assert cell + "" == cell;
  }

  lemma PlainChar(row: Row, cell: string, quoted: bool, text: string, i: nat)
    requires i < |text| && text[i] != '"' && (quoted || !(text[i] == ',' || IsLineEnd(text[i])))
    ensures ReadRows(row, cell, quoted, text[i..]) == ReadRows(row, cell + [text[i]], quoted, text[i + 1..])
  {
    assert text[i..][1..] == text[i + 1..];
    var tail := ReadCell(text[i + 1..], quoted).0;
    assert cell + ([text[i]] + tail) == cell + [text[i]] + tail;
  }

  lemma EndOfText(row: Row, cell: string, quoted: bool)
    ensures ReadRows(row, cell, quoted, "") == [row + [cell]]
  {
    assert cell + "" == cell;
  }

  // ----- the writer

  predicate NeedsQuotes(cell: string) {
    exists i :: 0 <= i < |cell| && (cell[i] == '"' || cell[i] == ',' || IsLineEnd(cell[i]))
  }

  /** `text.replace(/"/g, '""')` */
  function DoubleQuotes(cell: string): string {
    if cell == "" then "" else (if cell[0] == '"' then "\"\"" else [cell[0]]) + DoubleQuotes(cell[1..])
  }

  /** `csvEscape` on a string value. */
  function Escape(cell: string): string {
    if NeedsQuotes(cell) then "\"" + DoubleQuotes(cell) + "\"" else cell
  }

  function JoinRow(row: Row): string {
    if row == [] then ""
    else if |row| == 1 then Escape(row[0])
    else Escape(row[0]) + "," + JoinRow(row[1..])
  }

  /** Rows joined with CR LF, as `lines.join("\r\n")` does. */
  function PrintMatrix(rows: seq<Row>): string {
    if rows == [] then ""
    else if |rows| == 1 then JoinRow(rows[0])
    else JoinRow(rows[0]) + "\r\n" + PrintMatrix(rows[1..])
  }

  /** The matrices that have a CSV text of their own. */
  predicate Printable(rows: seq<Row>) {
    rows != [] && forall i :: 0 <= i < |rows| ==> rows[i] != []
  }
}
