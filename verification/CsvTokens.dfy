/**
 The reader against an independent description: a text is a stream of characters, cell ends and row
 ends, and a matrix is that stream cut up.
 */
module CsvTokens {
  import opened Csv
  import opened CsvRoundTrip

  datatype Token = Text(c: char) | CellEnd | RowEnd

  /** What a text means, character by character; `quoted` says whether a quote is open. */
  function Tokens(t: string, quoted: bool): seq<Token>
    decreases |t|
  {
    if t == "" then []
    else if t[0] == '"' && quoted && |t| > 1 && t[1] == '"' then [Text('"')] + Tokens(t[2..], true)
    else if t[0] == '"' then Tokens(t[1..], !quoted)
    else if quoted then [Text(t[0])] + Tokens(t[1..], true)
    else if t[0] == ',' then [CellEnd] + Tokens(t[1..], false)
    else if t[0] == '\r' && |t| > 1 && t[1] == '\n' then [RowEnd] + Tokens(t[2..], false)
    else if t[0] == '\r' || t[0] == '\n' then [RowEnd] + Tokens(t[1..], false)
    else [Text(t[0])] + Tokens(t[1..], false)
  }

  function CellTokens(cell: string): seq<Token> {
    seq(|cell|, i requires 0 <= i < |cell| => Text(cell[i]))
  }

  function RowTokens(row: Row): seq<Token> {
    if row == [] then []
    else if |row| == 1 then CellTokens(row[0])
    else CellTokens(row[0]) + [CellEnd] + RowTokens(row[1..])
  }

  function MatrixTokens(rows: seq<Row>): seq<Token> {
    if rows == [] then []
    else if |rows| == 1 then RowTokens(rows[0])
    else RowTokens(rows[0]) + [RowEnd] + MatrixTokens(rows[1..])
  }

  lemma CellTokensConcat(a: string, b: string)
    ensures CellTokens(a + b) == CellTokens(a) + CellTokens(b)
  {
  }

  lemma {:induction false} ReadCellTokens(t: string, quoted: bool)
    ensures var (cell, rest) := ReadCell(t, quoted);
            Tokens(t, quoted) == CellTokens(cell) + Tokens(rest, false)
    decreases |t|
  {
    if t == "" || (!quoted && EndsCell(t)) {
    } else if t[0] == '"' {
      if quoted && |t| > 1 && t[1] == '"' {
        ReadCellTokens(t[2..], true);
        CellTokensConcat("\"", ReadCell(t[2..], true).0);
      } else {
        ReadCellTokens(t[1..], !quoted);
      }
    } else {
      ReadCellTokens(t[1..], quoted);
      CellTokensConcat([t[0]], ReadCell(t[1..], quoted).0);
    }
  }

  lemma {:induction false} RowTokensConcat(a: Row, b: Row)
    requires a != [] && b != []
    ensures RowTokens(a + b) == RowTokens(a) + [CellEnd] + RowTokens(b)
  {
    assert (a + b)[1..] == a[1..] + b;
    if |a| > 1 {
      RowTokensConcat(a[1..], b);
    } else {
      assert a + b == [a[0]] + b && a[1..] + b == b;
    }
  }

  /** The tokens of cells already read, each with its end. */
  function Before(row: Row): seq<Token> {
    if row == [] then [] else RowTokens(row) + [CellEnd]
  }

  lemma {:induction false} ReadRowTokens(row: Row, cell: string, quoted: bool, t: string)
    ensures var (full, rest) := ReadRow(row, cell, quoted, t);
            Before(row) + CellTokens(cell) + Tokens(t, quoted) == RowTokens(full) + Tokens(rest, false)
    decreases |t|
  {
    hide ReadCell, Tokens, CellTokens, RowTokens;
    var (tail, rest) := ReadCell(t, quoted);
    ReadCellTokens(t, quoted);
    CellTokensConcat(cell, tail);
    OneMoreCell(row, cell + tail);
    if rest != "" && rest[0] == ',' {
      CommaToken(rest);
      NothingYet();
      ReadRowTokens(row + [cell + tail], "", false, rest[1..]);
    }
  }

  lemma NothingYet()
    ensures CellTokens("") == []
  {
  }

  lemma CommaToken(t: string)
    requires t != "" && t[0] == ','
    ensures Tokens(t, false) == [CellEnd] + Tokens(t[1..], false)
  {
  }

  lemma OneMoreCell(row: Row, cell: string)
    ensures RowTokens(row + [cell]) == Before(row) + CellTokens(cell)
  {
    if row == [] {
      assert row + [cell] == [cell];
    } else {
      RowTokensConcat(row, [cell]);
    }
  }

  lemma LineEndToken(t: string)
    requires t != "" && IsLineEnd(t[0])
    ensures Tokens(t, false) == [RowEnd] + Tokens(AfterLineEnd(t), false)
  {
  }

  lemma {:induction false} ReadRowsTokens(row: Row, cell: string, quoted: bool, t: string)
    ensures Before(row) + CellTokens(cell) + Tokens(t, quoted) == MatrixTokens(ReadRows(row, cell, quoted, t))
    decreases |t|
  {
    hide ReadRow, Tokens, CellTokens, RowTokens;
    var (first, rest) := ReadRow(row, cell, quoted, t);
    ReadRowTokens(row, cell, quoted, t);
    if rest == "" {
      NoTokens();
    } else {
      LineEndToken(rest);
      NothingYet();
      var more := ReadRows([], "", false, AfterLineEnd(rest));
      ReadRowsTokens([], "", false, AfterLineEnd(rest));
      assert ([first] + more)[1..] == more;
    }
  }

  lemma NoTokens()
    ensures Tokens("", false) == []
  {
  }

  /** On every text the matrix is the text's token stream, cut at cell ends and row ends. */
  lemma ParseKeepsTokens(t: string)
    ensures MatrixTokens(ParseMatrix(t)) == Tokens(t, false)
  {
    NothingYet();
    ReadRowsTokens([], "", false, t);
  }

  // ----- a matrix can be read off its tokens

  /** Where the cell at the front of the stream ends. */
  function CellLength(s: seq<Token>): (n: nat)
    ensures n <= |s|
  {
    if s != [] && s[0].Text? then 1 + CellLength(s[1..]) else 0
  }

  lemma {:induction false} CellLengthOf(cell: string, rest: seq<Token>)
    requires rest == [] || !rest[0].Text?
    ensures CellLength(CellTokens(cell) + rest) == |cell|
  {
    var s := CellTokens(cell) + rest;
    if cell == "" {
      assert s == rest;
    } else {
      assert s[1..] == CellTokens(cell[1..]) + rest;
      CellLengthOf(cell[1..], rest);
    }
  }

  lemma {:induction false} CellsAgree(a: string, b: string, r: seq<Token>, s: seq<Token>)
    requires (r == [] || !r[0].Text?) && (s == [] || !s[0].Text?)
    requires CellTokens(a) + r == CellTokens(b) + s
    ensures a == b && r == s
  {
    CellLengthOf(a, r);
    CellLengthOf(b, s);
    var all := CellTokens(a) + r;
    assert |a| == |b|;
    forall i | 0 <= i < |a|
      ensures a[i] == b[i]
    {
      assert all[i] == Text(a[i]) && (CellTokens(b) + s)[i] == Text(b[i]);
    }
    assert all[|a|..] == r && (CellTokens(b) + s)[|a|..] == s;
  }

  predicate EndsRow(s: seq<Token>) {
    s == [] || s[0] == RowEnd
  }

  /** What follows the first cell of a row, given what follows the row. */
  function AfterCell(row: Row, rest: seq<Token>): seq<Token>
    requires row != []
  {
    if |row| == 1 then rest else [CellEnd] + (RowTokens(row[1..]) + rest)
  }

  lemma FirstCell(row: Row, rest: seq<Token>)
    requires row != [] && EndsRow(rest)
    ensures RowTokens(row) + rest == CellTokens(row[0]) + AfterCell(row, rest)
    ensures |row| == 1 <==> EndsRow(AfterCell(row, rest))
    ensures AfterCell(row, rest) == [] || !AfterCell(row, rest)[0].Text?
  {
    if |row| > 1 {
      var cell, tail := CellTokens(row[0]), RowTokens(row[1..]);
      assert RowTokens(row) == cell + [CellEnd] + tail;
      hide CellTokens, RowTokens;
      Regroup(cell, [CellEnd], tail, rest);
      assert AfterCell(row, rest)[0] == CellEnd;
    }
  }

  lemma Regroup<T>(a: seq<T>, b: seq<T>, c: seq<T>, d: seq<T>)
    ensures a + b + c + d == a + (b + (c + d))
  {
  }

  lemma {:induction false} RowsAgree(a: Row, b: Row, r: seq<Token>, s: seq<Token>)
    requires a != [] && b != [] && EndsRow(r) && EndsRow(s) && RowTokens(a) + r == RowTokens(b) + s
    ensures a == b && r == s
    decreases |a|
  {
    hide CellTokens, RowTokens, EndsRow;
    var u, v := AfterCell(a, r), AfterCell(b, s);
    FirstCell(a, r);
    FirstCell(b, s);
    CellsAgree(a[0], b[0], u, v);
    if |a| > 1 {
      assert u[1..] == RowTokens(a[1..]) + r && v[1..] == RowTokens(b[1..]) + s;
      RowsAgree(a[1..], b[1..], r, s);
      assert a == [a[0]] + a[1..] && b == [b[0]] + b[1..];
    }
  }

  /** Two matrices of non-empty rows with the same tokens are equal. */
  lemma {:induction false} MatricesAgree(a: seq<Row>, b: seq<Row>)
    requires Printable(a) && Printable(b) && MatrixTokens(a) == MatrixTokens(b)
    ensures a == b
    decreases |a|
  {
    hide RowTokens;
    var r := if |a| == 1 then [] else [RowEnd] + MatrixTokens(a[1..]);
    var s := if |b| == 1 then [] else [RowEnd] + MatrixTokens(b[1..]);
    assert MatrixTokens(a) == RowTokens(a[0]) + r && MatrixTokens(b) == RowTokens(b[0]) + s;
    RowsAgree(a[0], b[0], r, s);
    if |a| > 1 && |b| > 1 {
      assert r[1..] == MatrixTokens(a[1..]) && s[1..] == MatrixTokens(b[1..]);
      MatricesAgree(a[1..], b[1..]);
      assert a == [a[0]] + a[1..] && b == [b[0]] + b[1..];
    }
  }

  /** The reader's result is the only matrix of non-empty rows with the tokens of the text. */
  lemma ParseIff(t: string, rows: seq<Row>)
    ensures rows == ParseMatrix(t) <==> Printable(rows) && MatrixTokens(rows) == Tokens(t, false)
  {
    hide MatrixTokens, Tokens;
    ParseKeepsTokens(t);
    RowCount(t);
    if Printable(rows) && MatrixTokens(rows) == Tokens(t, false) {
      MatricesAgree(rows, ParseMatrix(t));
    }
  }

  // ----- how a cell is written

  /** A cell is written as it is, or, if it holds a quote, comma or line end, quoted with its quotes doubled. */
  lemma WrittenCell(cell: string)
    ensures '"' !in cell && ',' !in cell && '\r' !in cell && '\n' !in cell ==> Escape(cell) == cell
    ensures '"' in cell || ',' in cell || '\r' in cell || '\n' in cell ==>
              |Escape(cell)| >= 2 && Escape(cell) == "\"" + Escape(cell)[1..|Escape(cell)| - 1] + "\""
              && Escape(cell)[1..|Escape(cell)| - 1] == DoubleQuotes(cell)
  {
    hide DoubleQuotes;
    if NeedsQuotes(cell) {
      assert Escape(cell)[1..|Escape(cell)| - 1] == DoubleQuotes(cell);
    }
  }

  /** With QuotesDouble this says what doubling does. */
  lemma {:induction false} DoublingConcat(a: string, b: string)
    ensures DoubleQuotes(a + b) == DoubleQuotes(a) + DoubleQuotes(b)
  {
    if a == "" {
      assert a + b == b;
    } else {
      assert (a + b)[1..] == a[1..] + b;
      DoublingConcat(a[1..], b);
    }
  }

  lemma QuotesDouble(c: char)
    ensures DoubleQuotes([c]) == if c == '"' then [c, c] else [c]
  {
    assert [c][1..] == "";
  }
}
