/** What reading a CSV text comes to: which rows become records, and which column a header names. */
module CsvHeaders {
  import opened Csv
  import opened CsvRecords
  import opened Text

  // ----- headers

  datatype Column = Sku | ItemName | Quantity | UnitPrice | Supplier | Customer {
    function Name(): string {
      match this
      case Sku => "SKU"
      case ItemName => "品名"
      case Quantity => "数量"
      case UnitPrice => "单价"
      case Supplier => "供应商"
      case Customer => "客户"
    }

    /** How the column may be written, in lower case and without spaces. */
    function Spellings(): set<string> {
      match this
      case Sku => {"sku", "物料编码", "产品编码"}
      case ItemName => {"品名", "物料名称", "产品名称"}
      case Quantity => {"qty", "quantity", "数量"}
      case UnitPrice => {"price", "unitprice", "单价"}
      case Supplier => {"supplier", "供应商"}
      case Customer => {"customer", "客户"}
    }
  }

  /** The header as it is compared: trimmed, in lower case, without any space. */
  function Compared(lower: string -> string, header: string): string {
    WithoutSpaces(lower(Trim(StripBom(header))))
  }

  /** A header names a column by what it is compared by, or else as it stands. */
  lemma HeaderNamesColumn(lower: string -> string, header: string, c: Column)
    ensures Compared(lower, header) in c.Spellings() ==> NormalizeHeader(lower, header) == c.Name()
    ensures && (forall d: Column :: Compared(lower, header) !in d.Spellings())
            && Trim(StripBom(header)) in c.Spellings() ==>
              NormalizeHeader(lower, header) == c.Name()
  {
    hide Trim, StripBom, WithoutSpaces;
    AliasesAreSpellings(Compared(lower, header));
    AliasesAreSpellings(Trim(StripBom(header)));
  }

  lemma AliasesAreSpellings(key: string)
    ensures forall c: Column :: key in c.Spellings() ==> key in HEADER_ALIASES && HEADER_ALIASES[key] == c.Name()
    ensures key in HEADER_ALIASES ==> exists c: Column :: key in c.Spellings()
  {
    if key in HEADER_ALIASES {
      assert || key in Column.Sku.Spellings() || key in Column.ItemName.Spellings()
             || key in Column.Quantity.Spellings() || key in Column.UnitPrice.Spellings()
             || key in Column.Supplier.Spellings() || key in Column.Customer.Spellings();
    }
    forall c: Column | key in c.Spellings()
      ensures key in HEADER_ALIASES && HEADER_ALIASES[key] == c.Name()
    {
      match c
      case Sku =>
      case ItemName =>
      case Quantity =>
      case UnitPrice =>
      case Supplier =>
      case Customer =>
    }
  }

  /** A header that names no column is its own trimmed text. */
  lemma OtherHeaderStands(lower: string -> string, header: string)
    requires forall c: Column :: Compared(lower, header) !in c.Spellings() && Trim(StripBom(header)) !in c.Spellings()
    ensures NormalizeHeader(lower, header) == Trim(StripBom(header))
  {
    hide Trim, StripBom, WithoutSpaces;
    AliasesAreSpellings(Compared(lower, header));
    AliasesAreSpellings(Trim(StripBom(header)));
  }

  /** The byte-order mark is white space to `trim` as well, so taking it off first makes no difference. */
  lemma BomIsTrimmed(s: string)
    ensures Trim(StripBom(s)) == Trim(s)
  {
  }

  lemma {:induction false} WithoutSpacesConcat(a: string, b: string)
    ensures WithoutSpaces(a + b) == WithoutSpaces(a) + WithoutSpaces(b)
  {
    if a == "" {
      assert a + b == b;
    } else {
      assert (a + b)[1..] == a[1..] + b;
      WithoutSpacesConcat(a[1..], b);
    }
  }

  lemma {:induction false} OnlySpaces(s: string)
    requires AllSpace(s)
    ensures WithoutSpaces(s) == ""
  {
    if s != "" {
      OnlySpaces(s[1..]);
    }
  }

  /** Trimming takes away nothing that is left without spaces. */
  lemma TrimKeepsText(s: string)
    ensures WithoutSpaces(Trim(s)) == WithoutSpaces(s)
  {
    hide Trim, WithoutSpaces;
    TrimKeepsInnerPart(s);
    var i: nat, j: nat :| InnerPart(s, Trim(s), i, j);
    assert s == s[..i] + s[i..j] + s[j..];
    WithoutSpacesConcat(s[..i] + s[i..j], s[j..]);
    WithoutSpacesConcat(s[..i], s[i..j]);
    OnlySpaces(s[..i]);
    OnlySpaces(s[j..]);
  }

  /** Lower-casing character by character. */
  function Mapped(f: char -> char, s: string): string {
    if s == "" then "" else [f(s[0])] + Mapped(f, s[1..])
  }

  ghost predicate KeepsSpaces(f: char -> char) {
    forall c :: IsSpace(f(c)) <==> IsSpace(c)
  }

  lemma {:induction false} MappedWithoutSpaces(f: char -> char, s: string)
    requires KeepsSpaces(f)
    ensures WithoutSpaces(Mapped(f, s)) == Mapped(f, WithoutSpaces(s))
  {
    hide IsSpace;
    if s != "" {
      MappedWithoutSpaces(f, s[1..]);
      assert Mapped(f, s)[1..] == Mapped(f, s[1..]);
      var rest := WithoutSpaces(s[1..]);
      if IsSpace(s[0]) {
        assert "" + rest == rest && "" + Mapped(f, rest) == Mapped(f, rest);
      } else {
        assert ([s[0]] + rest)[1..] == rest;
      }
    }
  }

  /** In any case, and with spaces around and within, a spelling names its column. */
  lemma AnyCaseAndSpacing(f: char -> char, header: string, c: Column)
    requires KeepsSpaces(f) && Mapped(f, WithoutSpaces(header)) in c.Spellings()
    ensures NormalizeHeader(s => Mapped(f, s), header) == c.Name()
  {
    hide Trim, StripBom, WithoutSpaces, Mapped, NormalizeHeader;
    BomIsTrimmed(header);
    MappedWithoutSpaces(f, Trim(header));
    TrimKeepsText(header);
    HeaderNamesColumn(s => Mapped(f, s), header, c);
  }

  /** A column's own name names it, so normalising again changes nothing. */
  lemma ColumnNamesItself(lower: string -> string, c: Column)
    requires lower("SKU") == "sku" && forall d: Column :: d != Sku ==> lower(d.Name()) == d.Name()
    ensures NormalizeHeader(lower, c.Name()) == c.Name()
  {
    NamesAreTrimmed(c);
    TrimOfTrimmed(c.Name());
    NoSpacesToDrop(lower(c.Name()));
    hide Trim, WithoutSpaces, NormalizeHeader;
    HeaderNamesColumn(lower, c.Name(), c);
  }

  lemma NamesAreTrimmed(c: Column)
    ensures Trimmed(c.Name()) && StripBom(c.Name()) == c.Name()
  {
  }

  lemma {:induction false} NoSpacesToDrop(s: string)
    ensures (forall i :: 0 <= i < |s| ==> !IsSpace(s[i])) ==> WithoutSpaces(s) == s
  {
    if s != "" {
      NoSpacesToDrop(s[1..]);
      assert [s[0]] + s[1..] == s;
    }
  }

  // ----- rows

  /** Some cell of the row holds more than white space. */
  predicate HasText(row: Row) {
    exists i :: 0 <= i < |row| && !AllSpace(row[i])
  }

  lemma FilledIff(row: Row)
    ensures Filled(row) <==> HasText(row)
  {
    hide Trim, AllSpace;
    forall i | 0 <= i < |row|
      ensures Trim(row[i]) == "" <==> AllSpace(row[i])
    {
      TrimShape(row[i]);
    }
  }

  lemma {:induction false} FirstFilledIsFirst(rows: seq<Row>)
    ensures forall i :: 0 <= i < FirstFilled(rows) ==> !HasText(rows[i])
    ensures FirstFilled(rows) < |rows| ==> HasText(rows[FirstFilled(rows)])
  {
    hide Filled, HasText;
    if rows != [] {
      FilledIff(rows[0]);
      FirstFilledIsFirst(rows[1..]);
    }
  }

  /** The positions of the rows with text, in order. */
  function TextAt(rows: seq<Row>): (at: seq<nat>)
    ensures forall k :: 0 <= k < |at| ==> at[k] < |rows|
  {
    if rows == [] then []
    else
      var n := |rows| - 1;
      if HasText(rows[n]) then TextAt(rows[..n]) + [n] else TextAt(rows[..n])
  }

  lemma {:induction false} TextAtIsExact(rows: seq<Row>)
    ensures forall i: nat :: i in TextAt(rows) <==> i < |rows| && HasText(rows[i])
    ensures forall j, k :: 0 <= j < k < |TextAt(rows)| ==> TextAt(rows)[j] < TextAt(rows)[k]
  {
    hide HasText;
    if rows != [] {
      var n := |rows| - 1;
      TextAtIsExact(rows[..n]);
      assert forall i :: 0 <= i < n ==> rows[..n][i] == rows[i];
    }
  }

  lemma {:induction false} RecordsAreTextRows(headers: Row, rows: seq<Row>)
    ensures var at, records := TextAt(rows), RecordsOf(headers, rows);
            |records| == |at| && forall k :: 0 <= k < |at| ==> records[k] == RecordOf(headers, rows[at[k]])
  {
    hide HasText, Filled, RecordOf;
    if rows != [] {
      var n := |rows| - 1;
      FilledIff(rows[n]);
      RecordsAreTextRows(headers, rows[..n]);
      assert forall i :: 0 <= i < n ==> rows[..n][i] == rows[i];
    }
  }

  /**
   Reading takes the first row with text for the headers and makes a record of every later row with text,
   in order; without a row with text there is none.
   */
  lemma ReadingMeans(lower: string -> string, text: string, first: nat)
    requires var rows := ParseMatrix(StripBom(text));
             && first <= |rows| && (forall i :: 0 <= i < first ==> !HasText(rows[i]))
             && (first < |rows| ==> HasText(rows[first]))
    ensures var rows, records := ParseMatrix(StripBom(text)), ParseText(lower, text);
            if first == |rows| then records == []
            else
              var body := rows[first + 1..];
              && |records| == |TextAt(body)|
              && forall k :: 0 <= k < |records| ==>
                   records[k] == RecordOf(NormalizeHeaders(lower, rows[first]), body[TextAt(body)[k]])
  {
    hide HasText, Filled, RecordOf, NormalizeHeaders, ParseMatrix, StripBom;
    var rows := ParseMatrix(StripBom(text));
    FirstFilledIsFirst(rows);
    assert FirstFilled(rows) == first;
    if first < |rows| {
      RecordsAreTextRows(NormalizeHeaders(lower, rows[first]), rows[first + 1..]);
    }
  }

  /** Only a byte-order mark at the very front is taken off a text. */
  lemma BomOnlyAtFront(text: string)
    ensures StripBom("\U{FEFF}" + text) == text
    ensures text == "" || text[0] != '\U{FEFF}' ==> StripBom(text) == text
  {
    assert ("\U{FEFF}" + text)[1..] == text;
  }

  /** The trimmed cell under a header that names a column is what each record holds for that column. */
  lemma CellOfColumn(lower: string -> string, text: string, first: nat, i: nat, k: nat, c: Column)
    requires var rows := ParseMatrix(StripBom(text));
             && first < |rows| && HasText(rows[first]) && (forall n :: 0 <= n < first ==> !HasText(rows[n]))
             && i < |rows[first]| && Compared(lower, rows[first][i]) in c.Spellings()
             && (forall n :: i < n < |rows[first]| ==> NormalizeHeader(lower, rows[first][n]) != c.Name())
             && k < |TextAt(rows[first + 1..])|
    ensures var rows, records := ParseMatrix(StripBom(text)), ParseText(lower, text);
            var row := rows[first + 1..][TextAt(rows[first + 1..])[k]];
            && k < |records| && c.Name() in records[k]
            && records[k][c.Name()] == Trim(if i < |row| then row[i] else "")
  {
    hide HasText, NormalizeHeader, ParseMatrix, StripBom, ParseText, RecordOf, Trim;
    var rows := ParseMatrix(StripBom(text));
    var headers := NormalizeHeaders(lower, rows[first]);
    var row := rows[first + 1..][TextAt(rows[first + 1..])[k]];
    ReadingMeans(lower, text, first);
    HeaderNamesColumn(lower, rows[first][i], c);
    assert headers[i] == c.Name() && c.Name() != "";
    RecordMeaning(headers, row);
    assert LastUpTo(headers, |headers|, i);
  }
}
