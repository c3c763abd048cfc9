/**
 From CSV text to records keyed by header, and from records to the import template.
 `lower` stands for `toLowerCase`; nothing but `lower("") == ""` is assumed of it.
 */
module CsvRecords {
  import opened Csv
  import opened CsvRoundTrip
  import opened Text

  type Record = map<string, string>

  const HEADER_ALIASES: map<string, string> := map[
    "sku" := "SKU", "物料编码" := "SKU", "产品编码" := "SKU",
    "品名" := "品名", "物料名称" := "品名", "产品名称" := "品名",
    "qty" := "数量", "quantity" := "数量", "数量" := "数量",
    "price" := "单价", "unitprice" := "单价", "单价" := "单价",
    "supplier" := "供应商", "供应商" := "供应商",
    "customer" := "客户", "客户" := "客户"]

  function NormalizeHeader(lower: string -> string, header: string): string {
    var trimmed := Trim(StripBom(header));
    var key := WithoutSpaces(lower(trimmed));
    if key in HEADER_ALIASES then HEADER_ALIASES[key]
    else if trimmed in HEADER_ALIASES then HEADER_ALIASES[trimmed]
    else trimmed
  }

  function NormalizeHeaders(lower: string -> string, headers: Row): (r: Row)
    ensures |r| == |headers|
  {
    seq(|headers|, i requires 0 <= i < |headers| => NormalizeHeader(lower, headers[i]))
  }

  predicate Filled(row: Row) {
    exists i :: 0 <= i < |row| && Trim(row[i]) != ""
  }

  // ----- reading

  /** Index of the first filled row, or the number of rows. */
  function FirstFilled(rows: seq<Row>): (k: nat)
    ensures k <= |rows|
  {
    if rows == [] || Filled(rows[0]) then 0 else 1 + FirstFilled(rows[1..])
  }

  /** The object a data row turns into, after its first k headers; a later header overwrites. */
  function RecordUpTo(headers: Row, row: Row, k: nat): Record
    requires k <= |headers|
  {
    if k == 0 then map[]
    else
      var out := RecordUpTo(headers, row, k - 1);
      if headers[k - 1] == "" then out
      else out[headers[k - 1] := Trim(if k - 1 < |row| then row[k - 1] else "")]
  }

  function RecordOf(headers: Row, row: Row): Record {
    RecordUpTo(headers, row, |headers|)
  }

  function RecordsOf(headers: Row, rows: seq<Row>): seq<Record> {
    if rows == [] then []
    else
      var last := rows[|rows| - 1];
      var before := RecordsOf(headers, rows[..|rows| - 1]);
      if Filled(last) then before + [RecordOf(headers, last)] else before
  }

  function ParseText(lower: string -> string, text: string): seq<Record> {
    var rows := ParseMatrix(StripBom(text));
    var first := FirstFilled(rows);
    if first == |rows| then [] else RecordsOf(NormalizeHeaders(lower, rows[first]), rows[first + 1..])
  }

  method ParseCsvText(lower: string -> string, text: string) returns (records: seq<Record>)
    ensures records == ParseText(lower, text)
  {
    var rows := ParseCsvMatrix(StripBom(text));
    var first := 0;
    while first < |rows| && !Filled(rows[first])
      invariant first <= |rows|
      invariant FirstFilled(rows) == first + FirstFilled(rows[first..])
    {
      assert rows[first..][1..] == rows[first + 1..];
      first := first + 1;
    }
    hide RecordOf, Filled, NormalizeHeaders, ParseMatrix, Trim, StripBom;
    records := [];
    if first == |rows| {
      return;
    }
    var headers := NormalizeHeaders(lower, rows[first]);
    var body := rows[first + 1..];
    for i := 0 to |body|
      invariant records == RecordsOf(headers, body[..i])
    {
      assert body[..i + 1][..i] == body[..i];
      if Filled(body[i]) {
        var out := FillRecord(headers, body[i]);
        records := records + [out];
      }
    }
    assert body[..|body|] == body;
  }

  method FillRecord(headers: Row, row: Row) returns (out: Record)
    ensures out == RecordOf(headers, row)
  {
    out := map[];
    for index := 0 to |headers|
      invariant out == RecordUpTo(headers, row, index)
    {
      if headers[index] == "" {
        continue;
      }
      out := out[headers[index] := Trim(if index < |row| then row[index] else "")];
    }
  }

  // ----- what a record holds

  /** Column i is the last of the first k columns under its header. */
  predicate LastUpTo(headers: Row, k: nat, i: nat)
    requires k <= |headers|
  {
    i < k && headers[i] != "" && forall j :: i < j < k ==> headers[j] != headers[i]
  }

  /** A record has the non-empty headers as keys; the last column under a header gives its value. */
  lemma RecordMeaning(headers: Row, row: Row)
    ensures forall h :: h in RecordOf(headers, row) <==> h != "" && h in headers
    ensures forall i: nat :: LastUpTo(headers, |headers|, i) ==>
              headers[i] in RecordOf(headers, row) &&
              RecordOf(headers, row)[headers[i]] == Trim(if i < |row| then row[i] else "")
  {
    forall h
      ensures h in RecordOf(headers, row) <==> h != "" && h in headers
    {
      KeysUpTo(headers, row, |headers|, h);
    }
    forall i: nat | LastUpTo(headers, |headers|, i)
      ensures headers[i] in RecordOf(headers, row)
      ensures RecordOf(headers, row)[headers[i]] == Trim(if i < |row| then row[i] else "")
    {
      ValueUpTo(headers, row, |headers|, i);
    }
  }

  lemma {:induction false} KeysUpTo(headers: Row, row: Row, k: nat, h: string)
    requires k <= |headers|
    ensures h in RecordUpTo(headers, row, k) <==> h != "" && exists j :: 0 <= j < k && headers[j] == h
  {
    hide Trim;
    if k > 0 {
      KeysUpTo(headers, row, k - 1, h);
    }
  }

  lemma {:induction false} ValueUpTo(headers: Row, row: Row, k: nat, i: nat)
    requires k <= |headers| && LastUpTo(headers, k, i)
    ensures headers[i] in RecordUpTo(headers, row, k)
    ensures RecordUpTo(headers, row, k)[headers[i]] == Trim(if i < |row| then row[i] else "")
  {
    hide Trim;
    if i < k - 1 {
      ValueUpTo(headers, row, k - 1, i);
    }
  }

  // ----- the template

  function CellOf(sample: Record, header: string): string {
    if header in sample then sample[header] else ""
  }

  function Cells(headers: Row, sample: Record): (r: Row)
    ensures |r| == |headers|
  {
    seq(|headers|, i requires 0 <= i < |headers| => CellOf(sample, headers[i]))
  }

  function TemplateRows(headers: Row, samples: seq<Record>): (r: seq<Row>)
    ensures |r| == 1 + |samples|
  {
    [headers] + seq(|samples|, i requires 0 <= i < |samples| => Cells(headers, samples[i]))
  }

  /** `csvTemplateText` */
  function TemplateText(headers: Row, samples: seq<Record>): string {
    "\U{FEFF}" + PrintMatrix(TemplateRows(headers, samples))
  }

  /** Under each header the row has what the sample has for it, or nothing. */
  predicate HoldsSample(row: Row, headers: Row, sample: Record) {
    && |row| == |headers|
    && forall j :: 0 <= j < |headers| ==> row[j] == if headers[j] in sample then sample[headers[j]] else ""
  }

  /** A template is a byte-order mark, the headers and the samples' rows. */
  lemma TemplateIsMarkedMatrix(headers: Row, samples: seq<Record>, body: seq<Row>)
    requires |body| == |samples| && forall i :: 0 <= i < |samples| ==> HoldsSample(body[i], headers, samples[i])
    ensures TemplateText(headers, samples) == "\U{FEFF}" + PrintMatrix([headers] + body)
  {
    var cells := TemplateRows(headers, samples)[1..];
    forall i | 0 <= i < |samples|
      ensures cells[i] == body[i]
    {
      assert HoldsSample(body[i], headers, samples[i]);
    }
    assert cells == body;
  }

  predicate UsableHeaders(lower: string -> string, headers: Row) {
    && headers != []
    && (forall i :: 0 <= i < |headers| ==> NormalizeHeader(lower, headers[i]) != "")
    && (forall i, j :: 0 <= i < j < |headers| ==>
          NormalizeHeader(lower, headers[i]) != NormalizeHeader(lower, headers[j]))
  }

  /** The record holds exactly the sample's cells, trimmed, under the normalised headers. */
  ghost predicate ReadsAs(lower: string -> string, record: Record, headers: Row, sample: Record) {
    && (forall h :: h in record <==> h in NormalizeHeaders(lower, headers))
    && (forall i :: 0 <= i < |headers| ==>
          NormalizeHeader(lower, headers[i]) in record &&
          record[NormalizeHeader(lower, headers[i])] == Trim(if headers[i] in sample then sample[headers[i]] else ""))
  }

  lemma SpacesOnlyTrimAway(s: string)
    requires AllSpace(s)
    ensures Trim(s) == ""
  {
    TrimShape(s);
  }

  lemma BlankHeaderHasNoName(lower: string -> string, header: string)
    requires lower("") == "" && Trim(header) == ""
    ensures NormalizeHeader(lower, header) == ""
  {
    TrimShape(header);
    SpacesOnlyTrimAway(StripBom(header));
  }

  lemma {:induction false} AllFilledRecords(headers: Row, rows: seq<Row>)
    requires forall i :: 0 <= i < |rows| ==> Filled(rows[i])
    ensures RecordsOf(headers, rows) == seq(|rows|, i requires 0 <= i < |rows| => RecordOf(headers, rows[i]))
  {
    hide Filled, RecordOf;
    if rows != [] {
      AllFilledRecords(headers, rows[..|rows| - 1]);
    }
  }

  /** The text of a template with a filled header row, read back, before blank samples are dropped. */
  lemma TemplateParses(lower: string -> string, headers: Row, samples: seq<Record>)
    requires Filled(headers)
    ensures ParseText(lower, TemplateText(headers, samples))
         == RecordsOf(NormalizeHeaders(lower, headers), TemplateRows(headers, samples)[1..])
  {
    var rows := TemplateRows(headers, samples);
    var text := TemplateText(headers, samples);
    assert StripBom(text) == PrintMatrix(rows);
    ParseUndoesPrint(rows);
    assert FirstFilled(rows) == 0;
  }

  /** Reading the generated template gives the sample rows back in order, one record a row. */
  lemma TemplateReadsBack(lower: string -> string, headers: Row, samples: seq<Record>)
    requires lower("") == "" && UsableHeaders(lower, headers)
    requires forall i :: 0 <= i < |samples| ==> Filled(Cells(headers, samples[i]))
    ensures var records := ParseText(lower, TemplateText(headers, samples));
            && |records| == |samples|
            && forall i :: 0 <= i < |samples| ==> ReadsAs(lower, records[i], headers, samples[i])
  {
    hide PrintMatrix, RecordOf, NormalizeHeader, ParseMatrix, Trim;
    if Trim(headers[0]) == "" {
      BlankHeaderHasNoName(lower, headers[0]);
    }
    TemplateParses(lower, headers, samples);
    var names := NormalizeHeaders(lower, headers);
    var rows := TemplateRows(headers, samples)[1..];
    AllFilledRecords(names, rows);
    hide ReadsAs;
    forall i | 0 <= i < |samples|
      ensures ReadsAs(lower, RecordOf(names, rows[i]), headers, samples[i])
    {
      SampleReadsBack(lower, headers, samples[i]);
    }
  }

  lemma SampleReadsBack(lower: string -> string, headers: Row, sample: Record)
    requires UsableHeaders(lower, headers)
    ensures ReadsAs(lower, RecordOf(NormalizeHeaders(lower, headers), Cells(headers, sample)), headers, sample)
  {
    hide NormalizeHeader;
    var names, row := NormalizeHeaders(lower, headers), Cells(headers, sample);
    RecordMeaning(names, row);
    forall i | 0 <= i < |headers|
      ensures names[i] in RecordOf(names, row)
      ensures RecordOf(names, row)[names[i]] == Trim(CellOf(sample, headers[i]))
    {
      assert LastUpTo(names, |names|, i);
    }
  }

  /** A sample row without a filled cell is the one thing that gets lost: the counts agree only without it. */
  lemma TemplateKeepsCountIff(lower: string -> string, headers: Row, samples: seq<Record>)
    requires Filled(headers)
    ensures |ParseText(lower, TemplateText(headers, samples))| == |samples|
       <==> forall i :: 0 <= i < |samples| ==> Filled(Cells(headers, samples[i]))
  {
    TemplateParses(lower, headers, samples);
    var rows := TemplateRows(headers, samples)[1..];
    assert forall i :: 0 <= i < |samples| ==> rows[i] == Cells(headers, samples[i]);
    CountFilled(NormalizeHeaders(lower, headers), rows);
  }

  lemma {:induction false} CountFilled(headers: Row, rows: seq<Row>)
    ensures |RecordsOf(headers, rows)| <= |rows|
    ensures |RecordsOf(headers, rows)| == |rows| <==> forall i :: 0 <= i < |rows| ==> Filled(rows[i])
  {
    hide Filled, RecordOf;
    if rows != [] {
      var n := |rows| - 1;
      CountFilled(headers, rows[..n]);
      assert forall i :: 0 <= i < n ==> rows[..n][i] == rows[i];
    }
  }
}
