/**
 Row validation of src/lib/excel/importValidationService.ts. Cells are strings; the calendar, number
 and master-data look-ups that the validator consults are parameters.
 */
module ImportValidation {
  import opened Wrappers
  import opened Text

  datatype FieldType = TextField | DateField | NumberField | AmountField | CurrencyField | StatusField

  /** Empty `options` stands for a field without a list of options. */
  datatype Field = Field(key: string, title: string, required: bool, kind: FieldType, options: seq<string>)

  type Schema = seq<Field>

  datatype Level = Valid | Warning | Error

  datatype Reason =
    | RequiredMissing | BadDate | BadNumber | NegativeNumber | BadCurrency | BadOption | UnknownMasterData
    | DuplicateKey | UnknownHeader

  datatype Issue = Issue(field: string, level: Level, reason: Reason)

  /** A normalised cell: the text as read, or the number a numeric field was turned into. */
  datatype Cell = Raw(text: string) | Number(value: real)

  datatype Checks = Checks(
    isDate: string -> bool,
    number: string -> Option<real>,
    isKnown: (string, string) -> bool,
    show: real -> string)

  datatype ValidatedRow = ValidatedRow(normalized: map<string, Cell>, issues: seq<Issue>, level: Level)

  datatype Result = Result(rows: seq<ValidatedRow>, validRows: nat, warningRows: nat, errorRows: nat)

  /** One imported row: its cells by header. */
  type Source = map<string, string>

  /** What one validation run is given: `mapping` sends a field key to the header that feeds it. */
  datatype Batch = Batch(checks: Checks, schema: Schema, mapping: map<string, string>, rows: seq<Source>)

  const DUPLICATE_KEYS := ["invoiceNumber", "statementNo", "pr", "code", "sku"]

  // ----- one row

  function RawCell(row: Source, mapping: map<string, string>, key: string): string {
    var header := if key in mapping then mapping[key] else "";
    if header != "" && header in row then row[header] else ""
  }

  /** The parsed value of a numeric field that holds a non-negative number. */
  function ParsedNumber(c: Checks, f: Field, raw: string): Option<real> {
    if && (f.kind == NumberField || f.kind == AmountField)
       && Trim(raw) != "" && c.number(raw).Some? && c.number(raw).value >= 0.0
    then c.number(raw) else None
  }

  function NormalizedCell(c: Checks, f: Field, raw: string): Cell {
    if ParsedNumber(c, f, raw).Some? then Number(ParsedNumber(c, f, raw).value) else Raw(raw)
  }

  function IssueIf(bad: bool, f: Field, reason: Reason): seq<Issue> {
    if bad then [Issue(f.title, Error, reason)] else []
  }

  function NumericIssues(c: Checks, f: Field, raw: string): seq<Issue> {
    if f.kind != NumberField && f.kind != AmountField then []
    else if c.number(raw).None? then IssueIf(true, f, BadNumber)
    else IssueIf(c.number(raw).value < 0.0, f, NegativeNumber)
  }

  /** The checks one field runs on its cell, in order. */
  function FieldIssues(c: Checks, f: Field, raw: string): seq<Issue> {
    var text := Trim(raw);
    if text == "" then IssueIf(f.required, f, RequiredMissing)
    else
      IssueIf(f.kind == DateField && !c.isDate(text), f, BadDate)
      + NumericIssues(c, f, raw)
      + IssueIf(f.kind == CurrencyField && text !in ["CNY", "USD", "EUR"], f, BadCurrency)
      + IssueIf(f.options != [] && text !in f.options, f, BadOption)
      + IssueIf(!c.isKnown(f.key, text), f, UnknownMasterData)
  }

  function IssuesUpTo(c: Checks, schema: Schema, row: Source, mapping: map<string, string>, k: nat): seq<Issue>
    requires k <= |schema|
  {
    if k == 0 then []
    else
      var f := schema[k - 1];
      IssuesUpTo(c, schema, row, mapping, k - 1) + FieldIssues(c, f, RawCell(row, mapping, f.key))
  }

  function NormalizedUpTo(c: Checks, schema: Schema, row: Source, mapping: map<string, string>, k: nat)
    : map<string, Cell>
    requires k <= |schema|
  {
    if k == 0 then map[]
    else
      var f := schema[k - 1];
      NormalizedUpTo(c, schema, row, mapping, k - 1)[f.key := NormalizedCell(c, f, RawCell(row, mapping, f.key))]
  }

  function Normalized(c: Checks, schema: Schema, row: Source, mapping: map<string, string>): map<string, Cell> {
    NormalizedUpTo(c, schema, row, mapping, |schema|)
  }

  // ----- duplicates

  predicate HasField(schema: Schema, key: string) {
    exists i :: 0 <= i < |schema| && schema[i].key == key
  }

  function FieldFor(schema: Schema, key: string): Field
    requires HasField(schema, key)
  {
    if schema[0].key == key then schema[0] else FieldFor(schema[1..], key)
  }

  /** `String(normalized[key] || "")`: a zero counts as no value. */
  function KeyText(c: Checks, normalized: map<string, Cell>, key: string): string {
    if key !in normalized then ""
    else match normalized[key]
      case Raw(text) => text
      case Number(value) => if value == 0.0 then "" else c.show(value)
  }

  function KeyTexts(b: Batch, i: nat, key: string): string
    requires i < |b.rows|
  {
    KeyText(b.checks, Normalized(b.checks, b.schema, b.rows[i], b.mapping), key)
  }

  /** Row i holds a value for the key that an earlier row holds too. */
  predicate Repeats(b: Batch, i: nat, key: string)
    requires i < |b.rows|
  {
    var value := KeyTexts(b, i, key);
    value != "" && exists j :: 0 <= j < i && KeyTexts(b, j, key) == value
  }

  function DuplicateIssues(b: Batch, i: nat, k: nat): seq<Issue>
    requires i < |b.rows| && k <= |DUPLICATE_KEYS|
  {
    if k == 0 then []
    else
      var key := DUPLICATE_KEYS[k - 1];
      DuplicateIssues(b, i, k - 1)
      + (if HasField(b.schema, key) && Repeats(b, i, key)
         then [Issue(FieldFor(b.schema, key).title, Error, DuplicateKey)] else [])
  }

  function Token(key: string, value: string): string {
    key + ":" + value
  }

  // ----- headers nothing maps to

  /** Some field is mapped to the header. */
  predicate IsMapped(header: string, mapping: map<string, string>) {
    header != "" && header in mapping.Values
  }

  function UnknownHeaders(headers: seq<string>, mapping: map<string, string>): seq<string> {
    if headers == [] then []
    else if IsMapped(headers[0], mapping) then UnknownHeaders(headers[1..], mapping)
    else [headers[0]] + UnknownHeaders(headers[1..], mapping)
  }

  function HeaderIssues(unknown: seq<string>): seq<Issue> {
    seq(|unknown|, i requires 0 <= i < |unknown| => Issue(unknown[i], Warning, UnknownHeader))
  }

  predicate HasError(issues: seq<Issue>) {
    exists i :: 0 <= i < |issues| && issues[i].level == Error
  }

  function LevelOf(issues: seq<Issue>): Level {
    if HasError(issues) then Error else if issues != [] then Warning else Valid
  }

  function RowIssues(b: Batch, unknown: seq<string>, i: nat): seq<Issue>
    requires i < |b.rows|
  {
    IssuesUpTo(b.checks, b.schema, b.rows[i], b.mapping, |b.schema|)
    + DuplicateIssues(b, i, |DUPLICATE_KEYS|)
    + HeaderIssues(unknown)
  }

  function RowResult(b: Batch, unknown: seq<string>, i: nat): ValidatedRow
    requires i < |b.rows|
  {
    var issues := RowIssues(b, unknown, i);
    ValidatedRow(Normalized(b.checks, b.schema, b.rows[i], b.mapping), issues, LevelOf(issues))
  }

  function CountLevel(rows: seq<ValidatedRow>, level: Level): nat {
    if rows == [] then 0 else (if rows[0].level == level then 1 else 0) + CountLevel(rows[1..], level)
  }

  // ----- the loops

  ghost predicate SeenTokens(seen: set<string>, b: Batch, upTo: nat)
    requires upTo <= |b.rows|
  {
    forall k, value :: 0 <= k < |DUPLICATE_KEYS| && value != "" ==>
      (Token(DUPLICATE_KEYS[k], value) in seen <==>
        HasField(b.schema, DUPLICATE_KEYS[k]) &&
        exists j :: 0 <= j < upTo && KeyTexts(b, j, DUPLICATE_KEYS[k]) == value)
  }

  method ValidateImportRows(b: Batch, headers: seq<string>) returns (r: Result)
    ensures |r.rows| == |b.rows|
    ensures forall i :: 0 <= i < |b.rows| ==> r.rows[i] == RowResult(b, UnknownHeaders(headers, b.mapping), i)
    ensures r.validRows == CountLevel(r.rows, Valid)
    ensures r.warningRows == CountLevel(r.rows, Warning)
    ensures r.errorRows == CountLevel(r.rows, Error)
  {
    NothingSeen(b);
    hide *;
    var seen: set<string> := {};
    var unknown := UnknownHeaders(headers, b.mapping);
    var validated: seq<ValidatedRow> := [];
    for i := 0 to |b.rows|
      invariant |validated| == i
      invariant forall j :: 0 <= j < i ==> validated[j] == RowResult(b, unknown, j)
      invariant SeenTokens(seen, b, i)
    {
      var normalized, issues := CheckFields(b.checks, b.schema, b.rows[i], b.mapping);
      var duplicates;
      duplicates, seen := CheckDuplicates(b, i, normalized, seen);
      issues := issues + duplicates + HeaderIssues(unknown);
      Assembled(b, unknown, i);
      validated := validated + [ValidatedRow(normalized, issues, LevelOf(issues))];
    }
    r := Result(validated, CountLevel(validated, Valid), CountLevel(validated, Warning), CountLevel(validated, Error));
  }

  lemma NothingSeen(b: Batch)
    ensures SeenTokens({}, b, 0)
  {
  }

  lemma Assembled(b: Batch, unknown: seq<string>, i: nat)
    requires i < |b.rows|
    ensures var issues := IssuesUpTo(b.checks, b.schema, b.rows[i], b.mapping, |b.schema|) +
                          DuplicateIssues(b, i, |DUPLICATE_KEYS|) + HeaderIssues(unknown);
            RowResult(b, unknown, i) ==
            ValidatedRow(Normalized(b.checks, b.schema, b.rows[i], b.mapping), issues, LevelOf(issues))
  {
  }

  method CheckFields(c: Checks, schema: Schema, row: Source, mapping: map<string, string>)
    returns (normalized: map<string, Cell>, issues: seq<Issue>)
    ensures normalized == Normalized(c, schema, row, mapping)
    ensures issues == IssuesUpTo(c, schema, row, mapping, |schema|)
  {
    normalized := map[];
    issues := [];
    for k := 0 to |schema|
      invariant normalized == NormalizedUpTo(c, schema, row, mapping, k)
      invariant issues == IssuesUpTo(c, schema, row, mapping, k)
    {
      var f := schema[k];
      var raw := RawCell(row, mapping, f.key);
      issues := issues + FieldIssues(c, f, raw);
      normalized := normalized[f.key := NormalizedCell(c, f, raw)];
    }
  }

  method CheckDuplicates(b: Batch, i: nat, normalized: map<string, Cell>, before: set<string>)
    returns (issues: seq<Issue>, seen: set<string>)
    requires i < |b.rows| && normalized == Normalized(b.checks, b.schema, b.rows[i], b.mapping)
    requires SeenTokens(before, b, i)
    ensures issues == DuplicateIssues(b, i, |DUPLICATE_KEYS|)
    ensures SeenTokens(seen, b, i + 1)
  {
    hide Normalized, Trim, KeyText, Token;
    issues := [];
    seen := before;
    for k := 0 to |DUPLICATE_KEYS|
      invariant issues == DuplicateIssues(b, i, k)
      invariant forall t :: t in seen <==> t in before || TokenOfRow(b, i, k, t)
    {
      var key := DUPLICATE_KEYS[k];
      if HasField(b.schema, key) {
        var value := KeyText(b.checks, normalized, key);
        if value != "" {
          EarlierToken(b, i, k, seen, before);
          if Token(key, value) in seen {
            issues := issues + [Issue(FieldFor(b.schema, key).title, Error, DuplicateKey)];
          } else {
            seen := seen + {Token(key, value)};
          }
        }
      }
      TokenOfRowStep(b, i, k);
    }
    TokensAfterRow(b, i, before, seen);
  }

  /** t is the token of one of the first k duplicate keys in row i. */
  ghost predicate TokenOfRow(b: Batch, i: nat, k: nat, t: string)
    requires i < |b.rows| && k <= |DUPLICATE_KEYS|
  {
    exists m :: 0 <= m < k && HasField(b.schema, DUPLICATE_KEYS[m])
             && KeyTexts(b, i, DUPLICATE_KEYS[m]) != ""
             && t == Token(DUPLICATE_KEYS[m], KeyTexts(b, i, DUPLICATE_KEYS[m]))
  }

  lemma TokenOfRowStep(b: Batch, i: nat, k: nat)
    requires i < |b.rows| && k < |DUPLICATE_KEYS|
    ensures var key := DUPLICATE_KEYS[k];
            var value := KeyTexts(b, i, key);
            forall t :: TokenOfRow(b, i, k + 1, t) <==>
              TokenOfRow(b, i, k, t) || (HasField(b.schema, key) && value != "" && t == Token(key, value))
  {
    hide KeyTexts, HasField, Token;
  }

  /** The key and the value can be read off a token, since no key contains a colon. */
  lemma TokenIsInjective(k: nat, m: nat, v: string, w: string)
    requires k < |DUPLICATE_KEYS| && m < |DUPLICATE_KEYS|
    requires Token(DUPLICATE_KEYS[k], v) == Token(DUPLICATE_KEYS[m], w)
    ensures k == m && v == w
  {
    var a, b := DUPLICATE_KEYS[k], DUPLICATE_KEYS[m];
    var t := Token(a, v);
    KeysHaveNoColon(k);
    KeysHaveNoColon(m);
    assert t[|a|] == ':' && t[|b|] == ':';
    assert |a| == |b|;
    assert t[..|a|] == a && t[..|b|] == b;
    assert t[|a| + 1..] == v && t[|b| + 1..] == w;
    KeysDiffer(k, m);
  }

  lemma KeysHaveNoColon(k: nat)
    requires k < |DUPLICATE_KEYS|
    ensures ':' !in DUPLICATE_KEYS[k]
  {
  }

  lemma KeysDiffer(k: nat, m: nat)
    requires k < |DUPLICATE_KEYS| && m < |DUPLICATE_KEYS| && DUPLICATE_KEYS[k] == DUPLICATE_KEYS[m]
    ensures k == m
  {
  }

  /** A token of the current key is in `seen` only if an earlier row put it there. */
  lemma EarlierToken(b: Batch, i: nat, k: nat, seen: set<string>, before: set<string>)
    requires i < |b.rows| && k < |DUPLICATE_KEYS| && HasField(b.schema, DUPLICATE_KEYS[k])
    requires SeenTokens(before, b, i)
    requires forall t :: t in seen <==> t in before || TokenOfRow(b, i, k, t)
    ensures var key := DUPLICATE_KEYS[k];
            var value := KeyTexts(b, i, key);
            value != "" ==> (Token(key, value) in seen <==> Repeats(b, i, key))
  {
    hide KeyTexts, HasField, Token;
    var key := DUPLICATE_KEYS[k];
    var value := KeyTexts(b, i, key);
    if TokenOfRow(b, i, k, Token(key, value)) {
      var m :| 0 <= m < k && Token(key, value) == Token(DUPLICATE_KEYS[m], KeyTexts(b, i, DUPLICATE_KEYS[m]));
      TokenIsInjective(k, m, value, KeyTexts(b, i, DUPLICATE_KEYS[m]));
    }
  }

  lemma TokensAfterRow(b: Batch, i: nat, before: set<string>, seen: set<string>)
    requires i < |b.rows| && SeenTokens(before, b, i)
    requires forall t :: t in seen <==> t in before || TokenOfRow(b, i, |DUPLICATE_KEYS|, t)
    ensures SeenTokens(seen, b, i + 1)
  {
    hide KeyTexts, HasField, Token;
    forall k, value | 0 <= k < |DUPLICATE_KEYS| && value != ""
      ensures TokenOfRow(b, i, |DUPLICATE_KEYS|, Token(DUPLICATE_KEYS[k], value)) <==>
              HasField(b.schema, DUPLICATE_KEYS[k]) && KeyTexts(b, i, DUPLICATE_KEYS[k]) == value
    {
      var t := Token(DUPLICATE_KEYS[k], value);
      if TokenOfRow(b, i, |DUPLICATE_KEYS|, t) {
        var m :| 0 <= m < |DUPLICATE_KEYS| && HasField(b.schema, DUPLICATE_KEYS[m])
              && t == Token(DUPLICATE_KEYS[m], KeyTexts(b, i, DUPLICATE_KEYS[m]));
        TokenIsInjective(k, m, value, KeyTexts(b, i, DUPLICATE_KEYS[m]));
      }
    }
  }

  // ----- results

  /** Valid, warning and error rows partition the rows. */
  lemma {:induction false} CountsPartition(rows: seq<ValidatedRow>)
    ensures CountLevel(rows, Valid) + CountLevel(rows, Warning) + CountLevel(rows, Error) == |rows|
  {
    if rows != [] {
      CountsPartition(rows[1..]);
    }
  }

  /** Duplicate key m is in the schema and row i repeats an earlier row's value under it. */
  predicate Flagged(b: Batch, i: nat, m: nat)
    requires i < |b.rows| && m < |DUPLICATE_KEYS|
  {
    HasField(b.schema, DUPLICATE_KEYS[m]) && Repeats(b, i, DUPLICATE_KEYS[m])
  }

  function DuplicateIssue(schema: Schema, m: nat): Issue
    requires m < |DUPLICATE_KEYS| && HasField(schema, DUPLICATE_KEYS[m])
  {
    Issue(FieldFor(schema, DUPLICATE_KEYS[m]).title, Error, DuplicateKey)
  }

  lemma DuplicateStep(b: Batch, i: nat, k: nat)
    requires i < |b.rows| && k < |DUPLICATE_KEYS|
    ensures DuplicateIssues(b, i, k + 1)
         == if Flagged(b, i, k)
            then DuplicateIssues(b, i, k) + [DuplicateIssue(b.schema, k)]
            else DuplicateIssues(b, i, k)
  {
    hide Repeats, HasField, FieldFor;
  }

  function FlaggedKeys(b: Batch, i: nat, k: nat): set<nat>
    requires i < |b.rows| && k <= |DUPLICATE_KEYS|
  {
    set m: nat | m < k && Flagged(b, i, m)
  }

  /** A row gets as many duplicate errors as there are keys whose value an earlier row holds. */
  lemma {:induction false} DuplicateIssuesAreExact(b: Batch, i: nat, k: nat)
    requires i < |b.rows| && k <= |DUPLICATE_KEYS|
    ensures |DuplicateIssues(b, i, k)| == |FlaggedKeys(b, i, k)|
  {
    hide Flagged, HasField, Repeats, FieldFor;
    if k == 0 {
      assert FlaggedKeys(b, i, 0) == {};
    } else {
      hide DuplicateIssues, FlaggedKeys;
      DuplicateIssuesAreExact(b, i, k - 1);
      DuplicateStep(b, i, k - 1);
      FlaggedStep(b, i, k - 1);
    }
  }

  lemma {:induction false} DuplicateIssuesAreErrors(b: Batch, i: nat, k: nat)
    requires i < |b.rows| && k <= |DUPLICATE_KEYS|
    ensures AllDuplicates(DuplicateIssues(b, i, k))
  {
    hide Flagged, HasField, Repeats, FieldFor;
    if k > 0 {
      hide DuplicateIssues;
      DuplicateIssuesAreErrors(b, i, k - 1);
      DuplicateStep(b, i, k - 1);
    }
  }

  lemma FlaggedStep(b: Batch, i: nat, k: nat)
    requires i < |b.rows| && k < |DUPLICATE_KEYS|
    ensures var before := FlaggedKeys(b, i, k);
            k !in before && FlaggedKeys(b, i, k + 1) == if Flagged(b, i, k) then before + {k} else before
  {
    hide Flagged;
  }

  /** Among them is the error for every such key, under the title of its field. */
  lemma {:induction false} DuplicateIssueIsListed(b: Batch, i: nat, m: nat, k: nat)
    requires i < |b.rows| && m < k <= |DUPLICATE_KEYS| && Flagged(b, i, m)
    ensures DuplicateIssue(b.schema, m) in DuplicateIssues(b, i, k)
  {
    hide Repeats, HasField, FieldFor, DuplicateIssues;
    DuplicateStep(b, i, k - 1);
    if m < k - 1 {
      DuplicateIssueIsListed(b, i, m, k - 1);
    }
  }

  predicate AllDuplicates(issues: seq<Issue>) {
    forall n :: 0 <= n < |issues| ==> issues[n].level == Error && issues[n].reason == DuplicateKey
  }

  /** Rows that pass without an error have pairwise different values under every duplicate key. */
  lemma ErrorFreeRowsAreDistinct(b: Batch, unknown: seq<string>, i: nat, j: nat, k: nat)
    requires j < i < |b.rows| && k < |DUPLICATE_KEYS| && HasField(b.schema, DUPLICATE_KEYS[k])
    requires RowResult(b, unknown, i).level != Error
    ensures var mine, earlier := KeyTexts(b, i, DUPLICATE_KEYS[k]), KeyTexts(b, j, DUPLICATE_KEYS[k]);
            mine == "" || mine != earlier
  {
    hide KeyTexts, HasField, RowResult;
    ErrorIff(b, unknown, i);
    assert !Flagged(b, i, k);
  }

  /** An error row is one with a failing field or a repeated key; unknown headers alone only warn. */
  lemma ErrorIff(b: Batch, unknown: seq<string>, i: nat)
    requires i < |b.rows|
    ensures RowResult(b, unknown, i).level == Error <==>
            || IssuesUpTo(b.checks, b.schema, b.rows[i], b.mapping, |b.schema|) != []
            || exists m :: 0 <= m < |DUPLICATE_KEYS| && Flagged(b, i, m)
  {
    hide Repeats, HasField, FieldFor, Normalized, IssuesUpTo, DuplicateIssues, Flagged;
    DuplicateIssuesAreErrors(b, i, |DUPLICATE_KEYS|);
    NoFlagNoIssue(b, i);
    FieldIssuesAreErrors(b.checks, b.schema, b.rows[i], b.mapping, |b.schema|);
    var fields := IssuesUpTo(b.checks, b.schema, b.rows[i], b.mapping, |b.schema|);
    var duplicates := DuplicateIssues(b, i, |DUPLICATE_KEYS|);
    var issues := RowIssues(b, unknown, i);
    assert issues == fields + duplicates + HeaderIssues(unknown);
    if fields != [] {
      assert issues[0] == fields[0];
    } else if duplicates != [] {
      assert issues[0] == duplicates[0];
    }
  }

  lemma NoFlagNoIssue(b: Batch, i: nat)
    requires i < |b.rows|
    ensures DuplicateIssues(b, i, |DUPLICATE_KEYS|) == [] <==>
            forall m :: 0 <= m < |DUPLICATE_KEYS| ==> !Flagged(b, i, m)
  {
    hide Flagged, DuplicateIssues;
    DuplicateIssuesAreExact(b, i, |DUPLICATE_KEYS|);
    var flagged := FlaggedKeys(b, i, |DUPLICATE_KEYS|);
    if m: nat :| m < |DUPLICATE_KEYS| && Flagged(b, i, m) {
      assert m in flagged;
    } else {
      assert flagged == {};
    }
  }

  predicate AllErrors(issues: seq<Issue>) {
    forall n :: 0 <= n < |issues| ==> issues[n].level == Error
  }

  lemma OneFieldIssuesAreErrors(c: Checks, f: Field, raw: string)
    ensures AllErrors(FieldIssues(c, f, raw))
  {
    hide Trim;
  }

  lemma {:induction false} FieldIssuesAreErrors(c: Checks, schema: Schema, row: Source,
                                                mapping: map<string, string>, k: nat)
    requires k <= |schema|
    ensures AllErrors(IssuesUpTo(c, schema, row, mapping, k))
  {
    hide FieldIssues, RawCell;
    if k > 0 {
      FieldIssuesAreErrors(c, schema, row, mapping, k - 1);
      OneFieldIssuesAreErrors(c, schema[k - 1], RawCell(row, mapping, schema[k - 1].key));
    }
  }
}
