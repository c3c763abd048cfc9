/** What the issues, levels and normalised cells of a validated row say about its cells. */
module ImportIssues {
  import opened Wrappers
  import opened Text
  import opened ImportValidation

  // ----- the issues of one field

  /** What has to be wrong with a cell for each complaint about it. */
  predicate Wrong(c: Checks, f: Field, raw: string, reason: Reason) {
    var text := Trim(raw);
    match reason
    case RequiredMissing => text == "" && f.required
    case BadDate => text != "" && f.kind == DateField && !c.isDate(text)
    case BadNumber => text != "" && (f.kind == NumberField || f.kind == AmountField) && c.number(raw).None?
    case NegativeNumber =>
      && text != "" && (f.kind == NumberField || f.kind == AmountField)
      && c.number(raw).Some? && c.number(raw).value < 0.0
    case BadCurrency => text != "" && f.kind == CurrencyField && text != "CNY" && text != "USD" && text != "EUR"
    case BadOption => text != "" && f.options != [] && text !in f.options
    case UnknownMasterData => text != "" && !c.isKnown(f.key, text)
    case DuplicateKey => false
    case UnknownHeader => false
  }

  /** The order the complaints about one cell come in. */
  function Place(reason: Reason): nat {
    match reason
    case RequiredMissing => 0
    case BadDate => 1
    case BadNumber => 2
    case NegativeNumber => 3
    case BadCurrency => 4
    case BadOption => 5
    case UnknownMasterData => 6
    case DuplicateKey => 7
    case UnknownHeader => 8
  }

  ghost predicate InPlace(issues: seq<Issue>) {
    forall i, j :: 0 <= i < j < |issues| ==> Place(issues[i].reason) < Place(issues[j].reason)
  }

  predicate Complains(issues: seq<Issue>, reason: Reason) {
    exists i :: 0 <= i < |issues| && issues[i].reason == reason
  }

  /** The issues are errors under the field's title, in order, and none is as late as the given place. */
  ghost predicate ErrorsBefore(issues: seq<Issue>, f: Field, place: nat) {
    && InPlace(issues)
    && forall i :: 0 <= i < |issues| ==>
         issues[i].field == f.title && issues[i].level == Error && Place(issues[i].reason) < place
  }

  lemma AppendIssue(issues: seq<Issue>, bad: bool, f: Field, reason: Reason, place: nat)
    requires ErrorsBefore(issues, f, place) && Place(reason) == place
    ensures var all := issues + IssueIf(bad, f, reason);
            && ErrorsBefore(all, f, place + 1)
            && forall r :: Complains(all, r) <==> Complains(issues, r) || (bad && r == reason)
  {
    var all := issues + IssueIf(bad, f, reason);
    forall r
      ensures Complains(all, r) <==> Complains(issues, r) || (bad && r == reason)
    {
      if i :| 0 <= i < |issues| && issues[i].reason == r {
        assert all[i].reason == r;
      }
      if bad && r == reason {
        assert all[|issues|].reason == r;
      }
    }
  }

  /** One optional issue for each of the six complaints about a filled cell. */
  function SixIssues(f: Field, date: bool, number: bool, sign: bool, currency: bool, option: bool, master: bool)
    : seq<Issue>
  {
    IssueIf(date, f, BadDate) + IssueIf(number, f, BadNumber) + IssueIf(sign, f, NegativeNumber)
    + IssueIf(currency, f, BadCurrency) + IssueIf(option, f, BadOption) + IssueIf(master, f, UnknownMasterData)
  }

  lemma SixInOrder(f: Field, date: bool, number: bool, sign: bool, currency: bool, option: bool, master: bool)
    ensures var issues := SixIssues(f, date, number, sign, currency, option, master);
            && ErrorsBefore(issues, f, 7)
            && forall r :: Complains(issues, r) <==>
                 || (date && r == BadDate) || (number && r == BadNumber) || (sign && r == NegativeNumber)
                 || (currency && r == BadCurrency) || (option && r == BadOption) || (master && r == UnknownMasterData)
  {
    hide ErrorsBefore, Complains;
    Nothing(f);
    AppendIssue([], date, f, BadDate, 1);
    var issues := [] + IssueIf(date, f, BadDate);
    assert issues == IssueIf(date, f, BadDate);
    hide IssueIf;
    AppendIssue(issues, number, f, BadNumber, 2);
    issues := issues + IssueIf(number, f, BadNumber);
    AppendIssue(issues, sign, f, NegativeNumber, 3);
    issues := issues + IssueIf(sign, f, NegativeNumber);
    AppendIssue(issues, currency, f, BadCurrency, 4);
    issues := issues + IssueIf(currency, f, BadCurrency);
    AppendIssue(issues, option, f, BadOption, 5);
    issues := issues + IssueIf(option, f, BadOption);
    AppendIssue(issues, master, f, UnknownMasterData, 6);
  }

  lemma FilledCellDraws(c: Checks, f: Field, raw: string)
    requires Trim(raw) != ""
    ensures FieldIssues(c, f, raw)
         == SixIssues(f, Wrong(c, f, raw, BadDate), Wrong(c, f, raw, BadNumber), Wrong(c, f, raw, NegativeNumber),
                      Wrong(c, f, raw, BadCurrency), Wrong(c, f, raw, BadOption), Wrong(c, f, raw, UnknownMasterData))
  {
    hide Trim, IssueIf, Wrong, NumericIssues;
    var text := Trim(raw);
    FilledCellIsWrong(c, f, raw);
    var date := IssueIf(f.kind == DateField && !c.isDate(text), f, BadDate);
    var numeric := NumericIssues(c, f, raw);
    var number := IssueIf(Wrong(c, f, raw, BadNumber), f, BadNumber);
    var sign := IssueIf(Wrong(c, f, raw, NegativeNumber), f, NegativeNumber);
    NumericIssuesAre(c, f, raw);
    assert date + (number + sign) == date + number + sign;
  }

  lemma NumericIssuesAre(c: Checks, f: Field, raw: string)
    requires Trim(raw) != ""
    ensures NumericIssues(c, f, raw)
         == IssueIf(Wrong(c, f, raw, BadNumber), f, BadNumber)
            + IssueIf(Wrong(c, f, raw, NegativeNumber), f, NegativeNumber)
  {
    hide Trim;
  }

  lemma FilledCellIsWrong(c: Checks, f: Field, raw: string)
    requires Trim(raw) != ""
    ensures var text := Trim(raw);
            && (Wrong(c, f, raw, BadDate) <==> f.kind == DateField && !c.isDate(text))
            && (Wrong(c, f, raw, BadCurrency) <==> f.kind == CurrencyField && text !in ["CNY", "USD", "EUR"])
            && (Wrong(c, f, raw, BadOption) <==> f.options != [] && text !in f.options)
            && (Wrong(c, f, raw, UnknownMasterData) <==> !c.isKnown(f.key, text))
  {
    hide Trim;
  }

  /** A cell draws exactly the complaints it deserves, each once, as errors under the field's title, in order. */
  lemma FieldIssuesAreDeserved(c: Checks, f: Field, raw: string)
    ensures var issues := FieldIssues(c, f, raw);
            && ErrorsBefore(issues, f, 7)
            && forall reason :: Wrong(c, f, raw, reason) <==> Complains(issues, reason)
  {
    hide Trim;
    if Trim(raw) != "" {
      FilledCellDraws(c, f, raw);
      SixInOrder(f, Wrong(c, f, raw, BadDate), Wrong(c, f, raw, BadNumber), Wrong(c, f, raw, NegativeNumber),
                 Wrong(c, f, raw, BadCurrency), Wrong(c, f, raw, BadOption), Wrong(c, f, raw, UnknownMasterData));
      hide FieldIssues, SixIssues, ErrorsBefore, Complains;
    } else {
      Nothing(f);
      AppendIssue([], f.required, f, RequiredMissing, 0);
      assert FieldIssues(c, f, raw) == [] + IssueIf(f.required, f, RequiredMissing);
      LaterPlace(FieldIssues(c, f, raw), f, 1, 7);
      hide FieldIssues, ErrorsBefore, Complains, IssueIf;
    }
  }

  lemma LaterPlace(issues: seq<Issue>, f: Field, place: nat, later: nat)
    requires ErrorsBefore(issues, f, place) && place <= later
    ensures ErrorsBefore(issues, f, later)
  {
  }

  lemma Nothing(f: Field)
    ensures ErrorsBefore([], f, 0) && ErrorsBefore([], f, 1) && forall r :: !Complains([], r)
  {
  }

  /** One of the first k fields has a cell that deserves the complaint. */
  predicate WrongUpTo(c: Checks, schema: Schema, row: Source, mapping: map<string, string>, k: nat, reason: Reason)
    requires k <= |schema|
  {
    exists i :: 0 <= i < k && WrongAt(c, schema[i], row, mapping, reason)
  }

  predicate WrongAt(c: Checks, f: Field, row: Source, mapping: map<string, string>, reason: Reason) {
    Wrong(c, f, RawCell(row, mapping, f.key), reason)
  }

  /** The issues of a row are those of its fields, and of no other. */
  lemma {:induction false} IssuesFieldByField(c: Checks, schema: Schema, row: Source, mapping: map<string, string>,
                                              k: nat, reason: Reason)
    requires k <= |schema|
    ensures Complains(IssuesUpTo(c, schema, row, mapping, k), reason) <==> WrongUpTo(c, schema, row, mapping, k, reason)
  {
    if k > 0 {
      hide *;
      var f := schema[k - 1];
      IssuesStep(c, schema, row, mapping, k - 1);
      WrongAtMeans(c, f, row, mapping, reason);
      IssuesFieldByField(c, schema, row, mapping, k - 1, reason);
      WrongUpToStep(c, schema, row, mapping, k - 1, reason);
      FieldIssuesAreDeserved(c, f, RawCell(row, mapping, f.key));
      ComplainsOfEither(IssuesUpTo(c, schema, row, mapping, k - 1),
                        FieldIssues(c, f, RawCell(row, mapping, f.key)), reason);
    }
  }

  lemma IssuesStep(c: Checks, schema: Schema, row: Source, mapping: map<string, string>, k: nat)
    requires k < |schema|
    ensures IssuesUpTo(c, schema, row, mapping, k + 1)
         == IssuesUpTo(c, schema, row, mapping, k) + FieldIssues(c, schema[k], RawCell(row, mapping, schema[k].key))
  {
  }

  lemma WrongAtMeans(c: Checks, f: Field, row: Source, mapping: map<string, string>, reason: Reason)
    ensures WrongAt(c, f, row, mapping, reason) <==> Wrong(c, f, RawCell(row, mapping, f.key), reason)
  {
  }

  lemma WrongUpToStep(c: Checks, schema: Schema, row: Source, mapping: map<string, string>, k: nat, reason: Reason)
    requires k < |schema|
    ensures WrongUpTo(c, schema, row, mapping, k + 1, reason) <==>
            WrongUpTo(c, schema, row, mapping, k, reason) || WrongAt(c, schema[k], row, mapping, reason)
  {
    hide WrongAt;
  }

  lemma ComplainsOfEither(a: seq<Issue>, b: seq<Issue>, reason: Reason)
    ensures Complains(a + b, reason) <==> Complains(a, reason) || Complains(b, reason)
  {
    if i :| 0 <= i < |a| && a[i].reason == reason {
      assert (a + b)[i].reason == reason;
    }
    if i :| 0 <= i < |b| && b[i].reason == reason {
      assert (a + b)[|a| + i].reason == reason;
    }
  }

  /** The cell under the header mapped to a key; without a header, or without the cell, it is empty. */
  lemma RawCellMeans(row: Source, mapping: map<string, string>, key: string)
    ensures key in mapping && mapping[key] != "" && mapping[key] in row ==>
              RawCell(row, mapping, key) == row[mapping[key]]
    ensures key !in mapping || mapping[key] == "" || mapping[key] !in row ==> RawCell(row, mapping, key) == ""
  {
  }

  // ----- the normalised cells

  /** The last field with a key is the one at position i. */
  predicate LastFieldAt(schema: Schema, k: nat, key: string, i: int)
    requires k <= |schema|
  {
    0 <= i < k && schema[i].key == key && forall j :: i < j < k ==> schema[j].key != key
  }

  /** A cell with a non-negative number in a numeric field becomes that number; any other stays as read. */
  ghost predicate NormalizedFrom(c: Checks, f: Field, raw: string, cell: Cell) {
    if && (f.kind == NumberField || f.kind == AmountField) && Trim(raw) != ""
       && c.number(raw).Some? && c.number(raw).value >= 0.0
    then cell == Number(c.number(raw).value)
    else cell == Raw(raw)
  }

  /** Exactly the keys of the fields are filled, each from the last field with that key. */
  lemma {:induction false} NormalizedMeans(c: Checks, schema: Schema, row: Source, mapping: map<string, string>,
                                           k: nat, key: string)
    requires k <= |schema|
    ensures key in NormalizedUpTo(c, schema, row, mapping, k) <==> exists i :: 0 <= i < k && schema[i].key == key
    ensures forall i :: LastFieldAt(schema, k, key, i) && key in NormalizedUpTo(c, schema, row, mapping, k) ==>
              NormalizedFrom(c, schema[i], RawCell(row, mapping, key), NormalizedUpTo(c, schema, row, mapping, k)[key])
  {
    hide Trim, RawCell;
    if k > 0 {
      NormalizedMeans(c, schema, row, mapping, k - 1, key);
      forall i | LastFieldAt(schema, k, key, i)
        ensures key in NormalizedUpTo(c, schema, row, mapping, k) ==>
                  NormalizedFrom(c, schema[i], RawCell(row, mapping, key),
                                 NormalizedUpTo(c, schema, row, mapping, k)[key])
      {
        if i < k - 1 {
          assert LastFieldAt(schema, k - 1, key, i);
        }
      }
    }
  }

  // ----- duplicates

  /** What a duplicate is looked up by: the text, or the number written out; a zero counts as nothing. */
  lemma KeyTextMeans(c: Checks, normalized: map<string, Cell>, key: string, text: string, value: real)
    ensures key !in normalized ==> KeyText(c, normalized, key) == ""
    ensures key in normalized && normalized[key] == Raw(text) ==> KeyText(c, normalized, key) == text
    ensures key in normalized && normalized[key] == Number(value) ==>
              KeyText(c, normalized, key) == if value != 0.0 then c.show(value) else ""
  {
  }

  lemma {:induction false} FieldForIsFirst(schema: Schema, key: string, i: nat)
    requires i < |schema| && schema[i].key == key && forall j :: 0 <= j < i ==> schema[j].key != key
    ensures HasField(schema, key) && FieldFor(schema, key) == schema[i]
  {
    if i > 0 {
      FieldForIsFirst(schema[1..], key, i - 1);
    }
  }

  predicate IsNumberOrCode(key: string) {
    key == "invoiceNumber" || key == "statementNo" || key == "pr" || key == "code" || key == "sku"
  }

  lemma TheFiveKeys(key: string)
    ensures IsNumberOrCode(key) <==> exists m :: 0 <= m < |DUPLICATE_KEYS| && DUPLICATE_KEYS[m] == key
  {
    assert DUPLICATE_KEYS[0] == "invoiceNumber" && DUPLICATE_KEYS[1] == "statementNo" && DUPLICATE_KEYS[2] == "pr"
        && DUPLICATE_KEYS[3] == "code" && DUPLICATE_KEYS[4] == "sku";
  }

  /** A number or code of the schema whose value an earlier row holds too. */
  ghost predicate RepeatsKey(b: Batch, i: nat, key: string)
    requires i < |b.rows|
  {
    && IsNumberOrCode(key)
    && (exists f :: f in b.schema && f.key == key)
    && KeyTexts(b, i, key) != ""
    && exists j :: 0 <= j < i && KeyTexts(b, j, key) == KeyTexts(b, i, key)
  }

  lemma FlaggedMeans(b: Batch, i: nat)
    requires i < |b.rows|
    ensures (exists m :: 0 <= m < |DUPLICATE_KEYS| && Flagged(b, i, m)) <==> exists key :: RepeatsKey(b, i, key)
  {
    hide KeyTexts;
    if m :| 0 <= m < |DUPLICATE_KEYS| && Flagged(b, i, m) {
      TheFiveKeys(DUPLICATE_KEYS[m]);
      var n :| 0 <= n < |b.schema| && b.schema[n].key == DUPLICATE_KEYS[m];
      assert b.schema[n] in b.schema;
      assert RepeatsKey(b, i, DUPLICATE_KEYS[m]);
    }
    if key :| RepeatsKey(b, i, key) {
      TheFiveKeys(key);
      var m :| 0 <= m < |DUPLICATE_KEYS| && DUPLICATE_KEYS[m] == key;
      var f :| f in b.schema && f.key == key;
      assert HasField(b.schema, key);
      assert Flagged(b, i, m);
    }
  }

  // ----- headers and levels

  /** The unknown headers are those nothing maps to, in their order and as often as they occur. */
  lemma UnknownHeadersMean(a: seq<string>, rest: seq<string>, mapping: map<string, string>, header: string)
    ensures UnknownHeaders(a + rest, mapping) == UnknownHeaders(a, mapping) + UnknownHeaders(rest, mapping)
    ensures UnknownHeaders([header], mapping)
         == if header != "" && exists key :: key in mapping && mapping[key] == header then [] else [header]
  {
    assert [header][1..] == [];
    UnknownHeadersInOrder(a, rest, mapping);
  }

  lemma {:induction false} UnknownHeadersInOrder(a: seq<string>, rest: seq<string>, mapping: map<string, string>)
    ensures UnknownHeaders(a + rest, mapping) == UnknownHeaders(a, mapping) + UnknownHeaders(rest, mapping)
  {
    if a == [] {
      assert a + rest == rest;
    } else {
      hide UnknownHeaders, IsMapped;
      UnknownHeadersInOrder(a[1..], rest, mapping);
      FirstHeader(a, mapping);
      FirstHeader(a + rest, mapping);
      assert (a + rest)[1..] == a[1..] + rest && (a + rest)[0] == a[0];
      var first := if IsMapped(a[0], mapping) then [] else [a[0]];
      Regroup(first, UnknownHeaders(a[1..], mapping), UnknownHeaders(rest, mapping));
    }
  }

  lemma Regroup(a: seq<string>, b: seq<string>, c: seq<string>)
    ensures a + b + c == a + (b + c)
  {
  }

  lemma FirstHeader(headers: seq<string>, mapping: map<string, string>)
    requires headers != []
    ensures UnknownHeaders(headers, mapping)
         == (if IsMapped(headers[0], mapping) then [] else [headers[0]]) + UnknownHeaders(headers[1..], mapping)
  {
    hide IsMapped;
  }

  /** Each unknown header is a warning at the end of every row's issues. */
  lemma HeadersComeLast(b: Batch, unknown: seq<string>, i: nat, n: nat)
    requires i < |b.rows| && n < |unknown|
    ensures var issues := RowResult(b, unknown, i).issues;
            |issues| >= |unknown| && issues[|issues| - |unknown| + n] == Issue(unknown[n], Warning, UnknownHeader)
  {
  }

  /** Some cell of the row is wrong. */
  ghost predicate SomeCellWrong(b: Batch, i: nat)
    requires i < |b.rows|
  {
    exists f, reason :: f in b.schema && WrongAt(b.checks, f, b.rows[i], b.mapping, reason)
  }

  /**
   A row is in error if one of its cells is wrong or a number or code of it is a repetition; it is valid if
   there is nothing at all; a warning means that there are only unknown headers.
   */
  lemma LevelIff(b: Batch, unknown: seq<string>, i: nat)
    requires i < |b.rows|
    ensures var bad := SomeCellWrong(b, i) || exists key :: RepeatsKey(b, i, key);
            RowResult(b, unknown, i).level == if bad then Error else if unknown != [] then Warning else Valid
  {
    ErrorIff(b, unknown, i);
    FlaggedMeans(b, i);
    CellsWrongIff(b, i);
    NoFlagNoIssue(b, i);
    hide SomeCellWrong, RepeatsKey, IssuesUpTo, DuplicateIssues, Normalized;
  }

  lemma CellsWrongIff(b: Batch, i: nat)
    requires i < |b.rows|
    ensures SomeCellWrong(b, i) <==> IssuesUpTo(b.checks, b.schema, b.rows[i], b.mapping, |b.schema|) != []
  {
    hide WrongAt, IssuesUpTo;
    var issues := IssuesUpTo(b.checks, b.schema, b.rows[i], b.mapping, |b.schema|);
    if issues != [] {
      assert Complains(issues, issues[0].reason);
      IssuesFieldByField(b.checks, b.schema, b.rows[i], b.mapping, |b.schema|, issues[0].reason);
      var k :| 0 <= k < |b.schema| && WrongAt(b.checks, b.schema[k], b.rows[i], b.mapping, issues[0].reason);
      assert b.schema[k] in b.schema;
    }
    if f, reason :| f in b.schema && WrongAt(b.checks, f, b.rows[i], b.mapping, reason) {
      IssuesFieldByField(b.checks, b.schema, b.rows[i], b.mapping, |b.schema|, reason);
      var k :| 0 <= k < |b.schema| && b.schema[k] == f;
      assert WrongAt(b.checks, b.schema[k], b.rows[i], b.mapping, reason);
    }
  }

  /** Every row is counted once, at its own level. */
  lemma {:induction false} CountsAdd(a: seq<ValidatedRow>, b: seq<ValidatedRow>, row: ValidatedRow, level: Level)
    ensures CountLevel(a + b, level) == CountLevel(a, level) + CountLevel(b, level)
    ensures CountLevel([row], level) == if row.level == level then 1 else 0
  {
    if a == [] {
      assert a + b == b;
      assert [row][1..] == [];
    } else {
      CountsAdd(a[1..], b, row, level);
      assert (a + b)[1..] == a[1..] + b;
    }
  }
}
