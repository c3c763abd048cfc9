/** What the readers of record fields mean, with every field spelled out. */
module RelationshipsFields {
  import opened Wrappers
  import opened Text
  import opened Relationships
  import opened RelationshipsWalkBack
  import opened RelationshipsBothWays

  // ----- the first field that is filled in

  /** Nothing, white space or a dash. */
  predicate Vacant(v: Option<string>) {
    v.None? || Trim(v.value) == "" || Trim(v.value) == "—"
  }

  predicate FirstFilledField(d: Doc, keys: seq<string>, i: nat) {
    i < |keys| && !Vacant(Field(d, keys[i])) && forall j :: 0 <= j < i ==> Vacant(Field(d, keys[j]))
  }

  /** The text of a list of fields is that of the first filled one, trimmed, or nothing if all are vacant. */
  lemma {:induction false} FirstTextIs(values: seq<Option<string>>, i: nat)
    ensures (forall j :: 0 <= j < |values| ==> Vacant(values[j])) ==> FirstText(values) == ""
    ensures i < |values| && !Vacant(values[i]) && (forall j :: 0 <= j < i ==> Vacant(values[j])) ==>
              FirstText(values) == Trim(values[i].value)
  {
    hide Trim;
    TrimOfNothing();
    if values != [] {
      assert forall j :: 0 <= j < |values| - 1 ==> values[1..][j] == values[j + 1];
      if Vacant(values[0]) {
        FirstTextIs(values[1..], if i > 0 then i - 1 else 0);
      }
    }
  }

  lemma FirstOfIs(d: Doc, keys: seq<string>, i: nat)
    ensures (forall j :: 0 <= j < |keys| ==> Vacant(Field(d, keys[j]))) ==> FirstOf(d, keys) == ""
    ensures FirstFilledField(d, keys, i) ==> FirstOf(d, keys) == Trim(Field(d, keys[i]).value)
  {
    hide Vacant, FirstText, Trim;
    FirstTextIs(seq(|keys|, j requires 0 <= j < |keys| => Field(d, keys[j])), i);
  }

  // ----- which fields are read for what

  lemma FieldsRead(d: Doc)
    ensures SupplierOf(d) == FirstOf(d, ["supplier", "supplierName", "supplierId", "name", "code", "id"])
    ensures BestSupplierOf(d) == FirstOf(d, ["bestSupplier"])
    ensures PoSourcePr(d) == FirstOf(d, ["sourceRequest", "linkedPr"])
    ensures PoSourceRfq(d) == FirstOf(d, ["sourceRfq", "linkedRfq"])
  {
  }

  /** The item of an order is its own field, or else the item of its first line. */
  lemma OrderSkuIs(po: Doc)
    ensures FirstOf(po, ["sourceSku"]) != "" ==> OrderSku(po) == FirstOf(po, ["sourceSku"])
    ensures FirstOf(po, ["sourceSku"]) == "" && po.lines != [] ==> OrderSku(po) == FirstOf(po.lines[0], ["sku"])
    ensures FirstOf(po, ["sourceSku"]) == "" && po.lines == [] ==> OrderSku(po) == ""
  {
    FirstOfOne(po, "sourceSku");
    if po.lines != [] {
      FirstOfOne(po.lines[0], "sku");
    }
    FirstOfTwo(Field(po, "sourceSku"), if po.lines == [] then None else Field(po.lines[0], "sku"));
    NoText([None]);
    hide FirstText, FirstOf;
  }

  /** Two texts are the same up to case and outer spaces. */
  predicate SameText(lower: string -> string, v: Option<string>, t: string) {
    lower(Trim(if v.Some? then v.value else "")) == lower(Trim(t))
  }

  lemma ComparedTexts(lower: string -> string, v: Option<string>, t: string, name: string)
    ensures Norm(lower, v) == Norm(lower, Some(t)) <==> SameText(lower, v, t)
    ensures SameSupplier(lower, name, t) <==> SameText(lower, Some(name), t)
  {
  }

  /** A record mentions an item in one of three fields or on a line. */
  lemma MatchesSkuIff(lower: string -> string, d: Doc, sku: string)
    ensures MatchesSku(lower, d, sku) <==>
            && lower(Trim(sku)) != ""
            && (|| SameText(lower, Field(d, "sourceSku"), sku)
                || SameText(lower, Field(d, "sku"), sku)
                || SameText(lower, Field(d, "itemSku"), sku)
                || exists line :: line in d.lines && SameText(lower, Field(line, "sku"), sku))
    ensures SomeLineHasSku(lower, d, sku)
       <==> exists line :: line in d.lines && SameText(lower, Field(line, "sku"), sku)
  {
    hide Trim;
    if line :| line in d.lines && SameText(lower, Field(line, "sku"), sku) {
      var i :| 0 <= i < |d.lines| && d.lines[i] == line;
      assert Norm(lower, Field(d.lines[i], "sku")) == Norm(lower, Some(sku));
    }
  }

  /** A text includes another that stands in it between two further texts. */
  lemma IncludesIff(t: string, part: string, i: nat)
    ensures i + |part| <= |t| && t[i..i + |part|] == part ==> Includes(t, part)
    ensures Includes(t, part) ==> exists before, after :: t == Spliced(before, part, after)
  {
    if i + |part| <= |t| && t[i..i + |part|] == part {
      assert PartAt(t, part, i);
    }
    if Includes(t, part) {
      var k :| 0 <= k <= |t| && PartAt(t, part, k);
      assert t == Spliced(t[..k], part, t[k + |part|..]);
    }
  }

  function Spliced(before: string, part: string, after: string): string {
    before + part + after
  }

  // ----- the first record

  predicate FirstRow(rows: seq<Doc>, keys: seq<string>, id: string, n: nat) {
    n < |rows| && FirstOf(rows[n], keys) == id && forall m :: 0 <= m < n ==> FirstOf(rows[m], keys) != id
  }

  /** A record is found as the first one with the id, if there is one. */
  lemma {:induction false} FindIsFirst(rows: seq<Doc>, keys: seq<string>, id: string, n: nat)
    ensures FirstRow(rows, keys, id, n) ==> Find(rows, keys, id) == Some(rows[n])
    ensures (forall m :: 0 <= m < |rows| ==> FirstOf(rows[m], keys) != id) ==> Find(rows, keys, id) == None
  {
    hide FirstOf;
    if rows != [] {
      assert forall m :: 0 <= m < |rows| - 1 ==> rows[1..][m] == rows[m + 1];
      if FirstOf(rows[0], keys) != id {
        FindIsFirst(rows[1..], keys, id, if n > 0 then n - 1 else 0);
      }
    }
  }

  predicate InStock(lower: string -> string, item: Doc, sku: string) {
    SameText(lower, Some(FirstOf(item, ["sku", "sourceSku", "itemSku", "itemIdOrSku", "id"])), sku)
  }

  /** The item in stock is the first with the SKU, compared without case and outer spaces. */
  lemma {:induction false} FindItemIsFirst(lower: string -> string, items: seq<Doc>, sku: string, n: nat)
    ensures && n < |items| && InStock(lower, items[n], sku)
            && (forall m :: 0 <= m < n ==> !InStock(lower, items[m], sku)) ==>
              FindItem(lower, items, sku) == Some(items[n])
    ensures (forall m :: 0 <= m < |items| ==> !InStock(lower, items[m], sku)) ==> FindItem(lower, items, sku) == None
  {
    hide FirstOf, Trim;
    if items != [] {
      assert forall m :: 0 <= m < |items| - 1 ==> items[1..][m] == items[m + 1];
      ComparedTexts(lower, Some(FirstOf(items[0], SKU_KEYS)), sku, "");
      if !InStock(lower, items[0], sku) {
        FindItemIsFirst(lower, items[1..], sku, if n > 0 then n - 1 else 0);
      }
    }
  }

  /** The three fields of an invoice or a receipt that can refer to an order. */
  lemma OrderReferences(row: Doc, p: string)
    ensures PointsAt(row, INVOICE_PO_REFS, p) <==>
            Field(row, "relatedPo") == Some(p) || Field(row, "po") == Some(p) || Field(row, "poId") == Some(p)
    ensures PointsAt(row, GRN_PO_REFS, p) <==>
            Field(row, "relatedPo") == Some(p) || Field(row, "po") == Some(p) || Field(row, "poId") == Some(p)
  {
    assert INVOICE_PO_REFS[0] == "relatedPo" && INVOICE_PO_REFS[1] == "po" && INVOICE_PO_REFS[2] == "poId";
    assert GRN_PO_REFS[0] == "po" && GRN_PO_REFS[1] == "poId" && GRN_PO_REFS[2] == "relatedPo";
  }
}
