/** The caption each link is shown under, and so the group it is put in. */
module RelationshipsCaptions {
  import opened Wrappers
  import opened Text
  import opened Relationships
  import opened RelationshipsWalkBack

  /** By page, relation and kind of record linked to; empty where a page has no such link. */
  function CaptionOn(page: EntityType, relation: Relation, target: EntityType): string {
    match (page, relation)
    case (PurchaseOrder, CreatedFrom) => "Created from"
    case (PurchaseOrder, SourcedByRfq) => "Created from"
    case (PurchaseOrder, ContainsItem) => "Affects inventory"
    case (PurchaseOrder, RelatedSupplier) => "Supplier relationship"
    case (PurchaseOrder, ReceivedBy) => "Receives PO"
    case (PurchaseOrder, MatchedToInvoice) => "Matches invoice"
    case (PurchaseOrder, AffectsInventory) => "Affects inventory"
    case (Sku, SuppliedBy) => "Supplied by"
    case (Sku, ContainsItem) => "Contained in PO"
    case (Sku, RequestedItem) => "Requested item"
    case (Sku, SourcedByRfq) => "Sourced by RFQ"
    case (Sku, AffectsInventory) => "Affects inventory"
    case (Sku, MatchedToInvoice) => "Matches invoice"
    case (Grn, ReceivedBy) => "Receives PO"
    case (Grn, RelatedSupplier) => "Supplier relationship"
    case (Grn, AffectsInventory) => "Affects inventory"
    case (Grn, MatchedToInvoice) => "Matches invoice"
    case (Invoice, MatchedToInvoice) => if target == InvoiceMatch then "Matches invoice" else "Source document"
    case (Invoice, RelatedSupplier) => "Supplier relationship"
    case (Invoice, ContainsItem) => "Matches invoice"
    case (Supplier, RelatedSupplier) => "Supplier relationship"
    case (Supplier, SuppliedBy) => "Supplies item"
    case (Supplier, SourcedByRfq) => "Supplier relationship"
    case (Supplier, ReceivedBy) => "Receives PO"
    case (Supplier, MatchedToInvoice) => "Matches invoice"
    case (Rfq, CreatedFrom) => "Created from"
    case (Rfq, AwardedToPo) => "Awarded to PO"
    case (Rfq, RelatedSupplier) => "Supplier relationship"
    case (PurchaseRequest, RequestedItem) => "Requested item"
    case (PurchaseRequest, SourcedByRfq) => "Sourced by RFQ"
    case (PurchaseRequest, AwardedToPo) => "Created PO"
    case _ => ""
  }

  /**
   A link counts as found if it has an id, unless an order names it; and without an id only a line item does,
   under its name.
   */
  predicate FoundById(l: Link) {
    && (l.source.entity != PurchaseOrder && l.target.id != "" ==> l.found)
    && (l.target.entity != Sku && l.target.id == "" ==> !l.found)
  }

  predicate Captioned(links: seq<Link>) {
    forall i :: 0 <= i < |links| ==>
      && links[i].caption == CaptionOn(links[i].source.entity, links[i].relation, links[i].target.entity)
      && links[i].caption != "" && FoundById(links[i])
  }

  lemma CaptionedConcat(a: seq<Link>, b: seq<Link>)
    requires Captioned(a) && Captioned(b)
    ensures Captioned(a + b)
  {
    hide CaptionOn;
  }

  /** The page a loop belongs to. */
  function PageOf(loop: Loop): EntityType {
    match loop
    case PoGrns => PurchaseOrder
    case PoInvoices => PurchaseOrder
    case PoMovements => PurchaseOrder
    case SkuOrders => Sku
    case SkuRequests => Sku
    case SkuRfqs => Sku
    case SkuMovements => Sku
    case SkuInvoices => Sku
    case GrnLines => Grn
    case GrnMovements => Grn
    case GrnInvoices => Grn
    case InvoiceLines => Invoice
    case SupplierOrders => Supplier
    case SupplierRfqs => Supplier
    case SupplierGrns => Supplier
    case SupplierInvoices => Supplier
    case PrRfqs => PurchaseRequest
  }

  lemma PushesCaptioned(loop: Loop, s: Ref, row: Doc)
    requires s.entity == PageOf(loop)
    ensures Captioned(Pushes(loop, s, row))
  {
    hide FirstOf, AsText, OrderSku, SupplierOf, Field, ReceiptLineLabel, InvoiceLineLabel;
  }

  /** A line item is found if it has an id, or else a name. */
  lemma LineIsFound(loop: Loop, s: Ref, line: Doc)
    requires loop == GrnLines || loop == InvoiceLines
    ensures var links := Pushes(loop, s, line);
            && |links| == 1 && links[0].target == Ref(Sku, AsText(Field(line, "sku")))
            && (links[0].found <==>
                  || AsText(Field(line, "sku")) != ""
                  || AsText(Field(line, "itemName")) !in {"", "—"}
                  || AsText(Field(line, "name")) !in {"", "—"})
  {
    hide AsText;
    NoneOfThree(line, "itemName", "name", "sku");
    NoneOfThree(line, "name", "itemName", "sku");
  }

  lemma NoneOfThree(d: Doc, a: string, b: string, c: string)
    ensures FirstOf(d, [a, b, c]) == ""
       <==> && AsText(Field(d, a)) in {"", "—"} && AsText(Field(d, b)) in {"", "—"}
            && AsText(Field(d, c)) in {"", "—"}
  {
    hide AsText, FirstText;
    var values := seq(3, i requires 0 <= i < 3 => Field(d, [a, b, c][i]));
    assert values == [Field(d, a), Field(d, b), Field(d, c)];
    assert values[1..] == [Field(d, b), Field(d, c)] && values[1..][1..] == [Field(d, c)];
    EmptyStep(values);
    EmptyStep(values[1..]);
    EmptyStep(values[1..][1..]);
    assert values[1..][1..][1..] == [] && FirstOf(d, [a, b, c]) == FirstText(values);
  }

  lemma EmptyStep(values: seq<Option<string>>)
    requires values != []
    ensures FirstText(values) == "" <==> AsText(values[0]) in {"", "—"} && FirstText(values[1..]) == ""
    ensures FirstText([]) == ""
  {
    hide AsText;
  }

  lemma {:induction false} ScanCaptioned(lower: string -> string, loop: Loop, s: Ref, po: string, rows: seq<Doc>)
    requires s.entity == PageOf(loop)
    ensures Captioned(Scan(lower, loop, s, po, rows))
  {
    hide Keeps, Pushes, Captioned;
    if rows == [] {
      NothingCaptioned();
    } else {
      var n := |rows| - 1;
      ScanCaptioned(lower, loop, s, po, rows[..n]);
      PushesCaptioned(loop, s, rows[n]);
      CaptionedConcat(Scan(lower, loop, s, po, rows[..n]), Pushes(loop, s, rows[n]));
    }
  }

  lemma NothingCaptioned()
    ensures Captioned([])
  {
  }

  lemma DirectCaptioned(s: Ref, relation: Relation, entity: EntityType, id: string, caption: string, found: bool)
    requires caption != "" && CaptionOn(s.entity, relation, entity) == caption && (found || s.entity == PurchaseOrder)
    ensures Captioned(Direct(s, relation, entity, id, caption, found))
  {
  }

  lemma Captioned4(a: seq<Link>, b: seq<Link>, c: seq<Link>, d: seq<Link>)
    requires Captioned(a) && Captioned(b) && Captioned(c) && Captioned(d)
    ensures Captioned(a + b + c + d)
  {
    hide Captioned;
    CaptionedConcat(a, b);
    CaptionedConcat(a + b, c);
    CaptionedConcat(a + b + c, d);
  }

  lemma OrderCaptions(lower: string -> string, ctx: Context, po: Doc, id: string)
    ensures Captioned(PoLinks(lower, ctx, po, id))
  {
    var s := Ref(PurchaseOrder, id);
    var pr, rfq := PoSourcePr(po), PoSourceRfq(po);
    var prFound, rfqFound := Find(ctx.purchaseRequests, PR_KEYS, pr).Some?, Find(ctx.rfqs, RFQ_KEYS, rfq).Some?;
    DirectCaptioned(s, CreatedFrom, PurchaseRequest, pr, "Created from", prFound);
    DirectCaptioned(s, SourcedByRfq, Rfq, rfq, "Created from", rfqFound);
    DirectCaptioned(s, ContainsItem, Sku, OrderSku(po), "Affects inventory", true);
    DirectCaptioned(s, RelatedSupplier, Supplier, SupplierOf(po), "Supplier relationship", true);
    hide Captioned, Direct, Scan, Find, PoSourcePr, PoSourceRfq, OrderSku, SupplierOf;
    var a := Direct(s, CreatedFrom, PurchaseRequest, pr, "Created from", prFound);
    var b := Direct(s, SourcedByRfq, Rfq, rfq, "Created from", rfqFound);
    var c := Direct(s, ContainsItem, Sku, OrderSku(po), "Affects inventory");
    var d := Direct(s, RelatedSupplier, Supplier, SupplierOf(po), "Supplier relationship");
    Captioned4(a, b, c, d);
    ScanCaptioned(lower, PoGrns, s, "", ctx.receivingDocs);
    ScanCaptioned(lower, PoInvoices, s, "", ctx.supplierInvoices);
    ScanCaptioned(lower, PoMovements, s, "", ctx.inventoryMovements);
    Captioned4(a + b + c + d, Scan(lower, PoGrns, s, "", ctx.receivingDocs),
               Scan(lower, PoInvoices, s, "", ctx.supplierInvoices),
               Scan(lower, PoMovements, s, "", ctx.inventoryMovements));
  }

  lemma ItemCaptions(lower: string -> string, ctx: Context, sku: string)
    ensures Captioned(SkuLinks(lower, ctx, sku))
  {
    var s := Ref(Sku, sku);
    var supplier := ItemSupplier(FindItem(lower, ctx.inventoryItems, sku));
    DirectCaptioned(s, SuppliedBy, Supplier, supplier, "Supplied by", true);
    hide Captioned, Direct, Scan, FindItem, ItemSupplier;
    ScanCaptioned(lower, SkuOrders, s, "", ctx.purchaseOrders);
    ScanCaptioned(lower, SkuRequests, s, "", ctx.purchaseRequests);
    ScanCaptioned(lower, SkuRfqs, s, "", ctx.rfqs);
    ScanCaptioned(lower, SkuMovements, s, "", ctx.inventoryMovements);
    ScanCaptioned(lower, SkuInvoices, s, "", ctx.supplierInvoices);
    var a := Direct(s, SuppliedBy, Supplier, supplier, "Supplied by");
    var b := Scan(lower, SkuOrders, s, "", ctx.purchaseOrders);
    var c, d := Scan(lower, SkuRequests, s, "", ctx.purchaseRequests), Scan(lower, SkuRfqs, s, "", ctx.rfqs);
    var e := Scan(lower, SkuMovements, s, "", ctx.inventoryMovements);
    Captioned4(a, b, c, d);
    CaptionedConcat(a + b + c + d, e);
    CaptionedConcat(a + b + c + d + e, Scan(lower, SkuInvoices, s, "", ctx.supplierInvoices));
  }

  lemma ReceiptCaptions(lower: string -> string, ctx: Context, grn: Doc, id: string)
    ensures Captioned(GrnLinks(lower, ctx, grn, id))
  {
    var s, po := Ref(Grn, id), FirstOf(grn, GRN_PO_REFS);
    DirectCaptioned(s, ReceivedBy, PurchaseOrder, po, "Receives PO", true);
    DirectCaptioned(s, RelatedSupplier, Supplier, SupplierOf(grn), "Supplier relationship", true);
    hide Captioned, Direct, Scan, FirstOf, SupplierOf;
    ScanCaptioned(lower, GrnLines, s, po, grn.lines);
    ScanCaptioned(lower, GrnMovements, s, po, ctx.inventoryMovements);
    ScanCaptioned(lower, GrnInvoices, s, po, ctx.supplierInvoices);
    var a := Direct(s, ReceivedBy, PurchaseOrder, po, "Receives PO");
    var b := Direct(s, RelatedSupplier, Supplier, SupplierOf(grn), "Supplier relationship");
    var c, d := Scan(lower, GrnLines, s, po, grn.lines), Scan(lower, GrnMovements, s, po, ctx.inventoryMovements);
    Captioned4(a, b, c, d);
    CaptionedConcat(a + b + c + d, Scan(lower, GrnInvoices, s, po, ctx.supplierInvoices));
  }

  lemma InvoiceCaptions(lower: string -> string, ctx: Context, invoice: Doc, id: string)
    ensures Captioned(InvoiceLinks(lower, ctx, invoice, id))
  {
    var s := Ref(Invoice, id);
    var po, grn := FirstOf(invoice, INVOICE_PO_REFS), FirstOf(invoice, INVOICE_GRN_REFS);
    DirectCaptioned(s, MatchedToInvoice, PurchaseOrder, po, "Source document", true);
    DirectCaptioned(s, MatchedToInvoice, Grn, grn, "Source document", true);
    DirectCaptioned(s, RelatedSupplier, Supplier, SupplierOf(invoice), "Supplier relationship", true);
    var own := LinkTo(s, MatchedToInvoice, InvoiceMatch, id, "Matches invoice");
    assert Captioned([own]);
    hide Captioned, Direct, Scan, FirstOf, SupplierOf;
    ScanCaptioned(lower, InvoiceLines, s, "", invoice.lines);
    var a := Direct(s, MatchedToInvoice, PurchaseOrder, po, "Source document");
    var b := Direct(s, MatchedToInvoice, Grn, grn, "Source document");
    var c := Direct(s, RelatedSupplier, Supplier, SupplierOf(invoice), "Supplier relationship");
    var d := Scan(lower, InvoiceLines, s, "", invoice.lines);
    Captioned4(a, b, c, d);
    CaptionedConcat(a + b + c + d, [own]);
  }

  lemma SupplierCaptions(lower: string -> string, ctx: Context, supplier: string)
    ensures Captioned(SupplierLinks(lower, ctx, supplier))
  {
    hide Captioned, Scan;
    var s := Ref(Supplier, supplier);
    ScanCaptioned(lower, SupplierOrders, s, "", ctx.purchaseOrders);
    ScanCaptioned(lower, SupplierRfqs, s, "", ctx.rfqs);
    ScanCaptioned(lower, SupplierGrns, s, "", ctx.receivingDocs);
    ScanCaptioned(lower, SupplierInvoices, s, "", ctx.supplierInvoices);
    Captioned4(Scan(lower, SupplierOrders, s, "", ctx.purchaseOrders), Scan(lower, SupplierRfqs, s, "", ctx.rfqs),
               Scan(lower, SupplierGrns, s, "", ctx.receivingDocs),
               Scan(lower, SupplierInvoices, s, "", ctx.supplierInvoices));
  }

  lemma RfqCaptions(rfq: Doc, id: string)
    ensures Captioned(RfqLinks(rfq, id))
  {
    hide FirstOf, BestSupplierOf;
  }

  lemma RequestCaptions(lower: string -> string, ctx: Context, pr: Doc, id: string)
    ensures Captioned(PrLinks(lower, ctx, pr, id))
  {
    var s := Ref(PurchaseRequest, id);
    var sku, po := FirstOf(pr, PR_SKU_REFS), PrPo(ctx, pr, id);
    DirectCaptioned(s, RequestedItem, Sku, sku, "Requested item", true);
    DirectCaptioned(s, AwardedToPo, PurchaseOrder, po, "Created PO", true);
    hide Captioned, Direct, Scan, FirstOf, PrPo;
    ScanCaptioned(lower, PrRfqs, s, "", ctx.rfqs);
    var a, b := Direct(s, RequestedItem, Sku, sku, "Requested item"), Scan(lower, PrRfqs, s, "", ctx.rfqs);
    CaptionedConcat(a, b);
    CaptionedConcat(a + b, Direct(s, AwardedToPo, PurchaseOrder, po, "Created PO"));
  }

  lemma CollectedCaptions(lower: string -> string, ctx: Context, entity: EntityType, id: string)
    ensures Captioned(Collected(lower, ctx, entity, id).links)
  {
    hide Captioned, Find, PoLinks, SkuLinks, GrnLinks, InvoiceLinks, SupplierLinks, RfqLinks, PrLinks;
    hide PoLimits, SkuLimits, GrnLimits, InvoiceLimits, SupplierLimits, RfqLimits, PrLimits;
    NothingCaptioned();
    var grn, invoice := Find(ctx.receivingDocs, GRN_KEYS, id), Find(ctx.supplierInvoices, INVOICE_KEYS, id);
    var po, rfq := Find(ctx.purchaseOrders, PO_KEYS, id), Find(ctx.rfqs, RFQ_KEYS, id);
    var pr := Find(ctx.purchaseRequests, PR_KEYS, id);
    if grn.Some? { ReceiptCaptions(lower, ctx, grn.value, id); }
    if invoice.Some? { InvoiceCaptions(lower, ctx, invoice.value, id); }
    if po.Some? { OrderCaptions(lower, ctx, po.value, id); }
    if rfq.Some? { RfqCaptions(rfq.value, id); }
    if pr.Some? { RequestCaptions(lower, ctx, pr.value, id); }
    ItemCaptions(lower, ctx, id);
    SupplierCaptions(lower, ctx, id);
  }

  /** Every link a page shows has the caption of its page, relation and kind, and is found by its id. */
  lemma LinksAreCaptioned(lower: string -> string, ctx: Context, entity: EntityType, id: string)
    ensures Captioned(Links(lower, ctx, entity, id))
  {
    hide Collected, CaptionOn;
    var links := Collected(lower, ctx, entity, Trim(id)).links;
    CollectedCaptions(lower, ctx, entity, Trim(id));
    DedupMembers(links);
    forall i | 0 <= i < |Dedup(links)|
      ensures Dedup(links)[i] in links
    {
    }
  }

  lemma {:induction false} WithKeyMembers(links: seq<Link>, key: string, l: Link)
    ensures l in WithKey(links, key) <==> l in links && GroupKey(l) == key
  {
    if links != [] {
      WithKeyMembers(links[..|links| - 1], key, l);
      assert links == links[..|links| - 1] + [links[|links| - 1]];
    }
  }

  /** A page's group of a caption holds exactly the links shown whose page, relation and kind have it. */
  lemma GroupHoldsCaption(lower: string -> string, ctx: Context, entity: EntityType, id: string, key: string, l: Link)
    ensures var links := Links(lower, ctx, entity, id);
            (key in Grouped(links) && l in Grouped(links)[key]) <==>
            l in links && CaptionOn(l.source.entity, l.relation, l.target.entity) == key
  {
    hide Links, CaptionOn;
    var links := Links(lower, ctx, entity, id);
    LinksAreCaptioned(lower, ctx, entity, id);
    WithKeyMembers(links, key, l);
    if l in links {
      var i :| 0 <= i < |links| && links[i] == l;
      assert GroupKey(l) in KeysOf(links);
    }
  }
}
