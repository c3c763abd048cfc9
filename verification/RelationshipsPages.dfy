/**
 What every page shows, exactly, of every kind of record. Whether a link is found again from its other
 end can be read off the page of the other end.
 */
module RelationshipsPages {
  import opened Wrappers
  import opened Text
  import opened Relationships
  import opened RelationshipsWalkBack
  import opened RelationshipsBothWays

  // ----- what the loops offer

  /** Some row that the loop keeps is the target of its main link. */
  predicate Listed(lower: string -> string, loop: Loop, id: string, po: string, rows: seq<Doc>, target: string) {
    exists row :: row in rows && Keeps(lower, loop, id, po, row) && MainTarget(loop, row).id == target
  }

  lemma OffersListed(lower: string -> string, loop: Loop, s: Ref, po: string, rows: seq<Doc>,
                     relation: Relation, target: Ref)
    requires relation != SuppliedBy
    ensures Offers(lower, loop, s, po, rows, relation, target)
       <==> (relation, target.entity) == MainKind(loop) && Listed(lower, loop, s.id, po, rows, target.id)
  {
    hide Keeps, Has, Offers, MainKind;
    if Offers(lower, loop, s, po, rows, relation, target) {
      var row := OfferedRow(lower, loop, s, po, rows, relation, target);
      KindOfTarget(loop, row);
    }
    if (relation, target.entity) == MainKind(loop) && Listed(lower, loop, s.id, po, rows, target.id) {
      var row :| row in rows && Keeps(lower, loop, s.id, po, row) && MainTarget(loop, row).id == target.id;
      KindOfTarget(loop, row);
      RowOffers(lower, loop, s, po, rows, row);
    }
  }

  lemma KindOfTarget(loop: Loop, row: Doc)
    ensures MainTarget(loop, row).entity == MainKind(loop).1
  {
    hide FirstOf;
  }

  /** What the two loops over orders push beside the order: its supplier, or its first item. */
  function Side(loop: Loop, row: Doc): Ref {
    if loop == SkuOrders then Ref(Supplier, SupplierOf(row)) else Ref(Sku, OrderSku(row))
  }

  lemma SidePush(loop: Loop, s: Ref, row: Doc, target: Ref)
    requires loop == SkuOrders || loop == SupplierOrders
    ensures Has(Pushes(loop, s, row), SuppliedBy, target) <==> Side(loop, row) == target && target.id != ""
  {
    hide Has, FirstOf, OrderSku, SupplierOf;
    if loop == SkuOrders {
      var own := LinkTo(s, ContainsItem, PurchaseOrder, FirstOf(row, PO_KEYS), "Contained in PO");
      HasOne(own, SuppliedBy, target);
      HasDirect(s, SuppliedBy, Supplier, SupplierOf(row), "Supplied by", true, SuppliedBy, target);
      HasConcat([own], Direct(s, SuppliedBy, Supplier, SupplierOf(row), "Supplied by"), SuppliedBy, target);
    } else {
      var own := LinkTo(s, RelatedSupplier, PurchaseOrder, FirstOf(row, PO_KEYS), "Supplier relationship");
      HasOne(own, SuppliedBy, target);
      HasDirect(s, SuppliedBy, Sku, OrderSku(row), "Supplies item", true, SuppliedBy, target);
      HasConcat([own], Direct(s, SuppliedBy, Sku, OrderSku(row), "Supplies item"), SuppliedBy, target);
    }
  }

  /** Some row that the loop keeps has the target beside its main link. */
  predicate ListedBeside(lower: string -> string, loop: Loop, id: string, rows: seq<Doc>, target: Ref) {
    target.id != "" && exists row :: row in rows && Keeps(lower, loop, id, "", row) && Side(loop, row) == target
  }

  lemma OffersBeside(lower: string -> string, loop: Loop, s: Ref, rows: seq<Doc>, target: Ref)
    requires loop == SkuOrders || loop == SupplierOrders
    ensures Offers(lower, loop, s, "", rows, SuppliedBy, target) <==> ListedBeside(lower, loop, s.id, rows, target)
  {
    hide Keeps, Has, Pushes, Side;
    forall row
      ensures Has(Pushes(loop, s, row), SuppliedBy, target) <==> Side(loop, row) == target && target.id != ""
    {
      SidePush(loop, s, row, target);
    }
    if row :| row in rows && Keeps(lower, loop, s.id, "", row) && Side(loop, row) == target && target.id != "" {
      var i :| 0 <= i < |rows| && rows[i] == row;
    }
  }

  // ----- the page of an order

  /** Its request, RFQ, item, supplier and movements; for invoices and receipts see the two `OrderLists` lemmas. */
  lemma OrderPage(lower: string -> string, ctx: Context, o: string, po: Doc, t: string)
    requires o != "" && Trimmed(o) && Find(ctx.purchaseOrders, PO_KEYS, o) == Some(po)
    ensures Linked(lower, ctx, Ref(PurchaseOrder, o), CreatedFrom, Ref(PurchaseRequest, t))
       <==> t != "" && PoSourcePr(po) == t
    ensures Linked(lower, ctx, Ref(PurchaseOrder, o), SourcedByRfq, Ref(Rfq, t)) <==> t != "" && PoSourceRfq(po) == t
    ensures Linked(lower, ctx, Ref(PurchaseOrder, o), ContainsItem, Ref(Sku, t)) <==> t != "" && OrderSku(po) == t
    ensures Linked(lower, ctx, Ref(PurchaseOrder, o), RelatedSupplier, Ref(Supplier, t))
       <==> t != "" && SupplierOf(po) == t
    ensures Linked(lower, ctx, Ref(PurchaseOrder, o), AffectsInventory, Ref(InventoryMovement, t))
       <==> exists row ::
              && row in ctx.inventoryMovements && Field(row, "relatedPo") == Some(o)
              && FirstOf(row, ["movementId", "id"]) == t
  {
    hide Linked, Trimmed, Find, PoSourcePr, PoSourceRfq, OrderSku, SupplierOf, FirstOf;
    OrderMovements(lower, ctx, o, po, t);
    OrderShows(lower, ctx, o, po, CreatedFrom, Ref(PurchaseRequest, t));
    OrderShows(lower, ctx, o, po, SourcedByRfq, Ref(Rfq, t));
    OrderShows(lower, ctx, o, po, ContainsItem, Ref(Sku, t));
    OrderShows(lower, ctx, o, po, RelatedSupplier, Ref(Supplier, t));
  }

  lemma OrderMovements(lower: string -> string, ctx: Context, o: string, po: Doc, m: string)
    requires o != "" && Trimmed(o) && Find(ctx.purchaseOrders, PO_KEYS, o) == Some(po)
    ensures Linked(lower, ctx, Ref(PurchaseOrder, o), AffectsInventory, Ref(InventoryMovement, m))
       <==> exists row ::
              && row in ctx.inventoryMovements && Field(row, "relatedPo") == Some(o)
              && FirstOf(row, ["movementId", "id"]) == m
  {
    MovementsOfOrder(lower, o, ctx.inventoryMovements, m);
    hide Has, Offers, Linked, Trimmed, Trim, Find, PoLinks, PoSourcePr, PoSourceRfq, OrderSku, SupplierOf, FirstOf;
    hide Keeps, Listed, MainTarget;
    var s, target := Ref(PurchaseOrder, o), Ref(InventoryMovement, m);
    TrimOfTrimmed(o);
    NothingLost(lower, ctx, s, AffectsInventory, target);
    PoHas(lower, ctx, po, o, AffectsInventory, target);
    SinglePush(lower, PoGrns, s, "", ctx.receivingDocs, AffectsInventory, target);
    SinglePush(lower, PoInvoices, s, "", ctx.supplierInvoices, AffectsInventory, target);
    OffersListed(lower, PoMovements, s, "", ctx.inventoryMovements, AffectsInventory, target);
  }

  lemma MovementsOfOrder(lower: string -> string, o: string, rows: seq<Doc>, m: string)
    ensures Listed(lower, PoMovements, o, "", rows, m)
       <==> exists row :: row in rows && Field(row, "relatedPo") == Some(o) && FirstOf(row, ["movementId", "id"]) == m
  {
    hide FirstOf;
  }

  lemma OrderShows(lower: string -> string, ctx: Context, o: string, po: Doc, relation: Relation, target: Ref)
    requires o != "" && Trimmed(o) && Find(ctx.purchaseOrders, PO_KEYS, o) == Some(po)
    requires target.entity in {PurchaseRequest, Rfq, Sku, Supplier}
    ensures Linked(lower, ctx, Ref(PurchaseOrder, o), relation, target) <==>
            || Named(PoSourcePr(po), CreatedFrom, PurchaseRequest, relation, target)
            || Named(PoSourceRfq(po), SourcedByRfq, Rfq, relation, target)
            || Named(OrderSku(po), ContainsItem, Sku, relation, target)
            || Named(SupplierOf(po), RelatedSupplier, Supplier, relation, target)
  {
    hide Has, Offers, Linked, Trimmed, Trim, Find, PoLinks, PoSourcePr, PoSourceRfq, OrderSku, SupplierOf, Named;
    var s := Ref(PurchaseOrder, o);
    TrimOfTrimmed(o);
    NothingLost(lower, ctx, s, relation, target);
    PoHas(lower, ctx, po, o, relation, target);
    SinglePush(lower, PoGrns, s, "", ctx.receivingDocs, relation, target);
    SinglePush(lower, PoInvoices, s, "", ctx.supplierInvoices, relation, target);
    SinglePush(lower, PoMovements, s, "", ctx.inventoryMovements, relation, target);
  }

  // ----- the pages of a receipt and of an invoice

  /** Some line item has the SKU. */
  predicate HasLine(d: Doc, sku: string) {
    exists line :: line in d.lines && Field(line, "sku").GetOr("") != "" && AsText(Field(line, "sku")) == sku
  }

  /** Its order, supplier, line items and movements; for invoices see `GrnListsInvoiceIff`. */
  lemma GrnPage(lower: string -> string, ctx: Context, g: string, grn: Doc, t: string)
    requires g != "" && Trimmed(g) && Find(ctx.receivingDocs, GRN_KEYS, g) == Some(grn)
    ensures Linked(lower, ctx, Ref(Grn, g), ReceivedBy, Ref(PurchaseOrder, t))
       <==> t != "" && FirstOf(grn, ["po", "poId", "relatedPo"]) == t
    ensures Linked(lower, ctx, Ref(Grn, g), RelatedSupplier, Ref(Supplier, t)) <==> t != "" && SupplierOf(grn) == t
    ensures Linked(lower, ctx, Ref(Grn, g), AffectsInventory, Ref(Sku, t)) <==> HasLine(grn, t)
    ensures Linked(lower, ctx, Ref(Grn, g), AffectsInventory, Ref(InventoryMovement, t))
       <==> exists row ::
              && row in ctx.inventoryMovements
              && (Field(row, "relatedGrn") == Some(g) || Field(row, "sourceDocument") == Some(g))
              && FirstOf(row, ["movementId", "id"]) == t
  {
    hide Linked, Trimmed, Find, FirstOf, SupplierOf;
    GrnMovementsShown(lower, ctx, g, grn, t);
    GrnShowsIff(lower, ctx, g, grn, ReceivedBy, Ref(PurchaseOrder, t));
    GrnShowsIff(lower, ctx, g, grn, RelatedSupplier, Ref(Supplier, t));
    GrnShowsIff(lower, ctx, g, grn, AffectsInventory, Ref(Sku, t));
  }

  lemma GrnMovementsShown(lower: string -> string, ctx: Context, g: string, grn: Doc, m: string)
    requires g != "" && Trimmed(g) && Find(ctx.receivingDocs, GRN_KEYS, g) == Some(grn)
    ensures Linked(lower, ctx, Ref(Grn, g), AffectsInventory, Ref(InventoryMovement, m))
       <==> exists row ::
              && row in ctx.inventoryMovements
              && (Field(row, "relatedGrn") == Some(g) || Field(row, "sourceDocument") == Some(g))
              && FirstOf(row, ["movementId", "id"]) == m
  {
    hide Has, Offers, Linked, Trimmed, Trim, Find, GrnLinks, FirstOf, SupplierOf, Keeps, Listed, MainTarget, Named;
    var s, po, target := Ref(Grn, g), FirstOf(grn, GRN_PO_REFS), Ref(InventoryMovement, m);
    OtherKind(po, ReceivedBy, PurchaseOrder, AffectsInventory, target);
    OtherKind(SupplierOf(grn), RelatedSupplier, Supplier, AffectsInventory, target);
    TrimOfTrimmed(g);
    NothingLost(lower, ctx, s, AffectsInventory, target);
    GrnHas(lower, ctx, grn, g, AffectsInventory, target);
    SinglePush(lower, GrnLines, s, po, grn.lines, AffectsInventory, target);
    SinglePush(lower, GrnInvoices, s, po, ctx.supplierInvoices, AffectsInventory, target);
    OffersListed(lower, GrnMovements, s, po, ctx.inventoryMovements, AffectsInventory, target);
    MovementsOfReceipt(lower, g, po, ctx.inventoryMovements, m);
  }

  lemma MovementsOfReceipt(lower: string -> string, g: string, po: string, rows: seq<Doc>, m: string)
    ensures Listed(lower, GrnMovements, g, po, rows, m)
       <==> exists row ::
              && row in rows && (Field(row, "relatedGrn") == Some(g) || Field(row, "sourceDocument") == Some(g))
              && FirstOf(row, ["movementId", "id"]) == m
  {
    hide FirstOf;
    forall row
      ensures PointsAt(row, ["relatedGrn", "sourceDocument"], g) <==>
              Field(row, "relatedGrn") == Some(g) || Field(row, "sourceDocument") == Some(g)
    {
      PointsAtEither(row, "relatedGrn", "sourceDocument", g);
    }
    hide PointsAt;
  }

  lemma PointsAtEither(row: Doc, a: string, b: string, id: string)
    ensures PointsAt(row, [a, b], id) <==> Field(row, a) == Some(id) || Field(row, b) == Some(id)
  {
    assert [a, b][0] == a && [a, b][1] == b;
  }

  lemma GrnShowsIff(lower: string -> string, ctx: Context, g: string, grn: Doc, relation: Relation, target: Ref)
    requires g != "" && Trimmed(g) && Find(ctx.receivingDocs, GRN_KEYS, g) == Some(grn)
    requires relation != SuppliedBy && target.entity in {PurchaseOrder, Supplier, Sku}
    ensures Linked(lower, ctx, Ref(Grn, g), relation, target) <==>
            || Named(FirstOf(grn, GRN_PO_REFS), ReceivedBy, PurchaseOrder, relation, target)
            || Named(SupplierOf(grn), RelatedSupplier, Supplier, relation, target)
            || (relation == AffectsInventory && target.entity == Sku && HasLine(grn, target.id))
  {
    hide Has, Offers, Linked, Trimmed, Trim, Find, GrnLinks, FirstOf, SupplierOf, Named, Listed, HasLine;
    var s, po := Ref(Grn, g), FirstOf(grn, GRN_PO_REFS);
    TrimOfTrimmed(g);
    NothingLost(lower, ctx, s, relation, target);
    GrnHas(lower, ctx, grn, g, relation, target);
    OffersListed(lower, GrnLines, s, po, grn.lines, relation, target);
    LinesListed(lower, GrnLines, g, po, grn, target.id);
    SinglePush(lower, GrnMovements, s, po, ctx.inventoryMovements, relation, target);
    SinglePush(lower, GrnInvoices, s, po, ctx.supplierInvoices, relation, target);
  }

  lemma LinesListed(lower: string -> string, loop: Loop, id: string, po: string, d: Doc, sku: string)
    requires loop == GrnLines || loop == InvoiceLines
    ensures Listed(lower, loop, id, po, d.lines, sku) <==> HasLine(d, sku)
  {
    hide AsText;
  }

  /** Its order, receipt, supplier and line items. */
  lemma InvoicePage(lower: string -> string, ctx: Context, i: string, invoice: Doc, t: string)
    requires i != "" && Trimmed(i) && Find(ctx.supplierInvoices, INVOICE_KEYS, i) == Some(invoice)
    ensures Linked(lower, ctx, Ref(Invoice, i), MatchedToInvoice, Ref(PurchaseOrder, t))
       <==> t != "" && FirstOf(invoice, ["relatedPo", "po", "poId"]) == t
    ensures Linked(lower, ctx, Ref(Invoice, i), MatchedToInvoice, Ref(Grn, t))
       <==> t != "" && FirstOf(invoice, ["relatedGrn", "grn", "grnId"]) == t
    ensures Linked(lower, ctx, Ref(Invoice, i), RelatedSupplier, Ref(Supplier, t))
       <==> t != "" && SupplierOf(invoice) == t
    ensures Linked(lower, ctx, Ref(Invoice, i), ContainsItem, Ref(Sku, t)) <==> HasLine(invoice, t)
  {
    hide Linked, Trimmed, Find, FirstOf, SupplierOf;
    InvoiceShowsIff(lower, ctx, i, invoice, MatchedToInvoice, Ref(PurchaseOrder, t));
    InvoiceShowsIff(lower, ctx, i, invoice, MatchedToInvoice, Ref(Grn, t));
    InvoiceShowsIff(lower, ctx, i, invoice, RelatedSupplier, Ref(Supplier, t));
    InvoiceShowsIff(lower, ctx, i, invoice, ContainsItem, Ref(Sku, t));
  }

  lemma InvoiceShowsIff(lower: string -> string, ctx: Context, i: string, invoice: Doc, relation: Relation, target: Ref)
    requires i != "" && Trimmed(i) && Find(ctx.supplierInvoices, INVOICE_KEYS, i) == Some(invoice)
    requires relation != SuppliedBy && target.entity in {PurchaseOrder, Grn, Supplier, Sku}
    ensures Linked(lower, ctx, Ref(Invoice, i), relation, target) <==>
            || Named(FirstOf(invoice, INVOICE_PO_REFS), MatchedToInvoice, PurchaseOrder, relation, target)
            || Named(FirstOf(invoice, INVOICE_GRN_REFS), MatchedToInvoice, Grn, relation, target)
            || Named(SupplierOf(invoice), RelatedSupplier, Supplier, relation, target)
            || (relation == ContainsItem && target.entity == Sku && HasLine(invoice, target.id))
  {
    hide Has, Offers, Linked, Trimmed, Trim, Find, InvoiceLinks, FirstOf, SupplierOf, Named, Listed, HasLine;
    var s := Ref(Invoice, i);
    TrimOfTrimmed(i);
    NothingLost(lower, ctx, s, relation, target);
    InvoiceHas(lower, ctx, invoice, i, relation, target);
    OffersListed(lower, InvoiceLines, s, "", invoice.lines, relation, target);
    LinesListed(lower, InvoiceLines, i, "", invoice, target.id);
  }

  // ----- the pages of an RFQ and of a purchase request

  /** Its request, order and best supplier, and no item. */
  lemma RfqPage(lower: string -> string, ctx: Context, f: string, rfq: Doc, t: string)
    requires f != "" && Trimmed(f) && Find(ctx.rfqs, RFQ_KEYS, f) == Some(rfq)
    ensures Linked(lower, ctx, Ref(Rfq, f), CreatedFrom, Ref(PurchaseRequest, t))
       <==> t != "" && FirstOf(rfq, ["sourceRequest", "linkedPr", "prId"]) == t
    ensures Linked(lower, ctx, Ref(Rfq, f), AwardedToPo, Ref(PurchaseOrder, t))
       <==> t != "" && FirstOf(rfq, ["linkedPo", "poId"]) == t
    ensures Linked(lower, ctx, Ref(Rfq, f), RelatedSupplier, Ref(Supplier, t)) <==> t != "" && BestSupplierOf(rfq) == t
  {
    hide Linked, Trimmed, Find, FirstOf, BestSupplierOf;
    RfqShowsIff(lower, ctx, f, rfq, CreatedFrom, Ref(PurchaseRequest, t));
    RfqShowsIff(lower, ctx, f, rfq, AwardedToPo, Ref(PurchaseOrder, t));
    RfqShowsIff(lower, ctx, f, rfq, RelatedSupplier, Ref(Supplier, t));
  }

  lemma RfqShowsIff(lower: string -> string, ctx: Context, f: string, rfq: Doc, relation: Relation, target: Ref)
    requires f != "" && Trimmed(f) && Find(ctx.rfqs, RFQ_KEYS, f) == Some(rfq)
    ensures Linked(lower, ctx, Ref(Rfq, f), relation, target) <==>
            || Named(FirstOf(rfq, RFQ_PR_REFS), CreatedFrom, PurchaseRequest, relation, target)
            || Named(FirstOf(rfq, ["linkedPo", "poId"]), AwardedToPo, PurchaseOrder, relation, target)
            || Named(BestSupplierOf(rfq), RelatedSupplier, Supplier, relation, target)
  {
    hide Has, Linked, Trimmed, Trim, Find, RfqLinks, FirstOf, BestSupplierOf, Named;
    TrimOfTrimmed(f);
    NothingLost(lower, ctx, Ref(Rfq, f), relation, target);
    RfqHas(rfq, f, relation, target);
  }

  /** An RFQ's page lists no item, whatever its id. */
  lemma RfqListsNoItem(lower: string -> string, ctx: Context, f: string, relation: Relation, sku: string)
    ensures !Linked(lower, ctx, Ref(Rfq, f), relation, Ref(Sku, sku))
  {
    hide Has, Linked, Trim, Find, RfqLinks, FirstOf, BestSupplierOf;
    var id := Trim(f);
    NothingLost(lower, ctx, Ref(Rfq, f), relation, Ref(Sku, sku));
    NoLinks(relation, Ref(Sku, sku));
    var rfq := Find(ctx.rfqs, RFQ_KEYS, id);
    if rfq.Some? {
      RfqHas(rfq.value, id, relation, Ref(Sku, sku));
    }
  }

  /** Its item and its RFQs; for its order see `RequestShowsOrderIff`. */
  lemma RequestPage(lower: string -> string, ctx: Context, r: string, pr: Doc, t: string)
    requires r != "" && Trimmed(r) && Find(ctx.purchaseRequests, PR_KEYS, r) == Some(pr)
    ensures Linked(lower, ctx, Ref(PurchaseRequest, r), RequestedItem, Ref(Sku, t))
       <==> t != "" && FirstOf(pr, ["sourceSku", "itemSku"]) == t
    ensures Linked(lower, ctx, Ref(PurchaseRequest, r), SourcedByRfq, Ref(Rfq, t))
       <==> exists row ::
              && row in ctx.rfqs && FirstOf(row, ["sourceRequest", "linkedPr", "prId"]) == r
              && FirstOf(row, ["id", "rfqId"]) == t
  {
    hide Linked, Trimmed, Find, FirstOf;
    RequestShowsIff(lower, ctx, r, pr, RequestedItem, Ref(Sku, t));
    RequestShowsIff(lower, ctx, r, pr, SourcedByRfq, Ref(Rfq, t));
    assert forall row :: MainTarget(PrRfqs, row).id == FirstOf(row, RFQ_KEYS);
    assert forall row :: Keeps(lower, PrRfqs, r, "", row) <==> FirstOf(row, RFQ_PR_REFS) == r;
  }

  lemma RequestShowsIff(lower: string -> string, ctx: Context, r: string, pr: Doc, relation: Relation, target: Ref)
    requires r != "" && Trimmed(r) && Find(ctx.purchaseRequests, PR_KEYS, r) == Some(pr)
    requires relation != SuppliedBy && target.entity in {Sku, Rfq}
    ensures Linked(lower, ctx, Ref(PurchaseRequest, r), relation, target) <==>
            || Named(FirstOf(pr, PR_SKU_REFS), RequestedItem, Sku, relation, target)
            || (relation == SourcedByRfq && target.entity == Rfq && Listed(lower, PrRfqs, r, "", ctx.rfqs, target.id))
  {
    hide Has, Offers, Linked, Trimmed, Trim, Find, PrLinks, FirstOf, PrPo, Named, Listed;
    var s := Ref(PurchaseRequest, r);
    TrimOfTrimmed(r);
    NothingLost(lower, ctx, s, relation, target);
    PrHas(lower, ctx, pr, r, relation, target);
    OffersListed(lower, PrRfqs, s, "", ctx.rfqs, relation, target);
    if target.entity != PurchaseOrder {
      OtherKind(PrPo(ctx, pr, r), AwardedToPo, PurchaseOrder, relation, target);
    }
  }

  lemma OtherKind(id: string, r: Relation, e: EntityType, relation: Relation, target: Ref)
    requires target.entity != e
    ensures !Named(id, r, e, relation, target)
  {
  }

  // ----- the page of a supplier

  /** The supplier is the RFQ's best one, or among those it names, compared without case and outer spaces. */
  predicate AskedOrBest(lower: string -> string, rfq: Doc, v: string) {
    || Norm(lower, Field(rfq, "bestSupplier")) == Norm(lower, Some(v))
    || exists name :: name in rfq.supplierNames && Norm(lower, Some(name)) == Norm(lower, Some(v))
  }

  /** Orders, receipts and invoices of the supplier by name without case, and RFQs it won or was asked in. */
  lemma SupplierPage(lower: string -> string, ctx: Context, v: string, t: string)
    requires v != "" && Trimmed(v)
    ensures Linked(lower, ctx, Ref(Supplier, v), RelatedSupplier, Ref(PurchaseOrder, t))
       <==> exists row ::
              && row in ctx.purchaseOrders && SameSupplier(lower, SupplierOf(row), v)
              && FirstOf(row, ["po", "id", "poId"]) == t
    ensures Linked(lower, ctx, Ref(Supplier, v), ReceivedBy, Ref(Grn, t))
       <==> exists row ::
              && row in ctx.receivingDocs && SameSupplier(lower, SupplierOf(row), v)
              && FirstOf(row, ["grn", "id", "grnId", "receivingId"]) == t
    ensures Linked(lower, ctx, Ref(Supplier, v), MatchedToInvoice, Ref(Invoice, t))
       <==> exists row ::
              && row in ctx.supplierInvoices && SameSupplier(lower, SupplierOf(row), v)
              && FirstOf(row, ["invoiceNumber", "id", "invoiceId"]) == t
    ensures Linked(lower, ctx, Ref(Supplier, v), SourcedByRfq, Ref(Rfq, t))
       <==> exists row :: row in ctx.rfqs && AskedOrBest(lower, row, v) && FirstOf(row, ["id", "rfqId"]) == t
  {
    hide Linked, Trimmed, FirstOf, SupplierOf, SameSupplier, Listed, Keeps, AskedOrBest;
    SupplierLists(lower, ctx, v, SupplierOrders, t);
    SupplierLists(lower, ctx, v, SupplierGrns, t);
    SupplierLists(lower, ctx, v, SupplierInvoices, t);
    SupplierLists(lower, ctx, v, SupplierRfqs, t);
    ListedBySupplier(lower, SupplierOrders, v, ctx.purchaseOrders, t);
    ListedBySupplier(lower, SupplierGrns, v, ctx.receivingDocs, t);
    ListedBySupplier(lower, SupplierInvoices, v, ctx.supplierInvoices, t);
    RfqsListed(lower, v, ctx.rfqs, t);
  }

  function SupplierRows(ctx: Context, loop: Loop): seq<Doc> {
    match loop
    case SupplierRfqs => ctx.rfqs
    case SupplierGrns => ctx.receivingDocs
    case SupplierInvoices => ctx.supplierInvoices
    case _ => ctx.purchaseOrders
  }

  lemma SupplierLists(lower: string -> string, ctx: Context, v: string, loop: Loop, t: string)
    requires v != "" && Trimmed(v) && loop in {SupplierOrders, SupplierRfqs, SupplierGrns, SupplierInvoices}
    ensures Linked(lower, ctx, Ref(Supplier, v), MainKind(loop).0, Ref(MainKind(loop).1, t))
       <==> Listed(lower, loop, v, "", SupplierRows(ctx, loop), t)
  {
    hide Linked, Trimmed, Listed;
    SupplierShowsIff(lower, ctx, v, MainKind(loop).0, Ref(MainKind(loop).1, t));
  }

  lemma ListedBySupplier(lower: string -> string, loop: Loop, v: string, rows: seq<Doc>, t: string)
    requires loop in {SupplierOrders, SupplierGrns, SupplierInvoices}
    ensures Listed(lower, loop, v, "", rows, t)
       <==> exists row ::
              row in rows && SameSupplier(lower, SupplierOf(row), v) && FirstOf(row, IdKeys(MainKind(loop).1)) == t
  {
    hide SupplierOf, SameSupplier, FirstOf;
  }

  lemma RfqsListed(lower: string -> string, v: string, rows: seq<Doc>, t: string)
    ensures Listed(lower, SupplierRfqs, v, "", rows, t)
       <==> exists row :: row in rows && AskedOrBest(lower, row, v) && FirstOf(row, ["id", "rfqId"]) == t
  {
    hide FirstOf, Norm;
    forall row
      ensures Keeps(lower, SupplierRfqs, v, "", row) <==> AskedOrBest(lower, row, v)
    {
      AskedIsKept(lower, row, v);
    }
    hide Keeps, AskedOrBest;
  }

  lemma AskedIsKept(lower: string -> string, row: Doc, v: string)
    ensures Keeps(lower, SupplierRfqs, v, "", row) <==> AskedOrBest(lower, row, v)
  {
    hide Norm;
    if name :| name in row.supplierNames && Norm(lower, Some(name)) == Norm(lower, Some(v)) {
      var i :| 0 <= i < |row.supplierNames| && row.supplierNames[i] == name;
      assert SameSupplier(lower, row.supplierNames[i], v);
    }
  }

  lemma SupplierShowsIff(lower: string -> string, ctx: Context, v: string, relation: Relation, target: Ref)
    requires v != "" && Trimmed(v) && relation != SuppliedBy
    ensures Linked(lower, ctx, Ref(Supplier, v), relation, target) <==>
            || ((relation, target.entity) == MainKind(SupplierOrders) &&
                Listed(lower, SupplierOrders, v, "", ctx.purchaseOrders, target.id))
            || ((relation, target.entity) == MainKind(SupplierRfqs) &&
                Listed(lower, SupplierRfqs, v, "", ctx.rfqs, target.id))
            || ((relation, target.entity) == MainKind(SupplierGrns) &&
                Listed(lower, SupplierGrns, v, "", ctx.receivingDocs, target.id))
            || ((relation, target.entity) == MainKind(SupplierInvoices) &&
                Listed(lower, SupplierInvoices, v, "", ctx.supplierInvoices, target.id))
  {
    hide Has, Offers, Linked, Trimmed, Trim, SupplierLinks, Listed, MainKind;
    var s := Ref(Supplier, v);
    TrimOfTrimmed(v);
    NothingLost(lower, ctx, s, relation, target);
    SupplierHas(lower, ctx, v, relation, target);
    OffersListed(lower, SupplierOrders, s, "", ctx.purchaseOrders, relation, target);
    OffersListed(lower, SupplierRfqs, s, "", ctx.rfqs, relation, target);
    OffersListed(lower, SupplierGrns, s, "", ctx.receivingDocs, relation, target);
    OffersListed(lower, SupplierInvoices, s, "", ctx.supplierInvoices, relation, target);
  }

  /** A supplier lists exactly the first items of its orders. */
  lemma SupplierListsItemIff(lower: string -> string, ctx: Context, v: string, sku: string)
    requires v != "" && Trimmed(v)
    ensures Linked(lower, ctx, Ref(Supplier, v), SuppliedBy, Ref(Sku, sku))
       <==> sku != "" && exists row ::
              row in ctx.purchaseOrders && SameSupplier(lower, SupplierOf(row), v) && OrderSku(row) == sku
  {
    hide Has, Offers, Linked, Trimmed, Trim, SupplierLinks, SupplierOf, OrderSku, SameSupplier;
    var s, target := Ref(Supplier, v), Ref(Sku, sku);
    TrimOfTrimmed(v);
    NothingLost(lower, ctx, s, SuppliedBy, target);
    SupplierHas(lower, ctx, v, SuppliedBy, target);
    OffersBeside(lower, SupplierOrders, s, ctx.purchaseOrders, target);
    SinglePush(lower, SupplierRfqs, s, "", ctx.rfqs, SuppliedBy, target);
    SinglePush(lower, SupplierGrns, s, "", ctx.receivingDocs, SuppliedBy, target);
    SinglePush(lower, SupplierInvoices, s, "", ctx.supplierInvoices, SuppliedBy, target);
    assert forall row :: Side(SupplierOrders, row) == target <==> OrderSku(row) == sku;
    assert forall row :: Keeps(lower, SupplierOrders, v, "", row) <==> SameSupplier(lower, SupplierOf(row), v);
  }

  // ----- the page of an item

  /** Orders and requests that mention the item, invoices with such a line, and RFQs by item or title. */
  lemma ItemPage(lower: string -> string, ctx: Context, sku: string, t: string)
    requires sku != "" && Trimmed(sku)
    ensures Linked(lower, ctx, Ref(Sku, sku), ContainsItem, Ref(PurchaseOrder, t))
       <==> exists row ::
              row in ctx.purchaseOrders && MatchesSku(lower, row, sku) && FirstOf(row, ["po", "id", "poId"]) == t
    ensures Linked(lower, ctx, Ref(Sku, sku), RequestedItem, Ref(PurchaseRequest, t))
       <==> exists row ::
              row in ctx.purchaseRequests && MatchesSku(lower, row, sku) && FirstOf(row, ["pr", "id", "prId"]) == t
    ensures Linked(lower, ctx, Ref(Sku, sku), MatchedToInvoice, Ref(Invoice, t))
       <==> exists row ::
              && row in ctx.supplierInvoices && SomeLineHasSku(lower, row, sku)
              && FirstOf(row, ["invoiceNumber", "id", "invoiceId"]) == t
    ensures Linked(lower, ctx, Ref(Sku, sku), SourcedByRfq, Ref(Rfq, t))
       <==> exists row ::
              && row in ctx.rfqs && (MatchesSku(lower, row, sku) || Includes(AsText(Field(row, "title")), sku))
              && FirstOf(row, ["id", "rfqId"]) == t
    ensures Linked(lower, ctx, Ref(Sku, sku), AffectsInventory, Ref(InventoryMovement, t))
       <==> exists row ::
              && row in ctx.inventoryMovements && Norm(lower, Field(row, "sku")) == Norm(lower, Some(sku))
              && FirstOf(row, ["movementId", "id"]) == t
  {
    hide Linked, Trimmed, FirstOf, MatchesSku, SomeLineHasSku, Includes, Norm, AsText;
    ItemShowsIff(lower, ctx, sku, AffectsInventory, Ref(InventoryMovement, t));
    ItemShowsIff(lower, ctx, sku, ContainsItem, Ref(PurchaseOrder, t));
    ItemShowsIff(lower, ctx, sku, RequestedItem, Ref(PurchaseRequest, t));
    ItemShowsIff(lower, ctx, sku, MatchedToInvoice, Ref(Invoice, t));
    ItemShowsIff(lower, ctx, sku, SourcedByRfq, Ref(Rfq, t));
  }

  lemma ItemShowsIff(lower: string -> string, ctx: Context, sku: string, relation: Relation, target: Ref)
    requires sku != "" && Trimmed(sku) && relation != SuppliedBy
    ensures Linked(lower, ctx, Ref(Sku, sku), relation, target) <==>
            || ((relation, target.entity) == MainKind(SkuOrders) &&
                Listed(lower, SkuOrders, sku, "", ctx.purchaseOrders, target.id))
            || ((relation, target.entity) == MainKind(SkuRequests) &&
                Listed(lower, SkuRequests, sku, "", ctx.purchaseRequests, target.id))
            || ((relation, target.entity) == MainKind(SkuRfqs) && Listed(lower, SkuRfqs, sku, "", ctx.rfqs, target.id))
            || ((relation, target.entity) == MainKind(SkuMovements) &&
                Listed(lower, SkuMovements, sku, "", ctx.inventoryMovements, target.id))
            || ((relation, target.entity) == MainKind(SkuInvoices) &&
                Listed(lower, SkuInvoices, sku, "", ctx.supplierInvoices, target.id))
  {
    hide Has, Offers, Linked, Trimmed, Trim, SkuLinks, Listed, MainKind, FindItem, SupplierOf;
    var s := Ref(Sku, sku);
    TrimOfTrimmed(sku);
    NothingLost(lower, ctx, s, relation, target);
    SkuHas(lower, ctx, sku, relation, target);
    OffersListed(lower, SkuOrders, s, "", ctx.purchaseOrders, relation, target);
    OffersListed(lower, SkuRequests, s, "", ctx.purchaseRequests, relation, target);
    OffersListed(lower, SkuRfqs, s, "", ctx.rfqs, relation, target);
    OffersListed(lower, SkuMovements, s, "", ctx.inventoryMovements, relation, target);
    OffersListed(lower, SkuInvoices, s, "", ctx.supplierInvoices, relation, target);
  }

  /** An item lists exactly the supplier in stock and the suppliers of the orders that mention it. */
  lemma ItemListsSupplierIff(lower: string -> string, ctx: Context, sku: string, v: string)
    requires sku != "" && Trimmed(sku)
    ensures Linked(lower, ctx, Ref(Sku, sku), SuppliedBy, Ref(Supplier, v)) <==>
            v != "" &&
            (|| ItemSupplier(FindItem(lower, ctx.inventoryItems, sku)) == v
             || exists row :: row in ctx.purchaseOrders && MatchesSku(lower, row, sku) && SupplierOf(row) == v)
  {
    hide Has, Offers, Linked, Trimmed, Trim, SkuLinks, FindItem, ItemSupplier, SupplierOf, MatchesSku;
    var s, target := Ref(Sku, sku), Ref(Supplier, v);
    TrimOfTrimmed(sku);
    NothingLost(lower, ctx, s, SuppliedBy, target);
    SkuHas(lower, ctx, sku, SuppliedBy, target);
    OffersBeside(lower, SkuOrders, s, ctx.purchaseOrders, target);
    SinglePush(lower, SkuRequests, s, "", ctx.purchaseRequests, SuppliedBy, target);
    SinglePush(lower, SkuRfqs, s, "", ctx.rfqs, SuppliedBy, target);
    SinglePush(lower, SkuMovements, s, "", ctx.inventoryMovements, SuppliedBy, target);
    SinglePush(lower, SkuInvoices, s, "", ctx.supplierInvoices, SuppliedBy, target);
    assert forall row :: Side(SkuOrders, row) == target <==> SupplierOf(row) == v;
    assert forall row :: Keeps(lower, SkuOrders, sku, "", row) <==> MatchesSku(lower, row, sku);
  }

  /** An item's page lists no goods receipt, so a receipt's line items are linked one way only. */
  lemma ItemListsNoReceipt(lower: string -> string, ctx: Context, sku: string, relation: Relation, g: string)
    ensures !Linked(lower, ctx, Ref(Sku, sku), relation, Ref(Grn, g))
  {
    hide Has, Offers, Linked, Trim, SkuLinks, FindItem, SupplierOf;
    var id, target := Trim(sku), Ref(Grn, g);
    var s := Ref(Sku, id);
    NothingLost(lower, ctx, Ref(Sku, sku), relation, target);
    NoLinks(relation, target);
    SkuHas(lower, ctx, id, relation, target);
    if relation == SuppliedBy {
      OffersBeside(lower, SkuOrders, s, ctx.purchaseOrders, target);
    } else {
      OffersListed(lower, SkuOrders, s, "", ctx.purchaseOrders, relation, target);
    }
    SinglePush(lower, SkuRequests, s, "", ctx.purchaseRequests, relation, target);
    SinglePush(lower, SkuRfqs, s, "", ctx.rfqs, relation, target);
    SinglePush(lower, SkuMovements, s, "", ctx.inventoryMovements, relation, target);
    SinglePush(lower, SkuInvoices, s, "", ctx.supplierInvoices, relation, target);
  }

  /** An inventory movement has no page, so no link to one is found again. */
  lemma MovementHasNoPage(lower: string -> string, ctx: Context, m: string, relation: Relation, target: Ref)
    ensures !Linked(lower, ctx, Ref(InventoryMovement, m), relation, target)
  {
    hide Has, Linked, Trim;
    NothingLost(lower, ctx, Ref(InventoryMovement, m), relation, target);
    NoLinks(relation, target);
  }

  // ----- more ways back

  lemma TextIsTrimmed(v: Option<string>)
    ensures Trimmed(AsText(v))
  {
    TrimShape(v.GetOr(""));
  }

  /** From an invoice to an item on its lines and back, however the item is stored. */
  lemma InvoiceItemWalksBack(lower: string -> string, ctx: Context, i: string, sku: string, invoice: Doc)
    requires i != "" && Trimmed(i) && Find(ctx.supplierInvoices, INVOICE_KEYS, i) == Some(invoice)
    requires sku != "" && Linked(lower, ctx, Ref(Invoice, i), ContainsItem, Ref(Sku, sku))
    ensures Linked(lower, ctx, Ref(Sku, sku), MatchedToInvoice, Ref(Invoice, i))
  {
    hide Linked, Find, FirstOf, Trim, Trimmed;
    InvoicePage(lower, ctx, i, invoice, sku);
    var line :| line in invoice.lines && AsText(Field(line, "sku")) == sku;
    TextIsTrimmed(Field(line, "sku"));
    TrimOfTrimmed(sku);
    var n :| 0 <= n < |invoice.lines| && invoice.lines[n] == line;
    assert SomeLineHasSku(lower, invoice, sku);
    FindIsRow(ctx.supplierInvoices, INVOICE_KEYS, i);
    ItemPage(lower, ctx, sku, i);
  }

  /** From a supplier to an item and back, to the supplier's name as the order has it. */
  lemma SupplierItemWalksBack(lower: string -> string, ctx: Context, v: string, sku: string) returns (w: string)
    requires KeepsText(lower) && lower("") == "" && v != "" && Trimmed(v)
    requires Linked(lower, ctx, Ref(Supplier, v), SuppliedBy, Ref(Sku, sku))
    ensures SameSupplier(lower, w, v) && Linked(lower, ctx, Ref(Sku, sku), SuppliedBy, Ref(Supplier, w))
  {
    hide Linked, Trim, Trimmed, FirstOf;
    SupplierListsItemIff(lower, ctx, v, sku);
    var row :| row in ctx.purchaseOrders && SameSupplier(lower, SupplierOf(row), v) && OrderSku(row) == sku;
    w := SupplierOf(row);
    OrderSkuShape(row);
    TrimmedSku(row);
    TrimOfTrimmed(v);
    NameIsText(lower, w, v);
    assert MatchesSku(lower, row, sku);
    ItemListsSupplierIff(lower, ctx, sku, w);
  }

  lemma TrimmedSku(po: Doc)
    ensures Trimmed(OrderSku(po))
  {
    FirstTextShape([Field(po, "sourceSku"), if po.lines == [] then None else Field(po.lines[0], "sku")]);
  }

  lemma NameIsText(lower: string -> string, w: string, v: string)
    requires KeepsText(lower) && lower("") == "" && SameSupplier(lower, w, v) && Trim(v) == v && v != ""
    ensures w != ""
  {
    hide Trim;
    TrimOfNothing();
  }

  /** From an order to its RFQ, the way back exists exactly if the RFQ names the order itself. */
  lemma OrderRfqWalksBackIff(lower: string -> string, ctx: Context, o: string, f: string, rfq: Doc)
    requires Linked(lower, ctx, Ref(PurchaseOrder, o), SourcedByRfq, Ref(Rfq, f))
    requires Find(ctx.rfqs, RFQ_KEYS, f) == Some(rfq)
    ensures Linked(lower, ctx, Ref(Rfq, f), AwardedToPo, Ref(PurchaseOrder, Trim(o)))
       <==> FirstOf(rfq, ["linkedPo", "poId"]) == Trim(o)
  {
    hide Linked, Find, FirstOf, Trim, Trimmed, OrderSku, SupplierOf;
    var po := PoShows(lower, ctx, o, SourcedByRfq, Ref(Rfq, f));
    FirstOfShape(po, ["sourceRfq", "linkedRfq"]);
    LinkedNeedsId(lower, ctx, o, SourcedByRfq, Ref(Rfq, f));
    RfqPage(lower, ctx, f, rfq, Trim(o));
  }

  /** From an item to a supplier, the way back exists exactly if the item comes first on an order to it. */
  lemma ItemSupplierWalksBackIff(lower: string -> string, ctx: Context, sku: string, v: string)
    requires sku != "" && Trimmed(sku)
    requires Linked(lower, ctx, Ref(Sku, sku), SuppliedBy, Ref(Supplier, v))
    ensures Linked(lower, ctx, Ref(Supplier, v), SuppliedBy, Ref(Sku, sku))
       <==> exists row :: row in ctx.purchaseOrders && SameSupplier(lower, SupplierOf(row), v) && OrderSku(row) == sku
  {
    hide Linked, Trim, Trimmed, FirstOf, FindItem, OrderSku, MatchesSku, SameSupplier;
    ItemListsSupplierIff(lower, ctx, sku, v);
    var item := FindItem(lower, ctx.inventoryItems, sku);
    if ItemSupplier(item) == v {
      FirstOfShape(item.value, SUPPLIER_KEYS);
    } else {
      var row :| row in ctx.purchaseOrders && MatchesSku(lower, row, sku) && SupplierOf(row) == v;
      FirstOfShape(row, SUPPLIER_KEYS);
    }
    SupplierListsItemIff(lower, ctx, v, sku);
  }
}
