/** Every limitation a page reports names exactly what the page does not link to. */
module RelationshipsLimitations {
  import opened Wrappers
  import opened Text
  import opened Relationships
  import opened RelationshipsWalkBack
  import opened RelationshipsBothWays

  // ----- limitations of the resolvers

  predicate NoneOf(links: seq<Link>, relation: Relation) {
    forall i :: 0 <= i < |links| ==> links[i].relation != relation
  }

  lemma NoneOfHas(links: seq<Link>, relation: Relation)
    ensures NoneOf(links, relation) <==> forall t :: !Has(links, relation, t)
  {
    if !NoneOf(links, relation) {
      var i :| 0 <= i < |links| && links[i].relation == relation;
      assert Has(links, relation, links[i].target);
    }
  }

  lemma OffersIffKept(lower: string -> string, loop: Loop, s: Ref, po: string, rows: seq<Doc>, relation: Relation)
    requires relation == MainKind(loop).0
    ensures (forall t :: !Offers(lower, loop, s, po, rows, relation, t)) <==> NoneKept(lower, loop, s.id, po, rows)
  {
    hide Keeps, Has, MainKind, MainTarget;
    if !NoneKept(lower, loop, s.id, po, rows) {
      var i :| 0 <= i < |rows| && Keeps(lower, loop, s.id, po, rows[i]);
      RowOffers(lower, loop, s, po, rows, rows[i]);
    }
  }

  /** An order's page reports a missing request, RFQ, receipt or invoice exactly when it links to none. */
  lemma OrderLimitationsAreExact(lower: string -> string, ctx: Context, po: Doc, id: string)
    ensures var links, limits := PoLinks(lower, ctx, po, id), PoLimits(lower, ctx, po, id);
            && (MissingSourcePr in limits <==> NoneOf(links, CreatedFrom))
            && (MissingRfqLink in limits <==> NoneOf(links, SourcedByRfq))
            && (MissingGrn in limits <==> NoneOf(links, ReceivedBy))
            && (MissingInvoiceMatch in limits <==> NoneOf(links, MatchedToInvoice))
  {
    hide Has, Offers, Keeps, NoneKept, NoneOf, PoLinks, PoSourcePr, PoSourceRfq, OrderSku, SupplierOf;
    var s, links := Ref(PurchaseOrder, id), PoLinks(lower, ctx, po, id);
    OffersIffKept(lower, PoGrns, s, "", ctx.receivingDocs, ReceivedBy);
    OffersIffKept(lower, PoInvoices, s, "", ctx.supplierInvoices, MatchedToInvoice);
    NoneOfHas(links, CreatedFrom);
    NoneOfHas(links, SourcedByRfq);
    NoneOfHas(links, ReceivedBy);
    NoneOfHas(links, MatchedToInvoice);
    forall t
      ensures Has(links, CreatedFrom, t) <==> Named(PoSourcePr(po), CreatedFrom, PurchaseRequest, CreatedFrom, t)
      ensures Has(links, SourcedByRfq, t) <==> Named(PoSourceRfq(po), SourcedByRfq, Rfq, SourcedByRfq, t)
    {
      PoHasOnly(lower, ctx, po, id, CreatedFrom, t);
      PoHasOnly(lower, ctx, po, id, SourcedByRfq, t);
    }
    forall t
      ensures Has(links, ReceivedBy, t) <==> Offers(lower, PoGrns, s, "", ctx.receivingDocs, ReceivedBy, t)
      ensures Has(links, MatchedToInvoice, t) <==>
              Offers(lower, PoInvoices, s, "", ctx.supplierInvoices, MatchedToInvoice, t)
    {
      PoHasOnly(lower, ctx, po, id, ReceivedBy, t);
      PoHasOnly(lower, ctx, po, id, MatchedToInvoice, t);
    }
    assert Named(PoSourcePr(po), CreatedFrom, PurchaseRequest, CreatedFrom, Ref(PurchaseRequest, PoSourcePr(po)))
      <==> PoSourcePr(po) != "";
    assert Named(PoSourceRfq(po), SourcedByRfq, Rfq, SourcedByRfq, Ref(Rfq, PoSourceRfq(po)))
      <==> PoSourceRfq(po) != "";
  }

  lemma PoHasOnly(lower: string -> string, ctx: Context, po: Doc, id: string, relation: Relation, t: Ref)
    requires relation in {CreatedFrom, SourcedByRfq, ReceivedBy, MatchedToInvoice}
    ensures var s := Ref(PurchaseOrder, id);
            Has(PoLinks(lower, ctx, po, id), relation, t) <==>
            || Named(PoSourcePr(po), CreatedFrom, PurchaseRequest, relation, t)
            || Named(PoSourceRfq(po), SourcedByRfq, Rfq, relation, t)
            || (relation == ReceivedBy && Offers(lower, PoGrns, s, "", ctx.receivingDocs, relation, t))
            || (relation == MatchedToInvoice && Offers(lower, PoInvoices, s, "", ctx.supplierInvoices, relation, t))
  {
    hide Has, Offers, PoLinks, PoSourcePr, PoSourceRfq, OrderSku, SupplierOf;
    var s := Ref(PurchaseOrder, id);
    PoHas(lower, ctx, po, id, relation, t);
    SinglePush(lower, PoGrns, s, "", ctx.receivingDocs, relation, t);
    SinglePush(lower, PoInvoices, s, "", ctx.supplierInvoices, relation, t);
    SinglePush(lower, PoMovements, s, "", ctx.inventoryMovements, relation, t);
  }

  /** No link of this relation leads to a record of this kind. */
  predicate NoneTo(links: seq<Link>, relation: Relation, entity: EntityType) {
    forall i :: 0 <= i < |links| ==> !(links[i].relation == relation && links[i].target.entity == entity)
  }

  lemma NoneToHas(links: seq<Link>, relation: Relation, entity: EntityType)
    ensures NoneTo(links, relation, entity) <==> forall t: Ref :: t.entity == entity ==> !Has(links, relation, t)
  {
    if !NoneTo(links, relation, entity) {
      var i :| 0 <= i < |links| && links[i].relation == relation && links[i].target.entity == entity;
      assert Has(links, relation, links[i].target);
    }
  }

  /** No inventory item has the SKU, compared without case and outer spaces. */
  predicate NotInStock(lower: string -> string, items: seq<Doc>, sku: string) {
    forall i :: 0 <= i < |items| ==> Norm(lower, Some(FirstOf(items[i], SKU_KEYS))) != Norm(lower, Some(sku))
  }

  lemma {:induction false} FindItemIff(lower: string -> string, items: seq<Doc>, sku: string)
    ensures FindItem(lower, items, sku).None? <==> NotInStock(lower, items, sku)
  {
    hide Norm, FirstOf;
    if items != [] {
      FindItemIff(lower, items[1..], sku);
      assert items == [items[0]] + items[1..];
    }
  }

  /** An item's page reports a missing balance exactly when no inventory item has the SKU. */
  lemma SkuLimitationIsExact(lower: string -> string, ctx: Context, sku: string)
    ensures MissingInventoryBalance in SkuLimits(lower, ctx, sku) <==> NotInStock(lower, ctx.inventoryItems, sku)
  {
    hide NotInStock;
    FindItemIff(lower, ctx.inventoryItems, sku);
  }

  /** A goods receipt's page reports a missing invoice exactly when it links to none. */
  lemma GrnLimitationIsExact(lower: string -> string, ctx: Context, grn: Doc, id: string)
    ensures MissingInvoiceMatch in GrnLimits(lower, ctx, grn, id)
       <==> NoneOf(GrnLinks(lower, ctx, grn, id), MatchedToInvoice)
  {
    hide Has, Offers, Keeps, NoneKept, NoneOf, GrnLinks, SupplierOf, FirstOf;
    var s, po, links := Ref(Grn, id), FirstOf(grn, GRN_PO_REFS), GrnLinks(lower, ctx, grn, id);
    OffersIffKept(lower, GrnInvoices, s, po, ctx.supplierInvoices, MatchedToInvoice);
    NoneOfHas(links, MatchedToInvoice);
    forall t
      ensures Has(links, MatchedToInvoice, t) <==>
              Offers(lower, GrnInvoices, s, po, ctx.supplierInvoices, MatchedToInvoice, t)
    {
      GrnHas(lower, ctx, grn, id, MatchedToInvoice, t);
      SinglePush(lower, GrnLines, s, po, grn.lines, MatchedToInvoice, t);
      SinglePush(lower, GrnMovements, s, po, ctx.inventoryMovements, MatchedToInvoice, t);
    }
  }

  /** An invoice's page reports a missing order or receipt exactly when it links to none. */
  lemma InvoiceLimitationsAreExact(lower: string -> string, ctx: Context, invoice: Doc, id: string)
    ensures var links, limits := InvoiceLinks(lower, ctx, invoice, id), InvoiceLimits(invoice);
            && (MissingInvoiceMatch in limits <==> NoneTo(links, MatchedToInvoice, PurchaseOrder))
            && (MissingGrn in limits <==> NoneTo(links, MatchedToInvoice, Grn))
  {
    hide Has, Offers, NoneTo, InvoiceLinks, SupplierOf, FirstOf;
    var s, links := Ref(Invoice, id), InvoiceLinks(lower, ctx, invoice, id);
    var po, grn := FirstOf(invoice, INVOICE_PO_REFS), FirstOf(invoice, INVOICE_GRN_REFS);
    NoneToHas(links, MatchedToInvoice, PurchaseOrder);
    NoneToHas(links, MatchedToInvoice, Grn);
    forall t: Ref | t.entity in {PurchaseOrder, Grn}
      ensures Has(links, MatchedToInvoice, t) <==> t.id != "" && (t == Ref(PurchaseOrder, po) || t == Ref(Grn, grn))
    {
      InvoiceHas(lower, ctx, invoice, id, MatchedToInvoice, t);
      SinglePush(lower, InvoiceLines, s, "", invoice.lines, MatchedToInvoice, t);
    }
    assert po != "" ==> Has(links, MatchedToInvoice, Ref(PurchaseOrder, po));
    assert grn != "" ==> Has(links, MatchedToInvoice, Ref(Grn, grn));
  }

  /** An RFQ's page reports a missing request exactly when it links to none. */
  lemma RfqLimitationIsExact(rfq: Doc, id: string)
    ensures MissingSourcePr in RfqLimits(rfq) <==> NoneOf(RfqLinks(rfq, id), CreatedFrom)
  {
    hide Has, NoneOf, RfqLinks, FirstOf, BestSupplierOf;
    var pr := FirstOf(rfq, RFQ_PR_REFS);
    NoneOfHas(RfqLinks(rfq, id), CreatedFrom);
    forall t
      ensures Has(RfqLinks(rfq, id), CreatedFrom, t) <==> pr != "" && t == Ref(PurchaseRequest, pr)
    {
      RfqHas(rfq, id, CreatedFrom, t);
    }
    assert pr != "" ==> Has(RfqLinks(rfq, id), CreatedFrom, Ref(PurchaseRequest, pr));
  }

  /** A purchase request's page reports a missing order exactly when it links to none. */
  lemma PrLimitationIsExact(lower: string -> string, ctx: Context, pr: Doc, id: string)
    ensures MissingRelationship in PrLimits(ctx, pr, id) <==> NoneOf(PrLinks(lower, ctx, pr, id), AwardedToPo)
  {
    hide Has, Offers, NoneOf, PrLinks, FirstOf, PrPo;
    var s, links, po := Ref(PurchaseRequest, id), PrLinks(lower, ctx, pr, id), PrPo(ctx, pr, id);
    NoneOfHas(links, AwardedToPo);
    forall t
      ensures Has(links, AwardedToPo, t) <==> po != "" && t == Ref(PurchaseOrder, po)
    {
      PrHas(lower, ctx, pr, id, AwardedToPo, t);
      SinglePush(lower, PrRfqs, s, "", ctx.rfqs, AwardedToPo, t);
    }
    assert po != "" ==> Has(links, AwardedToPo, Ref(PurchaseOrder, po));
  }

  // ----- limitations of the links

  lemma {:induction false} LinkLimitsIff(links: seq<Link>)
    ensures RecordNotFound in LinkLimits(links) <==> exists i :: 0 <= i < |links| && LimitOf(links[i]) != []
    ensures forall l :: l in LinkLimits(links) ==> l == RecordNotFound
  {
    hide LimitOf;
    if links != [] {
      LinkLimitsIff(links[1..]);
      LimitIsNotFound(links[0]);
      assert links == [links[0]] + links[1..];
    }
  }

  lemma LimitIsNotFound(l: Link)
    ensures LimitOf(l) == [] || LimitOf(l) == [RecordNotFound]
  {
  }

  /** The page has no record to show. */
  predicate PageMissing(ctx: Context, entity: EntityType, id: string) {
    || id == ""
    || (entity == PurchaseOrder && Find(ctx.purchaseOrders, PO_KEYS, id).None?)
    || (entity in {Grn, ReceivingDocument} && Find(ctx.receivingDocs, GRN_KEYS, id).None?)
    || (entity in {Invoice, InvoiceMatch} && Find(ctx.supplierInvoices, INVOICE_KEYS, id).None?)
    || (entity == Rfq && Find(ctx.rfqs, RFQ_KEYS, id).None?)
    || (entity == PurchaseRequest && Find(ctx.purchaseRequests, PR_KEYS, id).None?)
  }

  lemma CollectedMissing(lower: string -> string, ctx: Context, entity: EntityType, id: string)
    ensures RecordNotFound in Collected(lower, ctx, entity, id).limits <==> PageMissing(ctx, entity, id)
  {
    hide Find, NoneKept, SupplierLinks, PoLinks, SkuLinks, GrnLinks, InvoiceLinks, RfqLinks, PrLinks;
    hide FirstOf, PoSourcePr, PoSourceRfq, PrPo, FindItem;
  }

  /**
   A page reports a record as not found exactly if its own record is missing, or if it shows a link whose
   record is missing, or a link to an inventory movement, missing or not.
   */
  lemma RecordNotFoundIff(lower: string -> string, ctx: Context, entity: EntityType, rawId: string)
    ensures var links := Links(lower, ctx, entity, rawId);
            RecordNotFound in Limits(lower, ctx, entity, rawId) <==>
            || PageMissing(ctx, entity, Trim(rawId))
            || exists i :: 0 <= i < |links| && (!links[i].found || links[i].target.entity == InventoryMovement)
  {
    hide PageMissing, Collected, Links, Trim;
    CollectedMissing(lower, ctx, entity, Trim(rawId));
    LinkLimitsIff(Links(lower, ctx, entity, rawId));
  }

  /** A page without its record shows nothing but that, and only a kind without a resolver has no route. */
  lemma PagesWithoutLinks(lower: string -> string, ctx: Context, entity: EntityType, rawId: string)
    ensures PageMissing(ctx, entity, Trim(rawId)) ==>
              Links(lower, ctx, entity, rawId) == [] && Limits(lower, ctx, entity, rawId) == [RecordNotFound]
    ensures RouteNotAvailable in Limits(lower, ctx, entity, rawId) <==>
              Trim(rawId) != "" && (entity == InventoryMovement || entity.OtherEntity?)
  {
    hide Collected, PageMissing, Trim;
    CollectedWithout(lower, ctx, entity, Trim(rawId));
    LinkLimitsIff(Links(lower, ctx, entity, rawId));
  }

  lemma CollectedWithout(lower: string -> string, ctx: Context, entity: EntityType, id: string)
    ensures PageMissing(ctx, entity, id) ==> Collected(lower, ctx, entity, id) == Resolved([], [RecordNotFound])
    ensures RouteNotAvailable in Collected(lower, ctx, entity, id).limits <==>
              id != "" && (entity == InventoryMovement || entity.OtherEntity?)
  {
    hide Find, NoneKept, SupplierLinks, PoLinks, SkuLinks, GrnLinks, InvoiceLinks, RfqLinks, PrLinks;
    hide FirstOf, PoSourcePr, PoSourceRfq, PrPo, FindItem;
  }

  /** What makes a link of an order's page a found one. */
  predicate OrderLinkFound(ctx: Context, l: Link) {
    && l.target.id != ""
    && (l.relation == CreatedFrom ==> Find(ctx.purchaseRequests, PR_KEYS, l.target.id).Some?)
    && (l.relation == SourcedByRfq ==> Find(ctx.rfqs, RFQ_KEYS, l.target.id).Some?)
  }

  predicate FoundAsKnown(ctx: Context, links: seq<Link>) {
    forall i :: 0 <= i < |links| ==> (links[i].found <==> OrderLinkFound(ctx, links[i]))
  }

  lemma {:induction false} ScanFound(lower: string -> string, ctx: Context, loop: Loop, s: Ref, rows: seq<Doc>)
    requires loop in {PoGrns, PoInvoices, PoMovements}
    ensures FoundAsKnown(ctx, Scan(lower, loop, s, "", rows))
  {
    hide Keeps, Find, FirstOf;
    if rows != [] {
      ScanFound(lower, ctx, loop, s, rows[..|rows| - 1]);
    }
  }

  /** Of the records an order links to, exactly a request or an RFQ not listed, or one without an id, is not found. */
  lemma OrderLinksFound(lower: string -> string, ctx: Context, po: Doc, id: string)
    ensures FoundAsKnown(ctx, PoLinks(lower, ctx, po, id))
  {
    hide Scan, Find, FirstOf, PoSourcePr, PoSourceRfq, OrderSku, SupplierOf;
    var s := Ref(PurchaseOrder, id);
    ScanFound(lower, ctx, PoGrns, s, ctx.receivingDocs);
    ScanFound(lower, ctx, PoInvoices, s, ctx.supplierInvoices);
    ScanFound(lower, ctx, PoMovements, s, ctx.inventoryMovements);
  }
}
