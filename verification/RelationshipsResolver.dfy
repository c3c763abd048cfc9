/** The resolvers step by step: what each page links to, what it reports as missing, and nothing else. */
module RelationshipsResolver {
  import opened Wrappers
  import opened Text
  import opened Relationships
  import opened RelationshipsWalkBack
  import opened RelationshipsLimitations

  method ResolveForPo(lower: string -> string, ctx: Context, po: Doc, id: string)
    returns (links: seq<Link>, limits: seq<Limitation>)
    ensures links == PoLinks(lower, ctx, po, id) && limits == PoLimits(lower, ctx, po, id)
    ensures forall relation, target ::
              Has(links, relation, target) <==> OrderPointsTo(lower, ctx, po, id, relation, target)
    ensures FoundAsKnown(ctx, links)
    ensures MissingSourcePr in limits <==> NoneOf(links, CreatedFrom)
    ensures MissingRfqLink in limits <==> NoneOf(links, SourcedByRfq)
    ensures MissingGrn in limits <==> NoneOf(links, ReceivedBy)
    ensures MissingInvoiceMatch in limits <==> NoneOf(links, MatchedToInvoice)
    ensures forall l :: l in limits ==> l in {MissingSourcePr, MissingRfqLink, MissingGrn, MissingInvoiceMatch}
  {
    hide Scan, NoneKept, FirstOf, FirstText, Find, Has, OrderPointsTo, FoundAsKnown, NoneOf;
    var s := Ref(PurchaseOrder, id);
    var pr, rfq, sku, supplier := PoSourcePr(po), PoSourceRfq(po), OrderSku(po), SupplierOf(po);
    var prFound, rfqFound := Find(ctx.purchaseRequests, PR_KEYS, pr).Some?, Find(ctx.rfqs, RFQ_KEYS, rfq).Some?;
    links := Direct(s, CreatedFrom, PurchaseRequest, pr, "Created from", prFound);
    limits := When(pr == "", MissingSourcePr);
    links := links + Direct(s, SourcedByRfq, Rfq, rfq, "Created from", rfqFound);
    limits := limits + When(rfq == "", MissingRfqLink);
    links := links + Direct(s, ContainsItem, Sku, sku, "Affects inventory");
    links := links + Direct(s, RelatedSupplier, Supplier, supplier, "Supplier relationship");
    var pushed, none := PushEach(lower, PoGrns, s, "", ctx.receivingDocs);
    limits := limits + When(none, MissingGrn);
    links := links + pushed;
    pushed, none := PushEach(lower, PoInvoices, s, "", ctx.supplierInvoices);
    limits := limits + When(none, MissingInvoiceMatch);
    links := links + pushed;
    pushed, none := PushEach(lower, PoMovements, s, "", ctx.inventoryMovements);
    links := links + pushed;
    forall relation, target
      ensures Has(links, relation, target) <==> OrderPointsTo(lower, ctx, po, id, relation, target)
    {
      PoHas(lower, ctx, po, id, relation, target);
    }
    OrderLimitationsAreExact(lower, ctx, po, id);
    OrderLinksFound(lower, ctx, po, id);
  }

  method ResolveForSku(lower: string -> string, ctx: Context, sku: string)
    returns (links: seq<Link>, limits: seq<Limitation>)
    ensures links == SkuLinks(lower, ctx, sku) && limits == SkuLimits(lower, ctx, sku)
    ensures forall relation, target :: Has(links, relation, target) <==> SkuPointsTo(lower, ctx, sku, relation, target)
    ensures MissingInventoryBalance in limits <==> NotInStock(lower, ctx.inventoryItems, sku)
    ensures forall l :: l in limits ==> l == MissingInventoryBalance
  {
    hide Scan, NoneKept, FirstOf, FirstText, Find, Has, SkuPointsTo, NotInStock;
    var s := Ref(Sku, sku);
    var item := FindItem(lower, ctx.inventoryItems, sku);
    limits := When(item.None?, MissingInventoryBalance);
    links := Direct(s, SuppliedBy, Supplier, ItemSupplier(item), "Supplied by");
    var pushed, none := PushEach(lower, SkuOrders, s, "", ctx.purchaseOrders);
    links := links + pushed;
    pushed, none := PushEach(lower, SkuRequests, s, "", ctx.purchaseRequests);
    links := links + pushed;
    pushed, none := PushEach(lower, SkuRfqs, s, "", ctx.rfqs);
    links := links + pushed;
    pushed, none := PushEach(lower, SkuMovements, s, "", ctx.inventoryMovements);
    links := links + pushed;
    pushed, none := PushEach(lower, SkuInvoices, s, "", ctx.supplierInvoices);
    links := links + pushed;
    forall relation, target
      ensures Has(links, relation, target) <==> SkuPointsTo(lower, ctx, sku, relation, target)
    {
      SkuHas(lower, ctx, sku, relation, target);
    }
    SkuLimitationIsExact(lower, ctx, sku);
  }

  method ResolveForGrn(lower: string -> string, ctx: Context, grn: Doc, id: string)
    returns (links: seq<Link>, limits: seq<Limitation>)
    ensures links == GrnLinks(lower, ctx, grn, id) && limits == GrnLimits(lower, ctx, grn, id)
    ensures forall relation, target ::
              Has(links, relation, target) <==> GrnPointsTo(lower, ctx, grn, id, relation, target)
    ensures MissingInvoiceMatch in limits <==> NoneOf(links, MatchedToInvoice)
    ensures forall l :: l in limits ==> l == MissingInvoiceMatch
  {
    hide Scan, NoneKept, FirstOf, FirstText, Find, Has, GrnPointsTo, NoneOf;
    var s := Ref(Grn, id);
    var po, supplier := FirstOf(grn, GRN_PO_REFS), SupplierOf(grn);
    links := Direct(s, ReceivedBy, PurchaseOrder, po, "Receives PO");
    links := links + Direct(s, RelatedSupplier, Supplier, supplier, "Supplier relationship");
    var pushed, none := PushEach(lower, GrnLines, s, po, grn.lines);
    links := links + pushed;
    pushed, none := PushEach(lower, GrnMovements, s, po, ctx.inventoryMovements);
    links := links + pushed;
    pushed, none := PushEach(lower, GrnInvoices, s, po, ctx.supplierInvoices);
    limits := When(none, MissingInvoiceMatch);
    links := links + pushed;
    forall relation, target
      ensures Has(links, relation, target) <==> GrnPointsTo(lower, ctx, grn, id, relation, target)
    {
      GrnHas(lower, ctx, grn, id, relation, target);
    }
    GrnLimitationIsExact(lower, ctx, grn, id);
  }

  method ResolveForInvoice(lower: string -> string, ctx: Context, invoice: Doc, id: string)
    returns (links: seq<Link>, limits: seq<Limitation>)
    ensures links == InvoiceLinks(lower, ctx, invoice, id) && limits == InvoiceLimits(invoice)
    ensures forall relation, target ::
              Has(links, relation, target) <==> InvoicePointsTo(lower, ctx, invoice, id, relation, target)
    ensures MissingInvoiceMatch in limits <==> NoneTo(links, MatchedToInvoice, PurchaseOrder)
    ensures MissingGrn in limits <==> NoneTo(links, MatchedToInvoice, Grn)
    ensures forall l :: l in limits ==> l in {MissingInvoiceMatch, MissingGrn}
  {
    hide Scan, NoneKept, FirstOf, FirstText, Find, Has, InvoicePointsTo, NoneTo;
    var s := Ref(Invoice, id);
    var po, grn, supplier := FirstOf(invoice, INVOICE_PO_REFS), FirstOf(invoice, INVOICE_GRN_REFS), SupplierOf(invoice);
    links := Direct(s, MatchedToInvoice, PurchaseOrder, po, "Source document");
    limits := When(po == "", MissingInvoiceMatch);
    links := links + Direct(s, MatchedToInvoice, Grn, grn, "Source document");
    limits := limits + When(grn == "", MissingGrn);
    links := links + Direct(s, RelatedSupplier, Supplier, supplier, "Supplier relationship");
    var pushed, none := PushEach(lower, InvoiceLines, s, "", invoice.lines);
    links := links + pushed;
    links := links + [LinkTo(s, MatchedToInvoice, InvoiceMatch, id, "Matches invoice")];
    forall relation, target
      ensures Has(links, relation, target) <==> InvoicePointsTo(lower, ctx, invoice, id, relation, target)
    {
      InvoiceHas(lower, ctx, invoice, id, relation, target);
    }
    InvoiceLimitationsAreExact(lower, ctx, invoice, id);
  }

  method ResolveForSupplier(lower: string -> string, ctx: Context, supplier: string)
    returns (links: seq<Link>, limits: seq<Limitation>)
    ensures links == SupplierLinks(lower, ctx, supplier) && limits == SupplierLimits(lower, ctx, supplier)
    ensures forall relation, target ::
              Has(links, relation, target) <==> SupplierPointsTo(lower, ctx, supplier, relation, target)
    ensures MissingRelationship in limits <==> links == []
    ensures forall l :: l in limits ==> l == MissingRelationship
  {
    hide Scan, NoneKept, FirstOf, FirstText, Find, Has, SupplierPointsTo;
    var s := Ref(Supplier, supplier);
    var pushed, none := PushEach(lower, SupplierOrders, s, "", ctx.purchaseOrders);
    links := pushed;
    pushed, none := PushEach(lower, SupplierRfqs, s, "", ctx.rfqs);
    links := links + pushed;
    pushed, none := PushEach(lower, SupplierGrns, s, "", ctx.receivingDocs);
    links := links + pushed;
    pushed, none := PushEach(lower, SupplierInvoices, s, "", ctx.supplierInvoices);
    links := links + pushed;
    limits := When(links == [], MissingRelationship);
    forall relation, target
      ensures Has(links, relation, target) <==> SupplierPointsTo(lower, ctx, supplier, relation, target)
    {
      SupplierHas(lower, ctx, supplier, relation, target);
    }
  }

  method ResolveForRfq(rfq: Doc, id: string) returns (links: seq<Link>, limits: seq<Limitation>)
    ensures links == RfqLinks(rfq, id) && limits == RfqLimits(rfq)
    ensures forall relation, target :: Has(links, relation, target) <==> RfqPointsTo(rfq, relation, target)
    ensures MissingSourcePr in limits <==> NoneOf(links, CreatedFrom)
    ensures forall l :: l in limits ==> l == MissingSourcePr
  {
    hide Scan, NoneKept, FirstOf, FirstText, Find, Has, RfqPointsTo, NoneOf;
    var s := Ref(Rfq, id);
    var pr, po, supplier := FirstOf(rfq, RFQ_PR_REFS), FirstOf(rfq, ["linkedPo", "poId"]), BestSupplierOf(rfq);
    links := Direct(s, CreatedFrom, PurchaseRequest, pr, "Created from");
    limits := When(pr == "", MissingSourcePr);
    links := links + Direct(s, AwardedToPo, PurchaseOrder, po, "Awarded to PO");
    links := links + Direct(s, RelatedSupplier, Supplier, supplier, "Supplier relationship");
    forall relation, target
      ensures Has(links, relation, target) <==> RfqPointsTo(rfq, relation, target)
    {
      RfqHas(rfq, id, relation, target);
    }
    RfqLimitationIsExact(rfq, id);
  }

  method ResolveForPr(lower: string -> string, ctx: Context, pr: Doc, id: string)
    returns (links: seq<Link>, limits: seq<Limitation>)
    ensures links == PrLinks(lower, ctx, pr, id) && limits == PrLimits(ctx, pr, id)
    ensures forall relation, target ::
              Has(links, relation, target) <==> PrPointsTo(lower, ctx, pr, id, relation, target)
    ensures MissingRelationship in limits <==> NoneOf(links, AwardedToPo)
    ensures forall l :: l in limits ==> l == MissingRelationship
  {
    hide Scan, NoneKept, FirstOf, FirstText, Find, Has, PrPointsTo, NoneOf;
    var s := Ref(PurchaseRequest, id);
    var sku, po := FirstOf(pr, PR_SKU_REFS), PrPo(ctx, pr, id);
    links := Direct(s, RequestedItem, Sku, sku, "Requested item");
    var pushed, none := PushEach(lower, PrRfqs, s, "", ctx.rfqs);
    links := links + pushed;
    links := links + Direct(s, AwardedToPo, PurchaseOrder, po, "Created PO");
    limits := When(po == "", MissingRelationship);
    forall relation, target
      ensures Has(links, relation, target) <==> PrPointsTo(lower, ctx, pr, id, relation, target)
    {
      PrHas(lower, ctx, pr, id, relation, target);
    }
    PrLimitationIsExact(lower, ctx, pr, id);
  }

  /** The resolver for the entity type, given a record it can start from. */
  method Dispatch(lower: string -> string, ctx: Context, entity: EntityType, id: string)
    returns (links: seq<Link>, limits: seq<Limitation>)
    ensures Resolved(links, limits) == Collected(lower, ctx, entity, id)
  {
    hide PoLinks, PoLimits, SkuLinks, SkuLimits, GrnLinks, GrnLimits, InvoiceLinks, InvoiceLimits;
    hide SupplierLinks, SupplierLimits, RfqLinks, RfqLimits, PrLinks, PrLimits, Find;
    hide OrderPointsTo, SkuPointsTo, GrnPointsTo, InvoicePointsTo, SupplierPointsTo, RfqPointsTo, PrPointsTo;
    hide Has, FoundAsKnown, NoneOf, NoneTo, NotInStock;
    if id == "" {
      return [], [RecordNotFound];
    }
    match entity {
      case PurchaseOrder =>
        var po := Find(ctx.purchaseOrders, PO_KEYS, id);
        if po.None? { return [], [RecordNotFound]; }
        links, limits := ResolveForPo(lower, ctx, po.value, id);
      case Sku => links, limits := ResolveForSku(lower, ctx, id);
      case Item => links, limits := ResolveForSku(lower, ctx, id);
      case Supplier => links, limits := ResolveForSupplier(lower, ctx, id);
      case Grn => links, limits := DispatchGrn(lower, ctx, id);
      case ReceivingDocument => links, limits := DispatchGrn(lower, ctx, id);
      case Invoice => links, limits := DispatchInvoice(lower, ctx, id);
      case InvoiceMatch => links, limits := DispatchInvoice(lower, ctx, id);
      case Rfq =>
        var rfq := Find(ctx.rfqs, RFQ_KEYS, id);
        if rfq.None? { return [], [RecordNotFound]; }
        links, limits := ResolveForRfq(rfq.value, id);
      case PurchaseRequest =>
        var pr := Find(ctx.purchaseRequests, PR_KEYS, id);
        if pr.None? { return [], [RecordNotFound]; }
        links, limits := ResolveForPr(lower, ctx, pr.value, id);
      case InventoryMovement => return [], [RouteNotAvailable];
      case OtherEntity(_) => return [], [RouteNotAvailable];
    }
  }

  method DispatchGrn(lower: string -> string, ctx: Context, id: string)
    returns (links: seq<Link>, limits: seq<Limitation>)
    ensures Resolved(links, limits) == CollectedGrn(lower, ctx, id)
  {
    hide GrnLinks, GrnLimits, Find, GrnPointsTo, NoneOf, Has;
    var grn := Find(ctx.receivingDocs, GRN_KEYS, id);
    if grn.None? { return [], [RecordNotFound]; }
    links, limits := ResolveForGrn(lower, ctx, grn.value, id);
  }

  method DispatchInvoice(lower: string -> string, ctx: Context, id: string)
    returns (links: seq<Link>, limits: seq<Limitation>)
    ensures Resolved(links, limits) == CollectedInvoice(lower, ctx, id)
  {
    hide InvoiceLinks, InvoiceLimits, Find, InvoicePointsTo, NoneTo, Has;
    var invoice := Find(ctx.supplierInvoices, INVOICE_KEYS, id);
    if invoice.None? { return [], [RecordNotFound]; }
    links, limits := ResolveForInvoice(lower, ctx, invoice.value, id);
  }

  method ResolveEntityRelationships(lower: string -> string, ctx: Context, entity: EntityType, rawId: string)
    returns (links: seq<Link>, groups: map<string, seq<Link>>, limits: seq<Limitation>)
    ensures links == Links(lower, ctx, entity, rawId)
    ensures groups == Grouped(links)
    ensures limits == Limits(lower, ctx, entity, rawId)
    ensures forall relation, target ::
              Has(links, relation, target) <==> Has(Collected(lower, ctx, entity, Trim(rawId)).links, relation, target)
    ensures RecordNotFound in limits <==>
            || PageMissing(ctx, entity, Trim(rawId))
            || exists i :: 0 <= i < |links| && (!links[i].found || links[i].target.entity == InventoryMovement)
  {
    hide Collected, Has, PageMissing, Trim;
    var id := Trim(rawId);
    links, limits := Dispatch(lower, ctx, entity, id);
    links := UniqueRelationships(links);
    limits := limits + LinkLimits(links);
    groups := GroupRelationships(links);
    RecordNotFoundIff(lower, ctx, entity, rawId);
    forall relation, target
      ensures Has(links, relation, target) <==> Has(Collected(lower, ctx, entity, id).links, relation, target)
    {
      NothingLost(lower, ctx, Ref(entity, rawId), relation, target);
    }
  }
}
