/** The main results about links: what one page shows, the page at the other end shows too. */
module RelationshipsBothWays {
  import opened Wrappers
  import opened Text
  import opened Relationships
  import opened RelationshipsWalkBack

  /** The only thing assumed of `toLowerCase`: it leaves a text empty only if it was. */
  ghost predicate KeepsText(lower: string -> string) {
    forall t :: lower(t) == "" ==> t == ""
  }

  // ----- what a loop pushes

  /** The one relation and kind of target a loop's main link has. */
  function MainKind(loop: Loop): (Relation, EntityType) {
    match loop
    case PoGrns => (ReceivedBy, Grn)
    case PoInvoices => (MatchedToInvoice, Invoice)
    case PoMovements => (AffectsInventory, InventoryMovement)
    case SkuOrders => (ContainsItem, PurchaseOrder)
    case SkuRequests => (RequestedItem, PurchaseRequest)
    case SkuRfqs => (SourcedByRfq, Rfq)
    case SkuMovements => (AffectsInventory, InventoryMovement)
    case SkuInvoices => (MatchedToInvoice, Invoice)
    case GrnLines => (AffectsInventory, Sku)
    case GrnMovements => (AffectsInventory, InventoryMovement)
    case GrnInvoices => (MatchedToInvoice, Invoice)
    case InvoiceLines => (ContainsItem, Sku)
    case SupplierOrders => (RelatedSupplier, PurchaseOrder)
    case SupplierRfqs => (SourcedByRfq, Rfq)
    case SupplierGrns => (ReceivedBy, Grn)
    case SupplierInvoices => (MatchedToInvoice, Invoice)
    case PrRfqs => (SourcedByRfq, Rfq)
  }

  function IdKeys(entity: EntityType): seq<string> {
    match entity
    case PurchaseOrder => PO_KEYS
    case PurchaseRequest => PR_KEYS
    case Rfq => RFQ_KEYS
    case Grn => GRN_KEYS
    case Invoice => INVOICE_KEYS
    case InventoryMovement => MOVEMENT_KEYS
    case _ => []
  }

  function MainTarget(loop: Loop, row: Doc): Ref {
    var entity := MainKind(loop).1;
    Ref(entity, if entity == Sku then AsText(Field(row, "sku")) else FirstOf(row, IdKeys(entity)))
  }

  lemma MainLink(loop: Loop, s: Ref, row: Doc)
    ensures Has(Pushes(loop, s, row), MainKind(loop).0, MainTarget(loop, row))
  {
    hide FirstOf, AsText, OrderSku, SupplierOf;
    var links := Pushes(loop, s, row);
    assert links[0].relation == MainKind(loop).0 && links[0].target == MainTarget(loop, row);
  }

  /** Only the loops over orders push anything beside their main link, and that is a `supplied by`. */
  lemma OnlyMainLink(loop: Loop, s: Ref, row: Doc, relation: Relation, target: Ref)
    requires Has(Pushes(loop, s, row), relation, target) && relation != SuppliedBy
    ensures relation == MainKind(loop).0 && target == MainTarget(loop, row)
  {
    hide FirstOf, AsText, OrderSku, SupplierOf;
  }

  lemma RowOffers(lower: string -> string, loop: Loop, s: Ref, po: string, rows: seq<Doc>, row: Doc)
    requires row in rows && Keeps(lower, loop, s.id, po, row)
    ensures Offers(lower, loop, s, po, rows, MainKind(loop).0, MainTarget(loop, row))
  {
    hide Keeps, Has, MainKind, MainTarget;
    MainLink(loop, s, row);
    var i :| 0 <= i < |rows| && rows[i] == row;
  }

  lemma OfferedRow(lower: string -> string, loop: Loop, s: Ref, po: string, rows: seq<Doc>,
                   relation: Relation, target: Ref)
    returns (row: Doc)
    requires Offers(lower, loop, s, po, rows, relation, target) && relation != SuppliedBy
    ensures row in rows && Keeps(lower, loop, s.id, po, row)
    ensures relation == MainKind(loop).0 && target == MainTarget(loop, row)
  {
    hide Keeps, Has, MainKind, MainTarget;
    var i :| && 0 <= i < |rows| && Keeps(lower, loop, s.id, po, rows[i])
             && Has(Pushes(loop, s, rows[i]), relation, target);
    row := rows[i];
    OnlyMainLink(loop, s, row, relation, target);
  }

  lemma NotOffered(lower: string -> string, loop: Loop, s: Ref, po: string, rows: seq<Doc>,
                   relation: Relation, target: Ref)
    requires relation != SuppliedBy && (relation, target.entity) != MainKind(loop)
    ensures !Offers(lower, loop, s, po, rows, relation, target)
  {
    hide Keeps, Has, Offers, MainKind, FirstOf;
    if Offers(lower, loop, s, po, rows, relation, target) {
      var row := OfferedRow(lower, loop, s, po, rows, relation, target);
    }
  }

  // ----- what an order page lists

  /** An order lists exactly the invoices one of whose reference fields is, as stored, the order's id. */
  lemma OrderListsInvoiceIff(lower: string -> string, ctx: Context, p: string, i: string)
    requires p != "" && Trimmed(p) && Find(ctx.purchaseOrders, PO_KEYS, p).Some?
    ensures Linked(lower, ctx, Ref(PurchaseOrder, p), MatchedToInvoice, Ref(Invoice, i))
       <==> exists row ::
              row in ctx.supplierInvoices && PointsAt(row, INVOICE_PO_REFS, p) && FirstOf(row, INVOICE_KEYS) == i
  {
    hide Has, Offers, Linked, PointsAt, FirstOf, Find, Trim;
    OrderListsIff(lower, ctx, p, PoInvoices, Ref(Invoice, i));
    assert forall row :: Keeps(lower, PoInvoices, p, "", row) <==> PointsAt(row, INVOICE_PO_REFS, p);
    assert forall row :: MainTarget(PoInvoices, row) == Ref(Invoice, FirstOf(row, INVOICE_KEYS));
  }

  /** An order lists exactly the goods receipts one of whose reference fields is, as stored, its id. */
  lemma OrderListsGrnIff(lower: string -> string, ctx: Context, p: string, g: string)
    requires p != "" && Trimmed(p) && Find(ctx.purchaseOrders, PO_KEYS, p).Some?
    ensures Linked(lower, ctx, Ref(PurchaseOrder, p), ReceivedBy, Ref(Grn, g))
       <==> exists row :: row in ctx.receivingDocs && PointsAt(row, GRN_PO_REFS, p) && FirstOf(row, GRN_KEYS) == g
  {
    hide Has, Offers, Linked, PointsAt, FirstOf, Find, Trim;
    OrderListsIff(lower, ctx, p, PoGrns, Ref(Grn, g));
    assert forall row :: Keeps(lower, PoGrns, p, "", row) <==> PointsAt(row, GRN_PO_REFS, p);
    assert forall row :: MainTarget(PoGrns, row) == Ref(Grn, FirstOf(row, GRN_KEYS));
  }

  function OrderRows(ctx: Context, loop: Loop): seq<Doc> {
    if loop == PoGrns then ctx.receivingDocs else ctx.supplierInvoices
  }

  lemma OrderListsIff(lower: string -> string, ctx: Context, p: string, loop: Loop, target: Ref)
    requires p != "" && Trimmed(p) && Find(ctx.purchaseOrders, PO_KEYS, p).Some?
    requires loop == PoGrns || loop == PoInvoices
    requires target.entity == MainKind(loop).1
    ensures Linked(lower, ctx, Ref(PurchaseOrder, p), MainKind(loop).0, target)
       <==> exists row ::
              row in OrderRows(ctx, loop) && Keeps(lower, loop, p, "", row) && MainTarget(loop, row) == target
  {
    hide Has, Offers, Linked, Find, Trim, Keeps, MainTarget;
    var s, relation := Ref(PurchaseOrder, p), MainKind(loop).0;
    var po := Find(ctx.purchaseOrders, PO_KEYS, p).value;
    TrimOfTrimmed(p);
    NothingLost(lower, ctx, s, relation, target);
    PoHas(lower, ctx, po, p, relation, target);
    var other := if loop == PoGrns then PoInvoices else PoGrns;
    NotOffered(lower, other, s, "", OrderRows(ctx, other), relation, target);
    NotOffered(lower, PoMovements, s, "", ctx.inventoryMovements, relation, target);
    if Offers(lower, loop, s, "", OrderRows(ctx, loop), relation, target) {
      var row := OfferedRow(lower, loop, s, "", OrderRows(ctx, loop), relation, target);
    }
    if row :| row in OrderRows(ctx, loop) && Keeps(lower, loop, p, "", row) && MainTarget(loop, row) == target {
      RowOffers(lower, loop, s, "", OrderRows(ctx, loop), row);
    }
  }

  // ----- what the other pages show first

  lemma InvoiceShows(lower: string -> string, ctx: Context, i: string, relation: Relation, target: Ref)
    returns (invoice: Doc)
    requires Linked(lower, ctx, Ref(Invoice, i), relation, target)
    requires target.entity in {PurchaseOrder, Grn, Supplier}
    ensures invoice in ctx.supplierInvoices && FirstOf(invoice, INVOICE_KEYS) == Trim(i)
    ensures Find(ctx.supplierInvoices, INVOICE_KEYS, Trim(i)) == Some(invoice)
    ensures || Named(FirstOf(invoice, INVOICE_PO_REFS), MatchedToInvoice, PurchaseOrder, relation, target)
            || Named(FirstOf(invoice, INVOICE_GRN_REFS), MatchedToInvoice, Grn, relation, target)
            || Named(SupplierOf(invoice), RelatedSupplier, Supplier, relation, target)
  {
    hide Has, Offers, Linked, FirstOf, Find, Trim, SupplierOf, InvoiceLinks;
    var id := Trim(i);
    NothingLost(lower, ctx, Ref(Invoice, i), relation, target);
    NoLinks(relation, target);
    invoice := Find(ctx.supplierInvoices, INVOICE_KEYS, id).value;
    FindIsRow(ctx.supplierInvoices, INVOICE_KEYS, id);
    InvoiceHas(lower, ctx, invoice, id, relation, target);
    SinglePush(lower, InvoiceLines, Ref(Invoice, id), "", invoice.lines, relation, target);
  }

  lemma SinglePush(lower: string -> string, loop: Loop, s: Ref, po: string, rows: seq<Doc>,
                   relation: Relation, target: Ref)
    requires loop != SkuOrders && loop != SupplierOrders
    ensures Offers(lower, loop, s, po, rows, relation, target) ==>
              relation == MainKind(loop).0 && target.entity == MainKind(loop).1
  {
    hide Keeps, AsText, FirstOf;
  }

  lemma GrnShows(lower: string -> string, ctx: Context, g: string, relation: Relation, target: Ref)
    returns (grn: Doc)
    requires Linked(lower, ctx, Ref(Grn, g), relation, target)
    requires target.entity == PurchaseOrder || target.entity == Supplier
    ensures grn in ctx.receivingDocs && FirstOf(grn, GRN_KEYS) == Trim(g)
    ensures Find(ctx.receivingDocs, GRN_KEYS, Trim(g)) == Some(grn)
    ensures || Named(FirstOf(grn, GRN_PO_REFS), ReceivedBy, PurchaseOrder, relation, target)
            || Named(SupplierOf(grn), RelatedSupplier, Supplier, relation, target)
  {
    hide Has, Offers, Linked, FirstOf, Find, Trim, SupplierOf, GrnLinks;
    var id := Trim(g);
    NothingLost(lower, ctx, Ref(Grn, g), relation, target);
    NoLinks(relation, target);
    grn := Find(ctx.receivingDocs, GRN_KEYS, id).value;
    FindIsRow(ctx.receivingDocs, GRN_KEYS, id);
    GrnHas(lower, ctx, grn, id, relation, target);
    var po := FirstOf(grn, GRN_PO_REFS);
    SinglePush(lower, GrnLines, Ref(Grn, id), po, grn.lines, relation, target);
    SinglePush(lower, GrnMovements, Ref(Grn, id), po, ctx.inventoryMovements, relation, target);
    SinglePush(lower, GrnInvoices, Ref(Grn, id), po, ctx.supplierInvoices, relation, target);
  }

  lemma PoShows(lower: string -> string, ctx: Context, o: string, relation: Relation, target: Ref)
    returns (po: Doc)
    requires Linked(lower, ctx, Ref(PurchaseOrder, o), relation, target)
    requires target.entity in {PurchaseRequest, Rfq, Sku, Supplier}
    ensures po in ctx.purchaseOrders && FirstOf(po, PO_KEYS) == Trim(o)
    ensures || Named(PoSourcePr(po), CreatedFrom, PurchaseRequest, relation, target)
            || Named(PoSourceRfq(po), SourcedByRfq, Rfq, relation, target)
            || Named(OrderSku(po), ContainsItem, Sku, relation, target)
            || Named(SupplierOf(po), RelatedSupplier, Supplier, relation, target)
  {
    hide Has, Offers, Linked, FirstOf, Find, Trim, SupplierOf, OrderSku, PoSourcePr, PoSourceRfq, PoLinks;
    var id := Trim(o);
    NothingLost(lower, ctx, Ref(PurchaseOrder, o), relation, target);
    NoLinks(relation, target);
    po := Find(ctx.purchaseOrders, PO_KEYS, id).value;
    FindIsRow(ctx.purchaseOrders, PO_KEYS, id);
    PoHas(lower, ctx, po, id, relation, target);
    SinglePush(lower, PoGrns, Ref(PurchaseOrder, id), "", ctx.receivingDocs, relation, target);
    SinglePush(lower, PoInvoices, Ref(PurchaseOrder, id), "", ctx.supplierInvoices, relation, target);
    SinglePush(lower, PoMovements, Ref(PurchaseOrder, id), "", ctx.inventoryMovements, relation, target);
  }

  lemma RfqShows(lower: string -> string, ctx: Context, r: string, relation: Relation, target: Ref)
    returns (rfq: Doc)
    requires Linked(lower, ctx, Ref(Rfq, r), relation, target)
    requires target.entity == PurchaseRequest || target.entity == Supplier
    ensures rfq in ctx.rfqs && FirstOf(rfq, RFQ_KEYS) == Trim(r)
    ensures || Named(FirstOf(rfq, RFQ_PR_REFS), CreatedFrom, PurchaseRequest, relation, target)
            || Named(BestSupplierOf(rfq), RelatedSupplier, Supplier, relation, target)
  {
    hide Has, Offers, Linked, FirstOf, Find, Trim, BestSupplierOf, RfqLinks;
    var id := Trim(r);
    NothingLost(lower, ctx, Ref(Rfq, r), relation, target);
    NoLinks(relation, target);
    rfq := Find(ctx.rfqs, RFQ_KEYS, id).value;
    FindIsRow(ctx.rfqs, RFQ_KEYS, id);
    RfqHas(rfq, id, relation, target);
  }

  lemma PrShowsItem(lower: string -> string, ctx: Context, r: string, sku: string)
    returns (pr: Doc)
    requires Linked(lower, ctx, Ref(PurchaseRequest, r), RequestedItem, Ref(Sku, sku))
    ensures pr in ctx.purchaseRequests && FirstOf(pr, PR_KEYS) == Trim(r)
    ensures FirstOf(pr, PR_SKU_REFS) == sku != ""
  {
    hide Has, Offers, Linked, FirstOf, Find, Trim, PrPo, PrLinks;
    var id := Trim(r);
    var target := Ref(Sku, sku);
    NothingLost(lower, ctx, Ref(PurchaseRequest, r), RequestedItem, target);
    NoLinks(RequestedItem, target);
    pr := Find(ctx.purchaseRequests, PR_KEYS, id).value;
    FindIsRow(ctx.purchaseRequests, PR_KEYS, id);
    PrHas(lower, ctx, pr, id, RequestedItem, target);
    SinglePush(lower, PrRfqs, Ref(PurchaseRequest, id), "", ctx.rfqs, RequestedItem, target);
  }

  // ----- walking back to an order

  /** From an invoice to its order and back, when the reference is stored without white space around it. */
  lemma InvoiceOrderWalksBack(lower: string -> string, ctx: Context, i: string, p: string, invoice: Doc)
    requires Linked(lower, ctx, Ref(Invoice, i), MatchedToInvoice, Ref(PurchaseOrder, p))
    requires Find(ctx.purchaseOrders, PO_KEYS, p).Some?
    requires Find(ctx.supplierInvoices, INVOICE_KEYS, Trim(i)) == Some(invoice)
    requires StoredTrimmed(invoice, INVOICE_PO_REFS)
    ensures Linked(lower, ctx, Ref(PurchaseOrder, p), MatchedToInvoice, Ref(Invoice, Trim(i)))
  {
    hide Has, Offers, Linked, FirstOf, Find, Trim, StoredTrimmed, PointsAt;
    var shown := InvoiceShows(lower, ctx, i, MatchedToInvoice, Ref(PurchaseOrder, p));
    FirstOfShape(invoice, INVOICE_PO_REFS);
    TrimmedReferencePoints(invoice, INVOICE_PO_REFS);
    OrderListsInvoiceIff(lower, ctx, p, Trim(i));
  }

  /** From a goods receipt to its order and back, under the same condition. */
  lemma GrnOrderWalksBack(lower: string -> string, ctx: Context, g: string, p: string, grn: Doc)
    requires Linked(lower, ctx, Ref(Grn, g), ReceivedBy, Ref(PurchaseOrder, p))
    requires Find(ctx.purchaseOrders, PO_KEYS, p).Some?
    requires Find(ctx.receivingDocs, GRN_KEYS, Trim(g)) == Some(grn) && StoredTrimmed(grn, GRN_PO_REFS)
    ensures Linked(lower, ctx, Ref(PurchaseOrder, p), ReceivedBy, Ref(Grn, Trim(g)))
  {
    hide Has, Offers, Linked, FirstOf, Find, Trim, StoredTrimmed, PointsAt;
    var shown := GrnShows(lower, ctx, g, ReceivedBy, Ref(PurchaseOrder, p));
    FirstOfShape(grn, GRN_PO_REFS);
    TrimmedReferencePoints(grn, GRN_PO_REFS);
    OrderListsGrnIff(lower, ctx, p, Trim(g));
  }

  // ----- walking back to a supplier

  lemma SupplierShows(lower: string -> string, ctx: Context, v: string, loop: Loop, rows: seq<Doc>, row: Doc)
    requires v != "" && Trim(v) == v && row in rows && Keeps(lower, loop, v, "", row)
    requires || (loop == SupplierOrders && rows == ctx.purchaseOrders)
             || (loop == SupplierRfqs && rows == ctx.rfqs)
             || (loop == SupplierGrns && rows == ctx.receivingDocs)
             || (loop == SupplierInvoices && rows == ctx.supplierInvoices)
    ensures Linked(lower, ctx, Ref(Supplier, v), MainKind(loop).0, MainTarget(loop, row))
  {
    hide Has, Offers, Linked, Keeps, Trim, MainKind, MainTarget, SupplierLinks;
    RowOffers(lower, loop, Ref(Supplier, v), "", rows, row);
    NothingLost(lower, ctx, Ref(Supplier, v), MainKind(loop).0, MainTarget(loop, row));
    SupplierHas(lower, ctx, v, MainKind(loop).0, MainTarget(loop, row));
  }

  lemma OrderSupplierWalksBack(lower: string -> string, ctx: Context, o: string, v: string)
    requires Linked(lower, ctx, Ref(PurchaseOrder, o), RelatedSupplier, Ref(Supplier, v))
    ensures Linked(lower, ctx, Ref(Supplier, v), RelatedSupplier, Ref(PurchaseOrder, Trim(o)))
  {
    hide Linked, FirstOf, Trim, OrderSku;
    var po := PoShows(lower, ctx, o, RelatedSupplier, Ref(Supplier, v));
    FirstOfShape(po, SUPPLIER_KEYS);
    SupplierShows(lower, ctx, v, SupplierOrders, ctx.purchaseOrders, po);
  }

  lemma GrnSupplierWalksBack(lower: string -> string, ctx: Context, g: string, v: string)
    requires Linked(lower, ctx, Ref(Grn, g), RelatedSupplier, Ref(Supplier, v))
    ensures Linked(lower, ctx, Ref(Supplier, v), ReceivedBy, Ref(Grn, Trim(g)))
  {
    hide Linked, FirstOf, Trim;
    var grn := GrnShows(lower, ctx, g, RelatedSupplier, Ref(Supplier, v));
    FirstOfShape(grn, SUPPLIER_KEYS);
    SupplierShows(lower, ctx, v, SupplierGrns, ctx.receivingDocs, grn);
  }

  lemma InvoiceSupplierWalksBack(lower: string -> string, ctx: Context, i: string, v: string)
    requires Linked(lower, ctx, Ref(Invoice, i), RelatedSupplier, Ref(Supplier, v))
    ensures Linked(lower, ctx, Ref(Supplier, v), MatchedToInvoice, Ref(Invoice, Trim(i)))
  {
    hide Linked, FirstOf, Trim;
    var invoice := InvoiceShows(lower, ctx, i, RelatedSupplier, Ref(Supplier, v));
    FirstOfShape(invoice, SUPPLIER_KEYS);
    SupplierShows(lower, ctx, v, SupplierInvoices, ctx.supplierInvoices, invoice);
  }

  lemma RfqSupplierWalksBack(lower: string -> string, ctx: Context, r: string, v: string)
    requires Linked(lower, ctx, Ref(Rfq, r), RelatedSupplier, Ref(Supplier, v))
    ensures Linked(lower, ctx, Ref(Supplier, v), SourcedByRfq, Ref(Rfq, Trim(r)))
  {
    hide Linked, FirstOf, Trim;
    var rfq := RfqShows(lower, ctx, r, RelatedSupplier, Ref(Supplier, v));
    FirstOfShape(rfq, ["bestSupplier"]);
    assert Trim(Field(rfq, "bestSupplier").value) == v;
    SupplierShows(lower, ctx, v, SupplierRfqs, ctx.rfqs, rfq);
  }

  // ----- walking back to a purchase request and to an item

  lemma RfqRequestWalksBack(lower: string -> string, ctx: Context, r: string, p: string)
    requires Linked(lower, ctx, Ref(Rfq, r), CreatedFrom, Ref(PurchaseRequest, p))
    requires Find(ctx.purchaseRequests, PR_KEYS, p).Some?
    ensures Linked(lower, ctx, Ref(PurchaseRequest, p), SourcedByRfq, Ref(Rfq, Trim(r)))
  {
    hide Has, Offers, Linked, FirstOf, Find, Trim, PrLinks;
    var rfq := RfqShows(lower, ctx, r, CreatedFrom, Ref(PurchaseRequest, p));
    FirstOfShape(rfq, RFQ_PR_REFS);
    RowOffers(lower, PrRfqs, Ref(PurchaseRequest, p), "", ctx.rfqs, rfq);
    NothingLost(lower, ctx, Ref(PurchaseRequest, p), SourcedByRfq, Ref(Rfq, Trim(r)));
    PrHas(lower, ctx, Find(ctx.purchaseRequests, PR_KEYS, p).value, p, SourcedByRfq, Ref(Rfq, Trim(r)));
  }

  lemma SkuShows(lower: string -> string, ctx: Context, sku: string, loop: Loop, rows: seq<Doc>, row: Doc)
    requires sku != "" && Trim(sku) == sku && row in rows && Keeps(lower, loop, sku, "", row)
    requires || (loop == SkuOrders && rows == ctx.purchaseOrders)
             || (loop == SkuRequests && rows == ctx.purchaseRequests)
    ensures Linked(lower, ctx, Ref(Sku, sku), MainKind(loop).0, MainTarget(loop, row))
  {
    hide Has, Offers, Linked, Keeps, Trim, MainKind, MainTarget, SkuLinks;
    RowOffers(lower, loop, Ref(Sku, sku), "", rows, row);
    NothingLost(lower, ctx, Ref(Sku, sku), MainKind(loop).0, MainTarget(loop, row));
    SkuHas(lower, ctx, sku, MainKind(loop).0, MainTarget(loop, row));
  }

  /** From an order to its item and back, however the item's case or spacing is stored. */
  lemma OrderItemWalksBack(lower: string -> string, ctx: Context, o: string, sku: string)
    requires KeepsText(lower)
    requires Linked(lower, ctx, Ref(PurchaseOrder, o), ContainsItem, Ref(Sku, sku))
    ensures Linked(lower, ctx, Ref(Sku, sku), ContainsItem, Ref(PurchaseOrder, Trim(o)))
  {
    hide Linked, FirstOf, Trim, Trimmed;
    var po := PoShows(lower, ctx, o, ContainsItem, Ref(Sku, sku));
    OrderSkuShape(po);
    SkuShows(lower, ctx, sku, SkuOrders, ctx.purchaseOrders, po);
  }

  lemma OrderSkuShape(po: Doc)
    requires OrderSku(po) != ""
    ensures Trim(OrderSku(po)) == OrderSku(po)
    ensures || AsText(Field(po, "sourceSku")) == OrderSku(po)
            || (po.lines != [] && AsText(Field(po.lines[0], "sku")) == OrderSku(po))
  {
    hide Trim, Trimmed;
    var values := [Field(po, "sourceSku"), if po.lines == [] then None else Field(po.lines[0], "sku")];
    FirstTextShape(values);
    TrimOfTrimmed(OrderSku(po));
  }

  /** From a purchase request to its item and back. */
  lemma RequestItemWalksBack(lower: string -> string, ctx: Context, r: string, sku: string)
    requires KeepsText(lower)
    requires Linked(lower, ctx, Ref(PurchaseRequest, r), RequestedItem, Ref(Sku, sku))
    ensures Linked(lower, ctx, Ref(Sku, sku), RequestedItem, Ref(PurchaseRequest, Trim(r)))
  {
    hide Linked, FirstOf, Trim, Trimmed;
    var pr := PrShowsItem(lower, ctx, r, sku);
    FirstOfShape(pr, PR_SKU_REFS);
    assert AsText(Field(pr, "sourceSku")) == sku || AsText(Field(pr, "itemSku")) == sku;
    SkuShows(lower, ctx, sku, SkuRequests, ctx.purchaseRequests, pr);
  }

  // ----- where walking back fails

  /** With unique invoice ids, the way back exists exactly if a reference field holds the order's id unpadded. */
  lemma InvoiceOrderWalksBackIff(lower: string -> string, ctx: Context, i: string, p: string, invoice: Doc)
    requires Linked(lower, ctx, Ref(Invoice, i), MatchedToInvoice, Ref(PurchaseOrder, p))
    requires Find(ctx.purchaseOrders, PO_KEYS, p).Some?
    requires invoice in ctx.supplierInvoices && FirstOf(invoice, INVOICE_KEYS) == Trim(i)
    requires forall row :: row in ctx.supplierInvoices && FirstOf(row, INVOICE_KEYS) == Trim(i) ==> row == invoice
    ensures Linked(lower, ctx, Ref(PurchaseOrder, p), MatchedToInvoice, Ref(Invoice, Trim(i)))
       <==> PointsAt(invoice, INVOICE_PO_REFS, p)
  {
    hide Has, Offers, Linked, FirstOf, Find, Trim, PointsAt;
    var shown := InvoiceShows(lower, ctx, i, MatchedToInvoice, Ref(PurchaseOrder, p));
    FirstOfShape(shown, INVOICE_PO_REFS);
    OrderListsInvoiceIff(lower, ctx, p, Trim(i));
  }

  /** The same for goods receipts. */
  lemma GrnOrderWalksBackIff(lower: string -> string, ctx: Context, g: string, p: string, grn: Doc)
    requires Linked(lower, ctx, Ref(Grn, g), ReceivedBy, Ref(PurchaseOrder, p))
    requires Find(ctx.purchaseOrders, PO_KEYS, p).Some?
    requires grn in ctx.receivingDocs && FirstOf(grn, GRN_KEYS) == Trim(g)
    requires forall row :: row in ctx.receivingDocs && FirstOf(row, GRN_KEYS) == Trim(g) ==> row == grn
    ensures Linked(lower, ctx, Ref(PurchaseOrder, p), ReceivedBy, Ref(Grn, Trim(g))) <==> PointsAt(grn, GRN_PO_REFS, p)
  {
    hide Has, Offers, Linked, FirstOf, Find, Trim, PointsAt;
    var shown := GrnShows(lower, ctx, g, ReceivedBy, Ref(PurchaseOrder, p));
    FirstOfShape(shown, GRN_PO_REFS);
    OrderListsGrnIff(lower, ctx, p, Trim(g));
  }

  const PADDED_INVOICE := Doc(map["invoiceNumber" := "I", "relatedPo" := " P"], [], [])
  const PADDED_ORDER := Doc(map["po" := "P"], [], [])
  const PADDED := Context([], [], [PADDED_ORDER], [], [PADDED_INVOICE], [], [])

  lemma PaddedFields()
    ensures Trim("I") == "I" && FirstOf(PADDED_INVOICE, INVOICE_KEYS) == "I"
    ensures FirstOf(PADDED_INVOICE, INVOICE_PO_REFS) == "P" && FirstOf(PADDED_ORDER, PO_KEYS) == "P"
    ensures !PointsAt(PADDED_INVOICE, INVOICE_PO_REFS, "P")
  {
    assert TrimStart(" P") == TrimStart(" P"[1..]) && " P"[1..] == "P";
    assert AsText(Field(PADDED_INVOICE, "relatedPo")) == "P";
    FirstFieldWins(PADDED_INVOICE, INVOICE_KEYS, "I");
    FirstFieldWins(PADDED_INVOICE, INVOICE_PO_REFS, "P");
    FirstFieldWins(PADDED_ORDER, PO_KEYS, "P");
  }

  lemma FirstFieldWins(d: Doc, keys: seq<string>, v: string)
    requires |keys| > 0 && AsText(Field(d, keys[0])) == v && v != "" && v != "—"
    ensures FirstOf(d, keys) == v
  {
  }

  /** A padded reference is followed forward, because it is trimmed, but not back, because `===` is used. */
  lemma PaddedReferenceIsOneWay(lower: string -> string)
    ensures Linked(lower, PADDED, Ref(Invoice, "I"), MatchedToInvoice, Ref(PurchaseOrder, "P"))
    ensures Find(PADDED.purchaseOrders, PO_KEYS, "P").Some?
    ensures !Linked(lower, PADDED, Ref(PurchaseOrder, "P"), MatchedToInvoice, Ref(Invoice, "I"))
  {
    hide Has, Offers, Linked, FirstOf, Trim, PointsAt, InvoiceLinks;
    PaddedFields();
    var po := Ref(PurchaseOrder, "P");
    NothingLost(lower, PADDED, Ref(Invoice, "I"), MatchedToInvoice, po);
    InvoiceHas(lower, PADDED, PADDED_INVOICE, "I", MatchedToInvoice, po);
    InvoiceOrderWalksBackIff(lower, PADDED, "I", "P", PADDED_INVOICE);
  }

  // ----- receipts and invoices, which name each other by different fields

  /** The invoice names the receipt, or the receipt's order, in the one field of each that is looked at. */
  predicate RefersToReceipt(invoice: Doc, g: string, po: string) {
    Field(invoice, "relatedGrn") == Some(g) || (po != "" && Field(invoice, "relatedPo") == Some(po))
  }

  /** A goods receipt lists exactly the invoices that refer to it so. */
  lemma GrnListsInvoiceIff(lower: string -> string, ctx: Context, g: string, i: string, grn: Doc)
    requires g != "" && Trimmed(g) && Find(ctx.receivingDocs, GRN_KEYS, g) == Some(grn)
    ensures Linked(lower, ctx, Ref(Grn, g), MatchedToInvoice, Ref(Invoice, i))
       <==> exists row ::
              && row in ctx.supplierInvoices && RefersToReceipt(row, g, FirstOf(grn, GRN_PO_REFS))
              && FirstOf(row, INVOICE_KEYS) == i
  {
    hide Has, Offers, Linked, Find, Trim, FirstOf, SupplierOf, Trimmed;
    var s, po, target := Ref(Grn, g), FirstOf(grn, GRN_PO_REFS), Ref(Invoice, i);
    TrimOfTrimmed(g);
    NothingLost(lower, ctx, s, MatchedToInvoice, target);
    GrnHas(lower, ctx, grn, g, MatchedToInvoice, target);
    NotOffered(lower, GrnLines, s, po, grn.lines, MatchedToInvoice, target);
    NotOffered(lower, GrnMovements, s, po, ctx.inventoryMovements, MatchedToInvoice, target);
    assert forall row :: Keeps(lower, GrnInvoices, g, po, row) <==> RefersToReceipt(row, g, po);
    assert forall row :: MainTarget(GrnInvoices, row) == Ref(Invoice, FirstOf(row, INVOICE_KEYS));
    hide RefersToReceipt, Keeps, MainTarget;
    if Offers(lower, GrnInvoices, s, po, ctx.supplierInvoices, MatchedToInvoice, target) {
      var row := OfferedRow(lower, GrnInvoices, s, po, ctx.supplierInvoices, MatchedToInvoice, target);
    }
    if row :| row in ctx.supplierInvoices && RefersToReceipt(row, g, po) && FirstOf(row, INVOICE_KEYS) == i {
      RowOffers(lower, GrnInvoices, s, po, ctx.supplierInvoices, row);
    }
  }

  /** With unique invoice ids, the way back from an invoice's receipt exists exactly if it refers to it so. */
  lemma InvoiceGrnWalksBackIff(lower: string -> string, ctx: Context, i: string, g: string, invoice: Doc, grn: Doc)
    requires Linked(lower, ctx, Ref(Invoice, i), MatchedToInvoice, Ref(Grn, g))
    requires Find(ctx.receivingDocs, GRN_KEYS, g) == Some(grn)
    requires invoice in ctx.supplierInvoices && FirstOf(invoice, INVOICE_KEYS) == Trim(i)
    requires forall row :: row in ctx.supplierInvoices && FirstOf(row, INVOICE_KEYS) == Trim(i) ==> row == invoice
    ensures Linked(lower, ctx, Ref(Grn, g), MatchedToInvoice, Ref(Invoice, Trim(i)))
       <==> RefersToReceipt(invoice, g, FirstOf(grn, GRN_PO_REFS))
  {
    hide Has, Offers, Linked, FirstOf, Find, Trim, RefersToReceipt;
    var shown := InvoiceShows(lower, ctx, i, MatchedToInvoice, Ref(Grn, g));
    FirstOfShape(shown, INVOICE_GRN_REFS);
    GrnListsInvoiceIff(lower, ctx, g, Trim(i), grn);
  }

  const BY_GRN_FIELD := Doc(map["invoiceNumber" := "I", "grn" := "G"], [], [])
  const BARE_RECEIPT := Doc(map["grn" := "G"], [], [])
  const RECEIVED := Context([], [], [], [BARE_RECEIPT], [BY_GRN_FIELD], [], [])

  lemma ReceivedFields()
    ensures Trim("I") == "I" && FirstOf(BY_GRN_FIELD, INVOICE_KEYS) == "I"
    ensures FirstOf(BY_GRN_FIELD, INVOICE_GRN_REFS) == "G" && FirstOf(BARE_RECEIPT, GRN_KEYS) == "G"
    ensures FirstOf(BARE_RECEIPT, GRN_PO_REFS) == ""
  {
    FirstFieldWins(BY_GRN_FIELD, INVOICE_KEYS, "I");
    FirstFieldWins(BARE_RECEIPT, GRN_KEYS, "G");
    NoFieldNoText(BARE_RECEIPT, GRN_PO_REFS);
    SecondFieldWins(BY_GRN_FIELD, INVOICE_GRN_REFS, "G");
  }

  lemma {:induction false} NoText(values: seq<Option<string>>)
    requires forall n :: 0 <= n < |values| ==> values[n] == None
    ensures FirstText(values) == ""
  {
    TrimOfNothing();
    if values != [] {
      NoText(values[1..]);
    }
  }

  lemma NoFieldNoText(d: Doc, keys: seq<string>)
    requires forall n :: 0 <= n < |keys| ==> keys[n] !in d.fields
    ensures FirstOf(d, keys) == ""
  {
    NoText(seq(|keys|, n requires 0 <= n < |keys| => Field(d, keys[n])));
  }

  lemma SecondFieldWins(d: Doc, keys: seq<string>, v: string)
    requires |keys| > 1 && keys[0] !in d.fields && AsText(Field(d, keys[1])) == v && v != "" && v != "—"
    ensures FirstOf(d, keys) == v
  {
    TrimOfNothing();
    var values := seq(|keys|, n requires 0 <= n < |keys| => Field(d, keys[n]));
    assert FirstText(values) == FirstText(values[1..]);
    assert FirstText(values[1..]) == v;
  }

  /** An invoice that names its receipt as `grn` is linked to it, but the receipt is not linked to the invoice. */
  lemma GrnFieldIsOneWay(lower: string -> string)
    ensures Linked(lower, RECEIVED, Ref(Invoice, "I"), MatchedToInvoice, Ref(Grn, "G"))
    ensures Find(RECEIVED.receivingDocs, GRN_KEYS, "G").Some?
    ensures !Linked(lower, RECEIVED, Ref(Grn, "G"), MatchedToInvoice, Ref(Invoice, "I"))
  {
    hide Has, Offers, Linked, FirstOf, Trim, InvoiceLinks;
    ReceivedFields();
    NothingLost(lower, RECEIVED, Ref(Invoice, "I"), MatchedToInvoice, Ref(Grn, "G"));
    InvoiceHas(lower, RECEIVED, BY_GRN_FIELD, "I", MatchedToInvoice, Ref(Grn, "G"));
    InvoiceGrnWalksBackIff(lower, RECEIVED, "I", "G", BY_GRN_FIELD, BARE_RECEIPT);
  }

  // ----- orders and the request they were created from

  /** Order n is the first whose `sourceRequest` is, untrimmed, the request. */
  predicate FirstOrderOf(orders: seq<Doc>, r: string, n: nat) {
    && n < |orders| && Field(orders[n], "sourceRequest") == Some(r)
    && forall m :: 0 <= m < n ==> Field(orders[m], "sourceRequest") != Some(r)
  }

  /** The order a request names itself, or else the first order that names the request. */
  ghost predicate AwardedOrder(ctx: Context, pr: Doc, r: string, o: string) {
    var linked := FirstOf(pr, ["linkedPo"]);
    if linked != "" then linked == o
    else exists n: nat :: FirstOrderOf(ctx.purchaseOrders, r, n) && FirstOf(ctx.purchaseOrders[n], ["po"]) == o
  }

  lemma {:induction false} OrderForRequestIsFirst(orders: seq<Doc>, r: string) returns (n: nat)
    ensures n <= |orders| && (n < |orders| <==> exists m: nat :: FirstOrderOf(orders, r, m))
    ensures n < |orders| ==> FirstOrderOf(orders, r, n) && OrderForRequest(orders, r) == Field(orders[n], "po")
    ensures n == |orders| ==> OrderForRequest(orders, r) == None
  {
    if orders == [] || Field(orders[0], "sourceRequest") == Some(r) {
      n := 0;
      assert orders != [] ==> FirstOrderOf(orders, r, 0);
    } else {
      var k := OrderForRequestIsFirst(orders[1..], r);
      n := k + 1;
      forall m: nat | FirstOrderOf(orders, r, m)
        ensures FirstOrderOf(orders[1..], r, m - 1)
      {
        assert forall j :: 0 <= j < m - 1 ==> orders[1..][j] == orders[j + 1];
      }
      if k < |orders[1..]| {
        assert forall j :: 1 <= j < n ==> orders[j] == orders[1..][j - 1];
        assert FirstOrderOf(orders, r, n);
      }
    }
  }

  lemma FirstOfOne(d: Doc, key: string)
    ensures FirstOf(d, [key]) == FirstText([Field(d, key)])
  {
    assert seq(1, n requires 0 <= n < 1 => Field(d, [key][n])) == [Field(d, key)];
  }

  lemma FirstOfTwo(a: Option<string>, b: Option<string>)
    ensures FirstText([a, b]) == if FirstText([a]) != "" then FirstText([a]) else FirstText([b])
  {
    assert [a, b][1..] == [b] && [a][1..] == [];
  }

  lemma AwardedOrderIsShown(ctx: Context, pr: Doc, r: string, o: string)
    requires o != ""
    ensures PrPo(ctx, pr, r) == o <==> AwardedOrder(ctx, pr, r, o)
  {
    hide FirstText, FirstOf, FirstOrderOf, OrderForRequest;
    var orders := ctx.purchaseOrders;
    FirstOfOne(pr, "linkedPo");
    FirstOfTwo(Field(pr, "linkedPo"), OrderForRequest(orders, r));
    var n := OrderForRequestIsFirst(orders, r);
    if n < |orders| {
      FirstOfOne(orders[n], "po");
      forall m: nat | FirstOrderOf(orders, r, m)
        ensures m == n
      {
        OneFirst(orders, r, m, n);
      }
    } else {
      NoText([OrderForRequest(orders, r)]);
    }
  }

  lemma OneFirst(orders: seq<Doc>, r: string, m: nat, n: nat)
    requires FirstOrderOf(orders, r, m) && FirstOrderOf(orders, r, n)
    ensures m == n
  {
  }

  lemma RequestShowsOrderIff(lower: string -> string, ctx: Context, r: string, o: string, pr: Doc)
    requires r != "" && Trimmed(r) && Find(ctx.purchaseRequests, PR_KEYS, r) == Some(pr)
    ensures Linked(lower, ctx, Ref(PurchaseRequest, r), AwardedToPo, Ref(PurchaseOrder, o))
       <==> o != "" && PrPo(ctx, pr, r) == o
  {
    hide Has, Offers, Linked, Find, Trim, FirstOf, PrPo, PrLinks, Trimmed;
    var target := Ref(PurchaseOrder, o);
    TrimOfTrimmed(r);
    NothingLost(lower, ctx, Ref(PurchaseRequest, r), AwardedToPo, target);
    PrHas(lower, ctx, pr, r, AwardedToPo, target);
    NotOffered(lower, PrRfqs, Ref(PurchaseRequest, r), "", ctx.rfqs, AwardedToPo, target);
  }

  /** From an order to its request, the way back exists exactly if the request's one awarded order is this one. */
  lemma OrderRequestWalksBackIff(lower: string -> string, ctx: Context, o: string, r: string, pr: Doc)
    requires Linked(lower, ctx, Ref(PurchaseOrder, o), CreatedFrom, Ref(PurchaseRequest, r))
    requires Find(ctx.purchaseRequests, PR_KEYS, r) == Some(pr)
    ensures Linked(lower, ctx, Ref(PurchaseRequest, r), AwardedToPo, Ref(PurchaseOrder, Trim(o)))
       <==> AwardedOrder(ctx, pr, r, Trim(o))
  {
    hide Has, Offers, Linked, FirstOf, Find, Trim, OrderSku, SupplierOf, PrPo, AwardedOrder;
    var po := PoShows(lower, ctx, o, CreatedFrom, Ref(PurchaseRequest, r));
    FirstOfShape(po, ["sourceRequest", "linkedPr"]);
    LinkedNeedsId(lower, ctx, o, CreatedFrom, Ref(PurchaseRequest, r));
    RequestShowsOrderIff(lower, ctx, r, Trim(o), pr);
    AwardedOrderIsShown(ctx, pr, r, Trim(o));
  }

  lemma LinkedNeedsId(lower: string -> string, ctx: Context, o: string, relation: Relation, target: Ref)
    requires Linked(lower, ctx, Ref(PurchaseOrder, o), relation, target)
    ensures Trim(o) != ""
  {
    hide Has, Linked, Trim, PoLinks, PoLimits, Find;
    NothingLost(lower, ctx, Ref(PurchaseOrder, o), relation, target);
    NoLinks(relation, target);
  }

  /** A request shows one order at most, so a second order created from it is linked one way only. */
  lemma RequestShowsOneOrder(lower: string -> string, ctx: Context, r: string, a: string, b: string, pr: Doc)
    requires r != "" && Trimmed(r) && Find(ctx.purchaseRequests, PR_KEYS, r) == Some(pr)
    requires Linked(lower, ctx, Ref(PurchaseRequest, r), AwardedToPo, Ref(PurchaseOrder, a))
    requires Linked(lower, ctx, Ref(PurchaseRequest, r), AwardedToPo, Ref(PurchaseOrder, b))
    ensures a == b
  {
    hide Linked, Find, PrPo, Trimmed;
    RequestShowsOrderIff(lower, ctx, r, a, pr);
    RequestShowsOrderIff(lower, ctx, r, b, pr);
  }

  // ----- grouping

  /** Grouping by caption puts every link, as often as it occurs, into the group of its key and no other. */
  lemma GroupsConserveLinks(links: seq<Link>, key: string, l: Link)
    requires key in KeysOf(links)
    ensures multiset(Grouped(links)[key])[l] == if GroupKey(l) == key then multiset(links)[l] else 0
  {
    WithKeyCounts(links, key, l);
  }

  lemma {:induction false} WithKeyCounts(links: seq<Link>, key: string, l: Link)
    ensures multiset(WithKey(links, key))[l] == if GroupKey(l) == key then multiset(links)[l] else 0
  {
    if links != [] {
      var n := |links| - 1;
      WithKeyCounts(links[..n], key, l);
      assert links == links[..n] + [links[n]];
    }
  }

  /** A group keeps the order of the links: grouping a concatenation concatenates the groups. */
  lemma {:induction false} GroupsKeepOrder(a: seq<Link>, b: seq<Link>, key: string)
    ensures WithKey(a + b, key) == WithKey(a, key) + WithKey(b, key)
  {
    hide GroupKey;
    if b == [] {
      assert a + b == a;
    } else {
      var n, both := |b| - 1, a + b;
      GroupsKeepOrder(a, b[..n], key);
      assert both[..|both| - 1] == a + b[..n] && both[|both| - 1] == b[n];
    }
  }
}
