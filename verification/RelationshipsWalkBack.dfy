/**
 Links found from one end are found again from the other, and dropping duplicates or grouping loses
 none of them.
 */
module RelationshipsWalkBack {
  import opened Wrappers
  import opened Text
  import opened Relationships

  predicate Has(links: seq<Link>, relation: Relation, target: Ref) {
    exists i :: 0 <= i < |links| && links[i].relation == relation && links[i].target == target
  }

  lemma HasConcat(a: seq<Link>, b: seq<Link>, relation: Relation, target: Ref)
    ensures Has(a + b, relation, target) <==> Has(a, relation, target) || Has(b, relation, target)
  {
    if Has(a, relation, target) {
      var i :| 0 <= i < |a| && a[i].relation == relation && a[i].target == target;
      assert (a + b)[i] == a[i];
    }
    if Has(b, relation, target) {
      var i :| 0 <= i < |b| && b[i].relation == relation && b[i].target == target;
      assert (a + b)[|a| + i] == b[i];
    }
  }

  // ----- ids tell links of one source apart

  predicate ColonFree(s: string) {
    ':' !in s
  }

  lemma RelationNames(r: Relation)
    ensures ColonFree(r.Name())
  {
  }

  lemma EntityNames(e: EntityType)
    requires !e.OtherEntity?
    ensures ColonFree(e.Name())
  {
  }

  lemma RelationNamesDiffer(a: Relation, b: Relation)
    requires a.Name() == b.Name()
    ensures a == b
  {
  }

  lemma EntityNamesDiffer(a: EntityType, b: EntityType)
    requires !a.OtherEntity? && !b.OtherEntity? && a.Name() == b.Name()
    ensures a == b
  {
  }

  lemma ColonSplits(p: string, c: string, r: string, c': string, r': string)
    requires ColonFree(c) && ColonFree(c') && p + c + ":" + r == p + c' + ":" + r'
    ensures c == c' && r == r'
  {
    var t, t' := p + c + ":" + r, p + c' + ":" + r';
    assert t[|p| + |c|] == ':' && t'[|p| + |c'|] == ':';
    assert |c| == |c'|;
    assert t[|p|..|p| + |c|] == c && t'[|p|..|p| + |c'|] == c';
    assert t[|p| + |c| + 1..] == r && t'[|p| + |c'| + 1..] == r';
  }

  /** Two links of one source with the same id have the same relation and the same target. */
  lemma IdsTellApart(a: Link, b: Link)
    requires a.source == b.source && LinkId(a) == LinkId(b)
    requires !a.target.entity.OtherEntity? && !b.target.entity.OtherEntity?
    ensures a.relation == b.relation && a.target == b.target
  {
    hide Relation.Name, EntityType.Name, ColonFree;
    var p := a.source.entity.Name() + ":" + a.source.id + ":";
    RelationNames(a.relation);
    RelationNames(b.relation);
    EntityNames(a.target.entity);
    EntityNames(b.target.entity);
    var r, r' := a.target.entity.Name() + ":" + a.target.id, b.target.entity.Name() + ":" + b.target.id;
    assert LinkId(a) == p + a.relation.Name() + ":" + r;
    assert LinkId(b) == p + b.relation.Name() + ":" + r';
    ColonSplits(p, a.relation.Name(), r, b.relation.Name(), r');
    assert "" + r == r && "" + r' == r';
    assert "" + a.target.entity.Name() == a.target.entity.Name();
    assert "" + b.target.entity.Name() == b.target.entity.Name();
    ColonSplits("", a.target.entity.Name(), a.target.id, b.target.entity.Name(), b.target.id);
    RelationNamesDiffer(a.relation, b.relation);
    EntityNamesDiffer(a.target.entity, b.target.entity);
  }

  // ----- dropping duplicates

  predicate OfSource(links: seq<Link>, s: Ref) {
    forall i :: 0 <= i < |links| ==> links[i].source == s && !links[i].target.entity.OtherEntity?
  }

  predicate DistinctIds(links: seq<Link>) {
    forall i, j :: 0 <= i < j < |links| ==> LinkId(links[i]) != LinkId(links[j])
  }

  lemma {:induction false} DedupMembers(links: seq<Link>)
    ensures forall i :: 0 <= i < |Dedup(links)| ==> Dedup(links)[i] in links
    ensures forall id :: IdSeen(Dedup(links), id) <==> IdSeen(links, id)
    ensures DistinctIds(Dedup(links))
  {
    hide LinkId;
    if links != [] {
      var last, before := links[|links| - 1], links[..|links| - 1];
      DedupMembers(before);
      forall id
        ensures IdSeen(links, id) <==> IdSeen(before, id) || LinkId(last) == id
        ensures IdSeen(Dedup(before) + [last], id) <==> IdSeen(Dedup(before), id) || LinkId(last) == id
      {
        assert links == before + [last];
        IdSeenStep(before, last, id);
        IdSeenStep(Dedup(before), last, id);
      }
      if !IdSeen(before, LinkId(last)) {
        assert !IdSeen(Dedup(before), LinkId(last));
      }
    }
  }

  /** What a resolver collected for one source survives dropping duplicates, whatever its ids look like. */
  lemma DedupKeeps(links: seq<Link>, s: Ref, relation: Relation, target: Ref)
    requires OfSource(links, s)
    ensures Has(Dedup(links), relation, target) <==> Has(links, relation, target)
  {
    hide LinkId;
    DedupMembers(links);
    var kept := Dedup(links);
    if Has(links, relation, target) {
      var i :| 0 <= i < |links| && links[i].relation == relation && links[i].target == target;
      assert IdSeen(kept, LinkId(links[i]));
      var j :| 0 <= j < |kept| && LinkId(kept[j]) == LinkId(links[i]);
      assert kept[j] in links;
      IdsTellApart(kept[j], links[i]);
    }
    if Has(kept, relation, target) {
      var j :| 0 <= j < |kept| && kept[j].relation == relation && kept[j].target == target;
      assert kept[j] in links;
    }
  }

  // ----- what one loop contributes

  /** Some row the loop keeps makes it push such a link. */
  ghost predicate Offers(lower: string -> string, loop: Loop, s: Ref, po: string, rows: seq<Doc>,
                         relation: Relation, target: Ref)
  {
    exists i ::
      && 0 <= i < |rows| && Keeps(lower, loop, s.id, po, rows[i])
      && Has(Pushes(loop, s, rows[i]), relation, target)
  }

  lemma {:induction false} ScanHas(lower: string -> string, loop: Loop, s: Ref, po: string, rows: seq<Doc>,
                                   relation: Relation, target: Ref)
    ensures Has(Scan(lower, loop, s, po, rows), relation, target)
       <==> Offers(lower, loop, s, po, rows, relation, target)
  {
    hide Keeps, Has, Pushes;
    if rows == [] {
      NoLinks(relation, target);
    } else {
      var n := |rows| - 1;
      ScanHas(lower, loop, s, po, rows[..n], relation, target);
      HasConcat(Scan(lower, loop, s, po, rows[..n]), Pushes(loop, s, rows[n]), relation, target);
      assert forall i :: 0 <= i < n ==> rows[..n][i] == rows[i];
    }
  }

  lemma {:induction false} ScanOfSource(lower: string -> string, loop: Loop, s: Ref, po: string, rows: seq<Doc>)
    ensures OfSource(Scan(lower, loop, s, po, rows), s)
  {
    hide Keeps, Pushes;
    if rows != [] {
      ScanOfSource(lower, loop, s, po, rows[..|rows| - 1]);
      PushesOfSource(loop, s, rows[|rows| - 1]);
    }
  }

  lemma NoLinks(relation: Relation, target: Ref)
    ensures !Has([], relation, target)
  {
  }

  lemma PushesOfSource(loop: Loop, s: Ref, row: Doc)
    ensures OfSource(Pushes(loop, s, row), s)
  {
    hide FirstOf, OrderSku, SupplierOf, AsText;
  }

  predicate Named(id: string, r: Relation, e: EntityType, relation: Relation, target: Ref) {
    id != "" && relation == r && target == Ref(e, id)
  }

  lemma HasOne(l: Link, relation: Relation, target: Ref)
    ensures Has([l], relation, target) <==> l.relation == relation && l.target == target
  {
    assert [l][0] == l;
  }

  lemma HasDirect(s: Ref, r: Relation, e: EntityType, id: string, caption: string, found: bool,
                  relation: Relation, target: Ref)
    ensures Has(Direct(s, r, e, id, caption, found), relation, target) <==> Named(id, r, e, relation, target)
  {
    HasOne(Link(s, r, Ref(e, id), caption, found), relation, target);
  }

  lemma Has4(a: seq<Link>, b: seq<Link>, c: seq<Link>, d: seq<Link>, relation: Relation, target: Ref)
    ensures Has(a + b + c + d, relation, target) <==>
      Has(a, relation, target) || Has(b, relation, target) || Has(c, relation, target) || Has(d, relation, target)
  {
    hide Has;
    HasConcat(a, b, relation, target);
    HasConcat(a + b, c, relation, target);
    HasConcat(a + b + c, d, relation, target);
  }

  // ----- everything one resolver collects

  /** What the page of an order links to, and how. */
  ghost predicate OrderPointsTo(lower: string -> string, ctx: Context, po: Doc, id: string,
                                relation: Relation, target: Ref)
  {
    var s := Ref(PurchaseOrder, id);
    || Named(PoSourcePr(po), CreatedFrom, PurchaseRequest, relation, target)
    || Named(PoSourceRfq(po), SourcedByRfq, Rfq, relation, target)
    || Named(OrderSku(po), ContainsItem, Sku, relation, target)
    || Named(SupplierOf(po), RelatedSupplier, Supplier, relation, target)
    || Offers(lower, PoGrns, s, "", ctx.receivingDocs, relation, target)
    || Offers(lower, PoInvoices, s, "", ctx.supplierInvoices, relation, target)
    || Offers(lower, PoMovements, s, "", ctx.inventoryMovements, relation, target)
  }

  lemma PoHas(lower: string -> string, ctx: Context, po: Doc, id: string, relation: Relation, target: Ref)
    ensures OfSource(PoLinks(lower, ctx, po, id), Ref(PurchaseOrder, id))
    ensures Has(PoLinks(lower, ctx, po, id), relation, target) <==> OrderPointsTo(lower, ctx, po, id, relation, target)
  {
    hide Has, Offers, Scan, Named, PoSourcePr, PoSourceRfq, OrderSku, SupplierOf, Find;
    var s := Ref(PurchaseOrder, id);
    var pr, rfq, sku, supplier := PoSourcePr(po), PoSourceRfq(po), OrderSku(po), SupplierOf(po);
    var prFound, rfqFound := Find(ctx.purchaseRequests, PR_KEYS, pr).Some?, Find(ctx.rfqs, RFQ_KEYS, rfq).Some?;
    HasDirect(s, CreatedFrom, PurchaseRequest, pr, "Created from", prFound, relation, target);
    HasDirect(s, SourcedByRfq, Rfq, rfq, "Created from", rfqFound, relation, target);
    HasDirect(s, ContainsItem, Sku, sku, "Affects inventory", true, relation, target);
    HasDirect(s, RelatedSupplier, Supplier, supplier, "Supplier relationship", true, relation, target);
    ScanHas(lower, PoGrns, s, "", ctx.receivingDocs, relation, target);
    ScanHas(lower, PoInvoices, s, "", ctx.supplierInvoices, relation, target);
    ScanHas(lower, PoMovements, s, "", ctx.inventoryMovements, relation, target);
    var a := Direct(s, CreatedFrom, PurchaseRequest, pr, "Created from", prFound);
    var b := Direct(s, SourcedByRfq, Rfq, rfq, "Created from", rfqFound);
    var c := Direct(s, ContainsItem, Sku, sku, "Affects inventory");
    var d := Direct(s, RelatedSupplier, Supplier, supplier, "Supplier relationship");
    Has4(a, b, c, d, relation, target);
    Has4(a + b + c + d, Scan(lower, PoGrns, s, "", ctx.receivingDocs),
         Scan(lower, PoInvoices, s, "", ctx.supplierInvoices),
         Scan(lower, PoMovements, s, "", ctx.inventoryMovements), relation, target);
    ScanOfSource(lower, PoGrns, s, "", ctx.receivingDocs);
    ScanOfSource(lower, PoInvoices, s, "", ctx.supplierInvoices);
    ScanOfSource(lower, PoMovements, s, "", ctx.inventoryMovements);
  }

  /** What the page of an item links to, and how. */
  ghost predicate SkuPointsTo(lower: string -> string, ctx: Context, sku: string, relation: Relation, target: Ref) {
    var s := Ref(Sku, sku);
    || Named(ItemSupplier(FindItem(lower, ctx.inventoryItems, sku)), SuppliedBy, Supplier, relation, target)
    || Offers(lower, SkuOrders, s, "", ctx.purchaseOrders, relation, target)
    || Offers(lower, SkuRequests, s, "", ctx.purchaseRequests, relation, target)
    || Offers(lower, SkuRfqs, s, "", ctx.rfqs, relation, target)
    || Offers(lower, SkuMovements, s, "", ctx.inventoryMovements, relation, target)
    || Offers(lower, SkuInvoices, s, "", ctx.supplierInvoices, relation, target)
  }

  lemma SkuHas(lower: string -> string, ctx: Context, sku: string, relation: Relation, target: Ref)
    ensures OfSource(SkuLinks(lower, ctx, sku), Ref(Sku, sku))
    ensures Has(SkuLinks(lower, ctx, sku), relation, target) <==> SkuPointsTo(lower, ctx, sku, relation, target)
  {
    hide Has, Offers, Scan, Named, SupplierOf, FindItem;
    var s := Ref(Sku, sku);
    var supplier := ItemSupplier(FindItem(lower, ctx.inventoryItems, sku));
    HasDirect(s, SuppliedBy, Supplier, supplier, "Supplied by", true, relation, target);
    ScanHas(lower, SkuOrders, s, "", ctx.purchaseOrders, relation, target);
    ScanHas(lower, SkuRequests, s, "", ctx.purchaseRequests, relation, target);
    ScanHas(lower, SkuRfqs, s, "", ctx.rfqs, relation, target);
    ScanHas(lower, SkuMovements, s, "", ctx.inventoryMovements, relation, target);
    ScanHas(lower, SkuInvoices, s, "", ctx.supplierInvoices, relation, target);
    var a := Direct(s, SuppliedBy, Supplier, supplier, "Supplied by");
    var b := Scan(lower, SkuOrders, s, "", ctx.purchaseOrders);
    var c := Scan(lower, SkuRequests, s, "", ctx.purchaseRequests);
    var d, e := Scan(lower, SkuRfqs, s, "", ctx.rfqs), Scan(lower, SkuMovements, s, "", ctx.inventoryMovements);
    Has4(a, b, c, d, relation, target);
    HasConcat(a + b + c + d, e, relation, target);
    HasConcat(a + b + c + d + e, Scan(lower, SkuInvoices, s, "", ctx.supplierInvoices), relation, target);
    ScanOfSource(lower, SkuOrders, s, "", ctx.purchaseOrders);
    ScanOfSource(lower, SkuRequests, s, "", ctx.purchaseRequests);
    ScanOfSource(lower, SkuRfqs, s, "", ctx.rfqs);
    ScanOfSource(lower, SkuMovements, s, "", ctx.inventoryMovements);
    ScanOfSource(lower, SkuInvoices, s, "", ctx.supplierInvoices);
  }

  /** What the page of a goods receipt links to, and how. */
  ghost predicate GrnPointsTo(lower: string -> string, ctx: Context, grn: Doc, id: string,
                              relation: Relation, target: Ref)
  {
    var s, po := Ref(Grn, id), FirstOf(grn, GRN_PO_REFS);
    || Named(po, ReceivedBy, PurchaseOrder, relation, target)
    || Named(SupplierOf(grn), RelatedSupplier, Supplier, relation, target)
    || Offers(lower, GrnLines, s, po, grn.lines, relation, target)
    || Offers(lower, GrnMovements, s, po, ctx.inventoryMovements, relation, target)
    || Offers(lower, GrnInvoices, s, po, ctx.supplierInvoices, relation, target)
  }

  lemma GrnHas(lower: string -> string, ctx: Context, grn: Doc, id: string, relation: Relation, target: Ref)
    ensures OfSource(GrnLinks(lower, ctx, grn, id), Ref(Grn, id))
    ensures Has(GrnLinks(lower, ctx, grn, id), relation, target) <==> GrnPointsTo(lower, ctx, grn, id, relation, target)
  {
    hide Has, Offers, Scan, Named, SupplierOf, FirstOf;
    var s, po := Ref(Grn, id), FirstOf(grn, GRN_PO_REFS);
    HasDirect(s, ReceivedBy, PurchaseOrder, po, "Receives PO", true, relation, target);
    HasDirect(s, RelatedSupplier, Supplier, SupplierOf(grn), "Supplier relationship", true, relation, target);
    ScanHas(lower, GrnLines, s, po, grn.lines, relation, target);
    ScanHas(lower, GrnMovements, s, po, ctx.inventoryMovements, relation, target);
    ScanHas(lower, GrnInvoices, s, po, ctx.supplierInvoices, relation, target);
    var a := Direct(s, ReceivedBy, PurchaseOrder, po, "Receives PO");
    var b := Direct(s, RelatedSupplier, Supplier, SupplierOf(grn), "Supplier relationship");
    var c, d := Scan(lower, GrnLines, s, po, grn.lines), Scan(lower, GrnMovements, s, po, ctx.inventoryMovements);
    Has4(a, b, c, d, relation, target);
    HasConcat(a + b + c + d, Scan(lower, GrnInvoices, s, po, ctx.supplierInvoices), relation, target);
    ScanOfSource(lower, GrnLines, s, po, grn.lines);
    ScanOfSource(lower, GrnMovements, s, po, ctx.inventoryMovements);
    ScanOfSource(lower, GrnInvoices, s, po, ctx.supplierInvoices);
  }

  /** What the page of an invoice links to, and how. */
  ghost predicate InvoicePointsTo(lower: string -> string, ctx: Context, invoice: Doc, id: string,
                                  relation: Relation, target: Ref)
  {
    var s := Ref(Invoice, id);
    || Named(FirstOf(invoice, INVOICE_PO_REFS), MatchedToInvoice, PurchaseOrder, relation, target)
    || Named(FirstOf(invoice, INVOICE_GRN_REFS), MatchedToInvoice, Grn, relation, target)
    || Named(SupplierOf(invoice), RelatedSupplier, Supplier, relation, target)
    || Offers(lower, InvoiceLines, s, "", invoice.lines, relation, target)
    || (relation == MatchedToInvoice && target == Ref(InvoiceMatch, id))
  }

  lemma InvoiceHas(lower: string -> string, ctx: Context, invoice: Doc, id: string, relation: Relation, target: Ref)
    ensures OfSource(InvoiceLinks(lower, ctx, invoice, id), Ref(Invoice, id))
    ensures Has(InvoiceLinks(lower, ctx, invoice, id), relation, target)
       <==> InvoicePointsTo(lower, ctx, invoice, id, relation, target)
  {
    hide Has, Offers, Scan, Named, SupplierOf, FirstOf;
    var s := Ref(Invoice, id);
    var po, grn := FirstOf(invoice, INVOICE_PO_REFS), FirstOf(invoice, INVOICE_GRN_REFS);
    HasDirect(s, MatchedToInvoice, PurchaseOrder, po, "Source document", true, relation, target);
    HasDirect(s, MatchedToInvoice, Grn, grn, "Source document", true, relation, target);
    HasDirect(s, RelatedSupplier, Supplier, SupplierOf(invoice), "Supplier relationship", true, relation, target);
    ScanHas(lower, InvoiceLines, s, "", invoice.lines, relation, target);
    var own := LinkTo(s, MatchedToInvoice, InvoiceMatch, id, "Matches invoice");
    HasOne(own, relation, target);
    var a := Direct(s, MatchedToInvoice, PurchaseOrder, po, "Source document");
    var b := Direct(s, MatchedToInvoice, Grn, grn, "Source document");
    var c := Direct(s, RelatedSupplier, Supplier, SupplierOf(invoice), "Supplier relationship");
    var d := Scan(lower, InvoiceLines, s, "", invoice.lines);
    Has4(a, b, c, d, relation, target);
    HasConcat(a + b + c + d, [own], relation, target);
    ScanOfSource(lower, InvoiceLines, s, "", invoice.lines);
  }

  /** What the page of a supplier links to, and how. */
  ghost predicate SupplierPointsTo(lower: string -> string, ctx: Context, supplier: string,
                                   relation: Relation, target: Ref)
  {
    var s := Ref(Supplier, supplier);
    || Offers(lower, SupplierOrders, s, "", ctx.purchaseOrders, relation, target)
    || Offers(lower, SupplierRfqs, s, "", ctx.rfqs, relation, target)
    || Offers(lower, SupplierGrns, s, "", ctx.receivingDocs, relation, target)
    || Offers(lower, SupplierInvoices, s, "", ctx.supplierInvoices, relation, target)
  }

  lemma SupplierHas(lower: string -> string, ctx: Context, supplier: string, relation: Relation, target: Ref)
    ensures OfSource(SupplierLinks(lower, ctx, supplier), Ref(Supplier, supplier))
    ensures Has(SupplierLinks(lower, ctx, supplier), relation, target)
       <==> SupplierPointsTo(lower, ctx, supplier, relation, target)
  {
    hide Has, Offers, Scan;
    var s := Ref(Supplier, supplier);
    ScanHas(lower, SupplierOrders, s, "", ctx.purchaseOrders, relation, target);
    ScanHas(lower, SupplierRfqs, s, "", ctx.rfqs, relation, target);
    ScanHas(lower, SupplierGrns, s, "", ctx.receivingDocs, relation, target);
    ScanHas(lower, SupplierInvoices, s, "", ctx.supplierInvoices, relation, target);
    Has4(Scan(lower, SupplierOrders, s, "", ctx.purchaseOrders), Scan(lower, SupplierRfqs, s, "", ctx.rfqs),
         Scan(lower, SupplierGrns, s, "", ctx.receivingDocs),
         Scan(lower, SupplierInvoices, s, "", ctx.supplierInvoices),
         relation, target);
    ScanOfSource(lower, SupplierOrders, s, "", ctx.purchaseOrders);
    ScanOfSource(lower, SupplierRfqs, s, "", ctx.rfqs);
    ScanOfSource(lower, SupplierGrns, s, "", ctx.receivingDocs);
    ScanOfSource(lower, SupplierInvoices, s, "", ctx.supplierInvoices);
  }

  /** What the page of an RFQ links to, and how. */
  ghost predicate RfqPointsTo(rfq: Doc, relation: Relation, target: Ref) {
    || Named(FirstOf(rfq, RFQ_PR_REFS), CreatedFrom, PurchaseRequest, relation, target)
    || Named(FirstOf(rfq, ["linkedPo", "poId"]), AwardedToPo, PurchaseOrder, relation, target)
    || Named(BestSupplierOf(rfq), RelatedSupplier, Supplier, relation, target)
  }

  lemma RfqHas(rfq: Doc, id: string, relation: Relation, target: Ref)
    ensures OfSource(RfqLinks(rfq, id), Ref(Rfq, id))
    ensures Has(RfqLinks(rfq, id), relation, target) <==> RfqPointsTo(rfq, relation, target)
  {
    hide Has, Named, FirstOf, BestSupplierOf;
    var s := Ref(Rfq, id);
    var pr, po, supplier := FirstOf(rfq, RFQ_PR_REFS), FirstOf(rfq, ["linkedPo", "poId"]), BestSupplierOf(rfq);
    HasDirect(s, CreatedFrom, PurchaseRequest, pr, "Created from", true, relation, target);
    HasDirect(s, AwardedToPo, PurchaseOrder, po, "Awarded to PO", true, relation, target);
    HasDirect(s, RelatedSupplier, Supplier, supplier, "Supplier relationship", true, relation, target);
    var a := Direct(s, CreatedFrom, PurchaseRequest, pr, "Created from");
    var b := Direct(s, AwardedToPo, PurchaseOrder, po, "Awarded to PO");
    HasConcat(a, b, relation, target);
    HasConcat(a + b, Direct(s, RelatedSupplier, Supplier, supplier, "Supplier relationship"), relation, target);
  }

  /** What the page of a purchase request links to, and how. */
  ghost predicate PrPointsTo(lower: string -> string, ctx: Context, pr: Doc, id: string,
                             relation: Relation, target: Ref)
  {
    var s := Ref(PurchaseRequest, id);
    || Named(FirstOf(pr, PR_SKU_REFS), RequestedItem, Sku, relation, target)
    || Offers(lower, PrRfqs, s, "", ctx.rfqs, relation, target)
    || Named(PrPo(ctx, pr, id), AwardedToPo, PurchaseOrder, relation, target)
  }

  lemma PrHas(lower: string -> string, ctx: Context, pr: Doc, id: string, relation: Relation, target: Ref)
    ensures OfSource(PrLinks(lower, ctx, pr, id), Ref(PurchaseRequest, id))
    ensures Has(PrLinks(lower, ctx, pr, id), relation, target) <==> PrPointsTo(lower, ctx, pr, id, relation, target)
  {
    hide Has, Offers, Scan, Named, FirstOf, PrPo;
    var s := Ref(PurchaseRequest, id);
    var sku, po := FirstOf(pr, PR_SKU_REFS), PrPo(ctx, pr, id);
    HasDirect(s, RequestedItem, Sku, sku, "Requested item", true, relation, target);
    HasDirect(s, AwardedToPo, PurchaseOrder, po, "Created PO", true, relation, target);
    ScanHas(lower, PrRfqs, s, "", ctx.rfqs, relation, target);
    var a, b := Direct(s, RequestedItem, Sku, sku, "Requested item"), Scan(lower, PrRfqs, s, "", ctx.rfqs);
    HasConcat(a, b, relation, target);
    HasConcat(a + b, Direct(s, AwardedToPo, PurchaseOrder, po, "Created PO"), relation, target);
    ScanOfSource(lower, PrRfqs, s, "", ctx.rfqs);
  }

  // ----- the links an entity shows

  /** The page of `from` shows a link of this kind to `to`. */
  predicate Linked(lower: string -> string, ctx: Context, from: Ref, relation: Relation, to: Ref) {
    Has(Links(lower, ctx, from.entity, from.id), relation, to)
  }

  /** Dropping duplicates never takes a link away from any page. */
  lemma NothingLost(lower: string -> string, ctx: Context, from: Ref, relation: Relation, to: Ref)
    ensures Linked(lower, ctx, from, relation, to)
       <==> Has(Collected(lower, ctx, from.entity, Trim(from.id)).links, relation, to)
  {
    hide Has, Dedup, OfSource, Offers, Named, Find;
    hide PoLinks, SkuLinks, SupplierLinks, GrnLinks, InvoiceLinks, RfqLinks, PrLinks;
    var id := Trim(from.id);
    var links := Collected(lower, ctx, from.entity, id).links;
    if links == [] {
      DedupOfNone();
    } else {
      var s := SourceOf(lower, ctx, from.entity, id);
      DedupKeeps(links, s, relation, to);
    }
  }

  lemma DedupOfNone()
    ensures Dedup([]) == []
  {
  }

  lemma SourceOf(lower: string -> string, ctx: Context, entity: EntityType, id: string) returns (s: Ref)
    requires Collected(lower, ctx, entity, id).links != []
    ensures OfSource(Collected(lower, ctx, entity, id).links, s)
  {
    hide Has, OfSource, Offers, Named, Find;
    hide PoLinks, SkuLinks, SupplierLinks, GrnLinks, InvoiceLinks, RfqLinks, PrLinks;
    var grn, invoice := Find(ctx.receivingDocs, GRN_KEYS, id), Find(ctx.supplierInvoices, INVOICE_KEYS, id);
    var r, t := CreatedFrom, Ref(Sku, "");
    match entity {
      case PurchaseOrder =>
        PoHas(lower, ctx, Find(ctx.purchaseOrders, PO_KEYS, id).value, id, r, t);
        s := Ref(PurchaseOrder, id);
      case Sku => SkuHas(lower, ctx, id, r, t); s := Ref(Sku, id);
      case Item => SkuHas(lower, ctx, id, r, t); s := Ref(Sku, id);
      case Supplier => SupplierHas(lower, ctx, id, r, t); s := Ref(Supplier, id);
      case Grn => GrnHas(lower, ctx, grn.value, id, r, t); s := Ref(Grn, id);
      case ReceivingDocument => GrnHas(lower, ctx, grn.value, id, r, t); s := Ref(Grn, id);
      case Invoice => InvoiceHas(lower, ctx, invoice.value, id, r, t); s := Ref(Invoice, id);
      case InvoiceMatch => InvoiceHas(lower, ctx, invoice.value, id, r, t); s := Ref(Invoice, id);
      case Rfq => RfqHas(Find(ctx.rfqs, RFQ_KEYS, id).value, id, r, t); s := Ref(Rfq, id);
      case PurchaseRequest =>
        PrHas(lower, ctx, Find(ctx.purchaseRequests, PR_KEYS, id).value, id, r, t);
        s := Ref(PurchaseRequest, id);
    }
  }

  // ----- reading fields

  lemma {:induction false} FirstTextShape(values: seq<Option<string>>)
    ensures Trimmed(FirstText(values))
    ensures FirstText(values) != "" ==>
              exists i :: 0 <= i < |values| && values[i].Some? && Trim(values[i].value) == FirstText(values)
  {
    hide Trim, Trimmed;
    if values == [] {
      TrimShape("");
      TrimOfNothing();
    } else {
      TrimShape(values[0].GetOr(""));
      TrimOfNothing();
      FirstTextShape(values[1..]);
      if FirstText(values) == AsText(values[0]) && FirstText(values) != "" {
        assert values[0].Some? && Trim(values[0].value) == FirstText(values);
      } else if FirstText(values) != "" {
        var i :| 0 <= i < |values[1..]| && values[1..][i].Some? && Trim(values[1..][i].value) == FirstText(values[1..]);
        assert values[i + 1] == values[1..][i];
      }
    }
  }

  lemma TrimOfNothing()
    ensures Trim("") == "" && Trimmed("")
  {
  }

  /** A field value found by its keys is a trimmed copy of one of the stored fields. */
  lemma FirstOfShape(d: Doc, keys: seq<string>)
    ensures Trimmed(FirstOf(d, keys)) && Trim(FirstOf(d, keys)) == FirstOf(d, keys)
    ensures FirstOf(d, keys) != "" ==>
              exists i ::
                0 <= i < |keys| && Field(d, keys[i]).Some? && Trim(Field(d, keys[i]).value) == FirstOf(d, keys)
  {
    hide Trim, Trimmed;
    var values := seq(|keys|, i requires 0 <= i < |keys| => Field(d, keys[i]));
    FirstTextShape(values);
    TrimOfTrimmed(FirstOf(d, keys));
    if FirstOf(d, keys) != "" {
      var i :| 0 <= i < |values| && values[i].Some? && Trim(values[i].value) == FirstText(values);
      assert values[i] == Field(d, keys[i]);
    }
  }

  lemma {:induction false} FindIsRow(rows: seq<Doc>, keys: seq<string>, id: string)
    requires Find(rows, keys, id).Some?
    ensures FirstOf(Find(rows, keys, id).value, keys) == id
    ensures exists k :: 0 <= k < |rows| && rows[k] == Find(rows, keys, id).value
  {
    hide FirstOf;
    if FirstOf(rows[0], keys) != id {
      FindIsRow(rows[1..], keys, id);
      var k :| 0 <= k < |rows[1..]| && rows[1..][k] == Find(rows[1..], keys, id).value;
      assert rows[k + 1] == Find(rows, keys, id).value;
    } else {
      assert rows[0] == Find(rows, keys, id).value;
    }
  }

  /** None of the reference fields is stored with white space around it. */
  predicate StoredTrimmed(d: Doc, keys: seq<string>) {
    forall i :: 0 <= i < |keys| && Field(d, keys[i]).Some? ==> Trim(Field(d, keys[i]).value) == Field(d, keys[i]).value
  }

  lemma TrimmedReferencePoints(d: Doc, keys: seq<string>)
    requires StoredTrimmed(d, keys) && FirstOf(d, keys) != ""
    ensures PointsAt(d, keys, FirstOf(d, keys))
  {
    hide Trim, Trimmed, FirstOf;
    FirstOfShape(d, keys);
  }
}
