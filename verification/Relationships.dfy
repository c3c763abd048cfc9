/**
 What the business relationship resolver of src/domain/relationships/resolver.ts collects, its loops,
 and the grouping of model.ts. A record is a bag of string fields with line items; a missing field is `undefined`.
 `lower` stands for `toLowerCase`.
 */
module Relationships {
  import opened Wrappers
  import opened Text

  datatype Doc = Doc(fields: map<string, string>, lines: seq<Doc>, supplierNames: seq<string>)

  datatype Context = Context(
    purchaseRequests: seq<Doc>,
    rfqs: seq<Doc>,
    purchaseOrders: seq<Doc>,
    receivingDocs: seq<Doc>,
    supplierInvoices: seq<Doc>,
    inventoryItems: seq<Doc>,
    inventoryMovements: seq<Doc>)

  datatype EntityType =
    | PurchaseRequest | Rfq | PurchaseOrder | Sku | Item | Supplier | Grn | ReceivingDocument
    | Invoice | InvoiceMatch | InventoryMovement | OtherEntity(name: string)
  {
    function Name(): string {
      match this
      case PurchaseRequest => "purchaseRequest"
      case Rfq => "rfq"
      case PurchaseOrder => "purchaseOrder"
      case Sku => "sku"
      case Item => "item"
      case Supplier => "supplier"
      case Grn => "grn"
      case ReceivingDocument => "receivingDocument"
      case Invoice => "invoice"
      case InvoiceMatch => "invoiceMatch"
      case InventoryMovement => "inventoryMovement"
      case OtherEntity(name) => name
    }
  }

  datatype Relation =
    | CreatedFrom | RequestedItem | SourcedByRfq | AwardedToPo | ContainsItem | SuppliedBy
    | ReceivedBy | MatchedToInvoice | AffectsInventory | RelatedSupplier
  {
    function Name(): string {
      match this
      case CreatedFrom => "created_from"
      case RequestedItem => "requested_item"
      case SourcedByRfq => "sourced_by_rfq"
      case AwardedToPo => "awarded_to_po"
      case ContainsItem => "contains_item"
      case SuppliedBy => "supplied_by"
      case ReceivedBy => "received_by"
      case MatchedToInvoice => "matched_to_invoice"
      case AffectsInventory => "affects_inventory"
      case RelatedSupplier => "related_supplier"
    }
  }

  datatype Ref = Ref(entity: EntityType, id: string)

  /** A relationship, as far as it is not display text: who, how, to whom, and whether the record was found. */
  datatype Link = Link(source: Ref, relation: Relation, target: Ref, caption: string, found: bool)

  datatype Limitation =
    | MissingSourcePr | MissingRfqLink | MissingGrn | MissingInvoiceMatch | MissingInventoryBalance
    | MissingRelationship | RecordNotFound | RouteNotAvailable

  // ----- reading fields

  function Field(d: Doc, key: string): Option<string> {
    if key in d.fields then Some(d.fields[key]) else None
  }

  function AsText(v: Option<string>): string {
    Trim(v.GetOr(""))
  }

  /** The first value that is neither blank nor a dash. */
  function FirstText(values: seq<Option<string>>): string {
    if values == [] then ""
    else
      var next := AsText(values[0]);
      if next != "" && next != "—" then next else FirstText(values[1..])
  }

  function FirstOf(d: Doc, keys: seq<string>): string {
    FirstText(seq(|keys|, i requires 0 <= i < |keys| => Field(d, keys[i])))
  }

  /** Some field among `keys` is, untrimmed, the given id (`===`). */
  predicate PointsAt(d: Doc, keys: seq<string>, id: string) {
    exists i :: 0 <= i < |keys| && Field(d, keys[i]) == Some(id)
  }

  const PO_KEYS := ["po", "id", "poId"]
  const PR_KEYS := ["pr", "id", "prId"]
  const RFQ_KEYS := ["id", "rfqId"]
  const GRN_KEYS := ["grn", "id", "grnId", "receivingId"]
  const INVOICE_KEYS := ["invoiceNumber", "id", "invoiceId"]
  const SKU_KEYS := ["sku", "sourceSku", "itemSku", "itemIdOrSku", "id"]
  const SUPPLIER_KEYS := ["supplier", "supplierName", "supplierId", "name", "code", "id"]
  const MOVEMENT_KEYS := ["movementId", "id"]
  const GRN_PO_REFS := ["po", "poId", "relatedPo"]
  const INVOICE_PO_REFS := ["relatedPo", "po", "poId"]
  const INVOICE_GRN_REFS := ["relatedGrn", "grn", "grnId"]
  const RFQ_PR_REFS := ["sourceRequest", "linkedPr", "prId"]
  const PR_SKU_REFS := ["sourceSku", "itemSku"]

  function SupplierOf(d: Doc): string {
    FirstOf(d, SUPPLIER_KEYS)
  }

  function BestSupplierOf(rfq: Doc): string {
    FirstOf(rfq, ["bestSupplier"])
  }

  function Norm(lower: string -> string, v: Option<string>): string {
    lower(AsText(v))
  }

  /** `firstText(po?.sourceSku, asArray(po?.lines)[0]?.sku)` */
  function OrderSku(po: Doc): string {
    FirstText([Field(po, "sourceSku"), if po.lines == [] then None else Field(po.lines[0], "sku")])
  }

  predicate SomeLineHasSku(lower: string -> string, d: Doc, sku: string) {
    exists i :: 0 <= i < |d.lines| && Norm(lower, Field(d.lines[i], "sku")) == Norm(lower, Some(sku))
  }

  predicate MatchesSku(lower: string -> string, d: Doc, sku: string) {
    var wanted := Norm(lower, Some(sku));
    && wanted != ""
    && (|| Norm(lower, Field(d, "sourceSku")) == wanted
        || Norm(lower, Field(d, "sku")) == wanted
        || Norm(lower, Field(d, "itemSku")) == wanted
        || SomeLineHasSku(lower, d, sku))
  }

  predicate PartAt(t: string, part: string, i: nat) {
    i + |part| <= |t| && t[i..i + |part|] == part
  }

  predicate Includes(t: string, part: string) {
    exists i :: 0 <= i <= |t| && PartAt(t, part, i)
  }

  predicate SameSupplier(lower: string -> string, name: string, supplier: string) {
    Norm(lower, Some(name)) == Norm(lower, Some(supplier))
  }

  function Find(rows: seq<Doc>, keys: seq<string>, id: string): Option<Doc> {
    if rows == [] then None
    else if FirstOf(rows[0], keys) == id then Some(rows[0])
    else Find(rows[1..], keys, id)
  }

  // ----- the loops of the resolvers: which rows a loop keeps and what it pushes for one

  datatype Loop =
    | PoGrns | PoInvoices | PoMovements
    | SkuOrders | SkuRequests | SkuRfqs | SkuMovements | SkuInvoices
    | GrnLines | GrnMovements | GrnInvoices
    | InvoiceLines
    | SupplierOrders | SupplierRfqs | SupplierGrns | SupplierInvoices
    | PrRfqs

  /** The row filter of a loop; `po` is the order a goods receipt refers to. */
  predicate Keeps(lower: string -> string, loop: Loop, id: string, po: string, row: Doc) {
    match loop
    case PoGrns => PointsAt(row, GRN_PO_REFS, id)
    case PoInvoices => PointsAt(row, INVOICE_PO_REFS, id)
    case PoMovements => Field(row, "relatedPo") == Some(id)
    case SkuOrders => MatchesSku(lower, row, id)
    case SkuRequests => MatchesSku(lower, row, id)
    case SkuRfqs => MatchesSku(lower, row, id) || Includes(AsText(Field(row, "title")), id)
    case SkuMovements => Norm(lower, Field(row, "sku")) == Norm(lower, Some(id))
    case SkuInvoices => SomeLineHasSku(lower, row, id)
    case GrnLines => Field(row, "sku").GetOr("") != ""
    case GrnMovements => PointsAt(row, ["relatedGrn", "sourceDocument"], id)
    case GrnInvoices => Field(row, "relatedGrn") == Some(id) || (po != "" && Field(row, "relatedPo") == Some(po))
    case InvoiceLines => Field(row, "sku").GetOr("") != ""
    case SupplierOrders => SameSupplier(lower, SupplierOf(row), id)
    case SupplierRfqs =>
      || Norm(lower, Field(row, "bestSupplier")) == Norm(lower, Some(id))
      || exists i :: 0 <= i < |row.supplierNames| && SameSupplier(lower, row.supplierNames[i], id)
    case SupplierGrns => SameSupplier(lower, SupplierOf(row), id)
    case SupplierInvoices => SameSupplier(lower, SupplierOf(row), id)
    case PrRfqs => FirstOf(row, RFQ_PR_REFS) == id
  }

  /** A link counts as found as long as it has an id, or a label to show instead. */
  function LinkTo(source: Ref, relation: Relation, entity: EntityType, id: string, caption: string,
                  shown: string := ""): Link
  {
    Link(source, relation, Ref(entity, id), caption, id != "" || shown != "")
  }

  function ReceiptLineLabel(line: Doc): string {
    FirstOf(line, ["itemName", "name", "sku"])
  }

  function InvoiceLineLabel(line: Doc): string {
    FirstOf(line, ["name", "itemName", "sku"])
  }

  /** A link to the id in a field, if there is one. */
  function Direct(source: Ref, relation: Relation, entity: EntityType, id: string, caption: string,
                  found: bool := true): seq<Link>
  {
    if id != "" then [Link(source, relation, Ref(entity, id), caption, found)] else []
  }

  function MovementLink(s: Ref, row: Doc): seq<Link> {
    [LinkTo(s, AffectsInventory, InventoryMovement, FirstOf(row, MOVEMENT_KEYS), "Affects inventory")]
  }

  function Pushes(loop: Loop, s: Ref, row: Doc): seq<Link> {
    match loop
    case PoGrns => [LinkTo(s, ReceivedBy, Grn, FirstOf(row, GRN_KEYS), "Receives PO")]
    case PoInvoices => [LinkTo(s, MatchedToInvoice, Invoice, FirstOf(row, INVOICE_KEYS), "Matches invoice")]
    case PoMovements => MovementLink(s, row)
    case SkuOrders =>
      [LinkTo(s, ContainsItem, PurchaseOrder, FirstOf(row, PO_KEYS), "Contained in PO")]
      + Direct(s, SuppliedBy, Supplier, SupplierOf(row), "Supplied by")
    case SkuRequests => [LinkTo(s, RequestedItem, PurchaseRequest, FirstOf(row, PR_KEYS), "Requested item")]
    case SkuRfqs => [LinkTo(s, SourcedByRfq, Rfq, FirstOf(row, RFQ_KEYS), "Sourced by RFQ")]
    case SkuMovements => MovementLink(s, row)
    case SkuInvoices => [LinkTo(s, MatchedToInvoice, Invoice, FirstOf(row, INVOICE_KEYS), "Matches invoice")]
    case GrnLines =>
      [LinkTo(s, AffectsInventory, Sku, AsText(Field(row, "sku")), "Affects inventory", ReceiptLineLabel(row))]
    case GrnMovements => MovementLink(s, row)
    case GrnInvoices => [LinkTo(s, MatchedToInvoice, Invoice, FirstOf(row, INVOICE_KEYS), "Matches invoice")]
    case InvoiceLines =>
      [LinkTo(s, ContainsItem, Sku, AsText(Field(row, "sku")), "Matches invoice", InvoiceLineLabel(row))]
    case SupplierOrders =>
      [LinkTo(s, RelatedSupplier, PurchaseOrder, FirstOf(row, PO_KEYS), "Supplier relationship")]
      + Direct(s, SuppliedBy, Sku, OrderSku(row), "Supplies item")
    case SupplierRfqs => [LinkTo(s, SourcedByRfq, Rfq, FirstOf(row, RFQ_KEYS), "Supplier relationship")]
    case SupplierGrns => [LinkTo(s, ReceivedBy, Grn, FirstOf(row, GRN_KEYS), "Receives PO")]
    case SupplierInvoices => [LinkTo(s, MatchedToInvoice, Invoice, FirstOf(row, INVOICE_KEYS), "Matches invoice")]
    case PrRfqs => [LinkTo(s, SourcedByRfq, Rfq, FirstOf(row, RFQ_KEYS), "Sourced by RFQ")]
  }

  function Scan(lower: string -> string, loop: Loop, s: Ref, po: string, rows: seq<Doc>): seq<Link> {
    if rows == [] then []
    else
      var last := rows[|rows| - 1];
      var before := Scan(lower, loop, s, po, rows[..|rows| - 1]);
      if Keeps(lower, loop, s.id, po, last) then before + Pushes(loop, s, last) else before
  }

  predicate NoneKept(lower: string -> string, loop: Loop, id: string, po: string, rows: seq<Doc>) {
    forall i :: 0 <= i < |rows| ==> !Keeps(lower, loop, id, po, rows[i])
  }

  method PushEach(lower: string -> string, loop: Loop, s: Ref, po: string, rows: seq<Doc>)
    returns (links: seq<Link>, none: bool)
    ensures links == Scan(lower, loop, s, po, rows)
    ensures none == NoneKept(lower, loop, s.id, po, rows)
  {
    hide Keeps, Pushes;
    links := [];
    none := true;
    for i := 0 to |rows|
      invariant links == Scan(lower, loop, s, po, rows[..i])
      invariant none == NoneKept(lower, loop, s.id, po, rows[..i])
    {
      assert rows[..i + 1][..i] == rows[..i];
      if Keeps(lower, loop, s.id, po, rows[i]) {
        assert rows[..i + 1][i] == rows[i];
        links := links + Pushes(loop, s, rows[i]);
        none := false;
      }
    }
    assert rows[..|rows|] == rows;
  }

  // ----- what each resolver returns

  function When(missing: bool, limitation: Limitation): seq<Limitation> {
    if missing then [limitation] else []
  }

  function PoSourcePr(po: Doc): string {
    FirstOf(po, ["sourceRequest", "linkedPr"])
  }

  function PoSourceRfq(po: Doc): string {
    FirstOf(po, ["sourceRfq", "linkedRfq"])
  }

  function PoLinks(lower: string -> string, ctx: Context, po: Doc, id: string): seq<Link> {
    var s := Ref(PurchaseOrder, id);
    var pr, rfq, sku, supplier := PoSourcePr(po), PoSourceRfq(po), OrderSku(po), SupplierOf(po);
    Direct(s, CreatedFrom, PurchaseRequest, pr, "Created from", Find(ctx.purchaseRequests, PR_KEYS, pr).Some?)
    + Direct(s, SourcedByRfq, Rfq, rfq, "Created from", Find(ctx.rfqs, RFQ_KEYS, rfq).Some?)
    + Direct(s, ContainsItem, Sku, sku, "Affects inventory")
    + Direct(s, RelatedSupplier, Supplier, supplier, "Supplier relationship")
    + Scan(lower, PoGrns, s, "", ctx.receivingDocs)
    + Scan(lower, PoInvoices, s, "", ctx.supplierInvoices)
    + Scan(lower, PoMovements, s, "", ctx.inventoryMovements)
  }

  function PoLimits(lower: string -> string, ctx: Context, po: Doc, id: string): seq<Limitation> {
    When(PoSourcePr(po) == "", MissingSourcePr)
    + When(PoSourceRfq(po) == "", MissingRfqLink)
    + When(NoneKept(lower, PoGrns, id, "", ctx.receivingDocs), MissingGrn)
    + When(NoneKept(lower, PoInvoices, id, "", ctx.supplierInvoices), MissingInvoiceMatch)
  }

  /** The first inventory item with the SKU, compared without case. */
  function FindItem(lower: string -> string, items: seq<Doc>, sku: string): Option<Doc> {
    if items == [] then None
    else if Norm(lower, Some(FirstOf(items[0], SKU_KEYS))) == Norm(lower, Some(sku)) then Some(items[0])
    else FindItem(lower, items[1..], sku)
  }

  function ItemSupplier(item: Option<Doc>): string {
    if item.Some? then SupplierOf(item.value) else ""
  }

  function SkuLinks(lower: string -> string, ctx: Context, sku: string): seq<Link> {
    var s := Ref(Sku, sku);
    var supplier := ItemSupplier(FindItem(lower, ctx.inventoryItems, sku));
    Direct(s, SuppliedBy, Supplier, supplier, "Supplied by")
    + Scan(lower, SkuOrders, s, "", ctx.purchaseOrders)
    + Scan(lower, SkuRequests, s, "", ctx.purchaseRequests)
    + Scan(lower, SkuRfqs, s, "", ctx.rfqs)
    + Scan(lower, SkuMovements, s, "", ctx.inventoryMovements)
    + Scan(lower, SkuInvoices, s, "", ctx.supplierInvoices)
  }

  function SkuLimits(lower: string -> string, ctx: Context, sku: string): seq<Limitation> {
    When(FindItem(lower, ctx.inventoryItems, sku).None?, MissingInventoryBalance)
  }

  function GrnLinks(lower: string -> string, ctx: Context, grn: Doc, id: string): seq<Link> {
    var s := Ref(Grn, id);
    var po, supplier := FirstOf(grn, GRN_PO_REFS), SupplierOf(grn);
    Direct(s, ReceivedBy, PurchaseOrder, po, "Receives PO")
    + Direct(s, RelatedSupplier, Supplier, supplier, "Supplier relationship")
    + Scan(lower, GrnLines, s, po, grn.lines)
    + Scan(lower, GrnMovements, s, po, ctx.inventoryMovements)
    + Scan(lower, GrnInvoices, s, po, ctx.supplierInvoices)
  }

  function GrnLimits(lower: string -> string, ctx: Context, grn: Doc, id: string): seq<Limitation> {
    When(NoneKept(lower, GrnInvoices, id, FirstOf(grn, GRN_PO_REFS), ctx.supplierInvoices), MissingInvoiceMatch)
  }

  function InvoiceLinks(lower: string -> string, ctx: Context, invoice: Doc, id: string): seq<Link> {
    var s := Ref(Invoice, id);
    var po, grn, supplier := FirstOf(invoice, INVOICE_PO_REFS), FirstOf(invoice, INVOICE_GRN_REFS), SupplierOf(invoice);
    Direct(s, MatchedToInvoice, PurchaseOrder, po, "Source document")
    + Direct(s, MatchedToInvoice, Grn, grn, "Source document")
    + Direct(s, RelatedSupplier, Supplier, supplier, "Supplier relationship")
    + Scan(lower, InvoiceLines, s, "", invoice.lines)
    + [LinkTo(s, MatchedToInvoice, InvoiceMatch, id, "Matches invoice")]
  }

  function InvoiceLimits(invoice: Doc): seq<Limitation> {
    When(FirstOf(invoice, INVOICE_PO_REFS) == "", MissingInvoiceMatch)
    + When(FirstOf(invoice, INVOICE_GRN_REFS) == "", MissingGrn)
  }

  function SupplierLinks(lower: string -> string, ctx: Context, supplier: string): seq<Link> {
    var s := Ref(Supplier, supplier);
    Scan(lower, SupplierOrders, s, "", ctx.purchaseOrders)
    + Scan(lower, SupplierRfqs, s, "", ctx.rfqs)
    + Scan(lower, SupplierGrns, s, "", ctx.receivingDocs)
    + Scan(lower, SupplierInvoices, s, "", ctx.supplierInvoices)
  }

  function SupplierLimits(lower: string -> string, ctx: Context, supplier: string): seq<Limitation> {
    When(SupplierLinks(lower, ctx, supplier) == [], MissingRelationship)
  }

  function RfqLinks(rfq: Doc, id: string): seq<Link> {
    var s := Ref(Rfq, id);
    var pr, po, supplier := FirstOf(rfq, RFQ_PR_REFS), FirstOf(rfq, ["linkedPo", "poId"]), BestSupplierOf(rfq);
    Direct(s, CreatedFrom, PurchaseRequest, pr, "Created from")
    + Direct(s, AwardedToPo, PurchaseOrder, po, "Awarded to PO")
    + Direct(s, RelatedSupplier, Supplier, supplier, "Supplier relationship")
  }

  function RfqLimits(rfq: Doc): seq<Limitation> {
    When(FirstOf(rfq, RFQ_PR_REFS) == "", MissingSourcePr)
  }

  /** `purchaseOrders.find((row) => row?.sourceRequest === sourceId)?.po` */
  function OrderForRequest(orders: seq<Doc>, id: string): Option<string> {
    if orders == [] then None
    else if Field(orders[0], "sourceRequest") == Some(id) then Field(orders[0], "po")
    else OrderForRequest(orders[1..], id)
  }

  function PrPo(ctx: Context, pr: Doc, id: string): string {
    FirstText([Field(pr, "linkedPo"), OrderForRequest(ctx.purchaseOrders, id)])
  }

  function PrLinks(lower: string -> string, ctx: Context, pr: Doc, id: string): seq<Link> {
    var s := Ref(PurchaseRequest, id);
    var sku, po := FirstOf(pr, PR_SKU_REFS), PrPo(ctx, pr, id);
    Direct(s, RequestedItem, Sku, sku, "Requested item")
    + Scan(lower, PrRfqs, s, "", ctx.rfqs)
    + Direct(s, AwardedToPo, PurchaseOrder, po, "Created PO")
  }

  function PrLimits(ctx: Context, pr: Doc, id: string): seq<Limitation> {
    When(PrPo(ctx, pr, id) == "", MissingRelationship)
  }

  // ----- dispatch

  datatype Resolved = Resolved(links: seq<Link>, limits: seq<Limitation>)

  const NOT_FOUND := Resolved([], [RecordNotFound])

  /** What the resolver for an entity type collects, before duplicates are dropped. */
  function Collected(lower: string -> string, ctx: Context, entity: EntityType, id: string): Resolved {
    if id == "" then NOT_FOUND
    else match entity
      case PurchaseOrder =>
        var po := Find(ctx.purchaseOrders, PO_KEYS, id);
        if po.None? then NOT_FOUND else Resolved(PoLinks(lower, ctx, po.value, id), PoLimits(lower, ctx, po.value, id))
      case Sku => Resolved(SkuLinks(lower, ctx, id), SkuLimits(lower, ctx, id))
      case Item => Resolved(SkuLinks(lower, ctx, id), SkuLimits(lower, ctx, id))
      case Supplier => Resolved(SupplierLinks(lower, ctx, id), SupplierLimits(lower, ctx, id))
      case Grn => CollectedGrn(lower, ctx, id)
      case ReceivingDocument => CollectedGrn(lower, ctx, id)
      case Invoice => CollectedInvoice(lower, ctx, id)
      case InvoiceMatch => CollectedInvoice(lower, ctx, id)
      case Rfq =>
        var rfq := Find(ctx.rfqs, RFQ_KEYS, id);
        if rfq.None? then NOT_FOUND else Resolved(RfqLinks(rfq.value, id), RfqLimits(rfq.value))
      case PurchaseRequest =>
        var pr := Find(ctx.purchaseRequests, PR_KEYS, id);
        if pr.None? then NOT_FOUND else Resolved(PrLinks(lower, ctx, pr.value, id), PrLimits(ctx, pr.value, id))
      case InventoryMovement => Resolved([], [RouteNotAvailable])
      case OtherEntity(_) => Resolved([], [RouteNotAvailable])
  }

  function CollectedGrn(lower: string -> string, ctx: Context, id: string): Resolved {
    var grn := Find(ctx.receivingDocs, GRN_KEYS, id);
    if grn.None? then NOT_FOUND else Resolved(GrnLinks(lower, ctx, grn.value, id), GrnLimits(lower, ctx, grn.value, id))
  }

  function CollectedInvoice(lower: string -> string, ctx: Context, id: string): Resolved {
    var invoice := Find(ctx.supplierInvoices, INVOICE_KEYS, id);
    if invoice.None? then NOT_FOUND
    else Resolved(InvoiceLinks(lower, ctx, invoice.value, id), InvoiceLimits(invoice.value))
  }

  /** `[sourceType, sourceId, relationshipType, targetType, targetId].join(":")` */
  function LinkId(l: Link): string {
    l.source.entity.Name() + ":" + l.source.id + ":" + l.relation.Name() + ":"
    + l.target.entity.Name() + ":" + l.target.id
  }

  predicate IdSeen(links: seq<Link>, id: string) {
    exists i :: 0 <= i < |links| && LinkId(links[i]) == id
  }

  /** The links that are the first with their id. */
  function Dedup(links: seq<Link>): seq<Link> {
    if links == [] then []
    else
      var last, before := links[|links| - 1], links[..|links| - 1];
      if IdSeen(before, LinkId(last)) then Dedup(before) else Dedup(before) + [last]
  }

  lemma IdSeenStep(links: seq<Link>, l: Link, id: string)
    ensures IdSeen(links + [l], id) <==> IdSeen(links, id) || LinkId(l) == id
  {
    var next := links + [l];
    assert forall k :: 0 <= k < |links| ==> next[k] == links[k];
    assert next[|links|] == l;
  }

  method UniqueRelationships(links: seq<Link>) returns (kept: seq<Link>)
    ensures kept == Dedup(links)
  {
    hide LinkId, IdSeen;
    var seen: set<string> := {};
    kept := [];
    assert forall id :: !IdSeen(links[..0], id) by {
      NothingSeen();
    }
    for i := 0 to |links|
      invariant kept == Dedup(links[..i])
      invariant forall id :: id in seen <==> IdSeen(links[..i], id)
    {
      assert links[..i + 1][..i] == links[..i] && links[..i + 1] == links[..i] + [links[i]];
      forall id
        ensures IdSeen(links[..i + 1], id) <==> IdSeen(links[..i], id) || LinkId(links[i]) == id
      {
        IdSeenStep(links[..i], links[i], id);
      }
      if LinkId(links[i]) !in seen {
        seen := seen + {LinkId(links[i])};
        kept := kept + [links[i]];
      }
    }
    assert links[..|links|] == links;
  }

  lemma NothingSeen()
    ensures forall id :: !IdSeen([], id)
  {
  }

  /** The links shown for an entity. */
  function Links(lower: string -> string, ctx: Context, entity: EntityType, id: string): seq<Link> {
    Dedup(Collected(lower, ctx, entity, Trim(id)).links)
  }

  /**
   The limitation a link carries: its record is missing, or it leads to a movement, which has no page of
   its own and is reported under the same code.
   */
  function LimitOf(l: Link): seq<Limitation> {
    When(!l.found || l.target.entity == InventoryMovement, RecordNotFound)
  }

  function LinkLimits(links: seq<Link>): seq<Limitation> {
    if links == [] then [] else LimitOf(links[0]) + LinkLimits(links[1..])
  }

  /** The limitations shown for an entity: those of its resolver, then those of its links. */
  function Limits(lower: string -> string, ctx: Context, entity: EntityType, id: string): seq<Limitation> {
    Collected(lower, ctx, entity, Trim(id)).limits + LinkLimits(Links(lower, ctx, entity, id))
  }

  // ----- grouping by label

  function GroupKey(l: Link): string {
    if l.caption != "" then l.caption else l.relation.Name()
  }

  function WithKey(links: seq<Link>, key: string): seq<Link> {
    if links == [] then []
    else
      var last, before := links[|links| - 1], WithKey(links[..|links| - 1], key);
      if GroupKey(last) == key then before + [last] else before
  }

  function KeysOf(links: seq<Link>): set<string> {
    set i | 0 <= i < |links| :: GroupKey(links[i])
  }

  function Grouped(links: seq<Link>): map<string, seq<Link>> {
    map key | key in KeysOf(links) :: WithKey(links, key)
  }

  method GroupRelationships(links: seq<Link>) returns (groups: map<string, seq<Link>>)
    ensures groups == Grouped(links)
  {
    groups := map[];
    for i := 0 to |links|
      invariant groups == Grouped(links[..i])
    {
      hide Grouped, GroupKey;
      GroupedStep(links[..i], links[i]);
      assert links[..i + 1] == links[..i] + [links[i]];
      var key := GroupKey(links[i]);
      groups := groups[key := if key in groups then groups[key] else []];
      groups := groups[key := groups[key] + [links[i]]];
    }
    assert links[..|links|] == links;
  }

  lemma GroupedStep(links: seq<Link>, l: Link)
    ensures var key, groups := GroupKey(l), Grouped(links);
            var extended := groups[key := if key in groups then groups[key] else []];
            Grouped(links + [l]) == extended[key := extended[key] + [l]]
  {
    var next := links + [l];
    assert next[..|links|] == links;
    assert KeysOf(next) == KeysOf(links) + {GroupKey(l)} by {
      assert forall i :: 0 <= i < |links| ==> next[i] == links[i];
      assert next[|links|] == l;
    }
    if GroupKey(l) !in KeysOf(links) {
      NoneWithKey(links, GroupKey(l));
    }
  }

  lemma {:induction false} NoneWithKey(links: seq<Link>, key: string)
    requires key !in KeysOf(links)
    ensures WithKey(links, key) == []
  {
    if links != [] {
      var n := |links| - 1;
      assert GroupKey(links[n]) in KeysOf(links);
      assert forall i :: 0 <= i < n ==> links[..n][i] == links[i];
      NoneWithKey(links[..n], key);
    }
  }
}
