/** Concrete records on which a link is not found again, or a record that is there is reported missing. */
module RelationshipsOneWay {
  import opened Wrappers
  import opened Text
  import opened Relationships
  import opened RelationshipsWalkBack
  import opened RelationshipsBothWays
  import opened RelationshipsLimitations
  import opened RelationshipsPages

  // ----- the second item of an order

  const LINE_A := Doc(map["sku" := "A"], [], [])
  const LINE_B := Doc(map["sku" := "B"], [], [])
  const TWO_LINES := Doc(map["po" := "P", "supplier" := "V"], [LINE_A, LINE_B], [])
  const SUPPLIED := Context([], [], [TWO_LINES], [], [], [], [])

  lemma TwoLinesFields(lower: string -> string)
    requires KeepsText(lower)
    ensures SupplierOf(TWO_LINES) == "V" && OrderSku(TWO_LINES) == "A" && MatchesSku(lower, TWO_LINES, "B")
  {
    FirstFieldWins(TWO_LINES, SUPPLIER_KEYS, "V");
    FirstOfTwo(Field(TWO_LINES, "sourceSku"), Field(LINE_A, "sku"));
    NoText([Field(TWO_LINES, "sourceSku")]);
    assert FirstText([Some("A")]) == "A";
    assert TWO_LINES.lines[1] == LINE_B && Norm(lower, Field(LINE_B, "sku")) == Norm(lower, Some("B"));
  }

  /** The second item of an order names its supplier, but the supplier lists first items only. */
  lemma SecondItemIsOneWay(lower: string -> string)
    requires KeepsText(lower)
    ensures Linked(lower, SUPPLIED, Ref(Sku, "B"), SuppliedBy, Ref(Supplier, "V"))
    ensures !Linked(lower, SUPPLIED, Ref(Supplier, "V"), SuppliedBy, Ref(Sku, "B"))
  {
    hide Linked, SupplierOf, OrderSku, MatchesSku, SameSupplier;
    TwoLinesFields(lower);
    ItemListsSupplierIff(lower, SUPPLIED, "B", "V");
    assert TWO_LINES in SUPPLIED.purchaseOrders;
    SupplierListsItemIff(lower, SUPPLIED, "V", "B");
  }

  // ----- the items of a receipt

  const RECEIPT := Doc(map["grn" := "G"], [LINE_A], [])
  const DELIVERED := Context([], [], [], [RECEIPT], [], [], [])

  /** A receipt names the items on its lines, but an item lists no receipts. */
  lemma ReceivedItemIsOneWay(lower: string -> string)
    ensures Linked(lower, DELIVERED, Ref(Grn, "G"), AffectsInventory, Ref(Sku, "A"))
    ensures forall relation :: !Linked(lower, DELIVERED, Ref(Sku, "A"), relation, Ref(Grn, "G"))
  {
    FirstFieldWins(RECEIPT, GRN_KEYS, "G");
    assert LINE_A in RECEIPT.lines && AsText(Field(LINE_A, "sku")) == "A";
    hide Linked, FirstOf, AsText;
    GrnPage(lower, DELIVERED, "G", RECEIPT, "A");
    forall relation {
      ItemListsNoReceipt(lower, DELIVERED, "A", relation, "G");
    }
  }

  // ----- the RFQ of an order

  const FROM_RFQ := Doc(map["po" := "P", "sourceRfq" := "F"], [], [])
  const BARE_RFQ := Doc(map["id" := "F"], [], [])
  const SOURCED := Context([], [BARE_RFQ], [FROM_RFQ], [], [], [], [])

  /** An order names its RFQ, but an RFQ that does not name the order does not list it. */
  lemma SourceRfqIsOneWay(lower: string -> string)
    ensures Linked(lower, SOURCED, Ref(PurchaseOrder, "P"), SourcedByRfq, Ref(Rfq, "F"))
    ensures Find(SOURCED.rfqs, RFQ_KEYS, "F").Some?
    ensures !Linked(lower, SOURCED, Ref(Rfq, "F"), AwardedToPo, Ref(PurchaseOrder, "P"))
  {
    FirstFieldWins(FROM_RFQ, PO_KEYS, "P");
    FirstFieldWins(FROM_RFQ, ["sourceRfq", "linkedRfq"], "F");
    FirstFieldWins(BARE_RFQ, RFQ_KEYS, "F");
    NoFieldNoText(BARE_RFQ, ["linkedPo", "poId"]);
    hide Linked, FirstOf;
    OrderPage(lower, SOURCED, "P", FROM_RFQ, "F");
    RfqPage(lower, SOURCED, "F", BARE_RFQ, "P");
  }

  // ----- the second order of a request

  const REQUEST := Doc(map["pr" := "R"], [], [])
  const ORDER_A := Doc(map["po" := "A", "sourceRequest" := "R"], [], [])
  const ORDER_B := Doc(map["po" := "B", "sourceRequest" := "R"], [], [])
  const ORDERED_TWICE := Context([REQUEST], [], [ORDER_A, ORDER_B], [], [], [], [])

  lemma OrderedTwiceFields()
    ensures FirstOf(REQUEST, PR_KEYS) == "R" && FirstOf(ORDER_A, PO_KEYS) == "A" && FirstOf(ORDER_B, PO_KEYS) == "B"
    ensures PoSourcePr(ORDER_B) == "R" && PrPo(ORDERED_TWICE, REQUEST, "R") == "A"
  {
    FirstFieldWins(REQUEST, PR_KEYS, "R");
    FirstFieldWins(ORDER_A, PO_KEYS, "A");
    FirstFieldWins(ORDER_B, PO_KEYS, "B");
    FirstFieldWins(ORDER_B, ["sourceRequest", "linkedPr"], "R");
    FirstOfTwo(Field(REQUEST, "linkedPo"), Some("A"));
    NoText([Field(REQUEST, "linkedPo")]);
    assert FirstText([Some("A")]) == "A";
    assert ORDERED_TWICE.purchaseOrders[0] == ORDER_A;
    assert OrderForRequest(ORDERED_TWICE.purchaseOrders, "R") == Some("A");
  }

  /** Two orders name the same request, but the request shows the first of them only. */
  lemma SecondOrderIsOneWay(lower: string -> string)
    ensures Linked(lower, ORDERED_TWICE, Ref(PurchaseOrder, "B"), CreatedFrom, Ref(PurchaseRequest, "R"))
    ensures Find(ORDERED_TWICE.purchaseRequests, PR_KEYS, "R").Some?
    ensures !Linked(lower, ORDERED_TWICE, Ref(PurchaseRequest, "R"), AwardedToPo, Ref(PurchaseOrder, "B"))
  {
    OrderedTwiceFields();
    hide Linked, FirstOf, PoSourcePr, PrPo;
    var orders := ORDERED_TWICE.purchaseOrders;
    assert orders[1..] == [ORDER_B];
    assert Find(orders[1..], PO_KEYS, "B") == Some(ORDER_B);
    OrderPage(lower, ORDERED_TWICE, "B", ORDER_B, "R");
    RequestShowsOrderIff(lower, ORDERED_TWICE, "R", "B", REQUEST);
  }

  // ----- a movement that is there

  const MOVED_ORDER := Doc(map["po" := "P"], [], [])
  const MOVEMENT := Doc(map["movementId" := "M", "relatedPo" := "P"], [], [])
  const MOVED := Context([], [], [MOVED_ORDER], [], [], [], [MOVEMENT])

  lemma MovedFields()
    ensures FirstOf(MOVED_ORDER, PO_KEYS) == "P" && FirstOf(MOVEMENT, MOVEMENT_KEYS) == "M"
    ensures PoSourcePr(MOVED_ORDER) == "" && PoSourceRfq(MOVED_ORDER) == ""
    ensures OrderSku(MOVED_ORDER) == "" && SupplierOf(MOVED_ORDER) == ""
  {
    FirstFieldWins(MOVED_ORDER, PO_KEYS, "P");
    FirstFieldWins(MOVEMENT, MOVEMENT_KEYS, "M");
    NoFieldNoText(MOVED_ORDER, ["sourceRequest", "linkedPr"]);
    NoFieldNoText(MOVED_ORDER, ["sourceRfq", "linkedRfq"]);
    NoFieldNoText(MOVED_ORDER, SUPPLIER_KEYS);
    NoText([Field(MOVED_ORDER, "sourceSku"), None]);
  }

  function MovementShown(): Link {
    LinkTo(Ref(PurchaseOrder, "P"), AffectsInventory, InventoryMovement, "M", "Affects inventory")
  }

  lemma MovedLinks(lower: string -> string)
    ensures PoLinks(lower, MOVED, MOVED_ORDER, "P") == [MovementShown()]
  {
    MovedFields();
    hide FirstOf, PoSourcePr, PoSourceRfq, OrderSku, SupplierOf, Keeps, Find;
    var s := Ref(PurchaseOrder, "P");
    OneMovement(lower, s);
    assert Scan(lower, PoGrns, s, "", []) == [] && Scan(lower, PoInvoices, s, "", []) == [];
  }

  lemma MovedShows(lower: string -> string)
    ensures !PageMissing(MOVED, PurchaseOrder, Trim("P"))
    ensures Links(lower, MOVED, PurchaseOrder, "P") == [MovementShown()]
  {
    MovedFields();
    TrimOfTrimmed("P");
    hide FirstOf, Trim, PoLinks, PoLimits, Dedup;
    assert Find(MOVED.purchaseOrders, PO_KEYS, "P") == Some(MOVED_ORDER);
    MovedLinks(lower);
    DedupOfOne(MovementShown());
  }

  /** A page whose own record and every linked record are there, and which still reports a record as not found. */
  lemma MovementIsReportedMissing(lower: string -> string)
    ensures !PageMissing(MOVED, PurchaseOrder, Trim("P"))
    ensures var links := Links(lower, MOVED, PurchaseOrder, "P");
            |links| == 1 && links[0].target == Ref(InventoryMovement, "M") && links[0].found
    ensures RecordNotFound in Limits(lower, MOVED, PurchaseOrder, "P")
  {
    hide Links, Limits, PageMissing, Trim;
    MovedShows(lower);
    assert Links(lower, MOVED, PurchaseOrder, "P")[0].target.entity == InventoryMovement;
    RecordNotFoundIff(lower, MOVED, PurchaseOrder, "P");
  }

  lemma OneMovement(lower: string -> string, s: Ref)
    requires s == Ref(PurchaseOrder, "P")
    ensures Scan(lower, PoMovements, s, "", [MOVEMENT])
         == [LinkTo(s, AffectsInventory, InventoryMovement, "M", "Affects inventory")]
  {
    MovedFields();
    hide FirstOf;
    assert [MOVEMENT][..0] == [] && Scan(lower, PoMovements, s, "", []) == [];
  }

  lemma DedupOfOne(l: Link)
    ensures Dedup([l]) == [l]
  {
    hide LinkId;
    assert [l][..0] == [] && Dedup([]) == [];
  }
}
