/** The three-way match of src/domain/procurement/invoice-matching.ts, with amounts over the reals. */
module InvoiceMatching {
  import opened Numbers
  import opened Wrappers

  /** 无差异, 价格差异, 数量差异, 税额差异, 运费差异, 供应商不一致, 缺少收货, 缺少PO, 重复发票 */
  datatype Variance =
    | NoVariance | PriceVariance | QuantityVariance | TaxVariance | FreightVariance
    | SupplierMismatch | MissingReceipt | MissingOrder | DuplicateInvoice

  /** 未匹配, 自动匹配, 人工复核, 差异待处理, 已解决 */
  datatype MatchStatus = Unmatched | AutoMatched | ManualReview | VariancePending | Resolved

  /** 草稿, 已接收, 待匹配, 已匹配, 存在差异, 待审批, 已审批, 已过账应付, 已付款, 已驳回 */
  datatype Status =
    | Draft | Received | AwaitingMatch | Matched | HasVariance
    | AwaitingApproval | Approved | Posted | Paid | Rejected

  /** 待收货, 质检中, and every later state. */
  datatype ReceiptStatus = AwaitingReceipt | InInspection | PastInspection

  datatype Line = Line(quantity: real, orderedQty: Option<real>, receivedQty: Option<real>, matchedQty: Option<real>)

  /** An empty `relatedGrn` stands for a missing one. */
  datatype Invoice = Invoice(
    id: string,
    invoiceNumber: string,
    supplier: string,
    relatedPo: string,
    relatedGrn: string,
    subtotal: real,
    total: real,
    status: Status,
    matchStatus: MatchStatus,
    varianceType: Variance,
    varianceAmount: real,
    postedToAp: bool,
    duplicateRisk: bool,
    lines: seq<Line>)

  datatype Order = Order(po: string, totalAmount: Option<real>, amount: Option<real>)

  datatype Receipt = Receipt(grn: string, status: ReceiptStatus)

  datatype Snapshot = Snapshot(
    poAmount: real,
    grnAmount: real,
    invoiceAmount: real,
    varianceAmount: real,
    varianceType: Variance,
    matchStatus: MatchStatus,
    status: Status)

  /** `Math.round`: halves go up. */
  function Round(a: real): real {
    RoundInt(a) as real
  }

  function RoundInt(a: real): int {
    (a + 0.5).Floor
  }

  function AmountTolerance(reference: real): real {
    Min(1000.0, Abs(reference) * 0.01)
  }

  function FindOrder(orders: seq<Order>, po: string): Option<Order> {
    if orders == [] then None
    else if orders[0].po == po then Some(orders[0])
    else FindOrder(orders[1..], po)
  }

  function FindReceipt(receipts: seq<Receipt>, grn: string): Option<Receipt> {
    if receipts == [] then None
    else if receipts[0].grn == grn then Some(receipts[0])
    else FindReceipt(receipts[1..], grn)
  }

  function PoAmount(po: Option<Order>): real {
    if po.None? then 0.0
    else if po.value.totalAmount.Some? then po.value.totalAmount.value
    else po.value.amount.GetOr(0.0)
  }

  // ----- the received share of an invoice

  /** `Number(line.orderedQty || line.quantity || 0)` */
  function OrderedOf(line: Line): real {
    if line.orderedQty.GetOr(0.0) != 0.0 then line.orderedQty.value else line.quantity
  }

  function ReceivedOf(line: Line): real {
    if line.receivedQty.Some? then line.receivedQty.value else line.matchedQty.GetOr(0.0)
  }

  function LineShare(line: Line): real {
    if OrderedOf(line) <= 0.0 then 1.0 else Min(1.0, ReceivedOf(line) / OrderedOf(line))
  }

  function ShareSum(lines: seq<Line>): real {
    if lines == [] then 0.0 else ShareSum(lines[..|lines| - 1]) + LineShare(lines[|lines| - 1])
  }

  function ReceivedShare(lines: seq<Line>): real {
    ShareSum(lines) / (if |lines| == 0 then 1 else |lines|) as real
  }

  function Portion(subtotal: real, share: real): real {
    subtotal * share
  }

  function GrnAmount(subtotal: real, lines: seq<Line>, grn: Option<Receipt>): real {
    if grn.None? then 0.0 else Round(Portion(subtotal, ReceivedShare(lines)))
  }

  // ----- the decision

  predicate TwinOf(invoice: Invoice, other: Invoice) {
    other.id != invoice.id && other.supplier == invoice.supplier && other.invoiceNumber == invoice.invoiceNumber
  }

  predicate IsDuplicate(invoice: Invoice, all: seq<Invoice>) {
    invoice.duplicateRisk || exists i :: 0 <= i < |all| && TwinOf(invoice, all[i])
  }

  predicate BilledOver(line: Line) {
    line.quantity > line.receivedQty.GetOr(line.quantity)
  }

  predicate OverBilled(invoice: Invoice) {
    exists i :: 0 <= i < |invoice.lines| && BilledOver(invoice.lines[i])
  }

  predicate ReceiptMissing(grn: Option<Receipt>) {
    grn.None? || grn.value.status == AwaitingReceipt || grn.value.status == InInspection
  }

  function ReceiptOf(invoice: Invoice, receipts: seq<Receipt>): Option<Receipt> {
    if invoice.relatedGrn == "" then None else FindReceipt(receipts, invoice.relatedGrn)
  }

  predicate WithinTolerance(invoiceAmount: real, poAmount: real) {
    Abs(invoiceAmount - (if poAmount != 0.0 then poAmount * 1.13 else invoiceAmount)) <= AmountTolerance(poAmount)
  }

  predicate RecordedVariance(invoice: Invoice) {
    invoice.varianceType != NoVariance && Abs(invoice.varianceAmount) > 0.0
  }

  /** The rules of the match, in order of priority. */
  datatype Rule = Duplicate | NoOrder | NoReceipt | Quantity | Recorded | Auto | Unchanged {
    function Rank(): nat {
      match this
      case Duplicate => 0
      case NoOrder => 1
      case NoReceipt => 2
      case Quantity => 3
      case Recorded => 4
      case Auto => 5
      case Unchanged => 6
    }
  }

  /** What a match looks at beside the invoice itself. */
  datatype World = World(orders: seq<Order>, receipts: seq<Receipt>, all: seq<Invoice>)

  predicate Applies(rule: Rule, invoice: Invoice, w: World) {
    var po := FindOrder(w.orders, invoice.relatedPo);
    match rule
    case Duplicate => IsDuplicate(invoice, w.all)
    case NoOrder => po.None?
    case NoReceipt => ReceiptMissing(ReceiptOf(invoice, w.receipts))
    case Quantity => OverBilled(invoice)
    case Recorded => RecordedVariance(invoice)
    case Auto => WithinTolerance(invoice.total, PoAmount(po))
    case Unchanged => true
  }

  /** The rule applies and none before it does. */
  predicate Decides(rule: Rule, invoice: Invoice, w: World) {
    Applies(rule, invoice, w) && forall other: Rule :: other.Rank() < rule.Rank() ==> !Applies(other, invoice, w)
  }

  function RuleFor(invoice: Invoice, w: World): Rule {
    if Applies(Duplicate, invoice, w) then Duplicate
    else if Applies(NoOrder, invoice, w) then NoOrder
    else if Applies(NoReceipt, invoice, w) then NoReceipt
    else if Applies(Quantity, invoice, w) then Quantity
    else if Applies(Recorded, invoice, w) then Recorded
    else if Applies(Auto, invoice, w) then Auto
    else Unchanged
  }

  /** Exactly one rule decides. */
  lemma OneRuleDecides(invoice: Invoice, w: World, rule: Rule)
    ensures Decides(rule, invoice, w) <==> rule == RuleFor(invoice, w)
  {
    hide Applies;
    var first := RuleFor(invoice, w);
    assert Applies(Unchanged, invoice, w) by {
      UnchangedApplies(invoice, w);
    }
    assert Decides(first, invoice, w);
    if Decides(rule, invoice, w) {
      assert !(first.Rank() < rule.Rank()) && !(rule.Rank() < first.Rank());
    }
  }

  lemma UnchangedApplies(invoice: Invoice, w: World)
    ensures Applies(Unchanged, invoice, w)
  {
  }

  /** The outcome of a rule: variance type, variance amount, match status and status. */
  function Outcome(rule: Rule, invoice: Invoice, grnAmount: real): (Variance, real, MatchStatus, Status) {
    var recorded := Abs(invoice.varianceAmount);
    match rule
    case Duplicate => (DuplicateInvoice, invoice.total, VariancePending, HasVariance)
    case NoOrder => (MissingOrder, invoice.total, VariancePending, HasVariance)
    case NoReceipt =>
      (MissingReceipt, invoice.total,
       if invoice.matchStatus == Unmatched then Unmatched else ManualReview,
       if invoice.status == Draft then AwaitingMatch else invoice.status)
    case Quantity =>
      (QuantityVariance, Max(recorded, Abs(invoice.total - grnAmount * 1.13)), VariancePending, HasVariance)
    case Recorded =>
      (invoice.varianceType, recorded,
       if invoice.varianceType in {FreightVariance, TaxVariance} then ManualReview else VariancePending,
       HasVariance)
    case Auto =>
      (NoVariance, 0.0, AutoMatched,
       if !invoice.postedToAp && invoice.status in {AwaitingMatch, Received} then Matched else invoice.status)
    case Unchanged => (invoice.varianceType, recorded, invoice.matchStatus, invoice.status)
  }

  function SnapshotBy(rule: Rule, invoice: Invoice, w: World): Snapshot {
    var grnAmount := GrnAmount(invoice.subtotal, invoice.lines, ReceiptOf(invoice, w.receipts));
    var (varianceType, varianceAmount, matchStatus, status) := Outcome(rule, invoice, grnAmount);
    Snapshot(PoAmount(FindOrder(w.orders, invoice.relatedPo)), grnAmount, invoice.total,
             varianceAmount, varianceType, matchStatus, status)
  }

  function Match(invoice: Invoice, w: World): Snapshot {
    SnapshotBy(RuleFor(invoice, w), invoice, w)
  }

  // ----- the findings, condition by condition

  /** Another listed invoice of the same supplier has the same number. */
  predicate HasTwin(invoice: Invoice, all: seq<Invoice>) {
    exists i :: 0 <= i < |all| && all[i].id != invoice.id
                && all[i].supplier == invoice.supplier && all[i].invoiceNumber == invoice.invoiceNumber
  }

  /** The order at position i is the first one with number `po`. */
  predicate FirstOrderAt(orders: seq<Order>, po: string, i: int) {
    0 <= i < |orders| && orders[i].po == po && forall j :: 0 <= j < i ==> orders[j].po != po
  }

  predicate FirstReceiptAt(receipts: seq<Receipt>, grn: string, i: int) {
    0 <= i < |receipts| && receipts[i].grn == grn && forall j :: 0 <= j < i ==> receipts[j].grn != grn
  }

  /** `totalAmount`, else `amount`, else 0. */
  predicate IsWorth(order: Order, amount: real) {
    || order.totalAmount == Some(amount)
    || (order.totalAmount.None? && order.amount == Some(amount))
    || (order.totalAmount.None? && order.amount.None? && amount == 0.0)
  }

  /** The invoice names a receipt, and the first receipt of that name has passed its inspection. */
  ghost predicate GoodsAccepted(invoice: Invoice, receipts: seq<Receipt>) {
    && invoice.relatedGrn != ""
    && exists i :: FirstReceiptAt(receipts, invoice.relatedGrn, i) && receipts[i].status == PastInspection
  }

  /** Some line bills more than it received. */
  predicate BillsMore(invoice: Invoice) {
    exists i :: 0 <= i < |invoice.lines| && invoice.lines[i].receivedQty.Some?
                && invoice.lines[i].quantity > invoice.lines[i].receivedQty.value
  }

  /** Nothing to object to but, perhaps, the order's amount; o is the position of the order. */
  ghost predicate NoObjection(invoice: Invoice, w: World, o: int) {
    && !invoice.duplicateRisk && !HasTwin(invoice, w.all)
    && FirstOrderAt(w.orders, invoice.relatedPo, o)
    && GoodsAccepted(invoice, w.receipts)
    && !BillsMore(invoice)
    && (invoice.varianceType == NoVariance || invoice.varianceAmount == 0.0)
  }

  /** Off by at most 1000 and at most a hundredth of the order's amount, with 13% tax added to the order. */
  predicate Agrees(total: real, amount: real) {
    var off := total - 1.13 * amount;
    amount == 0.0 || (-1000.0 <= off <= 1000.0 && 100.0 * Abs(off) <= Abs(amount))
  }

  /** What a snapshot says about the invoice, apart from the three amounts. */
  predicate Finds(s: Snapshot, varianceType: Variance, amount: real, matchStatus: MatchStatus, status: Status) {
    s.varianceType == varianceType && s.varianceAmount == amount && s.matchStatus == matchStatus && s.status == status
  }

  /** A duplicate, or an invoice without its order, is held back for all of its amount. */
  ghost predicate HoldsBackDuplicates(invoice: Invoice, w: World, s: Snapshot) {
    var duplicate := invoice.duplicateRisk || HasTwin(invoice, w.all);
    && (duplicate ==> Finds(s, DuplicateInvoice, invoice.total, VariancePending, HasVariance))
    && (!duplicate && (forall i :: 0 <= i < |w.orders| ==> w.orders[i].po != invoice.relatedPo) ==>
          Finds(s, MissingOrder, invoice.total, VariancePending, HasVariance))
  }

  /** Before the goods are accepted, an invoice with an order waits, unmatched or in review. */
  ghost predicate WaitsForGoods(invoice: Invoice, w: World, s: Snapshot) {
    !invoice.duplicateRisk && !HasTwin(invoice, w.all) && !GoodsAccepted(invoice, w.receipts) ==>
      forall o :: FirstOrderAt(w.orders, invoice.relatedPo, o) ==>
        Finds(s, MissingReceipt, invoice.total,
              if invoice.matchStatus == Unmatched then Unmatched else ManualReview,
              if invoice.status == Draft then AwaitingMatch else invoice.status)
  }

  /** A bill for more than was received is off by the larger of what is recorded and what was received. */
  ghost predicate HoldsBackExcess(invoice: Invoice, w: World, s: Snapshot) {
    && !invoice.duplicateRisk && !HasTwin(invoice, w.all) && GoodsAccepted(invoice, w.receipts) && BillsMore(invoice)
    ==> forall o :: FirstOrderAt(w.orders, invoice.relatedPo, o) ==>
      && s.varianceAmount >= Abs(invoice.varianceAmount)
      && s.varianceAmount >= Abs(invoice.total - 1.13 * s.grnAmount)
      && (s.varianceAmount == Abs(invoice.varianceAmount)
          || s.varianceAmount == Abs(invoice.total - 1.13 * s.grnAmount))
      && Finds(s, QuantityVariance, s.varianceAmount, VariancePending, HasVariance)
  }

  /** A recorded variance stays; freight and tax go to review. */
  ghost predicate KeepsRecorded(invoice: Invoice, w: World, s: Snapshot) {
    && !invoice.duplicateRisk && !HasTwin(invoice, w.all) && GoodsAccepted(invoice, w.receipts) && !BillsMore(invoice)
    && invoice.varianceType != NoVariance && invoice.varianceAmount != 0.0
    ==> forall o :: FirstOrderAt(w.orders, invoice.relatedPo, o) ==>
      Finds(s, invoice.varianceType, Abs(invoice.varianceAmount),
            if invoice.varianceType == FreightVariance || invoice.varianceType == TaxVariance then ManualReview
            else VariancePending,
            HasVariance)
  }

  /** An invoice nothing is held against is matched if it agrees with its order, and else left as it is. */
  ghost predicate MatchesRest(invoice: Invoice, w: World, s: Snapshot) {
    forall o :: NoObjection(invoice, w, o) ==>
      if Agrees(invoice.total, s.poAmount) then
        Finds(s, NoVariance, 0.0, AutoMatched,
              if !invoice.postedToAp && (invoice.status == AwaitingMatch || invoice.status == Received) then Matched
              else invoice.status)
      else Finds(s, invoice.varianceType, Abs(invoice.varianceAmount), invoice.matchStatus, invoice.status)
  }

  /** The amounts a snapshot puts side by side. */
  ghost predicate ShowsAmounts(invoice: Invoice, w: World, s: Snapshot) {
    && s.invoiceAmount == invoice.total
    && (forall o :: FirstOrderAt(w.orders, invoice.relatedPo, o) ==> IsWorth(w.orders[o], s.poAmount))
    && ((forall o :: 0 <= o < |w.orders| ==> w.orders[o].po != invoice.relatedPo) ==> s.poAmount == 0.0)
    && (if invoice.relatedGrn == "" || forall r :: 0 <= r < |w.receipts| ==> w.receipts[r].grn != invoice.relatedGrn
        then s.grnAmount == 0.0
        else -0.5 < s.grnAmount - invoice.subtotal * ReceivedShare(invoice.lines) <= 0.5)
  }

  /** Six conditions that leave no invoice out and say all a snapshot says. */
  ghost predicate FoundAsStated(invoice: Invoice, w: World, s: Snapshot) {
    && HoldsBackDuplicates(invoice, w, s) && WaitsForGoods(invoice, w, s)
    && HoldsBackExcess(invoice, w, s) && KeepsRecorded(invoice, w, s)
    && MatchesRest(invoice, w, s) && ShowsAmounts(invoice, w, s)
  }

  lemma {:induction false} FindOrderIsFirst(orders: seq<Order>, po: string)
    ensures FindOrder(orders, po).None? <==> forall i :: 0 <= i < |orders| ==> orders[i].po != po
    ensures forall i :: FirstOrderAt(orders, po, i) ==> FindOrder(orders, po) == Some(orders[i])
    ensures FindOrder(orders, po).Some? ==> exists i :: FirstOrderAt(orders, po, i)
  {
    if orders != [] && orders[0].po == po {
      assert FirstOrderAt(orders, po, 0);
    } else if orders != [] {
      FindOrderIsFirst(orders[1..], po);
      forall i | FirstOrderAt(orders, po, i)
        ensures FindOrder(orders, po) == Some(orders[i])
      {
        assert FirstOrderAt(orders[1..], po, i - 1);
      }
      if FindOrder(orders, po).Some? {
        var i :| FirstOrderAt(orders[1..], po, i);
        assert FirstOrderAt(orders, po, i + 1);
      }
    }
  }

  lemma {:induction false} FindReceiptIsFirst(receipts: seq<Receipt>, grn: string)
    ensures FindReceipt(receipts, grn).None? <==> forall i :: 0 <= i < |receipts| ==> receipts[i].grn != grn
    ensures forall i :: FirstReceiptAt(receipts, grn, i) ==> FindReceipt(receipts, grn) == Some(receipts[i])
    ensures FindReceipt(receipts, grn).Some? ==> exists i :: FirstReceiptAt(receipts, grn, i)
  {
    if receipts != [] && receipts[0].grn == grn {
      assert FirstReceiptAt(receipts, grn, 0);
    } else if receipts != [] {
      FindReceiptIsFirst(receipts[1..], grn);
      forall i | FirstReceiptAt(receipts, grn, i)
        ensures FindReceipt(receipts, grn) == Some(receipts[i])
      {
        assert FirstReceiptAt(receipts[1..], grn, i - 1);
      }
      if FindReceipt(receipts, grn).Some? {
        var i :| FirstReceiptAt(receipts[1..], grn, i);
        assert FirstReceiptAt(receipts, grn, i + 1);
      }
    }
  }

  lemma ConditionsMean(invoice: Invoice, w: World)
    ensures IsDuplicate(invoice, w.all) <==> invoice.duplicateRisk || HasTwin(invoice, w.all)
    ensures ReceiptMissing(ReceiptOf(invoice, w.receipts)) <==> !GoodsAccepted(invoice, w.receipts)
    ensures OverBilled(invoice) <==> BillsMore(invoice)
    ensures RecordedVariance(invoice) <==> invoice.varianceType != NoVariance && invoice.varianceAmount != 0.0
  {
    assert IsDuplicate(invoice, w.all) <==> invoice.duplicateRisk || HasTwin(invoice, w.all) by {
      if i :| 0 <= i < |w.all| && TwinOf(invoice, w.all[i]) {
        assert HasTwin(invoice, w.all);
      }
      if HasTwin(invoice, w.all) {
        var i :| 0 <= i < |w.all| && w.all[i].id != invoice.id
                 && w.all[i].supplier == invoice.supplier && w.all[i].invoiceNumber == invoice.invoiceNumber;
        assert TwinOf(invoice, w.all[i]);
      }
    }
    assert OverBilled(invoice) <==> BillsMore(invoice) by {
      if i :| 0 <= i < |invoice.lines| && BilledOver(invoice.lines[i]) {
        assert BillsMore(invoice);
      }
      if BillsMore(invoice) {
        var i :| 0 <= i < |invoice.lines| && invoice.lines[i].receivedQty.Some?
                 && invoice.lines[i].quantity > invoice.lines[i].receivedQty.value;
        assert BilledOver(invoice.lines[i]);
      }
    }
    FindReceiptIsFirst(w.receipts, invoice.relatedGrn);
  }

  lemma ToleranceMeans(total: real, amount: real)
    ensures WithinTolerance(total, amount) <==> Agrees(total, amount)
  {
  }

  /** A match finds what is stated, and nothing else. */
  lemma MatchFindsAsStated(invoice: Invoice, w: World)
    ensures FoundAsStated(invoice, w, Match(invoice, w))
  {
    ConditionsMean(invoice, w);
    FindOrderIsFirst(w.orders, invoice.relatedPo);
    FindReceiptIsFirst(w.receipts, invoice.relatedGrn);
    ToleranceMeans(invoice.total, PoAmount(FindOrder(w.orders, invoice.relatedPo)));
    hide IsDuplicate, HasTwin, ReceiptMissing, GoodsAccepted, OverBilled, BillsMore, FindOrder, FindReceipt,
         WithinTolerance, Agrees, Round, ReceivedShare;
    RoundsToNearest(Portion(invoice.subtotal, ReceivedShare(invoice.lines)));
  }

  /**
   What an automatic match of an invoice not matched before takes, and is enough for it: no duplicate, the
   first order of that number with an amount that agrees, the first receipt of that name past inspection,
   no line billed for more than it received, and no variance recorded.
   */
  lemma MatchedAutomaticallyIff(invoice: Invoice, w: World)
    requires invoice.matchStatus != AutoMatched
    ensures Match(invoice, w).matchStatus == AutoMatched <==>
            exists o, amount :: NoObjection(invoice, w, o) && IsWorth(w.orders[o], amount)
                                && Agrees(invoice.total, amount)
  {
    var s := Match(invoice, w);
    MatchFindsAsStated(invoice, w);
    if s.matchStatus == AutoMatched {
      ConditionsMean(invoice, w);
      FindOrderIsFirst(w.orders, invoice.relatedPo);
      AutoMatchIff(invoice, w);
      var o :| FirstOrderAt(w.orders, invoice.relatedPo, o);
      assert NoObjection(invoice, w, o);
      assert IsWorth(w.orders[o], s.poAmount);
      hide Match;
    }
  }

  method CalculateInvoiceMatch(invoice: Invoice, w: World) returns (s: Snapshot)
    ensures s == Match(invoice, w)
    ensures forall rule :: Decides(rule, invoice, w) ==> s == SnapshotBy(rule, invoice, w)
    ensures s.matchStatus == AutoMatched <==>
            || InOrder(invoice, w)
            || (invoice.matchStatus == AutoMatched && Undisputed(invoice, w))
    ensures FoundAsStated(invoice, w, s)
    ensures Match(WrittenBack(invoice, s), w) == s
  {
    var po := FindOrder(w.orders, invoice.relatedPo);
    var grn := ReceiptOf(invoice, w.receipts);
    var duplicate := IsDuplicate(invoice, w.all);
    var poAmt := PoAmount(po);
    var grnAmt := GrnAmount(invoice.subtotal, invoice.lines, grn);
    var invoiceAmount := invoice.total;
    var varianceType := invoice.varianceType;
    var varianceAmount := Abs(invoice.varianceAmount);
    var matchStatus := invoice.matchStatus;
    var status := invoice.status;
    var poDelta := Abs(invoiceAmount - (if poAmt != 0.0 then poAmt * 1.13 else invoiceAmount));
    if duplicate {
      varianceType, varianceAmount := DuplicateInvoice, invoiceAmount;
      matchStatus, status := VariancePending, HasVariance;
    } else if po.None? {
      varianceType, varianceAmount := MissingOrder, invoiceAmount;
      matchStatus, status := VariancePending, HasVariance;
    } else if ReceiptMissing(grn) {
      varianceType, varianceAmount := MissingReceipt, invoiceAmount;
      matchStatus := if invoice.matchStatus == Unmatched then Unmatched else ManualReview;
      status := if invoice.status == Draft then AwaitingMatch else invoice.status;
    } else if OverBilled(invoice) {
      varianceType := QuantityVariance;
      varianceAmount := Max(varianceAmount, Abs(invoiceAmount - grnAmt * 1.13));
      matchStatus, status := VariancePending, HasVariance;
    } else if varianceType != NoVariance && varianceAmount > 0.0 {
      matchStatus := if varianceType in {FreightVariance, TaxVariance} then ManualReview else VariancePending;
      status := HasVariance;
    } else if poDelta <= AmountTolerance(poAmt) {
      varianceType, varianceAmount, matchStatus := NoVariance, 0.0, AutoMatched;
      if !invoice.postedToAp && invoice.status in {AwaitingMatch, Received} {
        status := Matched;
      }
    }
    s := Snapshot(poAmt, grnAmt, invoiceAmount, varianceAmount, varianceType, matchStatus, status);
    assert s == Match(invoice, w);
    hide Match, SnapshotBy, InOrder, Undisputed, Decides, FoundAsStated;
    forall rule | Decides(rule, invoice, w)
      ensures s == SnapshotBy(rule, invoice, w)
    {
      OneRuleDecides(invoice, w, rule);
      DecidedByRule(invoice, w);
    }
    AutoMatchIff(invoice, w);
    MatchFindsAsStated(invoice, w);
    MatchIsIdempotent(invoice, w);
  }

  lemma DecidedByRule(invoice: Invoice, w: World)
    ensures Match(invoice, w) == SnapshotBy(RuleFor(invoice, w), invoice, w)
  {
  }

  // ----- matching again

  /** The invoice with a snapshot's findings written back. */
  function WrittenBack(invoice: Invoice, s: Snapshot): Invoice {
    invoice.(varianceType := s.varianceType, varianceAmount := s.varianceAmount,
             matchStatus := s.matchStatus, status := s.status)
  }

  /** The same document, whatever has been found out about it. */
  predicate SameDocument(a: Invoice, b: Invoice) {
    b == a.(varianceType := b.varianceType, varianceAmount := b.varianceAmount,
            matchStatus := b.matchStatus, status := b.status)
  }

  predicate SameDocuments(all: seq<Invoice>, now: seq<Invoice>) {
    |all| == |now| && forall i :: 0 <= i < |all| ==> SameDocument(all[i], now[i])
  }

  /** Findings written into the list or into the invoice change none of the first four checks. */
  lemma FindingsKeepFacts(a: Invoice, b: Invoice, all: seq<Invoice>, now: seq<Invoice>)
    requires SameDocument(a, b) && SameDocuments(all, now)
    ensures IsDuplicate(a, all) <==> IsDuplicate(b, now)
    ensures OverBilled(a) <==> OverBilled(b)
  {
    assert forall i :: 0 <= i < |all| ==> (TwinOf(a, all[i]) <==> TwinOf(b, now[i])) by {
      assert forall i :: 0 <= i < |all| ==> SameDocument(all[i], now[i]);
    }
  }

  /** Matching is idempotent: matching the invoice with its findings written back finds the same again. */
  lemma MatchIsIdempotent(invoice: Invoice, w: World)
    ensures Match(WrittenBack(invoice, Match(invoice, w)), w) == Match(invoice, w)
  {
    MatchSettles(invoice, w, w.all);
  }

  /** The same with findings written into any of the other listed invoices as well. */
  lemma MatchSettles(invoice: Invoice, w: World, now: seq<Invoice>)
    requires SameDocuments(w.all, now)
    ensures Match(invoice, w.(all := now)) == Match(invoice, w)
    ensures Match(WrittenBack(invoice, Match(invoice, w)), w.(all := now)) == Match(invoice, w)
  {
    hide IsDuplicate, OverBilled, WithinTolerance, GrnAmount, FindOrder, FindReceipt, PoAmount;
    FindingsKeepFacts(invoice, invoice, w.all, now);
    FindingsKeepFacts(invoice, WrittenBack(invoice, Match(invoice, w)), w.all, now);
  }

  // ----- the register: one row matched after another

  predicate UniqueIds(all: seq<Invoice>) {
    forall i, j :: 0 <= i < |all| && 0 <= j < |all| && all[i].id == all[j].id ==> i == j
  }

  /** The register after row i is matched: the rows with its id take over the findings. */
  function Refreshed(w: World, i: nat): (all: seq<Invoice>)
    requires i < |w.all|
    ensures |all| == |w.all|
  {
    var s := Match(w.all[i], w);
    seq(|w.all|, k requires 0 <= k < |w.all| =>
                   if w.all[k].id == w.all[i].id then WrittenBack(w.all[k], s) else w.all[k])
  }

  /** The register after the rows in `clicks` are matched one after another, repetitions allowed. */
  function AfterClicks(w: World, clicks: seq<nat>): (all: seq<Invoice>)
    requires forall n :: 0 <= n < |clicks| ==> clicks[n] < |w.all|
    ensures |all| == |w.all|
  {
    if clicks == [] then w.all
    else Refreshed(w.(all := AfterClicks(w, clicks[..|clicks| - 1])), clicks[|clicks| - 1])
  }

  /** What row i holds once the rows in `clicks` have been matched, in whatever order. */
  function SettledRow(w: World, clicks: seq<nat>, i: nat): Invoice
    requires i < |w.all|
  {
    if i in clicks then WrittenBack(w.all[i], Match(w.all[i], w)) else w.all[i]
  }

  /**
   Matching the rows of a register one after another, in any order and any number of times, leaves each
   row as if it alone had been matched against the register at the start; every row's snapshot stays.
   */
  lemma {:induction false} RegisterSettles(w: World, clicks: seq<nat>)
    requires UniqueIds(w.all) && forall n :: 0 <= n < |clicks| ==> clicks[n] < |w.all|
    ensures var now := AfterClicks(w, clicks);
            && SameDocuments(w.all, now)
            && forall i :: 0 <= i < |w.all| ==>
                 now[i] == SettledRow(w, clicks, i) && Match(now[i], w.(all := now)) == Match(w.all[i], w)
  {
    hide Match, UniqueIds;
    var now := AfterClicks(w, clicks);
    if clicks != [] {
      var n := |clicks| - 1;
      RegisterSettles(w, clicks[..n]);
      ClickSettles(w, clicks[..n], clicks[n]);
      assert clicks == clicks[..n] + [clicks[n]];
    }
    assert SameDocuments(w.all, now);
    forall i | 0 <= i < |w.all|
      ensures Match(now[i], w.(all := now)) == Match(w.all[i], w)
    {
      MatchSettles(w.all[i], w, now);
    }
  }

  lemma ClickSettles(w: World, clicks: seq<nat>, c: nat)
    requires UniqueIds(w.all) && (forall n :: 0 <= n < |clicks| ==> clicks[n] < |w.all|) && c < |w.all|
    requires var now := AfterClicks(w, clicks);
             forall i :: 0 <= i < |w.all| ==>
               now[i] == SettledRow(w, clicks, i) && Match(now[i], w.(all := now)) == Match(w.all[i], w)
    ensures var next := Refreshed(w.(all := AfterClicks(w, clicks)), c);
            forall i :: 0 <= i < |w.all| ==> next[i] == SettledRow(w, clicks + [c], i)
  {
    hide Match;
    var now := AfterClicks(w, clicks);
    var next := Refreshed(w.(all := now), c);
    forall i | 0 <= i < |w.all|
      ensures next[i] == SettledRow(w, clicks + [c], i)
    {
      assert now[i].id == w.all[i].id && now[c].id == w.all[c].id;
      assert i in clicks + [c] <==> i in clicks || i == c;
    }
  }

  // ----- when an invoice is matched automatically

  /** No rule before the tolerance check holds the invoice back. */
  predicate Undisputed(invoice: Invoice, w: World) {
    && !IsDuplicate(invoice, w.all)
    && FindOrder(w.orders, invoice.relatedPo).Some?
    && !ReceiptMissing(ReceiptOf(invoice, w.receipts))
    && !OverBilled(invoice)
    && !RecordedVariance(invoice)
  }

  /** Everything that has to be in order for an automatic match. */
  predicate InOrder(invoice: Invoice, w: World) {
    var amount := PoAmount(FindOrder(w.orders, invoice.relatedPo));
    && Undisputed(invoice, w)
    && (amount != 0.0 ==>
          && Abs(invoice.total - 1.13 * amount) <= 1000.0
          && Abs(invoice.total - 1.13 * amount) <= 0.01 * Abs(amount))
  }

  /** An invoice ends up matched automatically if all is in order, or if it was and only the total is off. */
  lemma AutoMatchIff(invoice: Invoice, w: World)
    ensures Match(invoice, w).matchStatus == AutoMatched <==>
            || InOrder(invoice, w)
            || (invoice.matchStatus == AutoMatched && Undisputed(invoice, w))
  {
    hide IsDuplicate, OverBilled, ReceivedShare, FindOrder, FindReceipt, PoAmount, Round, GrnAmount;
    var amount := PoAmount(FindOrder(w.orders, invoice.relatedPo));
    assert amount * 1.13 == 1.13 * amount && Abs(amount) * 0.01 == 0.01 * Abs(amount);
  }

  /** An order without an amount puts no bound on the invoice: any total is matched automatically. */
  lemma ZeroOrderMatchesAnyTotal(invoice: Invoice, w: World, total: real)
    requires InOrder(invoice, w) && PoAmount(FindOrder(w.orders, invoice.relatedPo)) == 0.0
    ensures Match(invoice.(total := total), w).matchStatus == AutoMatched
  {
    var other := invoice.(total := total);
    assert forall twin :: TwinOf(other, twin) <==> TwinOf(invoice, twin);
    assert IsDuplicate(other, w.all) <==> IsDuplicate(invoice, w.all);
    assert OverBilled(other) <==> OverBilled(invoice);
    hide IsDuplicate, OverBilled, ReceivedShare, FindOrder, FindReceipt, PoAmount, Round, GrnAmount;
  }

  /** Of two listed invoices with the same supplier and number, neither gets through. */
  lemma TwinsAreBothRejected(a: Invoice, b: Invoice, w: World)
    requires a in w.all && b in w.all && TwinOf(a, b)
    ensures forall twin :: twin in {a, b} ==>
              var s := Match(twin, w);
              s.varianceType == DuplicateInvoice && s.matchStatus == VariancePending
              && s.status == HasVariance && s.varianceAmount == twin.total
  {
    var i :| 0 <= i < |w.all| && w.all[i] == a;
    var j :| 0 <= j < |w.all| && w.all[j] == b;
    assert TwinOf(a, w.all[j]) && TwinOf(b, w.all[i]);
    assert IsDuplicate(a, w.all) && IsDuplicate(b, w.all);
    hide IsDuplicate, OverBilled, ReceivedShare, FindOrder, FindReceipt, PoAmount, Round, GrnAmount;
  }

  // ----- whole runs: matching again whenever the data has changed

  /** The invoice after it was matched, and its findings written back, in one world after another. */
  function AfterRuns(invoice: Invoice, worlds: seq<World>): Invoice {
    if worlds == [] then invoice
    else
      var before := AfterRuns(invoice, worlds[..|worlds| - 1]);
      WrittenBack(before, Match(before, worlds[|worlds| - 1]))
  }

  /** A recorded variance of an invoice over more than nothing. */
  predicate Stuck(invoice: Invoice) {
    RecordedVariance(invoice) && invoice.total != 0.0
  }

  /** What no run can change and no automatic match can do without. */
  predicate Matchable(invoice: Invoice) {
    !invoice.duplicateRisk && invoice.relatedGrn != "" && !OverBilled(invoice)
  }

  lemma RunKeeps(invoice: Invoice, w: World)
    ensures var next := WrittenBack(invoice, Match(invoice, w));
            && SameDocument(invoice, next)
            && (Stuck(invoice) ==> Stuck(next) && next.matchStatus != AutoMatched)
            && (next.matchStatus == AutoMatched ==> Matchable(invoice) || invoice.matchStatus == AutoMatched)
            && (Matchable(next) <==> Matchable(invoice))
  {
    hide OverBilled, ReceivedShare, FindOrder, FindReceipt, PoAmount, Round, GrnAmount, WithinTolerance;
    FindingsKeepFacts(invoice, WrittenBack(invoice, Match(invoice, w)), w.all, w.all);
  }

  /** Whatever happens to the data, a recorded variance is never matched away, nor an unmatchable invoice. */
  lemma {:induction false} RunsKeep(invoice: Invoice, worlds: seq<World>)
    requires invoice.matchStatus != AutoMatched && (Stuck(invoice) || !Matchable(invoice))
    ensures var now := AfterRuns(invoice, worlds);
            && SameDocument(invoice, now) && (Stuck(invoice) ==> Stuck(now))
            && (Matchable(now) <==> Matchable(invoice)) && now.matchStatus != AutoMatched
  {
    hide Stuck, Matchable, Match, WrittenBack;
    if worlds != [] {
      var n := |worlds| - 1;
      RunsKeep(invoice, worlds[..n]);
      RunKeeps(AfterRuns(invoice, worlds[..n]), worlds[n]);
    }
  }

  /** Some run, over whatever orders, receipts and invoices, ends in an automatic match. */
  ghost predicate CanBeMatched(invoice: Invoice) {
    exists worlds: seq<World> :: AfterRuns(invoice, worlds).matchStatus == AutoMatched
  }

  /**
   An invoice not yet matched can still be matched automatically, by any later run, exactly if it is
   matchable and has no recorded variance, unless its total is zero.
   */
  lemma CanBeMatchedIff(invoice: Invoice)
    requires invoice.matchStatus != AutoMatched
    ensures CanBeMatched(invoice) <==> Matchable(invoice) && !Stuck(invoice)
  {
    hide AfterRuns, Matchable, Stuck;
    if Matchable(invoice) && !Stuck(invoice) {
      var worlds := SomeRunMatches(invoice);
    } else {
      forall worlds: seq<World>
        ensures AfterRuns(invoice, worlds).matchStatus != AutoMatched
      {
        RunsKeep(invoice, worlds);
      }
    }
  }

  /** A world in which nothing is known, and one in which the order is open and the goods are in. */
  const EMPTY_WORLD := World([], [], [])

  function GoodWorld(invoice: Invoice): World {
    World([Order(invoice.relatedPo, None, None)], [Receipt(invoice.relatedGrn, PastInspection)], [])
  }

  lemma GoodWorldMatches(invoice: Invoice)
    requires Matchable(invoice) && !RecordedVariance(invoice)
    ensures Match(invoice, GoodWorld(invoice)).matchStatus == AutoMatched
  {
    hide OverBilled, ReceivedShare, Round, GrnAmount;
  }

  lemma EmptyWorldClears(invoice: Invoice)
    requires Matchable(invoice) && invoice.total == 0.0
    ensures var next := WrittenBack(invoice, Match(invoice, EMPTY_WORLD));
            !RecordedVariance(next) && Matchable(next) && GoodWorld(next) == GoodWorld(invoice)
  {
    hide OverBilled, ReceivedShare, Round, GrnAmount;
    FindingsKeepFacts(invoice, WrittenBack(invoice, Match(invoice, EMPTY_WORLD)), [], []);
  }

  lemma SomeRunMatches(invoice: Invoice) returns (worlds: seq<World>)
    requires Matchable(invoice) && !Stuck(invoice)
    ensures AfterRuns(invoice, worlds).matchStatus == AutoMatched
  {
    hide Match, Matchable, RecordedVariance, GoodWorld;
    var good := GoodWorld(invoice);
    if RecordedVariance(invoice) {
      worlds := [EMPTY_WORLD, good];
      assert worlds[..1] == [EMPTY_WORLD] && [EMPTY_WORLD][..0] == [];
      EmptyWorldClears(invoice);
      assert AfterRuns(invoice, []) == invoice;
      var next := AfterRuns(invoice, [EMPTY_WORLD]);
      GoodWorldMatches(next);
    } else {
      worlds := [good];
      assert AfterRuns(invoice, worlds[..0]) == invoice;
      GoodWorldMatches(invoice);
    }
  }

  // ----- whole runs in which the invoice itself is corrected as well

  /** A correction of the document, keeping what was found out about it, and then a match. */
  datatype Step = Step(document: Invoice, world: World)

  function Corrected(invoice: Invoice, document: Invoice): Invoice {
    document.(varianceType := invoice.varianceType, varianceAmount := invoice.varianceAmount,
              matchStatus := invoice.matchStatus, status := invoice.status)
  }

  function AfterSteps(invoice: Invoice, steps: seq<Step>): Invoice {
    if steps == [] then invoice
    else
      var n := |steps| - 1;
      var now := Corrected(AfterSteps(invoice, steps[..n]), steps[n].document);
      WrittenBack(now, Match(now, steps[n].world))
  }

  predicate AllTotal(steps: seq<Step>, total: real) {
    forall i :: 0 <= i < |steps| ==> steps[i].document.total == total
  }

  lemma StepKeeps(invoice: Invoice, step: Step)
    requires RecordedVariance(invoice) && step.document.total != 0.0
    ensures var now := Corrected(invoice, step.document);
            var next := WrittenBack(now, Match(now, step.world));
            RecordedVariance(next) && next.matchStatus != AutoMatched
  {
    hide IsDuplicate, OverBilled, ReceivedShare, FindOrder, FindReceipt, PoAmount, Round, GrnAmount, WithinTolerance;
  }

  /** Whatever is corrected but the total, a recorded variance stays recorded and is never matched away. */
  lemma {:induction false} StepsKeep(invoice: Invoice, steps: seq<Step>)
    requires RecordedVariance(invoice) && invoice.matchStatus != AutoMatched
    requires invoice.total != 0.0 && AllTotal(steps, invoice.total)
    ensures RecordedVariance(AfterSteps(invoice, steps)) && AfterSteps(invoice, steps).matchStatus != AutoMatched
  {
    hide RecordedVariance, Match, WrittenBack, Corrected;
    if steps != [] {
      var n := |steps| - 1;
      StepsKeep(invoice, steps[..n]);
      StepKeeps(AfterSteps(invoice, steps[..n]), steps[n]);
    }
  }

  /** Some run of corrections and matches that leaves the total alone ends in an automatic match. */
  ghost predicate CanBeCorrected(invoice: Invoice) {
    exists steps: seq<Step> :: AllTotal(steps, invoice.total) && AfterSteps(invoice, steps).matchStatus == AutoMatched
  }

  /** The invoice with everything but total and findings put right. */
  function PutRight(invoice: Invoice): Invoice {
    invoice.(relatedGrn := "GRN", duplicateRisk := false, lines := [])
  }

  lemma PutRightIsMatchable(invoice: Invoice)
    ensures Matchable(PutRight(invoice))
  {
  }

  /** An invoice not yet matched can still be corrected exactly if it has no recorded variance or no total. */
  lemma CanBeCorrectedIff(invoice: Invoice)
    requires invoice.matchStatus != AutoMatched
    ensures CanBeCorrected(invoice) <==> !(RecordedVariance(invoice) && invoice.total != 0.0)
  {
    hide AfterSteps, Matchable, AllTotal, RecordedVariance;
    if RecordedVariance(invoice) && invoice.total != 0.0 {
      forall steps: seq<Step> | AllTotal(steps, invoice.total)
        ensures AfterSteps(invoice, steps).matchStatus != AutoMatched
      {
        StepsKeep(invoice, steps);
      }
    } else {
      var steps := SomeStepsMatch(invoice);
    }
  }

  lemma SomeStepsMatch(invoice: Invoice) returns (steps: seq<Step>)
    requires !(RecordedVariance(invoice) && invoice.total != 0.0)
    ensures AllTotal(steps, invoice.total) && AfterSteps(invoice, steps).matchStatus == AutoMatched
  {
    hide Match, Matchable, RecordedVariance;
    var right := PutRight(invoice);
    var first, last := Step(right, EMPTY_WORLD), Step(right, GoodWorld(right));
    PutRightIsMatchable(invoice);
    assert RecordedVariance(right) <==> RecordedVariance(invoice) by {
      RightKeepsVariance(invoice);
    }
    assert AfterSteps(invoice, []) == invoice && Corrected(invoice, right) == right;
    if RecordedVariance(invoice) {
      steps := [first, last];
      assert steps[..1] == [first] && [first][..0] == [];
      EmptyWorldClears(right);
      var next := AfterSteps(invoice, [first]);
      assert next == WrittenBack(right, Match(right, EMPTY_WORLD)) && Corrected(next, right) == next;
      GoodWorldMatches(next);
    } else {
      steps := [last];
      assert steps[..0] == [];
      GoodWorldMatches(right);
    }
  }

  lemma RightKeepsVariance(invoice: Invoice)
    ensures RecordedVariance(PutRight(invoice)) <==> RecordedVariance(invoice)
  {
  }

  /** A finding written back can be cleared, leaving the total alone, exactly if its amount or the total is 0. */
  lemma FindingSticksIff(invoice: Invoice, w: World)
    requires Match(invoice, w).varianceType != NoVariance && Match(invoice, w).matchStatus != AutoMatched
    ensures CanBeCorrected(WrittenBack(invoice, Match(invoice, w)))
       <==> Match(invoice, w).varianceAmount == 0.0 || invoice.total == 0.0
  {
    hide Match, CanBeCorrected;
    CanBeCorrectedIff(WrittenBack(invoice, Match(invoice, w)));
  }

  /** Billed for more than was received, but by an amount that agrees with what was received. */
  const HALF_RECEIVED := Line(10.0, Some(5.0), Some(5.0), None)
  const ALL_RECEIVED := Line(10.0, Some(5.0), Some(10.0), None)

  const AGREEING := Invoice("I", "N", "S", "P", "G", 100.0, 113.0, AwaitingMatch, Unmatched, NoVariance, 0.0,
                            false, false, [HALF_RECEIVED])

  const AGREED_WORLD := World([Order("P", Some(100.0), None)], [Receipt("G", PastInspection)], [])

  /** A finding over no amount does not stick: correct the received quantity, and the invoice is matched. */
  lemma FindingOverNothingClears()
    ensures var s := Match(AGREEING, AGREED_WORLD);
            var corrected := WrittenBack(AGREEING, s).(lines := [ALL_RECEIVED]);
            && s.varianceType == QuantityVariance && s.varianceAmount == 0.0 && AGREEING.total != 0.0
            && Match(corrected, AGREED_WORLD).matchStatus == AutoMatched
  {
    assert AGREEING.lines[0] == HALF_RECEIVED && BilledOver(HALF_RECEIVED);
    assert ShareSum([HALF_RECEIVED]) == ShareSum([HALF_RECEIVED][..0]) + LineShare(HALF_RECEIVED);
    assert GrnAmount(100.0, [HALF_RECEIVED], Some(Receipt("G", PastInspection))) == 100.0;
    assert RuleFor(AGREEING, AGREED_WORLD) == Quantity;
    var corrected := WrittenBack(AGREEING, Match(AGREEING, AGREED_WORLD)).(lines := [ALL_RECEIVED]);
    assert !OverBilled(corrected);
    assert RuleFor(corrected, AGREED_WORLD) == Auto;
  }

  // ----- the received amount

  /** Halves are rounded up. */
  lemma RoundsToNearest(a: real)
    ensures -0.5 < Round(a) - a <= 0.5
    ensures Round(a).Floor as real == Round(a)
  {
    assert RoundInt(a) as real == Round(a);
  }

  /**
   Received against ordered quantity: an ordered quantity of 0 gives way to the billed one, a missing
   received quantity to the matched one, and more than was ordered counts as all of it.
   */
  lemma LineShareMeans(line: Line, ordered: real, received: real)
    requires (line.orderedQty == Some(ordered) && ordered != 0.0)
             || (line.orderedQty in {None, Some(0.0)} && ordered == line.quantity)
    requires line.receivedQty == Some(received)
             || (line.receivedQty.None? && line.matchedQty == Some(received))
             || (line.receivedQty.None? && line.matchedQty.None? && received == 0.0)
    ensures ordered <= 0.0 ==> LineShare(line) == 1.0
    ensures 0.0 < ordered <= received ==> LineShare(line) == 1.0
    ensures ordered > 0.0 && received <= ordered ==> LineShare(line) * ordered == received
  {
    if ordered > 0.0 {
      Compare(received / ordered, ordered, received);
    }
  }

  /** Every line's share counts once. */
  lemma {:induction false} SharesAdd(a: seq<Line>, b: seq<Line>)
    ensures ShareSum(a + b) == ShareSum(a) + ShareSum(b)
  {
    if b == [] {
      assert a + b == a;
    } else {
      var n := |b| - 1;
      SharesAdd(a, b[..n]);
      assert (a + b)[..|a| + n] == a + b[..n];
    }
  }

  /** The received amount is the subtotal by the mean share, to the nearest unit. */
  lemma GrnAmountMeans(subtotal: real, lines: seq<Line>, grn: Receipt)
    requires lines != []
    ensures ReceivedShare(lines) * |lines| as real == ShareSum(lines)
    ensures -0.5 < GrnAmount(subtotal, lines, Some(grn)) - subtotal * ReceivedShare(lines) <= 0.5
    ensures GrnAmount(subtotal, [], Some(grn)) == 0.0
  {
    hide Round;
    var n := |lines| as real;
    assert ShareSum(lines) / n * n == ShareSum(lines);
    RoundsToNearest(Portion(subtotal, ReceivedShare(lines)));
    RoundOfNothing();
    assert Portion(subtotal, ReceivedShare([])) == 0.0;
  }

  predicate SensibleLines(lines: seq<Line>) {
    forall i :: 0 <= i < |lines| ==> ReceivedOf(lines[i]) >= 0.0
  }

  predicate FullyReceived(line: Line) {
    OrderedOf(line) <= 0.0 || ReceivedOf(line) >= OrderedOf(line)
  }

  predicate AllReceived(lines: seq<Line>) {
    forall i :: 0 <= i < |lines| ==> FullyReceived(lines[i])
  }

  lemma ShareOfLine(line: Line)
    ensures LineShare(line) <= 1.0 && (LineShare(line) == 1.0 <==> FullyReceived(line))
    ensures ReceivedOf(line) >= 0.0 ==> LineShare(line) >= 0.0
  {
    var ordered, received := OrderedOf(line), ReceivedOf(line);
    if ordered > 0.0 {
      assert received / ordered * ordered == received;
      Compare(received / ordered, ordered, received);
    }
  }

  lemma Compare(q: real, ordered: real, received: real)
    requires ordered > 0.0 && q * ordered == received
    ensures (received >= 0.0 ==> q >= 0.0) && (q >= 1.0 <==> received >= ordered)
  {
    if q >= 1.0 {
      assert (q - 1.0) * ordered >= 0.0;
    } else {
      assert (1.0 - q) * ordered > 0.0;
    }
  }

  lemma {:induction false} SharesAreBounded(lines: seq<Line>)
    ensures ShareSum(lines) <= |lines| as real
    ensures SensibleLines(lines) ==> ShareSum(lines) >= 0.0
    ensures ShareSum(lines) == |lines| as real <==> AllReceived(lines)
  {
    hide FullyReceived;
    if lines != [] {
      var n := |lines| - 1;
      assert forall i :: 0 <= i < n ==> lines[..n][i] == lines[i];
      SharesAreBounded(lines[..n]);
      ShareOfLine(lines[n]);
      assert |lines| as real == n as real + 1.0;
      assert AllReceived(lines) <==> AllReceived(lines[..n]) && FullyReceived(lines[n]);
    }
  }

  /** The received share is at most 1, and 1 exactly when there are lines and all are fully received. */
  lemma ReceivedShareIsAShare(lines: seq<Line>)
    ensures ReceivedShare(lines) <= 1.0
    ensures ReceivedShare(lines) == 1.0 <==> lines != [] && AllReceived(lines)
    ensures SensibleLines(lines) ==> ReceivedShare(lines) >= 0.0
  {
    hide AllReceived, SensibleLines;
    SharesAreBounded(lines);
    if lines == [] {
      assert ShareSum(lines) == 0.0;
    } else {
      var n := |lines| as real;
      assert ShareSum(lines) / n * n == ShareSum(lines);
      Compare(ShareSum(lines) / n, n, ShareSum(lines));
    }
  }

  /** The received amount is bounded by the rounded subtotal, and is all of it if all is received. */
  lemma GrnAmountIsBounded(subtotal: real, lines: seq<Line>, grn: Receipt)
    ensures subtotal >= 0.0 ==> GrnAmount(subtotal, lines, Some(grn)) <= Round(subtotal)
    ensures subtotal <= 0.0 ==> GrnAmount(subtotal, lines, Some(grn)) >= Round(subtotal)
    ensures subtotal >= 0.0 && SensibleLines(lines) ==> GrnAmount(subtotal, lines, Some(grn)) >= 0.0
    ensures subtotal <= 0.0 && SensibleLines(lines) ==> GrnAmount(subtotal, lines, Some(grn)) <= 0.0
    ensures lines != [] && AllReceived(lines) ==> GrnAmount(subtotal, lines, Some(grn)) == Round(subtotal)
  {
    hide AllReceived, SensibleLines, Round, ReceivedShare;
    ReceivedShareIsAShare(lines);
    var share := ReceivedShare(lines);
    var part := Portion(subtotal, share);
    PortionBound(subtotal, share);
    RoundOfNothing();
    RoundIsMonotone(part, subtotal);
    RoundIsMonotone(subtotal, part);
    RoundIsMonotone(0.0, part);
    RoundIsMonotone(part, 0.0);
  }

  lemma RoundOfNothing()
    ensures Round(0.0) == 0.0
  {
  }

  lemma RoundIsMonotone(a: real, b: real)
    ensures a <= b ==> Round(a) <= Round(b)
  {
    assert a <= b ==> RoundInt(a) <= RoundInt(b);
  }

  lemma PortionBound(subtotal: real, share: real)
    requires share <= 1.0
    ensures subtotal >= 0.0 ==> Portion(subtotal, share) <= subtotal
    ensures subtotal <= 0.0 ==> Portion(subtotal, share) >= subtotal
    ensures subtotal >= 0.0 && share >= 0.0 ==> Portion(subtotal, share) >= 0.0
    ensures subtotal <= 0.0 && share >= 0.0 ==> Portion(subtotal, share) <= 0.0
    ensures share == 1.0 ==> Portion(subtotal, share) == subtotal
  {
    var gap := subtotal * (1.0 - share);
    assert Portion(subtotal, share) == subtotal - gap;
  }
}
