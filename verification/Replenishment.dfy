/** Replenishment planning of src/domain/inventory/planning.ts, with quantities over the reals. */
module Replenishment {
  import opened Numbers

  datatype Item = Item(qty: real, min: real, max: real)

  /** `reserved` is the source's `allocated`. */
  datatype Profile = Profile(
    monthlyDemand: real,
    leadTimeDays: real,
    moq: real,
    batchMultiple: real,
    reserved: real,
    inbound: real,
    qaHold: real)

  datatype Priority = Low | Medium | High {
    function Rank(): nat {
      match this
      case Low => 0
      case Medium => 1
      case High => 2
    }
  }

  datatype Plan = Plan(
    projected: real,
    daysCover: int,
    reorderPoint: real,
    target: real,
    suggested: real,
    priority: Priority)

  function Ceil(x: real): int {
    -(-x).Floor
  }

  function RoundUpToBatch(value: real, moq: real, batchMultiple: real): real
    requires batchMultiple != 0.0
  {
    if value <= 0.0 then 0.0 else Ceil(Max(value, moq) / batchMultiple) as real * batchMultiple
  }

  function OnHand(item: Item, p: Profile): real {
    Max(0.0, item.qty - p.reserved - p.qaHold)
  }

  function Projected(item: Item, p: Profile): real {
    Max(0.0, OnHand(item, p) + p.inbound)
  }

  function DaysCover(projected: real, monthlyDemand: real): int {
    var daily := monthlyDemand / 30.0;
    if daily > 0.0 then (projected / daily).Floor else 999
  }

  function LeadDemand(monthlyDemand: real, leadTimeDays: real): int {
    Ceil(monthlyDemand / 30.0 * leadTimeDays)
  }

  /** Demand over the lead time, rounded up, on top of the minimum. */
  function ReorderLevel(min: real, monthlyDemand: real, leadTimeDays: real): real {
    Ceil(LeadDemand(monthlyDemand, leadTimeDays) as real + min) as real
  }

  function TargetLevel(min: real, max: real, monthlyDemand: real, leadTimeDays: real): real {
    Min(max, Max(ReorderLevel(min, monthlyDemand, leadTimeDays) + Ceil(monthlyDemand * 0.5) as real, min * 2.0))
  }

  function ReorderPoint(item: Item, p: Profile): real {
    ReorderLevel(item.min, p.monthlyDemand, p.leadTimeDays)
  }

  function Target(item: Item, p: Profile): real {
    TargetLevel(item.min, item.max, p.monthlyDemand, p.leadTimeDays)
  }

  /** What is missing up to the target, once the projection is below the reorder point. */
  function Shortfall(item: Item, p: Profile): real {
    var projected := Projected(item, p);
    if projected < ReorderPoint(item, p) then Target(item, p) - projected else 0.0
  }

  function PriorityOf(item: Item, p: Profile): Priority {
    var projected := Projected(item, p);
    var days := DaysCover(projected, p.monthlyDemand) as real;
    if projected <= item.min || days <= p.leadTimeDays then High
    else if projected <= ReorderPoint(item, p) || days <= p.leadTimeDays + 7.0 then Medium
    else Low
  }

  function InventoryPlan(item: Item, p: Profile): Plan
    requires p.batchMultiple != 0.0
  {
    var projected := Projected(item, p);
    Plan(projected, DaysCover(projected, p.monthlyDemand), ReorderPoint(item, p), Target(item, p),
         RoundUpToBatch(Shortfall(item, p), p.moq, p.batchMultiple), PriorityOf(item, p))
  }

  // ----- rounding up

  lemma CeilIsLeast(x: real, k: int)
    ensures Ceil(x) as real >= x
    ensures k as real >= x ==> k >= Ceil(x)
  {
  }

  lemma NextWhole(x: real)
    ensures (Ceil(x) - 1) as real < x <= Ceil(x) as real
  {
  }

  lemma TimesBatch(x: real, q: real, y: real, batch: real)
    requires batch > 0.0 && q * batch == x
    ensures y >= q <==> y * batch >= x
  {
    if y >= q {
      assert (y - q) * batch >= 0.0;
    } else {
      assert (q - y) * batch > 0.0;
    }
  }

  /** A suggestion is zero, or the least multiple of the batch that covers the shortfall and the MOQ. */
  lemma SuggestionIsLeastBatch(value: real, moq: real, batch: real, j: int)
    requires batch > 0.0
    ensures var s := RoundUpToBatch(value, moq, batch);
            && (value <= 0.0 ==> s == 0.0)
            && (value > 0.0 ==>
                  && s >= value && s >= moq && s > 0.0
                  && s == Ceil(Max(value, moq) / batch) as real * batch
                  && (j as real * batch >= value && j as real * batch >= moq ==> j as real * batch >= s))
  {
    if value > 0.0 {
      var floor := Max(value, moq);
      var q := floor / batch;
      assert q * batch == floor;
      CeilIsLeast(q, j);
      TimesBatch(floor, q, Ceil(q) as real, batch);
      TimesBatch(floor, q, j as real, batch);
      if j >= Ceil(q) {
        assert (j - Ceil(q)) as real * batch >= 0.0;
        assert (j - Ceil(q)) as real == j as real - Ceil(q) as real;
        assert (j as real - Ceil(q) as real) * batch == j as real * batch - Ceil(q) as real * batch;
      }
    }
  }

  lemma RoundingIsMonotone(a: real, b: real, moq: real, batch: real)
    requires batch > 0.0 && a <= b
    ensures RoundUpToBatch(a, moq, batch) <= RoundUpToBatch(b, moq, batch)
  {
    if b > 0.0 {
      var k := Ceil(Max(b, moq) / batch);
      SuggestionIsLeastBatch(b, moq, batch, k);
      SuggestionIsLeastBatch(a, moq, batch, k);
    }
  }

  // ----- what a plan says

  /** Stock neither allocated nor on hold, and what is inbound, each time cut at zero. */
  lemma ProjectionMeans(item: Item, p: Profile)
    requires p.batchMultiple != 0.0
    ensures var free := item.qty - p.reserved - p.qaHold;
            var projected := InventoryPlan(item, p).projected;
            && projected >= 0.0
            && (free >= 0.0 && free + p.inbound >= 0.0 ==> projected == free + p.inbound)
            && (free < 0.0 && p.inbound >= 0.0 ==> projected == p.inbound)
            && ((free < 0.0 || free + p.inbound < 0.0) && p.inbound < 0.0 ==> projected == 0.0)
  {
  }

  /** The whole days the projection lasts at a thirtieth of the monthly demand a day. */
  lemma CoverMeans(item: Item, p: Profile)
    requires p.batchMultiple != 0.0
    ensures var plan := InventoryPlan(item, p);
            if p.monthlyDemand <= 0.0 then plan.daysCover == 999
            else plan.daysCover as real * p.monthlyDemand <= 30.0 * plan.projected
                 && 30.0 * plan.projected < (plan.daysCover + 1) as real * p.monthlyDemand
  {
    hide Projected, DaysCover, ReorderPoint, Target, RoundUpToBatch, Shortfall, PriorityOf;
    var days := DaysCover(Projected(item, p), p.monthlyDemand);
    if p.monthlyDemand > 0.0 {
      WholeDays(Projected(item, p), p.monthlyDemand, days);
    } else {
      NoDemand(Projected(item, p), p.monthlyDemand);
    }
  }

  lemma NoDemand(projected: real, monthlyDemand: real)
    requires monthlyDemand <= 0.0
    ensures DaysCover(projected, monthlyDemand) == 999
  {
  }

  lemma WholeDays(projected: real, monthlyDemand: real, days: int)
    requires monthlyDemand > 0.0 && days == DaysCover(projected, monthlyDemand)
    ensures days as real * monthlyDemand <= 30.0 * projected < (days + 1) as real * monthlyDemand
  {
    var daily := monthlyDemand / 30.0;
    var q := projected / daily;
    assert q * daily == projected;
    TimesThirty(daily, q, monthlyDemand, projected);
    Between(days as real, (days + 1) as real, q, monthlyDemand, 30.0 * projected);
  }

  lemma TimesThirty(daily: real, q: real, monthly: real, x: real)
    requires monthly == 30.0 * daily && x == daily * q
    ensures monthly * q == 30.0 * x
  {
  }

  lemma Between(k: real, next: real, q: real, batch: real, x: real)
    requires batch > 0.0 && k <= q < next && x == batch * q
    ensures k * batch <= x < next * batch
  {
    var below, above := q - k, next - q;
    assert below * batch >= 0.0 && above * batch > 0.0;
    assert below * batch == x - k * batch;
    assert above * batch == next * batch - x;
  }

  /**
   The reorder point covers the demand of the lead time, in whole units, and the minimum; the target half a
   month more, in whole units, but at least twice the minimum and never more than the maximum.
   */
  lemma LevelsMean(item: Item, p: Profile) returns (lead: int, half: int)
    requires p.batchMultiple != 0.0
    ensures var plan := InventoryPlan(item, p);
            && 30.0 * (lead - 1) as real < p.monthlyDemand * p.leadTimeDays <= 30.0 * lead as real
            && (half - 1) as real < 0.5 * p.monthlyDemand <= half as real
            && plan.reorderPoint == plan.reorderPoint.Floor as real
            && plan.reorderPoint - 1.0 < lead as real + item.min <= plan.reorderPoint
            && var wanted := if plan.reorderPoint + half as real >= 2.0 * item.min then plan.reorderPoint + half as real
                             else 2.0 * item.min;
               plan.target == if wanted <= item.max then wanted else item.max
  {
    lead, half := LeadDemand(p.monthlyDemand, p.leadTimeDays), Ceil(p.monthlyDemand * 0.5);
    LeadMeans(p.monthlyDemand, p.leadTimeDays);
    NextWhole(p.monthlyDemand * 0.5);
    NextWhole(lead as real + item.min);
    hide Ceil, LeadDemand, Projected, DaysCover, PriorityOf, RoundUpToBatch, Shortfall;
  }

  lemma LeadMeans(monthlyDemand: real, leadTimeDays: real)
    ensures var lead := LeadDemand(monthlyDemand, leadTimeDays);
            30.0 * (lead - 1) as real < monthlyDemand * leadTimeDays <= 30.0 * lead as real
  {
    hide Ceil;
    var need := monthlyDemand / 30.0 * leadTimeDays;
    TimesThirty(monthlyDemand / 30.0, leadTimeDays, monthlyDemand, need);
    NextWhole(need);
  }

  /** Nothing at or above the reorder point; below it what is missing, in whole batches, and the MOQ at least. */
  lemma SuggestionMeans(item: Item, p: Profile, j: int) returns (batches: int)
    requires p.batchMultiple > 0.0
    ensures var plan := InventoryPlan(item, p);
            var missing := plan.target - plan.projected;
            if plan.projected >= plan.reorderPoint || missing <= 0.0 then plan.suggested == 0.0
            else
              && plan.suggested == batches as real * p.batchMultiple
              && plan.suggested >= missing && plan.suggested >= p.moq
              && (j as real * p.batchMultiple >= missing && j as real * p.batchMultiple >= p.moq ==>
                    j as real * p.batchMultiple >= plan.suggested)
  {
    hide RoundUpToBatch, ReorderLevel, TargetLevel, DaysCover, PriorityOf;
    var missing := Shortfall(item, p);
    batches := Ceil(Max(missing, p.moq) / p.batchMultiple);
    SuggestionIsLeastBatch(missing, p.moq, p.batchMultiple, j);
  }

  /** High up to the minimum or the lead time, Medium up to the reorder point or a week more, and else Low. */
  lemma PriorityMeans(item: Item, p: Profile)
    requires p.batchMultiple != 0.0
    ensures var plan := InventoryPlan(item, p);
            var days := plan.daysCover as real;
            && (plan.priority == High <==> plan.projected <= item.min || days <= p.leadTimeDays)
            && (plan.priority == Low <==>
                  && plan.projected > item.min && plan.projected > plan.reorderPoint
                  && days > p.leadTimeDays && days > p.leadTimeDays + 7.0)
  {
    hide ReorderLevel, TargetLevel, DaysCover, RoundUpToBatch, Projected;
  }

  // ----- planning twice, and planning with more stock

  function Ordered(p: Profile, quantity: real): Profile {
    p.(inbound := p.inbound + quantity)
  }

  /** The projection was not cut at zero, or nothing is missing, or the order also fills what was cut. */
  predicate OrderFillsCut(item: Item, p: Profile)
    requires p.batchMultiple != 0.0
  {
    || OnHand(item, p) + p.inbound >= 0.0
    || Shortfall(item, p) <= 0.0
    || InventoryPlan(item, p).suggested + OnHand(item, p) + p.inbound >= Min(ReorderPoint(item, p), Target(item, p))
  }

  /** Once the suggested quantity is on its way, nothing more is suggested exactly if the order fills the cut. */
  lemma SuggestionSettlesIff(item: Item, p: Profile)
    requires p.batchMultiple > 0.0
    ensures InventoryPlan(item, Ordered(p, InventoryPlan(item, p).suggested)).suggested == 0.0
       <==> OrderFillsCut(item, p)
  {
    hide RoundUpToBatch, ReorderLevel, TargetLevel, DaysCover, PriorityOf;
    var s := InventoryPlan(item, p).suggested;
    var q := Ordered(p, s);
    SuggestionIsLeastBatch(Shortfall(item, p), p.moq, p.batchMultiple, 0);
    SuggestionIsLeastBatch(Shortfall(item, q), p.moq, p.batchMultiple, 0);
  }

  /** Inbound stock is never negative in the profiles, so there the suggestion always settles. */
  lemma SuggestionSettles(item: Item, p: Profile)
    requires p.batchMultiple > 0.0 && p.inbound >= 0.0
    ensures InventoryPlan(item, Ordered(p, InventoryPlan(item, p).suggested)).suggested == 0.0
  {
    SuggestionSettlesIff(item, p);
  }

  /** With the projection cut at zero, part of the order fills the cut and more is suggested. */
  lemma CutProjectionDoesNotSettle()
    ensures var item := Item(0.0, 0.0, 10.0);
            var p := Profile(30.0, 1.0, 1.0, 1.0, 0.0, -20.0, 0.0);
            && OnHand(item, p) + p.inbound < 0.0
            && InventoryPlan(item, Ordered(p, InventoryPlan(item, p).suggested)).suggested > 0.0
  {
    var item := Item(0.0, 0.0, 10.0);
    var p := Profile(30.0, 1.0, 1.0, 1.0, 0.0, -20.0, 0.0);
    var q := Ordered(p, InventoryPlan(item, p).suggested);
    assert ReorderPoint(item, p) == 1.0 && Target(item, p) == 10.0;
    assert Shortfall(item, p) == 10.0;
    assert RoundUpToBatch(10.0, 1.0, 1.0) == 10.0;
    assert Shortfall(item, q) == 10.0;
  }

  lemma CoverIsMonotone(a: real, b: real, monthlyDemand: real)
    requires a <= b
    ensures DaysCover(a, monthlyDemand) <= DaysCover(b, monthlyDemand)
  {
    var daily := monthlyDemand / 30.0;
    if daily > 0.0 {
      var x, y := a / daily, b / daily;
      assert x * daily == a && y * daily == b;
      TimesBatch(a, x, y, daily);
    }
  }

  predicate MoreStock(item: Item, p: Profile, more: Item, q: Profile) {
    && more == item.(qty := more.qty) && more.qty >= item.qty
    && q == p.(inbound := q.inbound, reserved := q.reserved, qaHold := q.qaHold)
    && q.inbound >= p.inbound && q.reserved <= p.reserved && q.qaHold <= p.qaHold
  }

  /** More on hand, more inbound, less allocated or less on hold never raises suggestion or priority. */
  lemma MoreStockNeverRaises(item: Item, p: Profile, more: Item, q: Profile)
    requires p.batchMultiple > 0.0 && MoreStock(item, p, more, q)
    ensures InventoryPlan(more, q).suggested <= InventoryPlan(item, p).suggested
    ensures InventoryPlan(more, q).priority.Rank() <= InventoryPlan(item, p).priority.Rank()
  {
    hide RoundUpToBatch, ReorderLevel, TargetLevel, DaysCover;
    assert Projected(item, p) <= Projected(more, q);
    CoverIsMonotone(Projected(item, p), Projected(more, q), p.monthlyDemand);
    var a, b := Shortfall(more, q), Shortfall(item, p);
    SuggestionIsLeastBatch(b, p.moq, p.batchMultiple, 0);
    SuggestionIsLeastBatch(a, p.moq, p.batchMultiple, 0);
    if a > 0.0 {
      RoundingIsMonotone(a, b, p.moq, p.batchMultiple);
    }
  }
}
