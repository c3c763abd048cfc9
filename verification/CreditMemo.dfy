/** Splitting a credit memo into net and tax (src/domain/finance/tax.ts), with money in whole cents. */
module CreditMemo {
  import opened Wrappers

  /** One invoice line: its tax rate and its net subtotal in cents. */
  datatype Line = Line(rate: real, subtotal: int)

  datatype Invoice = Invoice(id: string, invoiceNumber: string, lines: seq<Line>)

  datatype Memo = Memo(relatedInvoice: string, totalCredit: int)

  datatype Split = Split(rate: real, net: int, tax: int, gross: int)

  // ----- the dominant rate

  /** Net subtotal of the lines with a rate. */
  function TotalAt(lines: seq<Line>, rate: real): int {
    if lines == [] then 0
    else
      var last := lines[|lines| - 1];
      TotalAt(lines[..|lines| - 1], rate) + (if last.rate == rate then last.subtotal else 0)
  }

  predicate HasRate(lines: seq<Line>, rate: real) {
    exists i :: 0 <= i < |lines| && lines[i].rate == rate
  }

  /** Sort order of the rates: larger subtotal first, then higher rate. */
  predicate Before(total: int, rate: real, otherTotal: int, otherRate: real) {
    total > otherTotal || (total == otherTotal && rate >= otherRate)
  }

  /** Every line counts once, under its own rate. */
  lemma {:induction false} TotalsAdd(a: seq<Line>, b: seq<Line>, line: Line, rate: real)
    ensures TotalAt(a + b, rate) == TotalAt(a, rate) + TotalAt(b, rate)
    ensures TotalAt([line], rate) == if line.rate == rate then line.subtotal else 0
  {
    assert TotalAt([line][..0], rate) == 0;
    if b == [] {
      assert a + b == a;
    } else {
      var n := |b| - 1;
      TotalsAdd(a, b[..n], line, rate);
      assert (a + b)[..|a| + n] == a + b[..n];
    }
  }

  predicate Dominant(lines: seq<Line>, rate: real) {
    && HasRate(lines, rate)
    && forall i :: 0 <= i < |lines| ==> Before(TotalAt(lines, rate), rate, TotalAt(lines, lines[i].rate), lines[i].rate)
  }

  method TotalsByRate(lines: seq<Line>) returns (totals: map<real, int>)
    ensures forall r :: r in totals <==> HasRate(lines, r)
    ensures forall r :: r in totals ==> totals[r] == TotalAt(lines, r)
  {
    totals := map[];
    for i := 0 to |lines|
      invariant forall r :: r in totals <==> HasRate(lines[..i], r)
      invariant forall r :: (if r in totals then totals[r] else 0) == TotalAt(lines[..i], r)
    {
      var line := lines[i];
      assert lines[..i + 1] == lines[..i] + [line];
      assert lines[..i + 1][..i] == lines[..i];
      forall r
        ensures HasRate(lines[..i + 1], r) <==> HasRate(lines[..i], r) || line.rate == r
      {
        HasRateStep(lines[..i], line, r);
      }
      totals := totals[line.rate := (if line.rate in totals then totals[line.rate] else 0) + line.subtotal];
    }
    assert lines[..|lines|] == lines;
  }

  lemma HasRateStep(lines: seq<Line>, line: Line, rate: real)
    ensures HasRate(lines + [line], rate) <==> HasRate(lines, rate) || line.rate == rate
  {
    assert forall k :: 0 <= k < |lines| ==> (lines + [line])[k] == lines[k];
    assert (lines + [line])[|lines|] == line;
  }

  /** The rate the sorted entries start with; None for an invoice without lines. */
  method DominantRate(lines: seq<Line>) returns (rate: Option<real>)
    ensures lines == [] <==> rate.None?
    ensures rate.Some? ==> Dominant(lines, rate.value)
  {
    var totals := TotalsByRate(lines);
    if lines == [] {
      return None;
    }
    var best := lines[0].rate;
    for i := 0 to |lines|
      invariant HasRate(lines, best)
      invariant forall k :: 0 <= k < i ==>
                  Before(TotalAt(lines, best), best, TotalAt(lines, lines[k].rate), lines[k].rate)
    {
      var r := lines[i].rate;
      assert HasRate(lines, r);
      if Before(totals[r], r, totals[best], best) {
        best := r;
      }
    }
    rate := Some(best);
  }

  /** Ties go to the higher rate, so there is one dominant rate at most. */
  lemma DominantIsUnique(lines: seq<Line>, a: real, b: real)
    requires Dominant(lines, a) && Dominant(lines, b)
    ensures a == b
  {
    var i :| 0 <= i < |lines| && lines[i].rate == a;
    var j :| 0 <= j < |lines| && lines[j].rate == b;
    assert Before(TotalAt(lines, a), a, TotalAt(lines, lines[j].rate), lines[j].rate);
    assert Before(TotalAt(lines, b), b, TotalAt(lines, lines[i].rate), lines[i].rate);
  }

  // ----- rounding to cents

  /** `toFixed(2)` on an amount in cents: to the nearest cent, half cents away from zero. */
  function RoundCents(y: real): int {
    if y >= 0.0 then (y + 0.5).Floor else -(-y + 0.5).Floor
  }

  lemma RoundingIsNear(y: real)
    ensures -0.5 <= RoundCents(y) as real - y <= 0.5
    ensures if y >= 0.0 then RoundCents(y) as real - y > -0.5 else RoundCents(y) as real - y < 0.5
  {
  }

  lemma RoundingIsMonotone(y: real, z: real)
    requires y <= z
    ensures RoundCents(y) <= RoundCents(z)
  {
  }

  /** A step of less than m, or of m from a whole number, moves the rounded value by m at most. */
  lemma RoundingStep(y: real, z: real, m: int)
    requires y <= z && m >= 0
    requires z - y < m as real || (z - y == m as real && y == y.Floor as real)
    ensures RoundCents(z) <= RoundCents(y) + m
  {
    RoundingIsNear(y);
    RoundingIsNear(z);
  }

  function NetOf(gross: int, rate: real): int
    requires rate > -1.0
  {
    RoundCents(gross as real / (1.0 + rate))
  }

  function SplitOf(gross: int, rate: real): Split
    requires rate > -1.0
  {
    Split(rate, NetOf(gross, rate), gross - NetOf(gross, rate), gross)
  }

  /**
   Net and tax add up to the credit, and net with tax added back is within half a cent's worth of it; of two
   nets at half a cent it is the one further from zero.
   */
  lemma SplitIsExact(gross: int, rate: real)
    requires rate > -1.0
    ensures var s := SplitOf(gross, rate);
            var off := s.net as real * (1.0 + rate) - gross as real;
            && s.net + s.tax == gross
            && -0.5 * (1.0 + rate) <= off <= 0.5 * (1.0 + rate)
            && (gross >= 0 ==> off > -0.5 * (1.0 + rate))
            && (gross < 0 ==> off < 0.5 * (1.0 + rate))
  {
    var f := 1.0 + rate;
    var y := gross as real / f;
    assert y * f == gross as real;
    RoundingIsNear(y);
    SameSign(y, f, gross as real);
    NearTimes(NetOf(gross, rate) as real, y, f, gross as real);
  }

  lemma NearTimes(n: real, y: real, f: real, g: real)
    requires f > 0.0 && y * f == g && -0.5 <= n - y <= 0.5
    ensures -0.5 * f <= n * f - g <= 0.5 * f
    ensures n - y > -0.5 ==> n * f - g > -0.5 * f
    ensures n - y < 0.5 ==> n * f - g < 0.5 * f
  {
    var above, below := n - y + 0.5, 0.5 - (n - y);
    Product(above, f);
    Product(below, f);
    assert above * f == n * f - g + 0.5 * f;
    assert below * f == 0.5 * f - n * f + g;
  }

  lemma Product(a: real, f: real)
    requires a >= 0.0 && f > 0.0
    ensures a * f >= 0.0 && (a > 0.0 ==> a * f > 0.0)
  {
  }

  lemma SameSign(y: real, f: real, g: real)
    requires f > 0.0 && y * f == g
    ensures y >= 0.0 <==> g >= 0.0
  {
  }

  /** A larger credit has no smaller net part and no smaller tax part. */
  lemma SplitIsMonotone(g: int, h: int, rate: real)
    requires rate >= 0.0 && g <= h
    ensures SplitOf(g, rate).net <= SplitOf(h, rate).net
    ensures SplitOf(g, rate).tax <= SplitOf(h, rate).tax
  {
    if g < h {
      var f := 1.0 + rate;
      var y, z := g as real / f, h as real / f;
      QuotientStep(g, h, f);
      RoundingIsMonotone(y, z);
      RoundingStep(y, z, h - g);
    }
  }

  lemma QuotientStep(g: int, h: int, f: real)
    requires f >= 1.0 && g < h
    ensures var y, z := g as real / f, h as real / f;
            var m := (h - g) as real;
            y <= z && (z - y < m || (z - y == m && y == y.Floor as real))
  {
    var y, z := g as real / f, h as real / f;
    var m := (h - g) as real;
    assert y * f == g as real && z * f == h as real;
    assert (z - y) * f == m;
    if f > 1.0 {
      PartIsLess(z - y, f, m);
    }
  }

  lemma PartIsLess(d: real, f: real, m: real)
    requires f > 1.0 && m > 0.0 && d * f == m
    ensures 0.0 < d < m
  {
  }

  // ----- the rate a memo is split with

  function FindInvoice(invoices: seq<Invoice>, reference: string): Option<Invoice> {
    if reference == "" || invoices == [] then None
    else if invoices[0].invoiceNumber == reference || invoices[0].id == reference then Some(invoices[0])
    else FindInvoice(invoices[1..], reference)
  }

  /** The invoice at position i is the first with that number or id. */
  predicate LinkedAt(invoices: seq<Invoice>, reference: string, i: int) {
    && reference != "" && 0 <= i < |invoices|
    && (invoices[i].invoiceNumber == reference || invoices[i].id == reference)
    && forall j :: 0 <= j < i ==> invoices[j].invoiceNumber != reference && invoices[j].id != reference
  }

  lemma {:induction false} FoundIsFirst(invoices: seq<Invoice>, reference: string)
    ensures forall i :: LinkedAt(invoices, reference, i) ==> FindInvoice(invoices, reference) == Some(invoices[i])
    ensures FindInvoice(invoices, reference).Some? ==> exists i :: LinkedAt(invoices, reference, i)
  {
    if reference == "" || invoices == [] {
    } else if invoices[0].invoiceNumber == reference || invoices[0].id == reference {
      assert LinkedAt(invoices, reference, 0);
    } else {
      FoundIsFirst(invoices[1..], reference);
      forall i | LinkedAt(invoices, reference, i)
        ensures FindInvoice(invoices, reference) == Some(invoices[i])
      {
        assert LinkedAt(invoices[1..], reference, i - 1);
      }
      if FindInvoice(invoices, reference).Some? {
        var i :| LinkedAt(invoices[1..], reference, i);
        assert LinkedAt(invoices, reference, i + 1);
      }
    }
  }

  /** The rate occurs on the invoice, no other has a larger subtotal, and none with the same one is higher. */
  predicate LeadsOn(lines: seq<Line>, rate: real) {
    && (exists i :: 0 <= i < |lines| && lines[i].rate == rate)
    && forall i :: 0 <= i < |lines| ==>
         var other := TotalAt(lines, lines[i].rate);
         other < TotalAt(lines, rate) || (other == TotalAt(lines, rate) && lines[i].rate <= rate)
  }

  /** The rate of the linked invoice, else the default tax code's, else 13%. */
  ghost predicate RateFor(linked: Option<Invoice>, defaultRate: Option<real>, rate: real) {
    if linked.Some? && linked.value.lines != [] then Dominant(linked.value.lines, rate)
    else rate == defaultRate.GetOr(0.13)
  }

  /**
   The source would fall back on the item of the linked invoice's first line when there is no dominant
   rate; by the contract of DominantRate there is one as soon as there is a line, so that never happens.
   */
  method CreditMemoTaxSummary(memo: Memo, invoices: seq<Invoice>, defaultRate: Option<real>)
    returns (s: Split)
    requires forall i, j :: 0 <= i < |invoices| && 0 <= j < |invoices[i].lines| ==> invoices[i].lines[j].rate > -1.0
    requires defaultRate.Some? ==> defaultRate.value > -1.0
    ensures RateFor(FindInvoice(invoices, memo.relatedInvoice), defaultRate, s.rate)
    ensures forall i :: LinkedAt(invoices, memo.relatedInvoice, i) && invoices[i].lines != [] ==>
              LeadsOn(invoices[i].lines, s.rate)
    ensures (forall i :: LinkedAt(invoices, memo.relatedInvoice, i) ==> invoices[i].lines == []) ==>
              s.rate == if defaultRate.Some? then defaultRate.value else 0.13
    ensures s.rate > -1.0 && s == SplitOf(memo.totalCredit, s.rate)
    ensures s.gross == memo.totalCredit && s.net + s.tax == s.gross
  {
    var linked := FindInvoice(invoices, memo.relatedInvoice);
    FoundIsFirst(invoices, memo.relatedInvoice);
    var dominant := None;
    if linked.Some? {
      dominant := DominantRate(linked.value.lines);
    }
    var rate := dominant.GetOr(defaultRate.GetOr(0.13));
    s := SplitOf(memo.totalCredit, rate);
  }
}
