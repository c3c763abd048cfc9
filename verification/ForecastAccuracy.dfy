/** Laws of the accuracy figures, for every method and every history. */
module ForecastAccuracy {
  import opened Numbers
  import opened Wrappers
  import opened ForecastModel

  /** What one pass over the history keeps true of the running sums. */
  ghost predicate Consistent(s: Sums) {
    && -s.abs <= s.err <= s.abs
    && Square(s.abs) <= s.cnt as real * s.sq
    && 0.0 <= s.smape <= 2.0 * s.cnt as real
    && 0.0 <= s.sq && 0.0 <= s.naiveSq
    && (s.cnt == 0 ==> s.abs == 0.0)
  }

  /** The Cauchy-Schwarz step: one more error of size a against n errors of total size total. */
  lemma CauchySchwarzStep(n: nat, total: real, sq: real, a: real)
    requires Square(total) <= n as real * sq && sq >= 0.0 && (n == 0 ==> total == 0.0)
    ensures Square(total + a) <= (n + 1) as real * (sq + Square(a))
  {
    var m := n as real;
    assert (n + 1) as real == m + 1.0;
    CrossTerm(m, total, sq, a);
    calc {
      Square(total + a);
      total * total + 2.0 * (total * a) + a * a;
    <=
      m * sq + (m * (a * a) + sq) + a * a;
      (m + 1.0) * (sq + a * a);
    }
  }

  lemma CrossTerm(m: real, total: real, sq: real, a: real)
    requires m == 0.0 || m >= 1.0
    requires Square(total) <= m * sq && sq >= 0.0 && (m == 0.0 ==> total == 0.0)
    ensures 2.0 * (total * a) <= m * (a * a) + sq
  {
    if m != 0.0 {
      var d := m * a - total;
      calc {
        0.0;
      <=
        d * d;
        m * a * (m * a) - 2.0 * (m * a * total) + total * total;
      <=
        m * a * (m * a) - 2.0 * (m * a * total) + m * sq;
        m * (m * (a * a) - 2.0 * (total * a) + sq);
      }
    }
  }

  /** An error is at most twice the average size of the two numbers it separates. */
  lemma SmapeTerm(actual: real, fit: real)
    requires actual > 0.0
    ensures var denom := (Abs(actual) + Abs(fit)) / 2.0;
            denom > 0.0 && 0.0 <= Share(Abs(actual - fit), denom) <= 2.0
  {
    var denom := (Abs(actual) + Abs(fit)) / 2.0;
    var e := Abs(actual - fit);
    assert 0.0 <= e <= 2.0 * denom;
    QuotientWithin(e, denom, 0.0, 2.0);
  }

  lemma {:induction false} SumsStayConsistent(x: seq<real>, fitted: seq<Option<real>>, i: nat)
    requires |fitted| == |x| && i <= |x| && NonNegative(x)
    ensures Consistent(SumsUpTo(x, fitted, i))
  {
    if i > 0 {
      SumsStayConsistent(x, fitted, i - 1);
      StepStaysConsistent(SumsUpTo(x, fitted, i - 1), x, fitted, i - 1);
    }
  }

  lemma StepStaysConsistent(s: Sums, x: seq<real>, fitted: seq<Option<real>>, i: nat)
    requires |fitted| == |x| && i < |x| && NonNegative(x) && Consistent(s)
    ensures Consistent(SumsStep(s, x, fitted, i))
  {
    if Scored(x, fitted, i) {
      var err := x[i] - fitted[i].value;
      var t := SumsStep(s, x, fitted, i);
      CauchySchwarzStep(s.cnt, s.abs, s.sq, Abs(err));
      SmapeTerm(x[i], fitted[i].value);
      assert Square(Abs(err)) == Square(err) >= 0.0;
      assert t.cnt as real == s.cnt as real + 1.0;
      assert t.naiveSq >= s.naiveSq by {
        if i > 0 {
          SquareNonNegative(x[i] - x[i - 1]);
        }
      }
    }
  }

  lemma SquareNonNegative(a: real)
    ensures Square(a) >= 0.0
  {
  }

  /** Number of history entries that enter the accuracy figures. */
  function ScoredCount(x: seq<real>, fitted: seq<Option<real>>): nat
    requires |fitted| == |x|
  {
    |set i | 0 <= i < |x| && Scored(x, fitted, i)|
  }

  lemma {:induction false} CountIsScored(x: seq<real>, fitted: seq<Option<real>>, i: nat)
    requires |fitted| == |x| && i <= |x|
    ensures SumsUpTo(x, fitted, i).cnt == |set k | 0 <= k < i && Scored(x, fitted, k)|
  {
    if i > 0 {
      CountIsScored(x, fitted, i - 1);
      var before := set k | 0 <= k < i - 1 && Scored(x, fitted, k);
      var now := set k | 0 <= k < i && Scored(x, fitted, k);
      assert now == if Scored(x, fitted, i - 1) then before + {i - 1} else before;
    }
  }

  /** |bias| <= mae, mae^2 <= rmse^2, |trackingSignal| <= scored entries, smape within 0..200. */
  lemma AccuracyFiguresAreBounded(m: Method, x: seq<real>, p: Params, season: nat, periods: nat)
    requires Applicable(m, x, season) && NonNegative(x)
    ensures var r := ForecastWith(m, x, p, season, periods);
            && Abs(r.bias) <= r.mae
            && Square(r.mae) <= r.rmseSquared
            && Abs(r.trackingSignal) <= ScoredCount(x, r.fitted) as real
            && 0.0 <= r.smape <= 200.0
  {
    var fitted := Fitted(m, x, p, season);
    var s := SumsUpTo(x, fitted, |x|);
    SumsStayConsistent(x, fitted, |x|);
    CountIsScored(x, fitted, |x|);
    AveragesAreBounded(s);
  }

  lemma AveragesAreBounded(s: Sums)
    requires Consistent(s)
    ensures Abs(Mean(s.err, s.cnt)) <= Mean(s.abs, s.cnt)
    ensures Square(Mean(s.abs, s.cnt)) <= Mean(s.sq, s.cnt)
    ensures Abs(Ratio(s.err, Mean(s.abs, s.cnt))) <= s.cnt as real
    ensures 0.0 <= Mean(s.smape, s.cnt) * 100.0 <= 200.0
  {
    if s.cnt > 0 {
      var n := s.cnt as real;
      ShareOfAbs(s.err, s.abs, n);
      ShareOfSquare(s.abs, s.sq, n);
      QuotientWithin(s.smape, n, 0.0, 2.0);
      if s.abs > 0.0 {
        SignalBound(s.err, s.abs, n);
      }
    }
  }

  lemma ShareOfAbs(err: real, total: real, n: real)
    requires n > 0.0 && Abs(err) <= total
    ensures Abs(Share(err, n)) <= Share(total, n)
    ensures Share(total, n) == 0.0 <==> total == 0.0
  {
    assert err / n * n == err && total / n * n == total;
  }

  lemma ShareOfSquare(total: real, sq: real, n: real)
    requires n > 0.0 && Square(total) <= n * sq
    ensures Square(Share(total, n)) <= Share(sq, n)
  {
    var a, b := total / n, sq / n;
    assert a * n == total && b * n == sq;
    calc {
      n * n * (a * a);
      Square(total);
    <=
      n * sq;
      n * n * b;
    }
  }

  lemma SignalBound(err: real, total: real, n: real)
    requires n > 0.0 && total > 0.0 && Abs(err) <= total
    ensures Share(total, n) > 0.0 && Abs(Share(err, Share(total, n))) <= n
  {
    var mean := total / n;
    assert mean * n == total;
    assert mean > 0.0;
    assert err / mean * mean == err;
  }

  // ----- the naive method is its own yardstick

  /** Some scored entry differs from its predecessor. */
  predicate SomeScoredChange(x: seq<real>, upTo: nat)
    requires upTo <= |x|
  {
    exists i :: 1 <= i < upTo && x[i] != 0.0 && x[i] != x[i - 1]
  }

  lemma {:induction false} NaiveSquaresAgree(x: seq<real>, p: Params, season: nat, i: nat)
    requires Applicable(Naive, x, season) && i <= |x|
    ensures var s := SumsUpTo(x, Fitted(Naive, x, p, season), i);
            s.sq == s.naiveSq >= 0.0 && (s.sq == 0.0 <==> !SomeScoredChange(x, i))
  {
    hide Square, SumsStep;
    if i > 0 {
      NaiveSquaresAgree(x, p, season, i - 1);
      NaiveStep(SumsUpTo(x, Fitted(Naive, x, p, season), i - 1), x, p, season, i - 1);
      assert SomeScoredChange(x, i) <==>
        SomeScoredChange(x, i - 1) || (i > 1 && x[i - 1] != 0.0 && x[i - 1] != x[i - 2]);
    }
  }

  lemma NaiveStep(s: Sums, x: seq<real>, p: Params, season: nat, i: nat)
    requires Applicable(Naive, x, season) && i < |x|
    ensures var change := if i > 0 && x[i] != 0.0 then Square(x[i] - x[i - 1]) else 0.0;
            var t := SumsStep(s, x, Fitted(Naive, x, p, season), i);
            && t.sq == s.sq + change && t.naiveSq == s.naiveSq + change && change >= 0.0
            && (change == 0.0 <==> !(i > 0 && x[i] != 0.0 && x[i] != x[i - 1]))
  {
    hide Square, Share;
    if i > 0 {
      SquareIsZero(x[i] - x[i - 1]);
    }
  }

  lemma SquareIsZero(a: real)
    ensures Square(a) >= 0.0 && (Square(a) == 0.0 <==> a == 0.0)
  {
    if a != 0.0 {
      assert a * a / a == a;
    }
  }

  lemma NaiveTheilIsOne(x: seq<real>, p: Params, season: nat, periods: nat)
    requires Applicable(Naive, x, season)
    ensures ForecastWith(Naive, x, p, season, periods).theilUSquared
         == if SomeScoredChange(x, |x|) then 1.0 else 0.0
  {
    NaiveSquaresAgree(x, p, season, |x|);
    var sq := SumsUpTo(x, Fitted(Naive, x, p, season), |x|).sq;
    if sq != 0.0 {
      ShareOfItself(sq);
    }
  }

  lemma ShareOfItself(a: real)
    requires a != 0.0
    ensures Share(a, a) == 1.0
  {
  }

  // ----- no error, no miss

  predicate FitsScored(x: seq<real>, fitted: seq<Option<real>>, upTo: nat)
    requires |fitted| == |x| && upTo <= |x|
  {
    forall i :: 0 <= i < upTo && Scored(x, fitted, i) ==> fitted[i].value == x[i]
  }

  /** The root mean square error is zero if and only if every scored entry is fitted exactly. */
  lemma ZeroErrorIffExact(m: Method, x: seq<real>, p: Params, season: nat, periods: nat)
    requires Applicable(m, x, season)
    ensures var r := ForecastWith(m, x, p, season, periods);
            r.rmseSquared == 0.0 <==> FitsScored(x, r.fitted, |x|)
  {
    var fitted := Fitted(m, x, p, season);
    SquaresVanish(x, fitted, |x|);
    var s := SumsUpTo(x, fitted, |x|);
    if s.cnt > 0 {
      ShareOfAbs(s.sq, s.sq, s.cnt as real);
    }
  }

  lemma {:induction false} SquaresVanish(x: seq<real>, fitted: seq<Option<real>>, i: nat)
    requires |fitted| == |x| && i <= |x|
    ensures var s := SumsUpTo(x, fitted, i);
            && s.sq >= 0.0 && (s.cnt == 0 ==> s.sq == 0.0)
            && (s.sq == 0.0 <==> FitsScored(x, fitted, i))
  {
    if i > 0 {
      SquaresVanish(x, fitted, i - 1);
      assert FitsScored(x, fitted, i) <==>
        FitsScored(x, fitted, i - 1) && (Scored(x, fitted, i - 1) ==> fitted[i - 1].value == x[i - 1]);
      if Scored(x, fitted, i - 1) {
        SquareIsZero(x[i - 1] - fitted[i - 1].value);
      }
    }
  }

  // ----- percentage errors

  /** Every scored error lies between lo and hi times the demand it belongs to. */
  predicate ErrorsWithin(x: seq<real>, fitted: seq<Option<real>>, lo: real, hi: real)
    requires |fitted| == |x|
  {
    forall i :: 0 <= i < |x| && Scored(x, fitted, i) ==>
      Times(lo, x[i]) <= Abs(x[i] - fitted[i].value) <= Times(hi, x[i])
  }

  predicate PercentWithin(s: Sums, lo: real, hi: real) {
    && Times(lo, s.cnt as real) <= s.absPct <= Times(hi, s.cnt as real)
    && Times(lo, s.actual) <= s.abs <= Times(hi, s.actual)
    && s.actual >= 0.0 && (s.actual == 0.0 ==> s.cnt == 0)
  }

  lemma {:induction false} PercentSums(x: seq<real>, fitted: seq<Option<real>>, lo: real, hi: real, i: nat)
    requires |fitted| == |x| && i <= |x| && NonNegative(x) && ErrorsWithin(x, fitted, lo, hi)
    ensures PercentWithin(SumsUpTo(x, fitted, i), lo, hi)
  {
    if i > 0 {
      PercentSums(x, fitted, lo, hi, i - 1);
      PercentStep(SumsUpTo(x, fitted, i - 1), x, fitted, lo, hi, i - 1);
    }
  }

  lemma PercentStep(s: Sums, x: seq<real>, fitted: seq<Option<real>>, lo: real, hi: real, i: nat)
    requires |fitted| == |x| && i < |x| && NonNegative(x) && ErrorsWithin(x, fitted, lo, hi)
    requires PercentWithin(s, lo, hi)
    ensures PercentWithin(SumsStep(s, x, fitted, i), lo, hi)
  {
    hide Square, Share;
    if Scored(x, fitted, i) {
      var n := s.cnt as real;
      PercentBounds(x[i] - fitted[i].value, x[i], lo, hi);
      assert (s.cnt + 1) as real == n + 1.0;
      Widen(lo, n, 1.0);
      Widen(hi, n, 1.0);
      Widen(lo, s.actual, x[i]);
      Widen(hi, s.actual, x[i]);
    }
  }

  lemma Widen(c: real, a: real, b: real)
    ensures Times(c, a + b) == Times(c, a) + Times(c, b)
    ensures Times(c, 1.0) == c
  {
  }

  lemma PercentBounds(err: real, demand: real, lo: real, hi: real)
    requires demand > 0.0 && Times(lo, demand) <= Abs(err) <= Times(hi, demand)
    ensures lo <= Abs(Share(err, demand)) <= hi
  {
    var q := err / demand;
    assert q * demand == err;
    SignOfShare(q, demand, err);
    Cancel(lo, Abs(q), demand);
    Cancel(Abs(q), hi, demand);
  }

  lemma SignOfShare(q: real, demand: real, err: real)
    requires demand > 0.0 && q * demand == err
    ensures Abs(q) * demand == Abs(err)
  {
  }

  lemma Cancel(a: real, b: real, c: real)
    requires c > 0.0 && a * c <= b * c
    ensures a <= b
  {
  }

  /** mape and wmape are averages of the percentage errors: they lie in every range these lie in. */
  lemma PercentFiguresWithin(m: Method, x: seq<real>, p: Params, season: nat, periods: nat, lo: real, hi: real, i: nat)
    requires Applicable(m, x, season) && NonNegative(x) && ErrorsWithin(x, Fitted(m, x, p, season), lo, hi)
    requires i < |x| && Scored(x, Fitted(m, x, p, season), i)
    ensures var r := ForecastWith(m, x, p, season, periods);
            lo * 100.0 <= r.mape <= hi * 100.0 && lo * 100.0 <= r.wmape <= hi * 100.0
  {
    hide ErrorsWithin, Fitted, SumsUpTo, Share, Times;
    var fitted := Fitted(m, x, p, season);
    PercentSums(x, fitted, lo, hi, |x|);
    SomeScored(x, fitted, |x|, i);
    PercentMeans(SumsUpTo(x, fitted, |x|), lo, hi);
  }

  lemma {:induction false} SomeScored(x: seq<real>, fitted: seq<Option<real>>, n: nat, i: nat)
    requires |fitted| == |x| && i < n <= |x| && Scored(x, fitted, i)
    ensures SumsUpTo(x, fitted, n).cnt > 0
  {
    if i < n - 1 {
      SomeScored(x, fitted, n - 1, i);
    }
  }

  lemma PercentMeans(s: Sums, lo: real, hi: real)
    requires PercentWithin(s, lo, hi) && s.cnt > 0
    ensures lo <= Mean(s.absPct, s.cnt) <= hi
    ensures lo <= Ratio(s.abs, s.actual) <= hi
  {
    QuotientWithin(s.absPct, s.cnt as real, lo, hi);
    QuotientWithin(s.abs, s.actual, lo, hi);
  }
}
