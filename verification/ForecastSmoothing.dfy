/**
 Independent descriptions of the smoothing recurrences: closed forms, error-correction forms and the
 range the averages stay in.
 */
module ForecastSmoothing {
  import opened Numbers
  import opened Wrappers
  import opened ForecastModel

  // ----- simple exponential smoothing as a weighted sum

  function Pow(b: real, e: nat): real {
    if e == 0 then 1.0 else Times(b, Pow(b, e - 1))
  }

  /** The weight entry j has in the level after entry i. */
  function Weight(alpha: real, i: nat, j: nat): real
    requires j <= i
  {
    if j == 0 then Pow(1.0 - alpha, i) else Times(alpha, Pow(1.0 - alpha, i - j))
  }

  /** Sum of `Weight(alpha, i, j) * x[j]` over j below upTo. */
  function WeightedSum(x: seq<real>, alpha: real, i: nat, upTo: nat): real
    requires upTo <= i + 1 && upTo <= |x|
  {
    if upTo == 0 then 0.0
    else WeightedSum(x, alpha, i, upTo - 1) + Times(Weight(alpha, i, upTo - 1), x[upTo - 1])
  }

  function WeightTotal(alpha: real, i: nat, upTo: nat): real
    requires upTo <= i + 1
  {
    if upTo == 0 then 0.0 else WeightTotal(alpha, i, upTo - 1) + Weight(alpha, i, upTo - 1)
  }

  lemma Rearrange(a: real, b: real, c: real)
    ensures Times(a, Times(b, c)) == Times(b, Times(a, c)) == Times(Times(a, b), c)
  {
  }

  lemma Distribute(c: real, a: real, b: real)
    ensures Times(c, a + b) == Times(c, a) + Times(c, b)
  {
  }

  lemma WeightDecays(alpha: real, i: nat, j: nat)
    requires j <= i
    ensures Weight(alpha, i + 1, j) == Times(1.0 - alpha, Weight(alpha, i, j))
  {
    if j > 0 {
      assert i + 1 - j - 1 == i - j;
      Rearrange(alpha, 1.0 - alpha, Pow(1.0 - alpha, i - j));
    }
  }

  lemma {:induction false} WeightedSumDecays(x: seq<real>, alpha: real, i: nat, upTo: nat)
    requires upTo <= i + 1 && upTo <= |x|
    ensures WeightedSum(x, alpha, i + 1, upTo) == Times(1.0 - alpha, WeightedSum(x, alpha, i, upTo))
  {
    if upTo > 0 {
      var c, w, v := 1.0 - alpha, Weight(alpha, i, upTo - 1), x[upTo - 1];
      WeightedSumDecays(x, alpha, i, upTo - 1);
      WeightDecays(alpha, i, upTo - 1);
      Rearrange(c, w, v);
      Distribute(c, WeightedSum(x, alpha, i, upTo - 1), Times(w, v));
    }
  }

  lemma {:induction false} WeightTotalDecays(alpha: real, i: nat, upTo: nat)
    requires upTo <= i + 1
    ensures WeightTotal(alpha, i + 1, upTo) == Times(1.0 - alpha, WeightTotal(alpha, i, upTo))
  {
    if upTo > 0 {
      WeightTotalDecays(alpha, i, upTo - 1);
      WeightDecays(alpha, i, upTo - 1);
      Distribute(1.0 - alpha, WeightTotal(alpha, i, upTo - 1), Weight(alpha, i, upTo - 1));
    }
  }

  /** The loop's level is the exponentially weighted sum of the history, and the weights add up to 1. */
  lemma {:induction false} SesClosedForm(x: seq<real>, alpha: real, i: nat)
    requires i < |x|
    ensures SesLevel(x, alpha, i) == WeightedSum(x, alpha, i, i + 1)
    ensures WeightTotal(alpha, i, i + 1) == 1.0
  {
    if i == 0 {
      assert WeightedSum(x, alpha, 0, 1) == WeightedSum(x, alpha, 0, 0) + Times(Pow(1.0 - alpha, 0), x[0]);
      assert WeightTotal(alpha, 0, 1) == WeightTotal(alpha, 0, 0) + Pow(1.0 - alpha, 0);
    } else {
      SesClosedForm(x, alpha, i - 1);
      WeightedSumDecays(x, alpha, i - 1, i);
      WeightTotalDecays(alpha, i - 1, i);
      assert Weight(alpha, i, i) == Times(alpha, Pow(1.0 - alpha, 0)) == alpha;
    }
  }

  // ----- the error-correction form of Holt and Holt-Winters

  lemma BlendByError(weight: real, latest: real, carried: real)
    ensures Blend(weight, latest, carried) == carried + weight * (latest - carried)
  {
  }

  function CorrectBy(s: Trended, error: real, p: Params): Trended {
    Trended(s.level + s.trend + p.alpha * error, s.trend + p.beta * (p.alpha * error))
  }

  /** Holt driven by the one-step error instead of by two blends. */
  function HoltByError(x: seq<real>, p: Params, i: nat): Trended
    requires |x| >= 2 && i < |x|
  {
    if i == 0 then Trended(x[0], x[1] - x[0])
    else
      var s := HoltByError(x, p, i - 1);
      CorrectBy(s, x[i] - (s.level + s.trend), p)
  }

  lemma BlendsCorrect(s: Trended, demand: real, p: Params)
    ensures var level := Blend(p.alpha, demand, s.level + s.trend);
            Trended(level, Blend(p.beta, level - s.level, s.trend)) ==
            CorrectBy(s, demand - (s.level + s.trend), p)
  {
    var base := s.level + s.trend;
    BlendByError(p.alpha, demand, base);
    var level := Blend(p.alpha, demand, base);
    BlendByError(p.beta, level - s.level, s.trend);
    assert level - s.level - s.trend == p.alpha * (demand - base);
  }

  lemma {:induction false} HoltCorrectsErrors(x: seq<real>, p: Params, i: nat)
    requires |x| >= 2 && i < |x|
    ensures HoltState(x, p, i) == HoltByError(x, p, i)
  {
    if i > 0 {
      HoltCorrectsErrors(x, p, i - 1);
      BlendsCorrect(HoltState(x, p, i - 1), x[i], p);
    }
  }

  /** One Holt-Winters step moves level, trend and the one seasonal index by weighted errors. */
  lemma HoltWintersCorrectsErrors(s: Seasonal, demand: real, slot: nat, p: Params)
    requires slot < |s.indices|
    ensures var t := HwStep(s, demand, slot, p);
            var error := Share(demand, Max(s.indices[slot], 0.0001)) - (s.level + s.trend);
            && Trended(t.level, t.trend) == CorrectBy(Trended(s.level, s.trend), error, p)
            && t.indices[slot] == s.indices[slot] + p.gamma * (Share(demand, Max(t.level, 0.0001)) - s.indices[slot])
            && forall k :: 0 <= k < |s.indices| && k != slot ==> t.indices[k] == s.indices[k]
  {
    var index := s.indices[slot];
    BlendsCorrect(Trended(s.level, s.trend), Share(demand, Max(index, 0.0001)), p);
    var t := HwStep(s, demand, slot, p);
    BlendByError(p.gamma, Share(demand, Max(t.level, 0.0001)), index);
  }

  // ----- averages stay within the range of the history

  predicate Within(x: seq<real>, lo: real, hi: real) {
    forall i :: 0 <= i < |x| ==> lo <= x[i] <= hi
  }

  predicate WithinFitted(f: seq<Option<real>>, lo: real, hi: real) {
    forall i :: 0 <= i < |f| && f[i].Some? ==> lo <= f[i].value <= hi
  }

  lemma PartOf(weight: real, a: real, b: real)
    requires 0.0 <= weight <= 1.0 && a >= b
    ensures 0.0 <= weight * a - weight * b <= a - b
  {
    var d, rest := a - b, 1.0 - weight;
    assert weight * d >= 0.0 && rest * d >= 0.0;
    assert weight * d == weight * a - weight * b;
    assert rest * d == d - weight * d;
  }

  lemma BlendIsBetween(weight: real, a: real, b: real, lo: real, hi: real)
    requires 0.0 <= weight <= 1.0 && lo <= a <= hi && lo <= b <= hi
    ensures lo <= Blend(weight, a, b) <= hi
  {
    assert Blend(weight, a, b) == b + weight * a - weight * b;
    if a >= b {
      PartOf(weight, a, b);
    } else {
      PartOf(weight, b, a);
    }
  }

  lemma {:induction false} SesStaysWithin(x: seq<real>, alpha: real, i: nat, lo: real, hi: real)
    requires i < |x| && 0.0 <= alpha <= 1.0 && Within(x, lo, hi)
    ensures lo <= SesLevel(x, alpha, i) <= hi
  {
    if i > 0 {
      SesStaysWithin(x, alpha, i - 1, lo, hi);
      BlendIsBetween(alpha, x[i], SesLevel(x, alpha, i - 1), lo, hi);
    }
  }

  lemma {:induction false} SumWithin(x: seq<real>, lo: real, hi: real)
    requires Within(x, lo, hi)
    ensures |x| as real * lo <= Sum(x) <= |x| as real * hi
  {
    if x != [] {
      SumWithin(x[..|x| - 1], lo, hi);
      assert |x| as real == |x[..|x| - 1]| as real + 1.0;
    }
  }

  lemma AverageWithin(x: seq<real>, lo: real, hi: real)
    requires |x| > 0 && Within(x, lo, hi)
    ensures lo <= Sum(x) / |x| as real <= hi
  {
    SumWithin(x, lo, hi);
    QuotientWithin(Sum(x), |x| as real, lo, hi);
  }

  predicate Averaging(m: Method) {
    m == Naive || m == Sma || m == Ses
  }

  lemma FittedWithin(m: Method, x: seq<real>, p: Params, season: nat, i: nat, lo: real, hi: real)
    requires Applicable(m, x, season) && Averaging(m) && i < |x| && Within(x, lo, hi)
    requires m == Ses ==> 0.0 <= p.alpha <= 1.0
    ensures var f := FittedAt(m, x, p, season, i); f.Some? ==> lo <= f.value <= hi
  {
    match m
    case Naive =>
    case Sma =>
      var w := SmaWindow(x);
      if i >= w {
        AverageWithin(x[i - w..i], lo, hi);
      }
    case Ses => SesStaysWithin(x, p.alpha, i, lo, hi);
  }

  lemma ProjectionWithin(m: Method, x: seq<real>, p: Params, season: nat, h: nat, lo: real, hi: real)
    requires Applicable(m, x, season) && Averaging(m) && h >= 1 && Within(x, lo, hi)
    requires m == Ses ==> 0.0 <= p.alpha <= 1.0
    ensures lo <= Projection(m, x, p, season, h) <= hi
  {
    match m
    case Naive =>
    case Sma => AverageWithin(x[|x| - SmaWindow(x)..], lo, hi);
    case Ses => SesStaysWithin(x, p.alpha, |x| - 1, lo, hi);
  }

  lemma CutProjectionWithin(m: Method, x: seq<real>, p: Params, season: nat, h: nat, lo: real, hi: real)
    requires Applicable(m, x, season) && Averaging(m) && h >= 1 && NonNegative(x) && Within(x, lo, hi)
    requires m == Ses ==> 0.0 <= p.alpha <= 1.0
    ensures lo <= Max(0.0, Projection(m, x, p, season, h)) <= hi
  {
    ProjectionWithin(m, x, p, season, h, lo, hi);
    ProjectionWithin(m, x, p, season, h, 0.0, Max(hi, 0.0));
  }

  /** Naive, moving-average and exponential smoothing never leave the range of the cleaned history. */
  lemma AveragesStayWithinHistory(m: Method, x: seq<real>, p: Params, season: nat, periods: nat, lo: real, hi: real)
    requires Applicable(m, x, season) && Averaging(m) && NonNegative(x) && Within(x, lo, hi)
    requires m == Ses ==> 0.0 <= p.alpha <= 1.0
    ensures var r := ForecastWith(m, x, p, season, periods);
            WithinFitted(r.fitted, lo, hi) && Within(r.forecast, lo, hi)
  {
    WhatIsReported(m, x, p, season, periods);
    var r := ForecastWith(m, x, p, season, periods);
    forall i | 0 <= i < |x| && r.fitted[i].Some?
      ensures lo <= r.fitted[i].value <= hi
    {
      FittedWithin(m, x, p, season, i, lo, hi);
    }
    forall k | 0 <= k < periods
      ensures lo <= r.forecast[k] <= hi
    {
      CutProjectionWithin(m, x, p, season, k + 1, lo, hi);
    }
  }

  /** For exponential smoothing the weight range 0..1 is exactly what keeps every history in range. */
  lemma SesWithinIff(alpha: real)
    ensures 0.0 <= alpha <= 1.0 <==>
            forall x: seq<real>, lo: real, hi: real | |x| > 0 && NonNegative(x) && Within(x, lo, hi) ::
              lo <= SesLevel(x, alpha, |x| - 1) <= hi
  {
    if 0.0 <= alpha <= 1.0 {
      forall x: seq<real>, lo: real, hi: real | |x| > 0 && NonNegative(x) && Within(x, lo, hi)
        ensures lo <= SesLevel(x, alpha, |x| - 1) <= hi
      {
        SesStaysWithin(x, alpha, |x| - 1, lo, hi);
      }
    } else {
      var x := [0.0, 1.0];
      assert SesLevel(x, alpha, 0) == 0.0;
      assert SesLevel(x, alpha, 1) == alpha;
      assert NonNegative(x) && Within(x, 0.0, 1.0);
    }
  }

  /** The moving average in full: the mean of the three entries before i, once there are three. */
  lemma MovingAverageOfThree(x: seq<real>, p: Params, season: nat, i: nat)
    requires Applicable(Sma, x, season) && 3 <= i < |x|
    ensures FittedAt(Sma, x, p, season, i) == Some((x[i - 3] + x[i - 2] + x[i - 1]) / 3.0)
    ensures Projection(Sma, x, p, season, 1) == (x[|x| - 3] + x[|x| - 2] + x[|x| - 1]) / 3.0
  {
    SumOfThree(x[i - 3..i]);
    SumOfThree(x[|x| - 3..]);
  }

  lemma SumOfThree(x: seq<real>)
    requires |x| == 3
    ensures Sum(x) == x[0] + x[1] + x[2]
  {
    assert x[..2][..1] == [x[0]] && x[..1] == [x[0]];
    assert Sum(x[..2]) == Sum(x[..1]) + x[1];
    assert Sum([x[0]]) == Sum([]) + x[0];
  }

  /** The Holt-Winters trend starts as the rise of the mean from season one to two, per period. */
  lemma StartTrendIsSeasonalRise(x: seq<real>, season: nat)
    requires season >= 2 && |x| >= 2 * season
    ensures HwStart(x, season).trend
         == Share(Share(Sum(x[season..2 * season]), season as real) - FirstSeasonMean(x, season), season as real)
  {
    var s := season as real;
    assert (season * season) as real == s * s;
    ShareTwice(Sum(x[season..2 * season]), Sum(x[..season]), s, (season * season) as real);
  }

  lemma ShareTwice(a: real, b: real, s: real, d: real)
    requires s > 0.0 && d > 0.0 && d == s * s
    ensures Share(a - b, d) == Share(Share(a, s) - Share(b, s), s)
  {
    var u, v := a / s, b / s;
    var q := (u - v) / s;
    assert u * s == a && v * s == b && q * s == u - v;
    Regroup(q, s, d, u - v, a - b);
  }

  lemma Regroup(q: real, s: real, d: real, rise: real, gain: real)
    requires d > 0.0 && d == s * s && q * s == rise && rise * s == gain
    ensures gain / d == q
  {
    assert q * d == gain;
    assert q * d / d == q;
  }
}
