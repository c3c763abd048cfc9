/**
 What each method fits and forecasts, said of the history alone: no statement here goes through the
 functions that the engine is specified by.
 */
module ForecastMethods {
  import opened Numbers
  import opened Wrappers
  import opened ForecastModel
  import opened ForecastSmoothing

  // ----- sums

  /** With SumOfSingle this determines Sum. */
  lemma {:induction false} SumIsAdditive(a: seq<real>, b: seq<real>)
    ensures Sum(a + b) == Sum(a) + Sum(b)
  {
    if b == [] {
      assert a + b == a;
    } else {
      var n := |b| - 1;
      var all := a + b;
      assert all[..|all| - 1] == a + b[..n] && all[|all| - 1] == b[n];
      SumIsAdditive(a, b[..n]);
    }
  }

  lemma SumOfSingle(v: real)
    ensures Sum([v]) == v && Sum([]) == 0.0
  {
    assert [v][..0] == [];
  }

  // ----- the request

  /** The season is rounded down, at least 2, and 12 if it is 0. */
  lemma SeasonIsRounded(season: real)
    ensures season == 0.0 ==> SeasonLength(season) == 12
    ensures season != 0.0 && season < 2.0 ==> SeasonLength(season) == 2
    ensures season >= 2.0 ==> SeasonLength(season) as real <= season < SeasonLength(season) as real + 1.0
  {
  }

  /** The horizon is rounded down and never negative. */
  lemma PeriodsAreRounded(horizon: real)
    ensures horizon <= 0.0 ==> Periods(horizon) == 0
    ensures horizon >= 0.0 ==> Periods(horizon) as real <= horizon < Periods(horizon) as real + 1.0
  {
  }

  /** Which method answers: Holt-Winters needs two seasons, Holt two entries, and each falls back on the next. */
  lemma EffectiveMethodIff(m: Method, n: nat, season: nat)
    requires season >= 2
    ensures EffectiveMethod(m, n, season) == HoltWinters <==> m == HoltWinters && n >= 2 * season
    ensures EffectiveMethod(m, n, season) == Holt <==> n >= 2 && (m == Holt || (m == HoltWinters && n < 2 * season))
    ensures EffectiveMethod(m, n, season) == Ses <==> m == Ses || (n < 2 && m in {Holt, HoltWinters})
    ensures EffectiveMethod(m, n, season) == Sma <==> m == Sma
    ensures EffectiveMethod(m, n, season) == Naive <==> m == Naive
  {
  }

  // ----- the methods

  /** Every entry is fitted by the one before, and the last entry is forecast for every period. */
  predicate RepeatsLast(r: ForecastResult, x: seq<real>, periods: nat)
    requires |x| > 0
  {
    && |r.fitted| == |x| && r.fitted[0] == None
    && (forall i :: 0 < i < |x| ==> r.fitted[i] == Some(x[i - 1]))
    && |r.forecast| == periods && forall k :: 0 <= k < periods ==> r.forecast[k] == x[|x| - 1]
  }

  /** The same of the mean of the last three entries, or of all if there are fewer. */
  predicate RepeatsMean(r: ForecastResult, x: seq<real>, periods: nat)
    requires |x| > 0
  {
    var w := if |x| < 3 then |x| else 3;
    && |r.fitted| == |x| && (forall i :: 0 <= i < w ==> r.fitted[i] == None)
    && (forall i :: w <= i < |x| ==> r.fitted[i] == Some(Sum(x[i - w..i]) / w as real))
    && |r.forecast| == periods && forall k :: 0 <= k < periods ==> r.forecast[k] == Sum(x[|x| - w..]) / w as real
  }

  /** Entry i is fitted by the weighted sum of the entries up to it, the last such sum is forecast throughout. */
  predicate RepeatsLevel(r: ForecastResult, x: seq<real>, alpha: real, periods: nat)
    requires |x| > 0
  {
    && |r.fitted| == |x| && (forall i :: 0 <= i < |x| ==> r.fitted[i] == Some(WeightedSum(x, alpha, i, i + 1)))
    && |r.forecast| == periods
    && forall k :: 0 <= k < periods ==> r.forecast[k] == Max(0.0, WeightedSum(x, alpha, |x| - 1, |x|))
  }

  /** Entry i is fitted by the point after it on the corrected trend line, and the last line is followed. */
  predicate FollowsTrend(r: ForecastResult, x: seq<real>, p: Params, periods: nat)
    requires |x| >= 2
  {
    var last := HoltByError(x, p, |x| - 1);
    && |r.fitted| == |x| && r.fitted[0] == Some(x[0])
    && (forall i :: 0 < i < |x| ==> r.fitted[i] == Some(HoltByError(x, p, i).level + HoltByError(x, p, i).trend))
    && |r.forecast| == periods
    && forall k :: 0 <= k < periods ==> r.forecast[k] == Max(0.0, last.level + (k + 1) as real * last.trend)
  }

  /** The fit puts level and trend into season by the index of the entry's slot. */
  predicate FitsSeasons(fitted: seq<Option<real>>, x: seq<real>, p: Params, season: nat)
    requires season >= 2 && |x| >= 2 * season
  {
    && |fitted| == |x| && fitted[0] == Some(Times(FirstState(x, season).level, FirstState(x, season).indices[0]))
    && forall i :: 0 < i < |x| ==>
         var s := HwByError(x, p, season, i);
         fitted[i] == Some(Times(s.level + s.trend, s.indices[i % season]))
  }

  /** The forecast follows the last trend and keeps cycling through the slots. */
  predicate FollowsSeasons(forecast: seq<real>, x: seq<real>, p: Params, season: nat, periods: nat)
    requires season >= 2 && |x| >= 2 * season
  {
    && |forecast| == periods
    && forall k :: 0 <= k < periods ==>
         forecast[k] == Max(0.0, SeasonalPoint(x, p, season, k))
  }

  /** The point k + 1 periods on, from the state after the last entry. */
  function SeasonalPoint(x: seq<real>, p: Params, season: nat, k: nat): real
    requires season >= 2 && |x| >= 2 * season
  {
    var s := HwByError(x, p, season, |x| - 1);
    Times(s.level + (k + 1) as real * s.trend, s.indices[(|x| + k) % season])
  }

  /** A Holt-Winters step as corrections by the two errors; only the index of the slot changes. */
  function CorrectSeasonal(s: Seasonal, demand: real, slot: nat, p: Params): (t: Seasonal)
    requires slot < |s.indices|
    ensures |t.indices| == |s.indices|
  {
    var index := s.indices[slot];
    var error := PerIndex(demand, index) - (s.level + s.trend);
    var level := s.level + s.trend + p.alpha * error;
    Seasonal(level, s.trend + p.beta * (p.alpha * error),
             s.indices[slot := index + p.gamma * (PerIndex(demand, level) - index)])
  }

  /** Demand against an index or a level that counts as no less than 0.0001. */
  function PerIndex(demand: real, base: real): real {
    demand / (if base < 0.0001 then 0.0001 else base)
  }

  lemma ShareIsPerIndex(demand: real, base: real)
    ensures Share(demand, Max(base, 0.0001)) == PerIndex(demand, base)
  {
  }

  /** The state the seasons start from: means of the first two seasons, and each entry's ratio to the first. */
  function FirstState(x: seq<real>, season: nat): (s: Seasonal)
    requires season >= 2 && |x| >= 2 * season
    ensures |s.indices| == season
  {
    var n := season as real;
    var first, second := Sum(x[..season]) / n, Sum(x[season..2 * season]) / n;
    var divisor := if first < 1.0 then 1.0 else first;
    Seasonal(first, (second - first) / n,
             seq(season, i requires 0 <= i < season => if x[i] == 0.0 then 1.0 else x[i] / divisor))
  }

  /** Holt-Winters driven by errors instead of by blends. */
  function HwByError(x: seq<real>, p: Params, season: nat, i: nat): (s: Seasonal)
    requires season >= 2 && |x| >= 2 * season && i < |x|
    ensures |s.indices| == season
  {
    if i == 0 then FirstState(x, season) else CorrectSeasonal(HwByError(x, p, season, i - 1), x[i], i % season, p)
  }

  lemma StepCorrects(s: Seasonal, demand: real, slot: nat, p: Params)
    requires slot < |s.indices|
    ensures HwStep(s, demand, slot, p) == CorrectSeasonal(s, demand, slot, p)
  {
    hide HwStep, Share, PerIndex;
    HoltWintersCorrectsErrors(s, demand, slot, p);
    ShareIsPerIndex(demand, s.indices[slot]);
    ShareIsPerIndex(demand, HwStep(s, demand, slot, p).level);
    var t, u := HwStep(s, demand, slot, p), CorrectSeasonal(s, demand, slot, p);
    assert t.level == u.level && t.trend == u.trend && t.indices[slot] == u.indices[slot];
    assert t.indices == u.indices;
  }

  lemma StartsAsNamed(x: seq<real>, season: nat)
    requires season >= 2 && |x| >= 2 * season
    ensures HwStart(x, season) == FirstState(x, season)
  {
    StartTrendIsSeasonalRise(x, season);
    var s := HwStart(x, season);
    forall i | 0 <= i < season
      ensures s.indices[i] == FirstState(x, season).indices[i]
    {
      RatioIsZero(x[i], Max(s.level, 1.0));
    }
    assert s.indices == FirstState(x, season).indices;
  }

  lemma RatioIsZero(a: real, b: real)
    requires b > 0.0
    ensures a / b == 0.0 <==> a == 0.0
  {
    assert a / b * b == a;
  }

  /** The blends of the loop and the corrections by errors give one state, over every history. */
  lemma {:induction false} HoltWintersRunsByErrors(x: seq<real>, p: Params, season: nat, i: nat)
    requires season >= 2 && |x| >= 2 * season && i < |x|
    ensures HwState(x, p, season, i) == HwByError(x, p, season, i)
  {
    hide HwStart, HwStep, FirstState, CorrectSeasonal;
    if i == 0 {
      StartsAsNamed(x, season);
    } else {
      HoltWintersRunsByErrors(x, p, season, i - 1);
      StepCorrects(HwState(x, p, season, i - 1), x[i], i % season, p);
    }
  }

  /** The result is what the method is named for. */
  predicate AsNamed(m: Method, r: ForecastResult, x: seq<real>, p: Params, season: nat, periods: nat)
    requires Applicable(m, x, season)
  {
    match m
    case Naive => RepeatsLast(r, x, periods)
    case Sma => RepeatsMean(r, x, periods)
    case Ses => RepeatsLevel(r, x, p.alpha, periods)
    case Holt => FollowsTrend(r, x, p, periods)
    case HoltWinters => FitsSeasons(r.fitted, x, p, season) && FollowsSeasons(r.forecast, x, p, season, periods)
  }

  /** For every method, history and horizon the result is what the method is named for. */
  lemma MethodsAreAsNamed(m: Method, x: seq<real>, p: Params, season: nat, periods: nat)
    requires Applicable(m, x, season) && NonNegative(x)
    ensures AsNamed(m, ForecastWith(m, x, p, season, periods), x, p, season, periods)
  {
    hide SumsUpTo, Report, FitsSeasons, FollowsSeasons, FollowsTrend;
    var r := ForecastWith(m, x, p, season, periods);
    WhatIsReported(m, x, p, season, periods);
    match m {
      case Naive =>
      case Sma => MeansAreAverages(x, p, season, periods);
      case Ses =>
        forall i | 0 <= i < |x|
          ensures SesLevel(x, p.alpha, i) == WeightedSum(x, p.alpha, i, i + 1)
        {
          SesClosedForm(x, p.alpha, i);
        }
      case Holt =>
        forall i | 0 <= i < |x|
          ensures HoltState(x, p, i) == HoltByError(x, p, i)
        {
          HoltCorrectsErrors(x, p, i);
        }
        HoltFollows(x, p, season, periods);
      case HoltWinters =>
        SeasonsAreFitted(x, p, season);
        SeasonsAreFollowed(x, p, season, periods);
    }
  }

  lemma MeanIsNonNegative(s: seq<real>)
    requires s != [] && NonNegative(s)
    ensures Sum(s) / |s| as real >= 0.0
  {
    SumIsNonNegative(s);
    assert Sum(s) / |s| as real * |s| as real == Sum(s);
  }

  lemma {:induction false} SumIsNonNegative(s: seq<real>)
    requires NonNegative(s)
    ensures Sum(s) >= 0.0
  {
    if s != [] {
      SumIsNonNegative(s[..|s| - 1]);
    }
  }

  lemma MeansAreAverages(x: seq<real>, p: Params, season: nat, periods: nat)
    requires Applicable(Sma, x, season) && NonNegative(x)
    ensures RepeatsMean(ForecastWith(Sma, x, p, season, periods), x, periods)
  {
    hide Sum, SumsUpTo, Report, ForecastWith;
    var w := if |x| < 3 then |x| else 3;
    WhatIsReported(Sma, x, p, season, periods);
    MeanIsNonNegative(x[|x| - w..]);
  }

  lemma HoltFollows(x: seq<real>, p: Params, season: nat, periods: nat)
    requires Applicable(Holt, x, season)
    requires forall i :: 0 <= i < |x| ==> HoltState(x, p, i) == HoltByError(x, p, i)
    ensures FollowsTrend(ForecastWith(Holt, x, p, season, periods), x, p, periods)
  {
    hide SumsUpTo, Report, HwState, SesLevel, Sum, HoltByError, ForecastWith;
    WhatIsReported(Holt, x, p, season, periods);
    assert HoltState(x, p, 0) == Trended(x[0], x[1] - x[0]);
    assert HoltState(x, p, |x| - 1) == HoltByError(x, p, |x| - 1);
  }

  /** A projection in season, and a fit in season, written out. */
  lemma SeasonedProjection(x: seq<real>, p: Params, season: nat, k: nat)
    requires Applicable(HoltWinters, x, season)
    ensures Projection(HoltWinters, x, p, season, k + 1) == SeasonalPoint(x, p, season, k)
  {
    hide HwState, HwByError;
    HoltWintersRunsByErrors(x, p, season, |x| - 1);
    assert |x| + (k + 1) - 1 == |x| + k;
  }

  lemma SeasonedFit(x: seq<real>, p: Params, season: nat, i: nat)
    requires Applicable(HoltWinters, x, season) && i < |x|
    ensures var s := HwByError(x, p, season, i);
            FittedAt(HoltWinters, x, p, season, i) ==
            Some(Times(if i == 0 then s.level else s.level + s.trend, s.indices[i % season]))
  {
    hide HwState, HwByError;
    HoltWintersRunsByErrors(x, p, season, i);
  }

  lemma FirstIsStart(x: seq<real>, p: Params, season: nat)
    requires season >= 2 && |x| >= 2 * season
    ensures 0 % season == 0 && HwByError(x, p, season, 0) == FirstState(x, season)
  {
  }

  lemma SeasonsAreFitted(x: seq<real>, p: Params, season: nat)
    requires Applicable(HoltWinters, x, season)
    ensures FitsSeasons(Fitted(HoltWinters, x, p, season), x, p, season)
  {
    hide HwState, HwByError, FittedAt, FirstState, Times;
    FirstIsStart(x, p, season);
    SeasonedFit(x, p, season, 0);
    forall i | 0 < i < |x|
      ensures var s := HwByError(x, p, season, i);
              FittedAt(HoltWinters, x, p, season, i) == Some(Times(s.level + s.trend, s.indices[i % season]))
    {
      SeasonedFit(x, p, season, i);
    }
  }

  lemma SeasonsAreFollowed(x: seq<real>, p: Params, season: nat, periods: nat)
    requires Applicable(HoltWinters, x, season)
    ensures FollowsSeasons(ForecastWith(HoltWinters, x, p, season, periods).forecast, x, p, season, periods)
  {
    hide SeasonalPoint, Projection, ForecastWith, Max;
    WhatIsReported(HoltWinters, x, p, season, periods);
    var r := ForecastWith(HoltWinters, x, p, season, periods);
    forall k | 0 <= k < periods
      ensures r.forecast[k] == Max(0.0, SeasonalPoint(x, p, season, k))
    {
      SeasonedProjection(x, p, season, k);
    }
  }
}
