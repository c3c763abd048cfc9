/** `runForecast` step by step: one loop per method, then the accuracy loop. */
module ForecastEngine {
  import opened Numbers
  import opened Wrappers
  import opened ForecastModel
  import opened ForecastMethods
  import opened ForecastSmoothing

  method RunForecast(history: seq<Demand>, m: Method, p: Params, horizon: real) returns (r: ForecastResult)
    ensures r == ForecastOf(history, m, p, horizon)
    ensures var x, periods := CleanHistory(history), Periods(horizon);
            && (x == [] ==>
                  r.fitted == [] && |r.forecast| == periods && forall k :: 0 <= k < periods ==> r.forecast[k] == 0.0)
            && (x != [] && m == Naive ==> RepeatsLast(r, x, periods))
            && (x != [] && m == Sma ==> RepeatsMean(r, x, periods))
            && (x != [] && (m == Ses || (|x| < 2 && m in {Holt, HoltWinters})) ==> RepeatsLevel(r, x, p.alpha, periods))
    ensures var x, periods, season := CleanHistory(history), Periods(horizon), SeasonLength(p.season);
            && (|x| >= 2 && (m == Holt || (m == HoltWinters && |x| < 2 * season)) ==> FollowsTrend(r, x, p, periods))
            && (|x| >= 2 * season && m == HoltWinters ==>
                  FitsSeasons(r.fitted, x, p, season) && FollowsSeasons(r.forecast, x, p, season, periods))
  {
    var x := CleanHistory(history);
    var season := SeasonLength(p.season);
    var periods := Periods(horizon);
    var n := |x|;
    var fitted := new Option<real>[n](_ => None);
    if n == 0 {
      return SafeResult(periods);
    }
    var forecast;
    var effective := EffectiveMethod(m, n, season);
    match effective {
      case Naive => forecast := RunNaive(x, p, season, periods, fitted);
      case Sma => forecast := RunSma(x, p, season, periods, fitted);
      case Ses => forecast := RunSes(x, p, season, periods, fitted);
      case Holt => forecast := RunHolt(x, p, season, periods, fitted);
      case HoltWinters => forecast := RunHoltWinters(x, p, season, periods, fitted);
    }
    var sums := Accuracy(x, fitted[..]);
    r := Report(fitted[..], forecast, sums);
    assert r == ForecastOf(history, m, p, horizon);
    hide RepeatsLast, RepeatsMean, RepeatsLevel, FollowsTrend, FitsSeasons, FollowsSeasons;
    MethodsAreAsNamed(effective, x, p, season, periods);
    EffectiveMethodIff(m, n, season);
  }

  method RunNaive(x: seq<real>, p: Params, season: nat, periods: nat, fitted: array<Option<real>>)
    returns (forecast: seq<real>)
    requires Applicable(Naive, x, season) && fitted.Length == |x|
    requires forall k :: 0 <= k < |x| ==> fitted[k] == None
    modifies fitted
    ensures fitted[..] == Fitted(Naive, x, p, season)
    ensures forecast == Projections(Naive, x, p, season, periods)
    ensures fitted[0] == None && forall i :: 0 < i < |x| ==> fitted[i] == Some(x[i - 1])
    ensures |forecast| == periods && forall k :: 0 <= k < periods ==> forecast[k] == x[|x| - 1]
  {
    for i := 1 to |x|
      invariant forall k :: 0 <= k < i ==> fitted[k] == FittedAt(Naive, x, p, season, k)
    {
      fitted[i] := Some(x[i - 1]);
    }
    forecast := [];
    for h := 0 to periods
      invariant forecast == Projections(Naive, x, p, season, h)
      invariant forall k :: 0 <= k < h ==> forecast[k] == x[|x| - 1]
    {
      forecast := forecast + [x[|x| - 1]];
    }
  }

  method RunSma(x: seq<real>, p: Params, season: nat, periods: nat, fitted: array<Option<real>>)
    returns (forecast: seq<real>)
    requires Applicable(Sma, x, season) && fitted.Length == |x|
    requires forall k :: 0 <= k < |x| ==> fitted[k] == None
    modifies fitted
    ensures fitted[..] == Fitted(Sma, x, p, season)
    ensures forecast == Projections(Sma, x, p, season, periods)
  {
    var w := SmaWindow(x);
    for i := w to |x|
      invariant forall k :: 0 <= k < i ==> fitted[k] == FittedAt(Sma, x, p, season, k)
    {
      fitted[i] := Some(Sum(x[i - w..i]) / w as real);
    }
    var lastAverage := Sum(x[|x| - w..]) / w as real;
    forecast := [];
    for h := 0 to periods
      invariant forecast == Projections(Sma, x, p, season, h)
    {
      forecast := forecast + [lastAverage];
    }
  }

  method RunSes(x: seq<real>, p: Params, season: nat, periods: nat, fitted: array<Option<real>>)
    returns (forecast: seq<real>)
    requires Applicable(Ses, x, season) && fitted.Length == |x|
    modifies fitted
    ensures fitted[..] == Fitted(Ses, x, p, season)
    ensures forecast == Projections(Ses, x, p, season, periods)
  {
    var level := x[0];
    fitted[0] := Some(level);
    for i := 1 to |x|
      invariant level == SesLevel(x, p.alpha, i - 1)
      invariant forall k :: 0 <= k < i ==> fitted[k] == FittedAt(Ses, x, p, season, k)
    {
      level := Blend(p.alpha, x[i], level);
      fitted[i] := Some(level);
    }
    forecast := [];
    for h := 0 to periods
      invariant forecast == Projections(Ses, x, p, season, h)
    {
      forecast := forecast + [level];
    }
  }

  method RunHolt(x: seq<real>, p: Params, season: nat, periods: nat, fitted: array<Option<real>>)
    returns (forecast: seq<real>)
    requires Applicable(Holt, x, season) && fitted.Length == |x|
    modifies fitted
    ensures fitted[..] == Fitted(Holt, x, p, season)
    ensures forecast == Projections(Holt, x, p, season, periods)
  {
    hide Blend;
    var level := x[0];
    var trend := x[1] - x[0];
    fitted[0] := Some(level);
    for i := 1 to |x|
      invariant Trended(level, trend) == HoltState(x, p, i - 1)
      invariant forall k :: 0 <= k < i ==> fitted[k] == FittedAt(Holt, x, p, season, k)
    {
      var prevLevel := level;
      level := Blend(p.alpha, x[i], level + trend);
      trend := Blend(p.beta, level - prevLevel, trend);
      fitted[i] := Some(level + trend);
    }
    forecast := ExtendTrend(level, trend, periods);
    assert forecast == Projections(Holt, x, p, season, periods);
  }

  method ExtendTrend(level: real, trend: real, periods: nat) returns (forecast: seq<real>)
    ensures forecast == seq(periods, k requires 0 <= k < periods => Extend(level, trend, k + 1))
  {
    forecast := [];
    for h := 1 to periods + 1
      invariant forecast == seq(h - 1, k requires 0 <= k < h - 1 => Extend(level, trend, k + 1))
    {
      forecast := forecast + [Extend(level, trend, h)];
    }
  }

  method RunHoltWinters(x: seq<real>, p: Params, season: nat, periods: nat, fitted: array<Option<real>>)
    returns (forecast: seq<real>)
    requires Applicable(HoltWinters, x, season) && fitted.Length == |x|
    modifies fitted
    ensures fitted[..] == Fitted(HoltWinters, x, p, season)
    ensures forecast == Projections(HoltWinters, x, p, season, periods)
  {
    var level := Share(Sum(x[..season]), season as real);
    var trend := Share(Sum(x[season..2 * season]) - Sum(x[..season]), (season * season) as real);
    var indices := InitialIndices(x, season, Max(level, 1.0));
    var start := Seasonal(level, trend, indices[..]);
    assert start == HwState(x, p, season, 0) && 0 % season == 0;
    fitted[0] := Some(InSeason(level, indices[0]));
    var last := FitSeasons(x, p, season, start, indices, fitted);
    forecast := ExtendSeasons(last.level, last.trend, last.indices, |x|, periods);
    assert forecast == Projections(HoltWinters, x, p, season, periods);
  }

  method FitSeasons(x: seq<real>, p: Params, season: nat, start: Seasonal,
                    indices: array<real>, fitted: array<Option<real>>) returns (last: Seasonal)
    requires Applicable(HoltWinters, x, season) && fitted.Length == |x|
    requires start == HwState(x, p, season, 0) && indices[..] == start.indices
    requires fitted[0] == FittedAt(HoltWinters, x, p, season, 0)
    modifies indices, fitted
    ensures fitted[..] == Fitted(HoltWinters, x, p, season)
    ensures last == HwState(x, p, season, |x| - 1)
  {
    hide Blend, Share, InSeason;
    var level, trend := start.level, start.trend;
    for i := 1 to |x|
      invariant Seasonal(level, trend, indices[..]) == HwState(x, p, season, i - 1)
      invariant forall k :: 0 <= k < i ==> fitted[k] == FittedAt(HoltWinters, x, p, season, k)
    {
      var slot := i % season;
      var index := indices[slot];
      var prevLevel := level;
      level := Blend(p.alpha, Share(x[i], Max(index, 0.0001)), level + trend);
      trend := Blend(p.beta, level - prevLevel, trend);
      indices[slot] := Blend(p.gamma, Share(x[i], Max(level, 0.0001)), index);
      fitted[i] := Some(InSeason(level + trend, indices[slot]));
      assert Seasonal(level, trend, indices[..]) == HwState(x, p, season, i);
    }
    last := Seasonal(level, trend, indices[..]);
  }

  method ExtendSeasons(level: real, trend: real, indices: seq<real>, n: nat, periods: nat)
    returns (forecast: seq<real>)
    requires |indices| > 0
    ensures forecast == seq(periods, k requires 0 <= k < periods =>
                              InSeason(Extend(level, trend, k + 1), indices[(n + k) % |indices|]))
  {
    forecast := [];
    for h := 1 to periods + 1
      invariant forecast == seq(h - 1, k requires 0 <= k < h - 1 =>
                                  InSeason(Extend(level, trend, k + 1), indices[(n + k) % |indices|]))
    {
      forecast := forecast + [InSeason(Extend(level, trend, h), indices[(n + h - 1) % |indices|])];
    }
  }

  method InitialIndices(x: seq<real>, season: nat, initialLevel: real) returns (indices: array<real>)
    requires season <= |x| && initialLevel > 0.0
    ensures fresh(indices) && indices.Length == season
    ensures indices[..] == seq(season, i requires 0 <= i < season => InitialIndex(x[i], initialLevel))
  {
    indices := new real[season](_ => 0.0);
    for i := 0 to season
      invariant forall k :: 0 <= k < i ==> indices[k] == InitialIndex(x[k], initialLevel)
    {
      indices[i] := InitialIndex(x[i], initialLevel);
    }
  }

  method Accuracy(x: seq<real>, fitted: seq<Option<real>>) returns (s: Sums)
    requires |fitted| == |x|
    ensures s == SumsUpTo(x, fitted, |x|)
  {
    var sumAbsPct, sumSq, sumAbs, sumErr, cnt := 0.0, 0.0, 0.0, 0.0, 0;
    var sumActual, sumSMAPE, sumNaiveSq := 0.0, 0.0, 0.0;
    for i := 0 to |x|
      invariant Sums(sumAbsPct, sumSq, sumAbs, sumErr, cnt, sumActual, sumSMAPE, sumNaiveSq)
             == SumsUpTo(x, fitted, i)
    {
      if fitted[i].None? || x[i] == 0.0 {
        continue;
      }
      var err := x[i] - fitted[i].value;
      sumAbsPct := sumAbsPct + Abs(Share(err, x[i]));
      sumSq, sumAbs, sumErr, cnt := sumSq + Square(err), sumAbs + Abs(err), sumErr + err, cnt + 1;
      sumActual := sumActual + x[i];
      var denom := (Abs(x[i]) + Abs(fitted[i].value)) / 2.0;
      if denom > 0.0 {
        sumSMAPE := sumSMAPE + Share(Abs(err), denom);
      }
      if i > 0 {
        sumNaiveSq := sumNaiveSq + Square(x[i] - x[i - 1]);
      }
    }
    s := Sums(sumAbsPct, sumSq, sumAbs, sumErr, cnt, sumActual, sumSMAPE, sumNaiveSq);
  }
}
