/**
 The demand-forecasting engine of src/domain/forecast/planning.ts as functions: what each method
 fits and projects, and the accuracy figures computed from the fit. Quantities are reals; `rmse` and
 `theilU` are kept as squares, so no square root is needed.
 */
module ForecastModel {
  import opened Numbers
  import opened Wrappers

  datatype Method = Naive | Sma | Ses | Holt | HoltWinters

  datatype Params = Params(alpha: real, beta: real, gamma: real, season: real)

  /** One history entry after `Number(value)`: a finite number, or NaN/Infinity. */
  datatype Demand = Finite(value: real) | NotFinite

  datatype ForecastResult = ForecastResult(
    fitted: seq<Option<real>>,
    forecast: seq<real>,
    mape: real,
    rmseSquared: real,
    mae: real,
    bias: real,
    wmape: real,
    smape: real,
    trackingSignal: real,
    theilUSquared: real)

  function Square(a: real): real {
    a * a
  }

  function Times(a: real, b: real): real {
    a * b
  }

  lemma LessTimes(c: real, a: real, b: real)
    requires c > 0.0 && a < b
    ensures Times(c, a) < Times(c, b) && Times(a, c) < Times(b, c)
  {
  }

  /** How large a is measured against b. */
  function Share(a: real, b: real): real
    requires b != 0.0
  {
    a / b
  }

  function CleanHistory(history: seq<Demand>): (x: seq<real>)
    ensures NonNegative(x)
  {
    if history == [] then []
    else if history[0].Finite? && history[0].value >= 0.0 then [history[0].value] + CleanHistory(history[1..])
    else CleanHistory(history[1..])
  }

  /** Cleaning works entry by entry, keeps the order, and changes nothing the second time. */
  lemma {:induction false} CleaningIsStable(a: seq<Demand>, b: seq<Demand>)
    ensures CleanHistory(a + b) == CleanHistory(a) + CleanHistory(b)
    ensures CleanHistory(AsDemand(CleanHistory(a))) == CleanHistory(a)
  {
    if a == [] {
      assert a + b == b;
      assert AsDemand([]) == [];
    } else {
      assert (a + b)[1..] == a[1..] + b;
      CleaningIsStable(a[1..], b);
      var x := CleanHistory(a);
      if x != [] {
        assert AsDemand(x)[1..] == AsDemand(x[1..]);
      }
    }
  }

  predicate Usable(d: Demand) {
    d.Finite? && d.value >= 0.0
  }

  /** The positions of the entries that survive cleaning, in order. */
  function UsableAt(history: seq<Demand>): (at: seq<nat>)
    ensures forall k :: 0 <= k < |at| ==> at[k] < |history|
  {
    if history == [] then []
    else
      var n := |history| - 1;
      if Usable(history[n]) then UsableAt(history[..n]) + [n] else UsableAt(history[..n])
  }

  /** Position at[k] of the history holds the k-th cleaned value. */
  predicate Picks(history: seq<Demand>, at: seq<nat>, x: seq<real>) {
    |x| == |at| && forall k :: 0 <= k < |at| ==> at[k] < |history| && history[at[k]] == Finite(x[k])
  }

  predicate Increasing(at: seq<nat>) {
    forall j, k :: 0 <= j < k < |at| ==> at[j] < at[k]
  }

  /** Cleaning keeps exactly the finite, non-negative entries, in order and unchanged. */
  lemma {:induction false} CleaningKeepsUsable(history: seq<Demand>)
    ensures Picks(history, UsableAt(history), CleanHistory(history)) && Increasing(UsableAt(history))
    ensures forall i: nat :: i in UsableAt(history) <==> i < |history| && Usable(history[i])
  {
    hide CleanHistory, Picks;
    if history == [] {
      NothingPicked();
    } else {
      var n := |history| - 1;
      var before := history[..n];
      CleaningKeepsUsable(before);
      CleaningIsStable(before, [history[n]]);
      CleaningOne(history[n]);
      assert history == before + [history[n]];
      PickOneMore(history, n, UsableAt(before), CleanHistory(before));
      assert CleanHistory(before) + [] == CleanHistory(before);
      hide Increasing;
      forall i: nat
        ensures i in UsableAt(history) <==> i < |history| && Usable(history[i])
      {
        assert i in UsableAt(before) <==> i < n && Usable(before[i]);
      }
    }
  }

  lemma NothingPicked()
    ensures Picks([], UsableAt([]), CleanHistory([]))
  {
  }

  lemma PickOneMore(history: seq<Demand>, n: nat, at: seq<nat>, x: seq<real>)
    requires |history| == n + 1 && Picks(history[..n], at, x)
    ensures Picks(history, at, x)
    ensures Usable(history[n]) ==> Picks(history, at + [n], x + [history[n].value])
  {
  }

  lemma CleaningOne(d: Demand)
    ensures CleanHistory([d]) == if Usable(d) then [d.value] else []
  {
  }

  function AsDemand(x: seq<real>): seq<Demand> {
    seq(|x|, i requires 0 <= i < |x| => Finite(x[i]))
  }

  predicate NonNegative(x: seq<real>) {
    forall i :: 0 <= i < |x| ==> x[i] >= 0.0
  }

  /** `Math.max(2, Math.floor(Number(season || 12)))` */
  function SeasonLength(season: real): (s: nat)
    ensures s >= 2
  {
    var floor := if season == 0.0 then 12 else season.Floor;
    if floor < 2 then 2 else floor
  }

  function Periods(horizon: real): nat {
    if horizon.Floor < 0 then 0 else horizon.Floor
  }

  /** The downgrade rule for histories too short for the requested method. */
  function EffectiveMethod(m: Method, n: nat, season: nat): Method {
    if m == HoltWinters && n < 2 * season then (if n >= 2 then Holt else Ses)
    else if m == Holt && n < 2 then Ses
    else m
  }

  /** What a method needs of the history before its formulas make sense. */
  predicate Applicable(m: Method, x: seq<real>, season: nat) {
    && |x| > 0
    && season >= 2
    && (m == Holt ==> |x| >= 2)
    && (m == HoltWinters ==> |x| >= 2 * season)
  }

  function Sum(x: seq<real>): real {
    if x == [] then 0.0 else Sum(x[..|x| - 1]) + x[|x| - 1]
  }

  // ----- smoothing states after entry i has been consumed

  function SesLevel(x: seq<real>, alpha: real, i: nat): real
    requires i < |x|
  {
    if i == 0 then x[0] else Blend(alpha, x[i], SesLevel(x, alpha, i - 1))
  }

  /** A smoothing step: `weight * latest + (1 - weight) * carried`. */
  function Blend(weight: real, latest: real, carried: real): real {
    weight * latest + (1.0 - weight) * carried
  }

  /** The trend line h steps on: `level + h * trend`. */
  function Extend(level: real, trend: real, h: nat): real {
    level + h as real * trend
  }

  /** A level put back into season. */
  function InSeason(base: real, index: real): real {
    Times(base, index)
  }

  datatype Trended = Trended(level: real, trend: real)

  function HoltState(x: seq<real>, p: Params, i: nat): Trended
    requires |x| >= 2 && i < |x|
  {
    if i == 0 then Trended(x[0], x[1] - x[0])
    else
      var s := HoltState(x, p, i - 1);
      var level := Blend(p.alpha, x[i], s.level + s.trend);
      Trended(level, Blend(p.beta, level - s.level, s.trend))
  }

  datatype Seasonal = Seasonal(level: real, trend: real, indices: seq<real>)

  function FirstSeasonMean(x: seq<real>, season: nat): real
    requires 2 <= season <= |x|
  {
    Share(Sum(x[..season]), season as real)
  }

  /** `cleanHistory[i] / initialLevel || 1` */
  function InitialIndex(demand: real, initialLevel: real): real
    requires initialLevel > 0.0
  {
    if Share(demand, initialLevel) == 0.0 then 1.0 else Share(demand, initialLevel)
  }

  function HwStart(x: seq<real>, season: nat): (s: Seasonal)
    requires season >= 2 && |x| >= 2 * season
    ensures |s.indices| == season
  {
    var level := FirstSeasonMean(x, season);
    var trend := Share(Sum(x[season..2 * season]) - Sum(x[..season]), (season * season) as real);
    Seasonal(level, trend, seq(season, i requires 0 <= i < season => InitialIndex(x[i], Max(level, 1.0))))
  }

  function HwStep(s: Seasonal, demand: real, slot: nat, p: Params): (t: Seasonal)
    requires slot < |s.indices|
    ensures |t.indices| == |s.indices|
  {
    var index := s.indices[slot];
    var level := Blend(p.alpha, Share(demand, Max(index, 0.0001)), s.level + s.trend);
    var trend := Blend(p.beta, level - s.level, s.trend);
    Seasonal(level, trend,
             s.indices[slot := Blend(p.gamma, Share(demand, Max(level, 0.0001)), index)])
  }

  function HwState(x: seq<real>, p: Params, season: nat, i: nat): (s: Seasonal)
    requires season >= 2 && |x| >= 2 * season && i < |x|
    ensures |s.indices| == season
  {
    if i == 0 then HwStart(x, season) else HwStep(HwState(x, p, season, i - 1), x[i], i % season, p)
  }

  // ----- fitted values and raw projections

  function SmaWindow(x: seq<real>): nat {
    if |x| < 3 then |x| else 3
  }

  function FittedAt(m: Method, x: seq<real>, p: Params, season: nat, i: nat): Option<real>
    requires Applicable(m, x, season) && i < |x|
  {
    match m
    case Naive => if i == 0 then None else Some(x[i - 1])
    case Sma =>
      var w := SmaWindow(x);
      if i < w then None else Some(Sum(x[i - w..i]) / w as real)
    case Ses => Some(SesLevel(x, p.alpha, i))
    case Holt =>
      var s := HoltState(x, p, i);
      Some(if i == 0 then s.level else s.level + s.trend)
    case HoltWinters =>
      var s := HwState(x, p, season, i);
      Some(InSeason(if i == 0 then s.level else s.level + s.trend, s.indices[i % season]))
  }

  function Fitted(m: Method, x: seq<real>, p: Params, season: nat): (f: seq<Option<real>>)
    requires Applicable(m, x, season)
    ensures |f| == |x|
  {
    seq(|x|, i requires 0 <= i < |x| => FittedAt(m, x, p, season, i))
  }

  /** The projection h steps past the end of the history, before negative values are cut to 0. */
  function Projection(m: Method, x: seq<real>, p: Params, season: nat, h: nat): real
    requires Applicable(m, x, season) && h >= 1
  {
    var n := |x|;
    match m
    case Naive => x[n - 1]
    case Sma => Sum(x[n - SmaWindow(x)..]) / SmaWindow(x) as real
    case Ses => SesLevel(x, p.alpha, n - 1)
    case Holt =>
      var s := HoltState(x, p, n - 1);
      Extend(s.level, s.trend, h)
    case HoltWinters =>
      var s := HwState(x, p, season, n - 1);
      InSeason(Extend(s.level, s.trend, h), s.indices[(n + h - 1) % season])
  }

  function Projections(m: Method, x: seq<real>, p: Params, season: nat, periods: nat): seq<real>
    requires Applicable(m, x, season)
  {
    seq(periods, k requires 0 <= k < periods => Projection(m, x, p, season, k + 1))
  }

  predicate FitsExactly(fitted: seq<Option<real>>, x: seq<real>) {
    |fitted| == |x| && forall i :: 0 <= i < |x| ==> fitted[i] == Some(x[i])
  }

  // ----- accuracy figures

  datatype Sums = Sums(absPct: real, sq: real, abs: real, err: real, cnt: nat,
                       actual: real, smape: real, naiveSq: real)

  const NO_SUMS := Sums(0.0, 0.0, 0.0, 0.0, 0, 0.0, 0.0, 0.0)

  /** The entries that count towards the accuracy figures. */
  predicate Scored(x: seq<real>, fitted: seq<Option<real>>, i: nat)
    requires |fitted| == |x| && i < |x|
  {
    fitted[i].Some? && x[i] != 0.0
  }

  function SumsStep(s: Sums, x: seq<real>, fitted: seq<Option<real>>, i: nat): Sums
    requires |fitted| == |x| && i < |x|
  {
    if !Scored(x, fitted, i) then s
    else
      var err := x[i] - fitted[i].value;
      var denom := (Abs(x[i]) + Abs(fitted[i].value)) / 2.0;
      Sums(s.absPct + Abs(Share(err, x[i])),
           s.sq + Square(err),
           s.abs + Abs(err),
           s.err + err,
           s.cnt + 1,
           s.actual + x[i],
           if denom > 0.0 then s.smape + Share(Abs(err), denom) else s.smape,
           if i > 0 then s.naiveSq + Square(x[i] - x[i - 1]) else s.naiveSq)
  }

  function SumsUpTo(x: seq<real>, fitted: seq<Option<real>>, i: nat): Sums
    requires |fitted| == |x| && i <= |x|
  {
    if i == 0 then NO_SUMS else SumsStep(SumsUpTo(x, fitted, i - 1), x, fitted, i - 1)
  }

  function Mean(total: real, cnt: nat): real {
    if cnt > 0 then Share(total, cnt as real) else 0.0
  }

  function Ratio(a: real, b: real): real {
    if b != 0.0 then Share(a, b) else 0.0
  }

  function Report(fitted: seq<Option<real>>, raw: seq<real>, s: Sums): ForecastResult {
    ForecastResult(
      fitted,
      seq(|raw|, k requires 0 <= k < |raw| => Max(0.0, raw[k])),
      Mean(s.absPct, s.cnt) * 100.0,
      Mean(s.sq, s.cnt),
      Mean(s.abs, s.cnt),
      Mean(s.err, s.cnt),
      Ratio(s.abs, s.actual) * 100.0,
      Mean(s.smape, s.cnt) * 100.0,
      Ratio(s.err, Mean(s.abs, s.cnt)),
      Ratio(s.sq, s.naiveSq))
  }

  /** The result for a non-empty cleaned history once the method has been settled. */
  function ForecastWith(m: Method, x: seq<real>, p: Params, season: nat, periods: nat): ForecastResult
    requires Applicable(m, x, season)
  {
    var fitted := Fitted(m, x, p, season);
    Report(fitted, Projections(m, x, p, season, periods), SumsUpTo(x, fitted, |x|))
  }

  lemma WhatIsReported(m: Method, x: seq<real>, p: Params, season: nat, periods: nat)
    requires Applicable(m, x, season)
    ensures var r := ForecastWith(m, x, p, season, periods);
            && r.fitted == Fitted(m, x, p, season)
            && |r.forecast| == periods
            && forall k :: 0 <= k < periods ==> r.forecast[k] == Max(0.0, Projection(m, x, p, season, k + 1))
  {
  }

  function SafeResult(periods: nat): ForecastResult {
    ForecastResult([], seq(periods, _ => 0.0), 0.0, 0.0, 0.0, 0.0, 0.0, 0.0, 0.0, 0.0)
  }

  function ForecastOf(history: seq<Demand>, m: Method, p: Params, horizon: real): ForecastResult {
    var x := CleanHistory(history);
    var season := SeasonLength(p.season);
    if x == [] then SafeResult(Periods(horizon))
    else ForecastWith(EffectiveMethod(m, |x|, season), x, p, season, Periods(horizon))
  }
}
