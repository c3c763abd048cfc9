/** Measuring demand in another unit rescales the forecast and its error figures, and nothing else. */
module ForecastScaling {
  import opened Numbers
  import opened Wrappers
  import opened ForecastModel
  import opened ForecastSmoothing

  function Scaled(k: real, x: seq<real>): (y: seq<real>)
    ensures |y| == |x|
  {
    seq(|x|, i requires 0 <= i < |x| => Times(k, x[i]))
  }

  function ScaledFit(k: real, f: seq<Option<real>>): (g: seq<Option<real>>)
    ensures |g| == |f|
  {
    seq(|f|, i requires 0 <= i < |f| => ScaledOption(k, f[i]))
  }

  function ScaledOption(k: real, v: Option<real>): Option<real> {
    if v.Some? then Some(Times(k, v.value)) else None
  }

  // ----- arithmetic

  lemma BlendScales(k: real, weight: real, a: real, b: real)
    ensures Blend(weight, Times(k, a), Times(k, b)) == Times(k, Blend(weight, a, b))
  {
    Rearrange(weight, k, a);
    Rearrange(1.0 - weight, k, b);
    Distribute(k, Times(weight, a), Times(1.0 - weight, b));
  }

  lemma Difference(k: real, a: real, b: real)
    ensures Times(k, a) - Times(k, b) == Times(k, a - b)
  {
  }

  lemma ShareScales(k: real, a: real, b: real)
    requires b != 0.0
    ensures Share(Times(k, a), b) == Times(k, Share(a, b))
  {
  }

  lemma ShareIsFree(k: real, a: real, b: real)
    requires k > 0.0 && b != 0.0
    ensures Times(k, b) != 0.0 && Share(Times(k, a), Times(k, b)) == Share(a, b)
  {
    var q := a / b;
    assert q * b == a;
    Rearrange(q, k, b);
    assert k * b != 0.0;
    assert q * (k * b) / (k * b) == q;
  }

  lemma AbsScales(k: real, a: real)
    requires k > 0.0
    ensures Abs(Times(k, a)) == Times(k, Abs(a))
    ensures Times(k, a) == 0.0 <==> a == 0.0
    ensures Times(k, a) >= 0.0 <==> a >= 0.0
    ensures Times(k, a) > 0.0 <==> a > 0.0
  {
    assert Times(k, a) / k == a;
  }

  lemma SquareScales(k: real, a: real)
    ensures Square(Times(k, a)) == Times(Square(k), Square(a))
  {
    Rearrange(k, a, Times(k, a));
    Rearrange(a, k, a);
  }

  lemma MaxScales(k: real, a: real)
    requires k > 0.0
    ensures Max(0.0, Times(k, a)) == Times(k, Max(0.0, a))
  {
    AbsScales(k, a);
  }

  // ----- the smoothing states

  lemma {:induction false} SumScales(k: real, x: seq<real>)
    ensures Sum(Scaled(k, x)) == Times(k, Sum(x))
  {
    if x != [] {
      SumScales(k, x[..|x| - 1]);
      assert Scaled(k, x)[..|x| - 1] == Scaled(k, x[..|x| - 1]);
      Distribute(k, Sum(x[..|x| - 1]), x[|x| - 1]);
    }
  }

  lemma AverageScales(k: real, x: seq<real>, lo: nat, hi: nat)
    requires lo < hi <= |x|
    ensures Sum(Scaled(k, x)[lo..hi]) == Times(k, Sum(x[lo..hi]))
    ensures Sum(Scaled(k, x)[lo..hi]) / (hi - lo) as real == Times(k, Sum(x[lo..hi]) / (hi - lo) as real)
  {
    assert Scaled(k, x)[lo..hi] == Scaled(k, x[lo..hi]);
    SumScales(k, x[lo..hi]);
    ShareScales(k, Sum(x[lo..hi]), (hi - lo) as real);
  }

  lemma {:induction false} SesScales(k: real, x: seq<real>, alpha: real, i: nat)
    requires i < |x|
    ensures SesLevel(Scaled(k, x), alpha, i) == Times(k, SesLevel(x, alpha, i))
  {
    if i > 0 {
      SesScales(k, x, alpha, i - 1);
      BlendScales(k, alpha, x[i], SesLevel(x, alpha, i - 1));
    }
  }

  function ScaledTrended(k: real, s: Trended): Trended {
    Trended(Times(k, s.level), Times(k, s.trend))
  }

  lemma TrendedStepScales(k: real, p: Params, s: Trended, demand: real)
    ensures var level := Blend(p.alpha, demand, s.level + s.trend);
            var t := ScaledTrended(k, s);
            var level' := Blend(p.alpha, Times(k, demand), t.level + t.trend);
            && level' == Times(k, level)
            && Blend(p.beta, level' - t.level, t.trend) == Times(k, Blend(p.beta, level - s.level, s.trend))
  {
    var level := Blend(p.alpha, demand, s.level + s.trend);
    Distribute(k, s.level, s.trend);
    BlendScales(k, p.alpha, demand, s.level + s.trend);
    Difference(k, level, s.level);
    BlendScales(k, p.beta, level - s.level, s.trend);
  }

  lemma {:induction false} HoltScales(k: real, x: seq<real>, p: Params, i: nat)
    requires |x| >= 2 && i < |x|
    ensures HoltState(Scaled(k, x), p, i) == ScaledTrended(k, HoltState(x, p, i))
  {
    if i == 0 {
      Difference(k, x[1], x[0]);
    } else {
      HoltScales(k, x, p, i - 1);
      TrendedStepScales(k, p, HoltState(x, p, i - 1), x[i]);
    }
  }

  lemma ExtendScales(k: real, level: real, trend: real, h: nat)
    ensures Extend(Times(k, level), Times(k, trend), h) == Times(k, Extend(level, trend, h))
  {
    Rearrange(h as real, k, trend);
    Distribute(k, level, Times(h as real, trend));
  }

  // ----- Holt-Winters: exactly when the clamps do not see the unit

  function ScaledSeasonal(k: real, s: Seasonal): Seasonal {
    Seasonal(Times(k, s.level), Times(k, s.trend), s.indices)
  }

  /** The clamp at `lo` treats a and its k-fold alike. */
  predicate ClampIsFree(k: real, a: real, lo: real) {
    k == 1.0 || (a >= lo && Times(k, a) >= lo)
  }

  lemma ClampScalesIff(k: real, a: real, lo: real)
    requires k > 0.0 && lo > 0.0
    ensures Max(Times(k, a), lo) == Times(k, Max(a, lo)) <==> ClampIsFree(k, a, lo)
  {
    if k != 1.0 {
      assert Times(k, lo) != lo;
      if a < lo {
        LessTimes(k, a, lo);
      }
    }
  }

  lemma ShareScalesIff(k: real, demand: real, a: real, b: real)
    requires k > 0.0 && a > 0.0 && b > 0.0 && demand != 0.0
    ensures Share(Times(k, demand), b) == Share(demand, a) <==> b == Times(k, a)
  {
    var q := demand / a;
    assert q * a == demand && q != 0.0;
    assert Times(k, demand) == Times(k, Times(q, a));
    Rearrange(k, q, a);
    assert Times(q, b) / b == q;
    if Share(Times(k, demand), b) == q {
      assert q * b == Times(k, demand) == q * Times(k, a);
      assert q * b / q == b && q * Times(k, a) / q == Times(k, a);
    }
  }

  lemma NoDemandNoShare(k: real, b: real)
    requires b != 0.0
    ensures Times(k, 0.0) == 0.0 && Share(0.0, b) == 0.0
  {
  }

  /** What a step divides by its clamped divisor comes out the same in both units. */
  lemma ClampedShareIff(k: real, demand: real, a: real, lo: real)
    requires k > 0.0 && lo > 0.0
    ensures Share(Times(k, demand), Max(Times(k, a), lo)) == Share(demand, Max(a, lo))
       <==> demand == 0.0 || ClampIsFree(k, a, lo)
  {
    ClampScalesIff(k, a, lo);
    if demand == 0.0 {
      NoDemandNoShare(k, Max(a, lo));
      NoDemandNoShare(k, Max(Times(k, a), lo));
    } else {
      ShareScalesIff(k, demand, Max(a, lo), Max(Times(k, a), lo));
    }
  }

  /** The seasonal indices start the same in both units. */
  predicate StartIsFree(k: real, x: seq<real>, season: nat)
    requires season >= 2 && |x| >= 2 * season
  {
    || (forall i :: 0 <= i < season ==> x[i] == 0.0)
    || ClampIsFree(k, FirstSeasonMean(x, season), 1.0)
  }

  /** A step does not see the unit: the seasonal index has no weight, or no demand, or its clamp is idle. */
  predicate StepIsFree(k: real, s: Seasonal, demand: real, slot: nat, p: Params)
    requires slot < |s.indices|
  {
    p.gamma == 0.0 || demand == 0.0 || ClampIsFree(k, HwStep(s, demand, slot, p).level, 0.0001)
  }

  lemma IndexScalesIff(k: real, demand: real, mean: real)
    requires k > 0.0
    ensures InitialIndex(Times(k, demand), Max(Times(k, mean), 1.0)) == InitialIndex(demand, Max(mean, 1.0))
       <==> demand == 0.0 || ClampIsFree(k, mean, 1.0)
  {
    ClampedShareIff(k, demand, mean, 1.0);
    AbsScales(k, demand);
    NoneOrSome(demand, Max(mean, 1.0));
    NoneOrSome(Times(k, demand), Max(Times(k, mean), 1.0));
  }

  lemma NoneOrSome(a: real, b: real)
    requires b > 0.0
    ensures Share(a, b) == 0.0 <==> a == 0.0
  {
    assert a / b * b == a;
  }

  lemma HwStartScalesIff(k: real, x: seq<real>, season: nat)
    requires k > 0.0 && season >= 2 && |x| >= 2 * season
    ensures HwStart(Scaled(k, x), season) == ScaledSeasonal(k, HwStart(x, season)) <==> StartIsFree(k, x, season)
  {
    var y := Scaled(k, x);
    var mean := FirstSeasonMean(x, season);
    var s, t := HwStart(x, season), HwStart(y, season);
    AverageScales(k, x, 0, season);
    AverageScales(k, x, season, 2 * season);
    assert x[0..season] == x[..season] && y[0..season] == y[..season];
    Difference(k, Sum(x[season..2 * season]), Sum(x[..season]));
    ShareScales(k, Sum(x[season..2 * season]) - Sum(x[..season]), (season * season) as real);
    assert FirstSeasonMean(y, season) == Times(k, mean);
    hide FirstSeasonMean, InitialIndex, Max, ClampIsFree, Share;
    forall i | 0 <= i < season
      ensures t.indices[i] == s.indices[i] <==> x[i] == 0.0 || ClampIsFree(k, mean, 1.0)
    {
      IndexScalesIff(k, x[i], mean);
    }
  }

  lemma BlendDiffersIff(weight: real, a: real, b: real, carried: real)
    ensures Blend(weight, a, carried) == Blend(weight, b, carried) <==> weight == 0.0 || a == b
  {
    assert Blend(weight, a, carried) - Blend(weight, b, carried) == weight * (a - b);
  }

  /** One step scales exactly if it leaves the unit unseen. */
  lemma HwStepScalesIff(k: real, s: Seasonal, demand: real, slot: nat, p: Params)
    requires k > 0.0 && slot < |s.indices|
    ensures HwStep(ScaledSeasonal(k, s), Times(k, demand), slot, p) == ScaledSeasonal(k, HwStep(s, demand, slot, p))
       <==> StepIsFree(k, s, demand, slot, p)
  {
    var index := s.indices[slot];
    var clamped := Max(index, 0.0001);
    ShareScales(k, demand, clamped);
    TrendedStepScales(k, p, Trended(s.level, s.trend), Share(demand, clamped));
    var t, t' := HwStep(s, demand, slot, p), HwStep(ScaledSeasonal(k, s), Times(k, demand), slot, p);
    ClampedShareIff(k, demand, t.level, 0.0001);
    var a, b := Share(demand, Max(t.level, 0.0001)), Share(Times(k, demand), Max(t'.level, 0.0001));
    BlendDiffersIff(p.gamma, b, a, index);
    assert t.indices[slot] == Blend(p.gamma, a, index) && t'.indices[slot] == Blend(p.gamma, b, index);
    assert t'.indices == t.indices <==> t'.indices[slot] == t.indices[slot] by {
      assert forall n :: 0 <= n < |s.indices| && n != slot ==> t.indices[n] == s.indices[n] == t'.indices[n];
    }
  }

  /** No start and no step of the run sees the unit. */
  ghost predicate UnitFree(k: real, x: seq<real>, p: Params, season: nat)
    requires season >= 2 && |x| >= 2 * season
  {
    && StartIsFree(k, x, season)
    && forall i :: 0 < i < |x| ==> StepIsFree(k, HwState(x, p, season, i - 1), x[i], i % season, p)
  }

  lemma {:induction false} HwScales(k: real, x: seq<real>, p: Params, season: nat, i: nat)
    requires k > 0.0 && season >= 2 && |x| >= 2 * season && UnitFree(k, x, p, season) && i < |x|
    ensures HwState(Scaled(k, x), p, season, i) == ScaledSeasonal(k, HwState(x, p, season, i))
  {
    hide StartIsFree, StepIsFree, HwStep;
    if i == 0 {
      HwStartScalesIff(k, x, season);
    } else {
      HwScales(k, x, p, season, i - 1);
      HwStepScalesIff(k, HwState(x, p, season, i - 1), x[i], i % season, p);
    }
  }

  ghost predicate StatesScale(k: real, x: seq<real>, p: Params, season: nat)
    requires season >= 2 && |x| >= 2 * season
  {
    forall i :: 0 <= i < |x| ==> HwState(Scaled(k, x), p, season, i) == ScaledSeasonal(k, HwState(x, p, season, i))
  }

  /** The states of the loop scale all along the run if and only if the run does not see the unit. */
  lemma HwScalesIff(k: real, x: seq<real>, p: Params, season: nat)
    requires k > 0.0 && season >= 2 && |x| >= 2 * season
    ensures StatesScale(k, x, p, season) <==> UnitFree(k, x, p, season)
  {
    hide StartIsFree, StepIsFree, HwStep, HwStart;
    if UnitFree(k, x, p, season) {
      forall i | 0 <= i < |x| {
        HwScales(k, x, p, season, i);
      }
    }
    if StatesScale(k, x, p, season) {
      assert HwState(Scaled(k, x), p, season, 0) == ScaledSeasonal(k, HwState(x, p, season, 0));
      HwStartScalesIff(k, x, season);
      forall i | 0 < i < |x|
        ensures StepIsFree(k, HwState(x, p, season, i - 1), x[i], i % season, p)
      {
        StepOfScaled(k, x, p, season, i);
      }
    }
  }

  lemma StepOfScaled(k: real, x: seq<real>, p: Params, season: nat, i: nat)
    requires k > 0.0 && season >= 2 && |x| >= 2 * season && StatesScale(k, x, p, season) && 0 < i < |x|
    ensures StepIsFree(k, HwState(x, p, season, i - 1), x[i], i % season, p)
  {
    hide StepIsFree, HwStep, HwStart;
    var before := HwState(x, p, season, i - 1);
    assert HwState(Scaled(k, x), p, season, i - 1) == ScaledSeasonal(k, before);
    assert HwState(Scaled(k, x), p, season, i) == ScaledSeasonal(k, HwState(x, p, season, i));
    HwStepScalesIff(k, before, x[i], i % season, p);
  }

  /** With gamma 0 the condition is one on the history alone: only the clamp at the start can see the unit. */
  lemma FixedIndicesAreUnitFreeIff(k: real, x: seq<real>, p: Params, season: nat)
    requires season >= 2 && |x| >= 2 * season && p.gamma == 0.0
    ensures UnitFree(k, x, p, season) <==> StartIsFree(k, x, season)
  {
  }

  /** No demand at all, or no change of unit, is never seen. */
  lemma NothingToSee(k: real, x: seq<real>, p: Params, season: nat)
    requires season >= 2 && |x| >= 2 * season
    requires k == 1.0 || forall i :: 0 <= i < |x| ==> x[i] == 0.0
    ensures UnitFree(k, x, p, season)
  {
  }

  // ----- fits and projections

  ghost predicate Scalable(m: Method, k: real, x: seq<real>, p: Params, season: nat) {
    k > 0.0 && Applicable(m, x, season) && (m == HoltWinters ==> UnitFree(k, x, p, season))
  }

  lemma FittedScales(m: Method, k: real, x: seq<real>, p: Params, season: nat, i: nat)
    requires Scalable(m, k, x, p, season) && i < |x|
    ensures FittedAt(m, Scaled(k, x), p, season, i) == ScaledOption(k, FittedAt(m, x, p, season, i))
  {
    hide UnitFree, HwState, HoltState, SesLevel, Sum, InSeason;
    match m
    case Naive =>
    case Sma =>
      var w := SmaWindow(x);
      if i >= w {
        AverageScales(k, x, i - w, i);
      }
    case Ses => SesScales(k, x, p.alpha, i);
    case Holt =>
      HoltScales(k, x, p, i);
      Distribute(k, HoltState(x, p, i).level, HoltState(x, p, i).trend);
    case HoltWinters =>
      HwScales(k, x, p, season, i);
      OneStepScales(k, HwState(x, p, season, i), i % season, i == 0);
  }

  lemma OneStepScales(k: real, s: Seasonal, slot: nat, first: bool)
    requires slot < |s.indices|
    ensures var t := ScaledSeasonal(k, s);
            InSeason(if first then t.level else t.level + t.trend, t.indices[slot]) ==
            Times(k, InSeason(if first then s.level else s.level + s.trend, s.indices[slot]))
  {
    Distribute(k, s.level, s.trend);
    Rearrange(k, if first then s.level else s.level + s.trend, s.indices[slot]);
  }

  lemma ProjectionScales(m: Method, k: real, x: seq<real>, p: Params, season: nat, h: nat)
    requires Scalable(m, k, x, p, season) && h >= 1
    ensures Projection(m, Scaled(k, x), p, season, h) == Times(k, Projection(m, x, p, season, h))
  {
    hide UnitFree, HwState;
    var n := |x|;
    match m
    case Naive =>
    case Sma =>
      var w := SmaWindow(x);
      AverageScales(k, x, n - w, n);
      assert x[n - w..n] == x[n - w..] && Scaled(k, x)[n - w..n] == Scaled(k, x)[n - w..];
    case Ses => SesScales(k, x, p.alpha, n - 1);
    case Holt =>
      HoltScales(k, x, p, n - 1);
      ExtendScales(k, HoltState(x, p, n - 1).level, HoltState(x, p, n - 1).trend, h);
    case HoltWinters =>
      HwScales(k, x, p, season, n - 1);
      SeasonedScales(k, HwState(x, p, season, n - 1), h, (n + h - 1) % season);
  }

  lemma SeasonedScales(k: real, s: Seasonal, h: nat, slot: nat)
    requires slot < |s.indices|
    ensures var t := ScaledSeasonal(k, s);
            InSeason(Extend(t.level, t.trend, h), s.indices[slot]) ==
            Times(k, InSeason(Extend(s.level, s.trend, h), s.indices[slot]))
  {
    ExtendScales(k, s.level, s.trend, h);
    Rearrange(k, Extend(s.level, s.trend, h), s.indices[slot]);
  }

  // ----- accuracy figures

  function ScaledSums(k: real, s: Sums): Sums {
    Sums(s.absPct, Times(Square(k), s.sq), Times(k, s.abs), Times(k, s.err), s.cnt,
         Times(k, s.actual), s.smape, Times(Square(k), s.naiveSq))
  }

  lemma ErrorTermsScale(k: real, actual: real, fit: real)
    requires k > 0.0 && actual != 0.0
    ensures var err := actual - fit;
            var err' := Times(k, actual) - Times(k, fit);
            var denom := (Abs(actual) + Abs(fit)) / 2.0;
            var denom' := (Abs(Times(k, actual)) + Abs(Times(k, fit))) / 2.0;
            && err' == Times(k, err) && Times(k, actual) != 0.0
            && Share(err', Times(k, actual)) == Share(err, actual)
            && Square(err') == Times(Square(k), Square(err))
            && Abs(err') == Times(k, Abs(err))
            && denom > 0.0 && denom' > 0.0
            && Share(Abs(err'), denom') == Share(Abs(err), denom)
  {
    var err := actual - fit;
    var denom := (Abs(actual) + Abs(fit)) / 2.0;
    Difference(k, actual, fit);
    AbsScales(k, actual);
    AbsScales(k, fit);
    AbsScales(k, err);
    SquareScales(k, err);
    ShareIsFree(k, err, actual);
    Distribute(k, Abs(actual) / 2.0, Abs(fit) / 2.0);
    AbsScales(k, denom);
    ShareIsFree(k, Abs(err), denom);
  }

  lemma SumsStepScales(k: real, s: Sums, x: seq<real>, f: seq<Option<real>>, i: nat)
    requires k > 0.0 && |f| == |x| && i < |x|
    ensures SumsStep(ScaledSums(k, s), Scaled(k, x), ScaledFit(k, f), i) == ScaledSums(k, SumsStep(s, x, f, i))
  {
    AbsScales(k, x[i]);
    if Scored(x, f, i) {
      var err := x[i] - f[i].value;
      ErrorTermsScale(k, x[i], f[i].value);
      Distribute(Square(k), s.sq, Square(err));
      Distribute(k, s.abs, Abs(err));
      Distribute(k, s.err, err);
      Distribute(k, s.actual, x[i]);
      if i > 0 {
        Difference(k, x[i], x[i - 1]);
        SquareScales(k, x[i] - x[i - 1]);
        Distribute(Square(k), s.naiveSq, Square(x[i] - x[i - 1]));
      }
    }
  }

  lemma {:induction false} SumsScale(k: real, x: seq<real>, f: seq<Option<real>>, i: nat)
    requires k > 0.0 && |f| == |x| && i <= |x|
    ensures SumsUpTo(Scaled(k, x), ScaledFit(k, f), i) == ScaledSums(k, SumsUpTo(x, f, i))
  {
    if i > 0 {
      SumsScale(k, x, f, i - 1);
      SumsStepScales(k, SumsUpTo(x, f, i - 1), x, f, i - 1);
    }
  }

  /** The error figures of scaled sums: mae, rmse and bias scale, the relative figures stay. */
  lemma FiguresScale(k: real, s: Sums)
    requires k > 0.0
    ensures var t := ScaledSums(k, s);
            && Mean(t.abs, t.cnt) == Times(k, Mean(s.abs, s.cnt))
            && Mean(t.err, t.cnt) == Times(k, Mean(s.err, s.cnt))
            && Mean(t.sq, t.cnt) == Times(Square(k), Mean(s.sq, s.cnt))
            && Ratio(t.abs, t.actual) == Ratio(s.abs, s.actual)
            && Ratio(t.err, Mean(t.abs, t.cnt)) == Ratio(s.err, Mean(s.abs, s.cnt))
            && Ratio(t.sq, t.naiveSq) == Ratio(s.sq, s.naiveSq)
  {
    if s.cnt > 0 {
      var n := s.cnt as real;
      ShareScales(k, s.abs, n);
      ShareScales(k, s.err, n);
      ShareScales(Square(k), s.sq, n);
    }
    RatioIsFree(k, s.abs, s.actual);
    RatioIsFree(k, s.err, Mean(s.abs, s.cnt));
    SquareOfPositive(k);
    RatioIsFree(Square(k), s.sq, s.naiveSq);
  }

  lemma SquareOfPositive(k: real)
    requires k > 0.0
    ensures Square(k) > 0.0
  {
    AbsScales(k, k);
  }

  lemma RatioIsFree(k: real, a: real, b: real)
    requires k > 0.0
    ensures Ratio(Times(k, a), Times(k, b)) == Ratio(a, b)
  {
    AbsScales(k, b);
    if b != 0.0 {
      ShareIsFree(k, a, b);
    }
  }

  lemma ResultsScale(m: Method, k: real, x: seq<real>, p: Params, season: nat, periods: nat)
    requires Scalable(m, k, x, p, season)
    ensures Fitted(m, Scaled(k, x), p, season) == ScaledFit(k, Fitted(m, x, p, season))
    ensures ForecastWith(m, Scaled(k, x), p, season, periods).forecast
         == Scaled(k, ForecastWith(m, x, p, season, periods).forecast)
  {
    hide UnitFree, FittedAt, Projection, Max, SumsUpTo;
    forall i | 0 <= i < |x|
      ensures Fitted(m, Scaled(k, x), p, season)[i] == ScaledFit(k, Fitted(m, x, p, season))[i]
    {
      FittedScales(m, k, x, p, season, i);
    }
    var r, t := ForecastWith(m, x, p, season, periods), ForecastWith(m, Scaled(k, x), p, season, periods);
    WhatIsReported(m, x, p, season, periods);
    WhatIsReported(m, Scaled(k, x), p, season, periods);
    forall h | 0 <= h < periods
      ensures t.forecast[h] == Times(k, r.forecast[h])
    {
      ProjectionScales(m, k, x, p, season, h + 1);
      MaxScales(k, Projection(m, x, p, season, h + 1));
    }
  }

  /** t is the forecast r in a unit k times smaller: quantities convert, relative figures stay. */
  predicate ResultScales(k: real, r: ForecastResult, t: ForecastResult) {
    && t.fitted == ScaledFit(k, r.fitted) && t.forecast == Scaled(k, r.forecast)
    && t.mae == Times(k, r.mae) && t.bias == Times(k, r.bias)
    && t.rmseSquared == Times(Square(k), r.rmseSquared)
    && t.mape == r.mape && t.wmape == r.wmape && t.smape == r.smape
    && t.trackingSignal == r.trackingSignal && t.theilUSquared == r.theilUSquared
  }

  /**
   The scale law. It covers every method the fallback rule can settle on; Holt-Winters itself for the
   runs whose states scale, which HwScalesIff characterises.
   */
  lemma ScaleLaw(m: Method, k: real, x: seq<real>, p: Params, season: nat, periods: nat)
    requires Scalable(m, k, x, p, season)
    ensures ResultScales(k, ForecastWith(m, x, p, season, periods), ForecastWith(m, Scaled(k, x), p, season, periods))
  {
    ResultsScale(m, k, x, p, season, periods);
    var fitted := Fitted(m, x, p, season);
    SumsScale(k, x, fitted, |x|);
    FiguresScale(k, SumsUpTo(x, fitted, |x|));
  }

  lemma FallbackScales(m: Method, k: real, x: seq<real>, p: Params, season: nat)
    requires k > 0.0 && |x| > 0 && season >= 2
    requires m == HoltWinters ==> |x| < 2 * season
    ensures Scalable(EffectiveMethod(m, |x|, season), k, x, p, season)
  {
  }

  /** Below a first-season mean of 1 the initial clamp bites: quarter the demand and the fit is off. */
  lemma HoltWintersIsNotUnitFree(p: Params)
    ensures var x := [2.0, 2.0, 2.0, 2.0];
            && FittedAt(HoltWinters, x, p, 2, 0) == Some(2.0)
            && FittedAt(HoltWinters, Scaled(0.25, x), p, 2, 0) == Some(0.25)
  {
    var x := [2.0, 2.0, 2.0, 2.0];
    var y := Scaled(0.25, x);
    assert x[..2] == [2.0, 2.0] && y[..2] == [0.5, 0.5];
    SumOfTwo(2.0, 2.0);
    SumOfTwo(0.5, 0.5);
  }

  lemma SumOfTwo(a: real, b: real)
    ensures Sum([a, b]) == a + b
  {
    assert [a, b][..1] == [a];
    assert Sum([a]) == Sum([]) + a;
  }
}
