/** Which requests Holt-Winters answers alike in every unit of measure. */
module ForecastUnits {
  import opened Numbers
  import opened Wrappers
  import opened ForecastModel
  import opened ForecastExactness
  import opened ForecastSmoothing
  import opened ForecastScaling

  /** The fit in the new unit is the fit in the old one, converted. */
  predicate FitScales(k: real, x: seq<real>, p: Params, season: nat)
    requires Applicable(HoltWinters, x, season)
  {
    Fitted(HoltWinters, Scaled(k, x), p, season) == ScaledFit(k, Fitted(HoltWinters, x, p, season))
  }

  // ----- repeating histories

  lemma MeanScales(k: real, x: seq<real>, season: nat)
    requires 2 <= season <= |x|
    ensures FirstSeasonMean(Scaled(k, x), season) == Times(k, FirstSeasonMean(x, season))
  {
    AverageScales(k, x, 0, season);
    assert x[0..season] == x[..season] && Scaled(k, x)[0..season] == Scaled(k, x)[..season];
  }

  lemma ScaledRepeats(k: real, x: seq<real>, season: nat)
    requires k > 0.0 && season > 0 && NonNegative(x) && Repeats(x, season)
    ensures NonNegative(Scaled(k, x)) && Repeats(Scaled(k, x), season)
  {
    hide Times;
    forall i | 0 <= i < |x|
      ensures Scaled(k, x)[i] >= 0.0
    {
      AbsScales(k, x[i]);
    }
    forall i | 0 <= i < |x|
      ensures Scaled(k, x)[i] == Scaled(k, x)[i % season]
    {
      assert x[i] == x[i % season];
    }
  }

  lemma ScaledClamps(k: real, x: seq<real>, season: nat)
    requires k > 0.0 && Applicable(HoltWinters, x, season) && ClampsIdle(x, season)
    ensures ClampsIdle(Scaled(k, x), season) <==> Times(k, FirstSeasonMean(x, season)) >= 1.0
  {
    var mean := FirstSeasonMean(x, season);
    MeanScales(k, x, season);
    forall i | 0 <= i < |x|
      ensures Times(k, x[i]) >= 0.0001 * Times(k, mean)
    {
      var rest := x[i] - 0.0001 * mean;
      AbsScales(k, rest);
      Distribute(k, rest, 0.0001 * mean);
      Rearrange(k, 0.0001, mean);
    }
  }

  lemma ExactFitsScale(k: real, x: seq<real>, p: Params, season: nat)
    requires Applicable(HoltWinters, x, season) && FitsExactly(Fitted(HoltWinters, x, p, season), x)
    ensures FitScales(k, x, p, season) <==> FitsExactly(Fitted(HoltWinters, Scaled(k, x), p, season), Scaled(k, x))
  {
    hide FittedAt;
    var f := Fitted(HoltWinters, x, p, season);
    forall i | 0 <= i < |x|
      ensures ScaledFit(k, f)[i] == Some(Scaled(k, x)[i])
    {
      assert f[i] == Some(x[i]);
    }
    if FitsExactly(Fitted(HoltWinters, Scaled(k, x), p, season), Scaled(k, x)) {
      assert Fitted(HoltWinters, Scaled(k, x), p, season) == ScaledFit(k, f);
    }
  }

  /** A history given back in one unit is fitted alike in another exactly if its mean is at least 1 there too. */
  lemma RepeatingHistoryScalesIff(k: real, x: seq<real>, season: nat)
    requires k > 0.0 && Applicable(HoltWinters, x, season) && NonNegative(x)
    requires Repeats(x, season) && ClampsIdle(x, season)
    ensures (forall p | Weights(p) :: FitScales(k, x, p, season)) <==> Times(k, FirstSeasonMean(x, season)) >= 1.0
  {
    hide ClampsIdle, Repeats, FirstSeasonMean, Weights, FitScales, FitsExactly, Fitted, AllZero;
    var y := Scaled(k, x);
    ScaledRepeats(k, x, season);
    ScaledClamps(k, x, season);
    NotAllZero(k, x, season);
    HoltWintersExactIff(y, season);
    forall p
      ensures FitScales(k, x, p, season) <==> FitsExactly(Fitted(HoltWinters, y, p, season), y)
    {
      QuietIsReproduced(x, p, season);
      ExactFitsScale(k, x, p, season);
    }
  }

  lemma NotAllZero(k: real, x: seq<real>, season: nat)
    requires k > 0.0 && Applicable(HoltWinters, x, season) && ClampsIdle(x, season)
    ensures !AllZero(Scaled(k, x))
  {
    var i := 0;
    assert x[0] > 0.0;
    AbsScales(k, x[0]);
    assert Scaled(k, x)[0] != 0.0;
  }

  // ----- all histories

  /** A history on which the clamp at the start sees no unit. */
  predicate StartsFree(k: real, x: seq<real>, season: nat) {
    && Applicable(HoltWinters, x, season) && NonNegative(x)
    && FirstSeasonMean(x, season) >= 1.0 && Times(k, FirstSeasonMean(x, season)) >= 1.0
  }

  /**
   With weights in 0..1, all histories of mean at least 1 in both units are fitted alike exactly when
   the seasonal indices are never updated or the unit does not change.
   */
  lemma WeightsScaleIff(k: real, p: Params)
    requires k > 0.0 && Weights(p)
    ensures (forall x, season | StartsFree(k, x, season) :: FitScales(k, x, p, season)) <==> p.gamma == 0.0 || k == 1.0
  {
    hide FirstSeasonMean, FitScales;
    if p.gamma == 0.0 || k == 1.0 {
      forall x, season | StartsFree(k, x, season)
        ensures FitScales(k, x, p, season)
      {
        FreeStartScales(k, x, p, season);
      }
    } else {
      var x := SomeHistoryMisses(k, p);
    }
  }

  lemma FreeStartScales(k: real, x: seq<real>, p: Params, season: nat)
    requires k > 0.0 && StartsFree(k, x, season) && (p.gamma == 0.0 || k == 1.0)
    ensures FitScales(k, x, p, season)
  {
    assert UnitFree(k, x, p, season) by {
      if k == 1.0 {
        NothingToSee(k, x, p, season);
      } else {
        FixedIndicesAreUnitFreeIff(k, x, p, season);
      }
    }
    ResultsScale(HoltWinters, k, x, p, season, 0);
  }

  /** Two seasons of two periods with demand in the first period only: much, then next to nothing. */
  function Fading(m: real, d: real): seq<real> {
    [2.0 * m, 0.0, d, 0.0]
  }

  /** The state after the two steps in which the level falls under the clamp. */
  function FirstFall(m: real, d: real, p: Params): Trended {
    var trend := (d - 2.0 * m) / 4.0;
    var level := Blend(p.alpha, 0.0, m + trend);
    Trended(level, Blend(p.beta, level - m, trend))
  }

  function SecondFall(m: real, d: real, p: Params): Trended {
    var s := FirstFall(m, d, p);
    var level := Blend(p.alpha, d / 2.0, s.level + s.trend);
    Trended(level, Blend(p.beta, level - s.level, s.trend))
  }

  lemma FadingStart(m: real, d: real)
    requires m >= 1.0
    ensures var x := Fading(m, d);
            && FirstSeasonMean(x, 2) == m
            && HwStart(x, 2) == Seasonal(m, (d - 2.0 * m) / 4.0, [2.0, 1.0])
  {
    var x := Fading(m, d);
    assert x[..2] == [2.0 * m, 0.0] && x[2..4] == [d, 0.0];
    SumOfTwo(2.0 * m, 0.0);
    SumOfTwo(d, 0.0);
    assert InitialIndex(2.0 * m, m) == 2.0;
    assert InitialIndex(0.0, m) == 1.0;
    assert HwStart(x, 2).indices == [2.0, 1.0];
  }

  /** What the loop holds after entries 0, 1 and 2 of a fading history. */
  lemma FadingStates(m: real, d: real, p: Params)
    requires m >= 1.0
    ensures var x := Fading(m, d);
            var s1, s2 := HwState(x, p, 2, 1), HwState(x, p, 2, 2);
            && s1.indices[0] == 2.0 && Trended(s1.level, s1.trend) == FirstFall(m, d, p)
            && Trended(s2.level, s2.trend) == SecondFall(m, d, p)
            && s2.indices[0] == Blend(p.gamma, Share(d, Max(s2.level, 0.0001)), 2.0)
  {
    var x := Fading(m, d);
    FadingStart(m, d);
    var s0, s1, s2 := HwState(x, p, 2, 0), HwState(x, p, 2, 1), HwState(x, p, 2, 2);
    assert s1 == HwStep(s0, 0.0, 1, p) && s2 == HwStep(s1, d, 0, p);
    NothingOver(Max(1.0, 0.0001));
    assert Share(d, Max(2.0, 0.0001)) == d / 2.0;
  }

  // The arithmetic of a fading history: its level falls to half its last demand, and never sticks.

  lemma LevelFalls(m: real, d: real, p: Params)
    requires m >= 1.0 && 0.0 < d < 1.0 && Weights(p)
    ensures SecondFall(m, d, p).level <= d / 2.0
  {
    var s := FirstFall(m, d, p);
    var trend := (d - 2.0 * m) / 4.0;
    BlendIsBelow(p.alpha, 0.0, m + trend, m + trend);
    assert s.level + s.trend == s.level + Blend(p.beta, s.level - m, trend);
    FallStep(s.level, m, trend, d, p.beta);
    BlendIsBelow(p.alpha, d / 2.0, s.level + s.trend, d / 2.0);
  }

  lemma BlendIsBelow(weight: real, a: real, b: real, hi: real)
    requires 0.0 <= weight <= 1.0 && a <= hi && b <= hi
    ensures Blend(weight, a, b) <= hi
  {
    assert weight * (hi - a) >= 0.0 && (1.0 - weight) * (hi - b) >= 0.0;
    assert weight * (hi - a) + (1.0 - weight) * (hi - b) == hi - Blend(weight, a, b);
  }

  lemma FallStep(level: real, m: real, trend: real, d: real, beta: real)
    requires 0.0 <= beta <= 1.0 && trend == (d - 2.0 * m) / 4.0 && level <= m + trend
    ensures level + Blend(beta, level - m, trend) <= d / 2.0
  {
    Share01(beta, m + trend - level);
    assert m + 2.0 * trend == d / 2.0;
    assert Blend(beta, level - m, trend) == trend - beta * (m + trend - level);
  }

  /** With a larger last demand the next fit is larger, so it vanishes for one last demand at most. */
  lemma FallGrows(m: real, c: real, d: real, p: Params)
    requires Weights(p) && c < d
    ensures var u, v := SecondFall(m, c, p), SecondFall(m, d, p);
            u.level + u.trend < v.level + v.trend
  {
    var e := (d - c) / 4.0;
    var s, t := FirstFall(m, c, p), FirstFall(m, d, p);
    var u, v := SecondFall(m, c, p), SecondFall(m, d, p);
    var a1, b1 := t.level - s.level, t.trend - s.trend;
    var a2, b2 := v.level - u.level, v.trend - u.trend;
    BlendGap(p.alpha, 0.0, m + (d - 2.0 * m) / 4.0, 0.0, m + (c - 2.0 * m) / 4.0);
    BlendGap(p.beta, t.level - m, (d - 2.0 * m) / 4.0, s.level - m, (c - 2.0 * m) / 4.0);
    BlendGap(p.alpha, d / 2.0, t.level + t.trend, c / 2.0, s.level + s.trend);
    BlendGap(p.beta, v.level - t.level, t.trend, u.level - s.level, s.trend);
    assert a1 == Blend(p.alpha, 0.0, e) && b1 == Blend(p.beta, a1, e);
    assert a2 == Blend(p.alpha, 2.0 * e, a1 + b1) && b2 == Blend(p.beta, a2 - a1, b1);
    GapGrows(e, p.alpha, p.beta, a1, b1, a2, b2);
  }

  lemma BlendGap(weight: real, a: real, b: real, a': real, b': real)
    ensures Blend(weight, a, b) - Blend(weight, a', b') == Blend(weight, a - a', b - b')
  {
  }

  lemma GapGrows(e: real, alpha: real, beta: real, a1: real, b1: real, a2: real, b2: real)
    requires e > 0.0 && 0.0 <= alpha <= 1.0 && 0.0 <= beta <= 1.0
    requires a1 == Blend(alpha, 0.0, e) && b1 == Blend(beta, a1, e)
    requires a2 == Blend(alpha, 2.0 * e, a1 + b1) && b2 == Blend(beta, a2 - a1, b1)
    ensures a2 + b2 > 0.0
  {
    BlendAsCut(alpha, 0.0, e);
    BlendAsCut(beta, a1, e);
    BlendAsCut(alpha, 2.0 * e, a1 + b1);
    hide Blend;
    var u := 1.0 - alpha;
    Share01(u, e);
    Share01(1.0 - beta, e - a1);
    SecondGap(u, e, a1, b1, a2);
    BlendNonNegative(beta, a2 - a1, b1);
  }

  lemma BlendAsCut(weight: real, a: real, b: real)
    ensures Blend(weight, a, b) == a + (1.0 - weight) * (b - a)
  {
  }

  lemma BlendNonNegative(weight: real, a: real, b: real)
    requires 0.0 <= weight <= 1.0 && a >= 0.0 && b >= 0.0
    ensures Blend(weight, a, b) >= 0.0
  {
    Share01(weight, a);
    Share01(1.0 - weight, b);
  }

  lemma Share01(w: real, a: real)
    requires 0.0 <= w <= 1.0 && a >= 0.0
    ensures 0.0 <= w * a <= a
  {
    assert (1.0 - w) * a >= 0.0;
  }

  lemma SecondGap(u: real, e: real, a1: real, b1: real, a2: real)
    requires 0.0 <= u <= 1.0 && e > 0.0 && a1 == u * e && b1 >= a1
    requires a2 == 2.0 * e + u * (a1 + b1 - 2.0 * e)
    ensures a2 > a1
  {
    assert u * (b1 - a1) >= 0.0;
    assert a2 == 2.0 * e - u * (2.0 * e) + u * (a1 + b1);
    assert u * (a1 + b1) >= u * (2.0 * a1) == 2.0 * (u * u) * e;
    SquareGap(u);
    assert a2 - a1 >= (2.0 - 3.0 * u + 2.0 * (u * u)) * e;
    assert (2.0 - 3.0 * u + 2.0 * (u * u)) * e > 0.0;
  }

  lemma SquareGap(u: real)
    ensures 2.0 - 3.0 * u + 2.0 * (u * u) > 0.0
  {
    var v := u - 0.75;
    assert v * v >= 0.0;
    assert 2.0 * (u * u) - 3.0 * u == 2.0 * (v * v) - 1.125;
  }

  /** A mean that is at least 1 in both units. */
  function SafeMean(k: real): (m: real)
    requires k > 0.0
    ensures m >= 1.0 && Times(k, m) >= 1.0
  {
    if k >= 1.0 then 1.0 else 1.0 / k
  }

  lemma SomeHistoryMisses(k: real, p: Params) returns (x: seq<real>)
    requires k > 0.0 && k != 1.0 && Weights(p) && p.gamma != 0.0
    ensures StartsFree(k, x, 2) && !FitScales(k, x, p, 2)
  {
    hide SecondFall;
    var m := SafeMean(k);
    FallGrows(m, 0.00005, 0.0001, p);
    var s := SecondFall(m, 0.0001, p);
    var d := if s.level + s.trend != 0.0 then 0.0001 else 0.00005;
    x := Fading(m, d);
    FadingStart(m, d);
    LevelFalls(m, d, p);
    FadingMisses(k, m, d, p);
  }

  lemma FadingMisses(k: real, m: real, d: real, p: Params)
    requires k > 0.0 && k != 1.0 && p.gamma != 0.0 && m >= 1.0 && Times(k, m) >= 1.0 && d > 0.0
    requires SecondFall(m, d, p).level < 0.0001
    requires SecondFall(m, d, p).level + SecondFall(m, d, p).trend != 0.0
    ensures !FitScales(k, Fading(m, d), p, 2)
  {
    hide SecondFall, FirstFall;
    var x := Fading(m, d);
    FadingStart(m, d);
    FadingStates(m, d, p);
    var s1, s2 := HwState(x, p, 2, 1), HwState(x, p, 2, 2);
    var y := Scaled(k, x);
    FadingFirstSteps(k, m, d, p);
    HwStepScalesIff(k, s1, d, 0, p);
    var t2 := HwState(y, p, 2, 2);
    assert s2 == HwStep(s1, d, 0, p) && t2 == HwStep(ScaledSeasonal(k, s1), Times(k, d), 0, p);
    assert !StepIsFree(k, s1, d, 0, p);
    FitMisses(k, s1, d, p);
    assert FittedAt(HoltWinters, x, p, 2, 2) == Some(InSeason(s2.level + s2.trend, s2.indices[0]));
    assert FittedAt(HoltWinters, y, p, 2, 2) == Some(InSeason(t2.level + t2.trend, t2.indices[0]));
    assert Fitted(HoltWinters, y, p, 2)[2] != ScaledFit(k, Fitted(HoltWinters, x, p, 2))[2];
  }

  lemma FadingFirstSteps(k: real, m: real, d: real, p: Params)
    requires k > 0.0 && m >= 1.0 && Times(k, m) >= 1.0
    ensures HwState(Scaled(k, Fading(m, d)), p, 2, 1) == ScaledSeasonal(k, HwState(Fading(m, d), p, 2, 1))
  {
    var x := Fading(m, d);
    FadingStart(m, d);
    HwStartScalesIff(k, x, 2);
    HwStepScalesIff(k, HwState(x, p, 2, 0), 0.0, 1, p);
    assert x[1] == 0.0 && Scaled(k, x)[1] == Times(k, 0.0);
  }

  /** A step that sees the unit spoils the fit, unless there is nothing to put into season. */
  lemma FitMisses(k: real, s: Seasonal, demand: real, p: Params)
    requires k > 0.0 && |s.indices| > 0 && !StepIsFree(k, s, demand, 0, p)
    requires var t := HwStep(s, demand, 0, p); t.level + t.trend != 0.0
    ensures var t := HwStep(s, demand, 0, p);
            var t' := HwStep(ScaledSeasonal(k, s), Times(k, demand), 0, p);
            InSeason(t'.level + t'.trend, t'.indices[0]) != Times(k, InSeason(t.level + t.trend, t.indices[0]))
  {
    var clamped := Max(s.indices[0], 0.0001);
    HwStepScalesIff(k, s, demand, 0, p);
    ShareScales(k, demand, clamped);
    TrendedStepScales(k, p, Trended(s.level, s.trend), Share(demand, clamped));
    var t, t' := HwStep(s, demand, 0, p), HwStep(ScaledSeasonal(k, s), Times(k, demand), 0, p);
    var base := t.level + t.trend;
    Distribute(k, t.level, t.trend);
    AbsScales(k, base);
    assert t'.indices[0] != t.indices[0] by {
      assert t'.indices == t.indices[0 := t'.indices[0]];
    }
    Rearrange(k, base, t.indices[0]);
    DifferentProducts(Times(k, base), t'.indices[0], t.indices[0]);
  }

  lemma DifferentProducts(a: real, b: real, c: real)
    requires a != 0.0 && b != c
    ensures Times(a, b) != Times(a, c)
  {
    assert a * (b - c) / a == b - c;
  }
}
