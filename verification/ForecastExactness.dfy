/** Which histories the trend and season methods reproduce exactly. */
module ForecastExactness {
  import opened Numbers
  import opened Wrappers
  import opened ForecastModel

  // ----- Holt on straight lines

  function Line(a: real, b: real, i: int): real {
    a + b * i as real
  }

  predicate StraightLine(x: seq<real>, a: real, b: real) {
    forall i :: 0 <= i < |x| ==> x[i] == Line(a, b, i)
  }

  lemma LineStep(a: real, b: real, i: int, h: nat)
    ensures Extend(Line(a, b, i), b, h) == Line(a, b, i + h)
  {
    assert (i + h) as real == i as real + h as real;
  }

  lemma NextPoint(a: real, b: real, i: int)
    ensures Line(a, b, i + 1) == Line(a, b, i) + b
  {
    var t := i as real;
    assert (i + 1) as real == t + 1.0 && b * (t + 1.0) == b * t + b;
  }

  lemma BlendOfEquals(weight: real, v: real)
    ensures Blend(weight, v, v) == v
  {
  }

  lemma {:induction false} HoltTracksLine(x: seq<real>, a: real, b: real, p: Params, i: nat)
    requires |x| >= 2 && i < |x| && StraightLine(x, a, b)
    ensures HoltState(x, p, i) == Trended(Line(a, b, i), b)
  {
    if i == 0 {
      assert x[1] == Line(a, b, 1);
    } else {
      HoltTracksLine(x, a, b, p, i - 1);
      NextPoint(a, b, i - 1);
      assert x[i] == Line(a, b, i - 1) + b;
      BlendOfEquals(p.alpha, x[i]);
      BlendOfEquals(p.beta, b);
    }
  }

  lemma HoltFitsNextPoint(x: seq<real>, a: real, b: real, p: Params, season: nat, i: nat)
    requires Applicable(Holt, x, season) && StraightLine(x, a, b) && i < |x|
    ensures FittedAt(Holt, x, p, season, i) == Some(if i == 0 then a else Line(a, b, i + 1))
  {
    hide HoltState, HwState, SesLevel, Sum, Line;
    HoltTracksLine(x, a, b, p, i);
    NextPoint(a, b, i);
    assert i == 0 ==> Line(a, b, i) == a by {
      StartsAtOrigin(a, b);
    }
  }

  lemma StartsAtOrigin(a: real, b: real)
    ensures Line(a, b, 0) == a
  {
  }

  lemma HoltProjectsLine(x: seq<real>, a: real, b: real, p: Params, season: nat, h: nat)
    requires Applicable(Holt, x, season) && StraightLine(x, a, b) && h >= 1
    ensures Projection(Holt, x, p, season, h) == Line(a, b, |x| + h - 1)
  {
    HoltTracksLine(x, a, b, p, |x| - 1);
    LineStep(a, b, |x| - 1, h);
  }

  /** Holt continues every straight line, cut off at zero, whatever the smoothing weights are. */
  lemma HoltIsExactOnLines(x: seq<real>, a: real, b: real, p: Params, season: nat, periods: nat)
    requires Applicable(Holt, x, season) && StraightLine(x, a, b)
    ensures var r := ForecastWith(Holt, x, p, season, periods);
            && (forall i :: 0 < i < |x| ==> r.fitted[i] == Some(Line(a, b, i + 1)))
            && r.fitted[0] == Some(a)
            && |r.forecast| == periods
            && forall k :: 0 <= k < periods ==> r.forecast[k] == Max(0.0, Line(a, b, |x| + k))
  {
    var r := ForecastWith(Holt, x, p, season, periods);
    WhatIsReported(Holt, x, p, season, periods);
    forall i | 0 <= i < |x| {
      HoltFitsNextPoint(x, a, b, p, season, i);
    }
    forall k | 0 <= k < periods
      ensures r.forecast[k] == Max(0.0, Line(a, b, |x| + k))
    {
      HoltProjectsLine(x, a, b, p, season, k + 1);
    }
  }

  // ----- Holt-Winters on repeating seasons

  predicate Repeats(x: seq<real>, season: nat)
    requires season > 0
  {
    forall i :: 0 <= i < |x| ==> x[i] == x[i % season]
  }

  /** What keeps every clamp of the Holt-Winters loop idle. */
  predicate ClampsIdle(x: seq<real>, season: nat)
    requires season >= 2 && |x| >= 2 * season
  {
    var mean := FirstSeasonMean(x, season);
    mean >= 1.0 && forall i :: 0 <= i < |x| ==> x[i] >= 0.0001 * mean
  }

  function SteadyState(x: seq<real>, season: nat): Seasonal
    requires season >= 2 && |x| >= 2 * season
  {
    Seasonal(FirstSeasonMean(x, season), 0.0, HwStart(x, season).indices)
  }

  lemma SlotAfterOneSeason(season: nat, i: nat)
    requires i < season
    ensures (season + i) % season == i
  {
  }

  lemma NothingOver(d: real)
    requires d != 0.0
    ensures Share(0.0, d) == 0.0
  {
  }

  lemma StartsSteady(x: seq<real>, season: nat)
    requires season >= 2 && |x| >= 2 * season && Repeats(x, season)
    ensures HwStart(x, season) == SteadyState(x, season)
  {
    forall i | 0 <= i < season
      ensures x[season + i] == x[i]
    {
      SlotAfterOneSeason(season, i);
    }
    assert x[season..2 * season] == x[..season];
    NothingOver((season * season) as real);
  }

  lemma QuotientOfProduct(level: real, index: real)
    requires level != 0.0 && index != 0.0
    ensures level * index / index == level && level * index / level == index
  {
  }

  lemma StepKeepsSteady(level: real, indices: seq<real>, demand: real, slot: nat, p: Params)
    requires slot < |indices| && level >= 0.0001 && indices[slot] >= 0.0001
    requires InSeason(level, indices[slot]) == demand
    ensures HwStep(Seasonal(level, 0.0, indices), demand, slot, p) == Seasonal(level, 0.0, indices)
  {
    var index := indices[slot];
    QuotientOfProduct(level, index);
    assert Share(demand, Max(index, 0.0001)) == level && Share(demand, Max(level, 0.0001)) == index;
    BlendOfEquals(p.alpha, level);
    BlendOfEquals(p.beta, 0.0);
    BlendOfEquals(p.gamma, index);
    assert indices[slot := index] == indices;
  }

  lemma IndexTimesMean(demand: real, mean: real)
    requires mean >= 1.0 && demand >= 0.0001 * mean
    ensures InitialIndex(demand, Max(mean, 1.0)) >= 0.0001
    ensures InSeason(mean, InitialIndex(demand, Max(mean, 1.0))) == demand
  {
    assert demand / mean * mean == demand;
  }

  /** The loop keeps the state it starts in up to step i when the entries 1..i are large enough. */
  lemma {:induction false} StaysSteady(x: seq<real>, p: Params, season: nat, i: nat)
    requires season >= 2 && |x| >= 2 * season && i < |x| && Repeats(x, season)
    requires FirstSeasonMean(x, season) >= 1.0
    requires forall k :: 1 <= k <= i ==> x[k] >= 0.0001 * FirstSeasonMean(x, season)
    ensures HwState(x, p, season, i) == SteadyState(x, season)
  {
    StartsSteady(x, season);
    if i > 0 {
      StaysSteady(x, p, season, i - 1);
      var mean := FirstSeasonMean(x, season);
      IndexTimesMean(x[i], mean);
      StepKeepsSteady(mean, HwStart(x, season).indices, x[i], i % season, p);
    }
  }

  lemma HoltWintersFits(x: seq<real>, p: Params, season: nat, i: nat)
    requires Applicable(HoltWinters, x, season) && Repeats(x, season) && ClampsIdle(x, season) && i < |x|
    ensures FittedAt(HoltWinters, x, p, season, i) == Some(x[i])
  {
    StaysSteady(x, p, season, i);
    IndexTimesMean(x[i], FirstSeasonMean(x, season));
  }

  /** The entry of the repeating season that comes k places after the end of the history. */
  function NextInSeason(x: seq<real>, season: nat, k: nat): real
    requires 0 < season <= |x|
  {
    x[(|x| + k) % season]
  }

  lemma HoltWintersProjects(x: seq<real>, p: Params, season: nat, k: nat)
    requires Applicable(HoltWinters, x, season) && Repeats(x, season) && ClampsIdle(x, season)
    ensures Max(0.0, Projection(HoltWinters, x, p, season, k + 1)) == NextInSeason(x, season, k)
  {
    var mean := FirstSeasonMean(x, season);
    StaysSteady(x, p, season, |x| - 1);
    assert |x| + (k + 1) - 1 == |x| + k;
    IndexTimesMean(NextInSeason(x, season, k), mean);
    assert Extend(mean, 0.0, k + 1) == mean;
  }

  /** Every entry is fitted by itself, and the forecast goes on with the repeating season. */
  ghost predicate ContinuesSeason(r: ForecastResult, x: seq<real>, season: nat, periods: nat)
    requires 0 < season <= |x|
  {
    && FitsExactly(r.fitted, x)
    && r.forecast == seq(periods, k requires 0 <= k < periods => NextInSeason(x, season, k))
  }

  /** Holt-Winters gives a repeating history back and repeats it, whatever the weights are. */
  lemma HoltWintersIsExact(x: seq<real>, p: Params, season: nat, periods: nat)
    requires Applicable(HoltWinters, x, season) && Repeats(x, season) && ClampsIdle(x, season)
    ensures ContinuesSeason(ForecastWith(HoltWinters, x, p, season, periods), x, season, periods)
  {
    hide ClampsIdle, Repeats, NextInSeason, Projection, Max, Fitted, SumsUpTo;
    var r := ForecastWith(HoltWinters, x, p, season, periods);
    WhatIsReported(HoltWinters, x, p, season, periods);
    QuietIsReproduced(x, p, season);
    forall k | 0 <= k < periods
      ensures r.forecast[k] == NextInSeason(x, season, k)
    {
      HoltWintersProjects(x, p, season, k);
    }
  }

  predicate Weights(p: Params) {
    0.0 <= p.alpha <= 1.0 && 0.0 <= p.beta <= 1.0 && 0.0 <= p.gamma <= 1.0
  }

  predicate AllZero(x: seq<real>) {
    forall i :: 0 <= i < |x| ==> x[i] == 0.0
  }

  /** A repeating history is reproduced under every choice of weights exactly when no clamp bites. */
  lemma HoltWintersExactIff(x: seq<real>, season: nat)
    requires Applicable(HoltWinters, x, season) && NonNegative(x) && Repeats(x, season)
    ensures (forall p | Weights(p) :: FitsExactly(Fitted(HoltWinters, x, p, season), x))
       <==> ClampsIdle(x, season) || AllZero(x)
  {
    if ClampsIdle(x, season) || AllZero(x) {
      forall p | Weights(p) {
        QuietIsReproduced(x, p, season);
      }
    } else {
      var p := SomeWeightsMiss(x, season);
    }
  }

  lemma QuietIsReproduced(x: seq<real>, p: Params, season: nat)
    requires Applicable(HoltWinters, x, season) && Repeats(x, season)
    requires ClampsIdle(x, season) || AllZero(x)
    ensures FitsExactly(Fitted(HoltWinters, x, p, season), x)
  {
    var fitted := Fitted(HoltWinters, x, p, season);
    forall i | 0 <= i < |x|
      ensures fitted[i] == Some(x[i])
    {
      if ClampsIdle(x, season) {
        HoltWintersFits(x, p, season, i);
      } else {
        ZeroFits(x, p, season, i);
      }
    }
  }

  lemma ZeroFits(x: seq<real>, p: Params, season: nat, i: nat)
    requires Applicable(HoltWinters, x, season) && AllZero(x) && i < |x|
    ensures FittedAt(HoltWinters, x, p, season, i) == Some(x[i])
  {
    ZeroStaysFlat(x, p, season, i);
  }

  lemma {:induction false} ZeroStaysFlat(x: seq<real>, p: Params, season: nat, i: nat)
    requires season >= 2 && |x| >= 2 * season && i < |x| && AllZero(x)
    ensures var s := HwState(x, p, season, i); s.level == 0.0 && s.trend == 0.0
  {
    if i == 0 {
      SumOfZeros(x[..season]);
      SumOfZeros(x[season..2 * season]);
    } else {
      ZeroStaysFlat(x, p, season, i - 1);
      FlatStep(HwState(x, p, season, i - 1), i % season, p);
    }
  }

  lemma FlatStep(s: Seasonal, slot: nat, p: Params)
    requires slot < |s.indices| && s.level == 0.0 && s.trend == 0.0
    ensures var t := HwStep(s, 0.0, slot, p); t.level == 0.0 && t.trend == 0.0
  {
    NothingOver(Max(s.indices[slot], 0.0001));
    BlendOfEquals(p.alpha, 0.0);
    BlendOfEquals(p.beta, 0.0);
  }

  lemma {:induction false} SumOfZeros(x: seq<real>)
    requires AllZero(x)
    ensures Sum(x) == 0.0
  {
    if x != [] {
      SumOfZeros(x[..|x| - 1]);
    }
  }

  lemma {:induction false} SumOfNonNegative(x: seq<real>, i: nat)
    requires NonNegative(x) && i < |x|
    ensures Sum(x) >= x[i] && Sum(x) >= 0.0
  {
    if i < |x| - 1 {
      SumOfNonNegative(x[..|x| - 1], i);
    } else if |x| > 1 {
      SumOfNonNegative(x[..|x| - 1], 0);
    } else {
      assert x[..|x| - 1] == [];
    }
  }

  /** A positive entry makes the mean of the first season positive. */
  lemma MeanIsPositive(x: seq<real>, season: nat)
    requires season >= 2 && |x| >= 2 * season && NonNegative(x) && Repeats(x, season) && !AllZero(x)
    ensures FirstSeasonMean(x, season) > 0.0
  {
    var j :| 0 <= j < |x| && x[j] != 0.0;
    assert x[..season][j % season] == x[j];
    SumOfNonNegative(x[..season], j % season);
  }

  const IDLE := Params(0.0, 0.0, 0.0, 0.0)
  const CHASE := Params(1.0, 0.0, 0.0, 0.0)

  lemma SomeWeightsMiss(x: seq<real>, season: nat) returns (p: Params)
    requires Applicable(HoltWinters, x, season) && NonNegative(x) && Repeats(x, season)
    requires !ClampsIdle(x, season) && !AllZero(x)
    ensures Weights(p) && !FitsExactly(Fitted(HoltWinters, x, p, season), x)
  {
    var mean := FirstSeasonMean(x, season);
    MeanIsPositive(x, season);
    if mean < 1.0 || x[0] == 0.0 {
      p := IDLE;
      FirstFitMisses(x, p, season);
    } else {
      var i := FirstSmallEntry(x, season, 0.0001 * mean);
      if x[i] == 0.0 {
        p := IDLE;
        ZeroEntryMisses(x, season, i);
      } else {
        p := CHASE;
        SmallEntryMisses(x, season, i);
      }
    }
  }

  lemma SmallerProduct(v: real, w: real)
    requires v < 1.0 && w > 0.0
    ensures InSeason(v, w) < w
  {
  }

  lemma FirstFitMisses(x: seq<real>, p: Params, season: nat)
    requires Applicable(HoltWinters, x, season) && NonNegative(x)
    requires FirstSeasonMean(x, season) > 0.0
    requires FirstSeasonMean(x, season) < 1.0 || x[0] == 0.0
    ensures FittedAt(HoltWinters, x, p, season, 0) != Some(x[0])
  {
    var mean := FirstSeasonMean(x, season);
    assert 0 % season == 0;
    assert HwState(x, p, season, 0).indices[0] == InitialIndex(x[0], Max(mean, 1.0));
    if x[0] == 0.0 {
      assert InSeason(mean, 1.0) == mean;
    } else {
      SmallerProduct(mean, x[0]);
    }
  }

  /** The first step after the start at which the history falls below the bound. */
  lemma FirstSmallEntry(x: seq<real>, season: nat, bound: real) returns (i: nat)
    requires season >= 2 && |x| >= 2 * season && Repeats(x, season)
    requires exists j :: 0 <= j < |x| && x[j] < bound
    ensures 1 <= i < |x| && x[i] < bound
    ensures forall k :: 1 <= k < i ==> x[k] >= bound
  {
    var j :| 0 <= j < |x| && x[j] < bound;
    ghost var last := if j == 0 then season else j;
    assert x[last] < bound by {
      assert season % season == 0;
    }
    i := 1;
    while x[i] >= bound
      decreases last - i
      invariant 1 <= i <= last
      invariant forall k :: 1 <= k < i ==> x[k] >= bound
    {
      i := i + 1;
    }
  }

  lemma ZeroEntryMisses(x: seq<real>, season: nat, i: nat)
    requires Applicable(HoltWinters, x, season) && Repeats(x, season) && 1 <= i < |x|
    requires FirstSeasonMean(x, season) >= 1.0 && x[i] == 0.0
    requires forall k :: 1 <= k < i ==> x[k] >= 0.0001 * FirstSeasonMean(x, season)
    ensures FittedAt(HoltWinters, x, IDLE, season, i) != Some(x[i])
  {
    StaysSteady(x, IDLE, season, i - 1);
    var before, after := HwState(x, IDLE, season, i - 1), HwState(x, IDLE, season, i);
    assert before.indices[i % season] == 1.0;
    assert after.level == before.level && after.trend == 0.0 && after.indices[i % season] == 1.0;
  }

  lemma SmallEntryMisses(x: seq<real>, season: nat, i: nat)
    requires Applicable(HoltWinters, x, season) && Repeats(x, season) && 1 <= i < |x|
    requires FirstSeasonMean(x, season) >= 1.0 && 0.0 < x[i] < 0.0001 * FirstSeasonMean(x, season)
    requires forall k :: 1 <= k < i ==> x[k] >= 0.0001 * FirstSeasonMean(x, season)
    ensures FittedAt(HoltWinters, x, CHASE, season, i) != Some(x[i])
  {
    StaysSteady(x, CHASE, season, i - 1);
    var s := HwState(x, CHASE, season, i - 1);
    SmallIndex(x[i], s.level);
    assert s.indices[i % season] == InitialIndex(x[i], Max(s.level, 1.0));
    ChaseStepMisses(s, x[i], i % season);
  }

  /** From a steady state, full weight on a demand whose index is clamped overshoots the clamp. */
  lemma ChaseStepMisses(s: Seasonal, demand: real, slot: nat)
    requires slot < |s.indices| && s.trend == 0.0 && 0.0 < s.indices[slot] < 0.0001
    requires s.level >= 1.0 && InSeason(s.level, s.indices[slot]) == demand
    ensures var t := HwStep(s, demand, slot, CHASE);
            InSeason(t.level + t.trend, t.indices[slot]) != demand
  {
    var t := HwStep(s, demand, slot, CHASE);
    var index := s.indices[slot];
    assert t.level == Share(demand, 0.0001) && t.trend == 0.0 && t.indices[slot] == index;
    LessTimes(s.level, index, 0.0001);
    LessTimes(index, t.level, s.level);
  }

  lemma SmallIndex(demand: real, mean: real)
    requires mean >= 1.0 && 0.0 < demand < 0.0001 * mean
    ensures 0.0 < InitialIndex(demand, Max(mean, 1.0)) < 0.0001
    ensures InSeason(mean, InitialIndex(demand, Max(mean, 1.0))) == demand
  {
    assert demand / mean * mean == demand;
  }
}
