/** The main results as laws of what `runForecast` returns, for raw histories and any requested method. */
module ForecastLaws {
  import opened Numbers
  import opened Wrappers
  import opened ForecastModel
  import opened ForecastAccuracy
  import opened ForecastExactness
  import opened ForecastFigures
  import opened ForecastMethods
  import opened ForecastScaling
  import opened ForecastSmoothing

  /** The method a request is answered with, once the history is cleaned. */
  function Settled(history: seq<Demand>, m: Method, p: Params): Method {
    EffectiveMethod(m, |CleanHistory(history)|, SeasonLength(p.season))
  }

  lemma SettledIsApplicable(history: seq<Demand>, m: Method, p: Params)
    requires CleanHistory(history) != []
    ensures Applicable(Settled(history, m, p), CleanHistory(history), SeasonLength(p.season))
  {
  }

  function Converted(k: real, d: Demand): Demand {
    if d.Finite? then Finite(Times(k, d.value)) else NotFinite
  }

  function ConvertedHistory(k: real, history: seq<Demand>): seq<Demand> {
    seq(|history|, i requires 0 <= i < |history| => Converted(k, history[i]))
  }

  /** Cleaning does not see the unit: a converted history is cleaned of the same entries. */
  lemma {:induction false} CleaningScales(k: real, history: seq<Demand>)
    requires k > 0.0
    ensures CleanHistory(ConvertedHistory(k, history)) == Scaled(k, CleanHistory(history))
  {
    hide Times;
    if history == [] {
      assert ConvertedHistory(k, history) == [];
    } else {
      CleaningScales(k, history[1..]);
      assert ConvertedHistory(k, history)[1..] == ConvertedHistory(k, history[1..]);
      if history[0].Finite? {
        AbsScales(k, history[0].value);
      }
    }
  }

  /** A forecast in another unit is the forecast, converted, unless Holt-Winters is settled on and sees the unit. */
  lemma ForecastScales(k: real, history: seq<Demand>, m: Method, p: Params, horizon: real)
    requires k > 0.0
    requires Settled(history, m, p) == HoltWinters && CleanHistory(history) != [] ==>
               UnitFree(k, CleanHistory(history), p, SeasonLength(p.season))
    ensures ResultScales(k, ForecastOf(history, m, p, horizon), ForecastOf(ConvertedHistory(k, history), m, p, horizon))
  {
    hide UnitFree, ForecastWith;
    var x := CleanHistory(history);
    CleaningScales(k, history);
    if x == [] {
      assert Scaled(k, x) == [];
      NothingScales(k, Periods(horizon));
    } else {
      SettledIsApplicable(history, m, p);
      ScaleLaw(Settled(history, m, p), k, x, p, SeasonLength(p.season), Periods(horizon));
    }
  }

  lemma NothingScales(k: real, periods: nat)
    ensures ResultScales(k, SafeResult(periods), SafeResult(periods))
  {
  }

  /** For every history, method, parameter set and horizon the accuracy figures are consistent. */
  lemma FiguresAreConsistent(history: seq<Demand>, m: Method, p: Params, horizon: real)
    ensures var x, r := CleanHistory(history), ForecastOf(history, m, p, horizon);
            && |r.fitted| == |x| && |r.forecast| == Periods(horizon)
            && Abs(r.bias) <= r.mae && Square(r.mae) <= r.rmseSquared
            && Abs(r.trackingSignal) <= ScoredCount(x, r.fitted) as real
            && 0.0 <= r.smape <= 200.0
            && (r.rmseSquared == 0.0 <==> FitsScored(x, r.fitted, |x|))
            && (m == Naive ==> r.theilUSquared == if SomeScoredChange(x, |x|) then 1.0 else 0.0)
  {
    var x, season, periods := CleanHistory(history), SeasonLength(p.season), Periods(horizon);
    if x != [] {
      var settled := Settled(history, m, p);
      SettledIsApplicable(history, m, p);
      WhatIsReported(settled, x, p, season, periods);
      AccuracyFiguresAreBounded(settled, x, p, season, periods);
      ZeroErrorIffExact(settled, x, p, season, periods);
      if m == Naive {
        NaiveTheilIsOne(x, p, season, periods);
      }
    }
  }

  /** Settled on an average, the forecast stays within every range that holds the usable history. */
  lemma AveragesStayWithinRange(history: seq<Demand>, m: Method, p: Params, horizon: real, lo: real, hi: real)
    requires CleanHistory(history) != [] && Within(CleanHistory(history), lo, hi) && Averaging(Settled(history, m, p))
    requires Settled(history, m, p) == Ses ==> 0.0 <= p.alpha <= 1.0
    ensures var r := ForecastOf(history, m, p, horizon);
            WithinFitted(r.fitted, lo, hi) && Within(r.forecast, lo, hi)
  {
    SettledIsApplicable(history, m, p);
    AveragesStayWithinHistory(Settled(history, m, p), CleanHistory(history), p, SeasonLength(p.season),
                              Periods(horizon), lo, hi);
  }

  /** A usable history on a straight line is continued along it, cut off at zero. */
  lemma LinesAreContinued(history: seq<Demand>, m: Method, p: Params, horizon: real, a: real, b: real)
    requires Settled(history, m, p) == Holt && StraightLine(CleanHistory(history), a, b)
    requires CleanHistory(history) != []
    ensures var r := ForecastOf(history, m, p, horizon);
            |r.forecast| == Periods(horizon) &&
            forall k :: 0 <= k < |r.forecast| ==> r.forecast[k] == Max(0.0, Line(a, b, |CleanHistory(history)| + k))
  {
    SettledIsApplicable(history, m, p);
    HoltIsExactOnLines(CleanHistory(history), a, b, p, SeasonLength(p.season), Periods(horizon));
  }

  /** A usable history that repeats, with the clamps idle, is given back and repeated. */
  lemma SeasonsAreContinued(history: seq<Demand>, m: Method, p: Params, horizon: real)
    requires Settled(history, m, p) == HoltWinters && CleanHistory(history) != []
    requires var x, season := CleanHistory(history), SeasonLength(p.season); Repeats(x, season) && ClampsIdle(x, season)
    ensures ContinuesSeason(ForecastOf(history, m, p, horizon), CleanHistory(history), SeasonLength(p.season),
                            Periods(horizon))
  {
    SettledIsApplicable(history, m, p);
    HoltWintersIsExact(CleanHistory(history), p, SeasonLength(p.season), Periods(horizon));
  }

  /** The last entry of a history that survives cleaning. */
  predicate LastUsable(history: seq<Demand>, i: nat) {
    i < |history| && Usable(history[i]) && forall j :: i < j < |history| ==> !Usable(history[j])
  }

  lemma {:induction false} LastUsableIsLast(history: seq<Demand>) returns (i: nat)
    requires CleanHistory(history) != []
    ensures LastUsable(history, i)
    ensures history[i] == Finite(CleanHistory(history)[|CleanHistory(history)| - 1])
  {
    CleaningKeepsUsable(history);
    var at, x := UsableAt(history), CleanHistory(history);
    i := at[|at| - 1];
    forall j | i < j < |history|
      ensures !Usable(history[j])
    {
      assert Usable(history[j]) ==> j in at;
    }
    assert i in at && history[at[|at| - 1]] == Finite(x[|at| - 1]);
  }

  /** The naive forecast is the last usable demand, for every period. */
  lemma NaiveForecastIsLastUsable(history: seq<Demand>, p: Params, horizon: real) returns (i: nat)
    requires CleanHistory(history) != []
    ensures LastUsable(history, i)
    ensures var r := ForecastOf(history, Naive, p, horizon);
            |r.forecast| == Periods(horizon) &&
            forall k :: 0 <= k < |r.forecast| ==> history[i] == Finite(r.forecast[k])
  {
    i := LastUsableIsLast(history);
    MethodsAreAsNamed(Naive, CleanHistory(history), p, SeasonLength(p.season), Periods(horizon));
  }

  /** The figures reported for a raw history are the textbook ones of its usable entries. */
  lemma FiguresOfForecast(history: seq<Demand>, m: Method, p: Params, horizon: real) returns (at: seq<nat>)
    ensures var x, r := CleanHistory(history), ForecastOf(history, m, p, horizon);
            ScoredList(x, r.fitted, at) && ByDefinition(r, x, at)
  {
    hide ByDefinition, ForecastWith;
    var x := CleanHistory(history);
    if x == [] {
      at := [];
      NoFigures(Periods(horizon));
    } else {
      SettledIsApplicable(history, m, p);
      at := FiguresAreByDefinition(Settled(history, m, p), x, p, SeasonLength(p.season), Periods(horizon));
    }
  }

  lemma NoFigures(periods: nat)
    ensures ScoredList([], [], []) && ByDefinition(SafeResult(periods), [], [])
  {
  }
}
