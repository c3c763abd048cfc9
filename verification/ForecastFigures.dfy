/** The accuracy figures by their textbook definitions, over the list of entries that are scored. */
module ForecastFigures {
  import opened Numbers
  import opened Wrappers
  import opened ForecastModel

  datatype Figure = Error | AbsError | SquaredError | PercentError | SymmetricError | Demanded | SquaredChange

  /** What entry i contributes to a figure: the error is demand less fit, so a fit too high counts negative. */
  function Term(f: Figure, x: seq<real>, fitted: seq<Option<real>>, i: nat): real
    requires |fitted| == |x| && i < |x| && x[i] > 0.0 && fitted[i].Some?
  {
    var gap := if fitted[i].value > x[i] then fitted[i].value - x[i] else x[i] - fitted[i].value;
    var size := if fitted[i].value < 0.0 then -fitted[i].value else fitted[i].value;
    match f
    case Error => if fitted[i].value > x[i] then -gap else gap
    case AbsError => gap
    case SquaredError => gap * gap
    case PercentError => gap / x[i]
    case SymmetricError => gap / ((x[i] + size) / 2.0)
    case Demanded => x[i]
    case SquaredChange => if i == 0 then 0.0 else (x[i] - x[i - 1]) * (x[i] - x[i - 1])
  }

  /** The positions are ones that can be scored. */
  predicate Scores(x: seq<real>, fitted: seq<Option<real>>, at: seq<nat>) {
    |fitted| == |x| && forall k :: 0 <= k < |at| ==> at[k] < |x| && x[at[k]] > 0.0 && fitted[at[k]].Some?
  }

  /** Increasing positions at which there is a fit and a demand other than 0. */
  ghost predicate ScoredList(x: seq<real>, fitted: seq<Option<real>>, at: seq<nat>) {
    && Scores(x, fitted, at) && Increasing(at)
    && forall i: nat :: i in at <==> i < |x| && fitted[i].Some? && x[i] > 0.0
  }

  function Total(f: Figure, x: seq<real>, fitted: seq<Option<real>>, at: seq<nat>): real
    requires Scores(x, fitted, at)
  {
    if at == [] then 0.0 else Total(f, x, fitted, at[..|at| - 1]) + Term(f, x, fitted, at[|at| - 1])
  }

  function ScoredUpTo(x: seq<real>, fitted: seq<Option<real>>, n: nat): (at: seq<nat>)
    requires |fitted| == |x| && n <= |x|
    ensures forall k :: 0 <= k < |at| ==> at[k] < n && x[at[k]] > 0.0 && fitted[at[k]].Some?
  {
    if n == 0 then []
    else if fitted[n - 1].Some? && x[n - 1] > 0.0 then ScoredUpTo(x, fitted, n - 1) + [n - 1]
    else ScoredUpTo(x, fitted, n - 1)
  }

  lemma {:induction false} ScoredUpToIsList(x: seq<real>, fitted: seq<Option<real>>, n: nat)
    requires |fitted| == |x| && n <= |x|
    ensures Increasing(ScoredUpTo(x, fitted, n))
    ensures forall i: nat :: i in ScoredUpTo(x, fitted, n) <==> i < n && fitted[i].Some? && x[i] > 0.0
  {
    if n > 0 {
      ScoredUpToIsList(x, fitted, n - 1);
    }
  }

  /** The loop's running sums are the totals. */
  ghost predicate SumsAreTotals(s: Sums, x: seq<real>, fitted: seq<Option<real>>, at: seq<nat>)
    requires Scores(x, fitted, at)
  {
    && s.cnt == |at|
    && s.err == Total(Error, x, fitted, at) && s.abs == Total(AbsError, x, fitted, at)
    && s.sq == Total(SquaredError, x, fitted, at) && s.absPct == Total(PercentError, x, fitted, at)
    && s.smape == Total(SymmetricError, x, fitted, at) && s.actual == Total(Demanded, x, fitted, at)
    && s.naiveSq == Total(SquaredChange, x, fitted, at)
  }

  lemma TotalStep(f: Figure, x: seq<real>, fitted: seq<Option<real>>, at: seq<nat>, i: nat)
    requires |fitted| == |x| && i < |x| && x[i] > 0.0 && fitted[i].Some?
    requires Scores(x, fitted, at)
    ensures Total(f, x, fitted, at + [i]) == Total(f, x, fitted, at) + Term(f, x, fitted, i)
  {
    assert (at + [i])[..|at|] == at;
  }

  lemma StepAdds(s: Sums, x: seq<real>, fitted: seq<Option<real>>, i: nat)
    requires |fitted| == |x| && i < |x| && x[i] > 0.0 && fitted[i].Some?
    ensures var t := SumsStep(s, x, fitted, i);
            && t.cnt == s.cnt + 1
            && t.err == s.err + Term(Error, x, fitted, i) && t.abs == s.abs + Term(AbsError, x, fitted, i)
            && t.sq == s.sq + Term(SquaredError, x, fitted, i)
            && t.absPct == s.absPct + Term(PercentError, x, fitted, i)
            && t.smape == s.smape + Term(SymmetricError, x, fitted, i)
            && t.actual == s.actual + Term(Demanded, x, fitted, i)
            && t.naiveSq == s.naiveSq + Term(SquaredChange, x, fitted, i)
  {
    var err := x[i] - fitted[i].value;
    AbsOfShare(err, x[i]);
    SquareOfAbs(err);
  }

  lemma AbsOfShare(a: real, b: real)
    requires b > 0.0
    ensures Abs(Share(a, b)) == Abs(a) / b
  {
    var q := a / b;
    assert q * b == a;
    assert (-a) / b == -q;
  }

  lemma SquareOfAbs(a: real)
    ensures Square(a) == Abs(a) * Abs(a)
  {
  }

  lemma {:induction false} LoopTotals(x: seq<real>, fitted: seq<Option<real>>, n: nat)
    requires |fitted| == |x| && n <= |x| && NonNegative(x)
    ensures SumsAreTotals(SumsUpTo(x, fitted, n), x, fitted, ScoredUpTo(x, fitted, n))
  {
    hide Term, SumsStep;
    if n > 0 {
      LoopTotals(x, fitted, n - 1);
      var s, at := SumsUpTo(x, fitted, n - 1), ScoredUpTo(x, fitted, n - 1);
      if fitted[n - 1].Some? && x[n - 1] > 0.0 {
        StepAdds(s, x, fitted, n - 1);
        forall f: Figure {
          TotalStep(f, x, fitted, at, n - 1);
        }
      } else {
        StepSkips(s, x, fitted, n - 1);
      }
    }
  }

  lemma StepSkips(s: Sums, x: seq<real>, fitted: seq<Option<real>>, i: nat)
    requires |fitted| == |x| && i < |x| && NonNegative(x) && !(fitted[i].Some? && x[i] > 0.0)
    ensures SumsStep(s, x, fitted, i) == s
  {
  }

  function Average(total: real, n: nat): real {
    if n == 0 then 0.0 else total / n as real
  }

  function Quotient(a: real, b: real): real {
    if b == 0.0 then 0.0 else a / b
  }

  /** bias, mae, rmse², mape, wmape, smape, tracking signal and Theil's U² over the scored entries. */
  ghost predicate ByDefinition(r: ForecastResult, x: seq<real>, at: seq<nat>)
    requires Scores(x, r.fitted, at)
  {
    var n, f := |at|, r.fitted;
    && r.bias == Average(Total(Error, x, f, at), n)
    && r.mae == Average(Total(AbsError, x, f, at), n)
    && r.rmseSquared == Average(Total(SquaredError, x, f, at), n)
    && r.mape == Average(Total(PercentError, x, f, at), n) * 100.0
    && r.smape == Average(Total(SymmetricError, x, f, at), n) * 100.0
    && r.wmape == Quotient(Total(AbsError, x, f, at), Total(Demanded, x, f, at)) * 100.0
    && r.trackingSignal == Quotient(Total(Error, x, f, at), Average(Total(AbsError, x, f, at), n))
    && r.theilUSquared == Quotient(Total(SquaredError, x, f, at), Total(SquaredChange, x, f, at))
  }

  /** Every figure of a forecast is the textbook one over exactly the entries with a fit and a demand. */
  lemma FiguresAreByDefinition(m: Method, x: seq<real>, p: Params, season: nat, periods: nat) returns (at: seq<nat>)
    requires Applicable(m, x, season) && NonNegative(x)
    ensures var r := ForecastWith(m, x, p, season, periods);
            ScoredList(x, r.fitted, at) && ByDefinition(r, x, at)
  {
    hide Term, SumsStep, Fitted, Projections, Total, SumsUpTo, Report, ByDefinition, SumsAreTotals, Increasing;
    var fitted := Fitted(m, x, p, season);
    at := ScoredUpTo(x, fitted, |x|);
    ScoredUpToIsList(x, fitted, |x|);
    LoopTotals(x, fitted, |x|);
    ReportIsByDefinition(fitted, Projections(m, x, p, season, periods), SumsUpTo(x, fitted, |x|), x, at);
  }

  lemma ReportIsByDefinition(fitted: seq<Option<real>>, raw: seq<real>, s: Sums, x: seq<real>, at: seq<nat>)
    requires Scores(x, fitted, at) && SumsAreTotals(s, x, fitted, at)
    ensures Report(fitted, raw, s).fitted == fitted && ByDefinition(Report(fitted, raw, s), x, at)
  {
    hide Scores, Total;
  }

  /** Fits that are never above the demand make the bias the mean absolute error, fits never below its negative. */
  lemma {:induction false} SignOfTotals(x: seq<real>, fitted: seq<Option<real>>, at: seq<nat>)
    requires Scores(x, fitted, at)
    ensures (forall k :: 0 <= k < |at| ==> fitted[at[k]].value <= x[at[k]]) ==>
              Total(Error, x, fitted, at) == Total(AbsError, x, fitted, at)
    ensures (forall k :: 0 <= k < |at| ==> fitted[at[k]].value >= x[at[k]]) ==>
              Total(Error, x, fitted, at) == -Total(AbsError, x, fitted, at)
  {
    if at != [] {
      SignOfTotals(x, fitted, at[..|at| - 1]);
    }
  }
}
