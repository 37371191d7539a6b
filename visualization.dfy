// The chart's event highlighting (components/Visualization.tsx): which
// sampled points belong to the event the probability is asked about, and the
// per-point record the chart draws, with the highlighted height beside the
// base height.

module Visualization {
  import opened Types
  import opened Numerics
  import opened Distributions
  import opened Evaluators
  import opened Samplers

  /** A drawn point: the sampled point, the height drawn in the highlight colour
      (0 when the point is outside the event) and the base height. */
  datatype ChartPoint = ChartPoint(x: real, y: real, highlightY: real, baseY: real)

  /** Whether x belongs to the event; nothing is highlighted without a threshold
      or an operator, and a missing second threshold defaults to the first. */
  function IsHighlighted(kind: DistributionType, targetX: Option<real>, targetX2: Option<real>,
                         op: Option<CalculationOperator>, x: real): bool
  {
    if targetX.None? || op.None? then false
    else
      var t1 := targetX.value;
      var t2 := if targetX2.Some? then targetX2.value else t1;
      var minVal := Min(t1, t2);
      var maxVal := Max(t1, t2);
      match op.value
      case LessEqual => x <= t1
      case Greater => if IsContinuous(kind) then x >= t1 else x > t1
      case Between => x >= minVal && x <= maxVal
      case Equal => Abs(x - t1) < 0.1
  }

  /** One chart record: a copy of the point with its highlighted and base heights. */
  function Highlight(kind: DistributionType, targetX: Option<real>, targetX2: Option<real>,
                     op: Option<CalculationOperator>, point: DataPoint): ChartPoint
  {
    ChartPoint(point.x, point.y,
               if IsHighlighted(kind, targetX, targetX2, op, point.x) then point.y else 0.0,
               point.y)
  }

  /** The chartData mapping over the sampled points. */
  function ChartData(data: seq<DataPoint>, kind: DistributionType, targetX: Option<real>,
                     targetX2: Option<real>, op: Option<CalculationOperator>): seq<ChartPoint>
  {
    seq(|data|, i requires 0 <= i < |data| => Highlight(kind, targetX, targetX2, op, data[i]))
  }

  // ------------------------------------------------------------ the map

  /** The mapping keeps length and order, copies each point, sets the base height
      to y and the highlighted height to y inside the event and 0 outside. */
  lemma ChartDataShape(data: seq<DataPoint>, kind: DistributionType, targetX: Option<real>,
                       targetX2: Option<real>, op: Option<CalculationOperator>)
    ensures var chart := ChartData(data, kind, targetX, targetX2, op);
            |chart| == |data|
            && forall i :: 0 <= i < |data| ==>
                 chart[i].x == data[i].x && chart[i].y == data[i].y && chart[i].baseY == data[i].y
                 && (IsHighlighted(kind, targetX, targetX2, op, data[i].x) ==> chart[i].highlightY == data[i].y)
                 && (!IsHighlighted(kind, targetX, targetX2, op, data[i].x) ==> chart[i].highlightY == 0.0)
  {
  }

  /** Without a threshold or an operator every highlighted height is 0. */
  lemma NothingHighlightedWithoutTarget(data: seq<DataPoint>, kind: DistributionType,
                                        targetX: Option<real>, targetX2: Option<real>,
                                        op: Option<CalculationOperator>)
    requires targetX.None? || op.None?
    ensures forall i :: 0 <= i < |data| ==> ChartData(data, kind, targetX, targetX2, op)[i].highlightY == 0.0
  {
  }

  // ------------------------------------------------------ the predicate

  /** LESS_EQUAL highlights exactly the x at or below the threshold; GREATER the x
      above it, t itself included for a continuous kind. */
  lemma ThresholdHighlights(kind: DistributionType, t: real, x2: Option<real>, x: real)
    ensures IsHighlighted(kind, Some(t), x2, Some(LessEqual), x) <==> x <= t
    ensures IsHighlighted(kind, Some(t), x2, Some(Greater), x)
            <==> (if IsContinuous(kind) then x >= t else x > t)
  {
  }

  /** LESS_EQUAL and GREATER split the axis at t: for a discrete kind every x is in
      exactly one of the two events; for a continuous kind every x is in at least
      one, and only t itself is in both. */
  lemma LessEqualAndGreaterSplit(kind: DistributionType, t: real, x2: Option<real>, x: real)
    ensures var le := IsHighlighted(kind, Some(t), x2, Some(LessEqual), x);
            var gt := IsHighlighted(kind, Some(t), x2, Some(Greater), x);
            (le || gt) && (le && gt <==> IsContinuous(kind) && x == t)
  {
  }

  /** BETWEEN highlights the closed interval between the two thresholds, whichever
      order they come in; without a second threshold only the first is highlighted. */
  lemma BetweenHighlight(kind: DistributionType, t1: real, t2: real, x: real)
    ensures IsHighlighted(kind, Some(t1), Some(t2), Some(Between), x)
         == IsHighlighted(kind, Some(t2), Some(t1), Some(Between), x)
    ensures IsHighlighted(kind, Some(t1), Some(t2), Some(Between), x)
         <==> (t1 <= x <= t2 || t2 <= x <= t1)
    ensures IsHighlighted(kind, Some(t1), None, Some(Between), x) <==> x == t1
  {
  }

  /** EQUAL highlights the x within 0.1 of t: on points one unit apart at most one
      point is highlighted, and for a whole t and a whole x only x = t. */
  lemma EqualHighlightsOnePoint(kind: DistributionType, t: real, x2: Option<real>,
                                x: real, y: real)
    ensures IsHighlighted(kind, Some(t), x2, Some(Equal), x) <==> t - 0.1 < x < t + 0.1
    ensures (IsHighlighted(kind, Some(t), x2, Some(Equal), x)
             && IsHighlighted(kind, Some(t), x2, Some(Equal), y) && IsInteger(y - x)) ==> x == y
    ensures IsInteger(t) && IsInteger(x) ==> (IsHighlighted(kind, Some(t), x2, Some(Equal), x) <==> x == t)
  {
    if IsHighlighted(kind, Some(t), x2, Some(Equal), x)
       && IsHighlighted(kind, Some(t), x2, Some(Equal), y) && IsInteger(y - x) {
      assert -0.2 < y - x < 0.2;
    }
    if IsInteger(t) && IsInteger(x) {
      assert x - t == (x.Floor - t.Floor) as real;
    }
  }

  // ------------------------------------------- shaded bars and probability

  /** The highlighted heights added up, last point last. */
  function SumHighlighted(chart: seq<ChartPoint>): real
  {
    if |chart| == 0 then 0.0 else SumHighlighted(chart[..|chart| - 1]) + chart[|chart| - 1].highlightY
  }

  /** If the j-th highlighted height is g(j), the highlighted heights add up to the
      partial sum of g. */
  lemma {:induction false} SumHighlightedIsPartialSum(data: seq<DataPoint>, kind: DistributionType,
                                                      targetX: Option<real>, targetX2: Option<real>,
                                                      op: Option<CalculationOperator>, g: int -> real)
    requires forall j :: 0 <= j < |data| ==>
      Highlight(kind, targetX, targetX2, op, data[j]).highlightY == g(j)
    ensures SumHighlighted(ChartData(data, kind, targetX, targetX2, op)) == PartialSum(g, |data| - 1)
    decreases |data|
  {
    if |data| > 0 {
      var m := |data| - 1;
      assert ChartData(data, kind, targetX, targetX2, op)[..m]
          == ChartData(data[..m], kind, targetX, targetX2, op);
      SumHighlightedIsPartialSum(data[..m], kind, targetX, targetX2, op, g);
    }
  }

  /** The masses at whole k <= t, 0 past t. */
  function MassesUpTo(f: int -> real, t: real): int -> real
  {
    j => if j as real <= t then f(j) else 0.0
  }

  /** On the default binomial chart, the bars shaded for P(X <= t) add up to the
      probability the evaluator reports for it. */
  lemma ShadedBinomialBarsAddUp(n: nat, p: real, t: real, t2: Option<real>)
    ensures SumHighlighted(ChartData(BinomialData(n, p, None, None), Binomial, Some(t), t2, Some(LessEqual)))
         == BinomialProbability(n, p, t, LessEqual)
  {
    var data := BinomialData(n, p, None, None);
    var g := MassesUpTo(BinomialMasses(n, p), t);
    assert |data| == n + 1;
    forall j {:trigger g(j)} | 0 <= j < |data|
      ensures Highlight(Binomial, Some(t), t2, Some(LessEqual), data[j]).highlightY == g(j)
    {
      assert data[j] == DataPoint(j as real, BinomialPmf(j as real, n, p));
    }
    SumHighlightedIsPartialSum(data, Binomial, Some(t), t2, Some(LessEqual), g);
    forall j {:trigger g(j)} | 0 <= j <= n
      ensures g(j) == (if j <= t.Floor then BinomialMasses(n, p)(j) else 0.0)
    {
    }
    PartialSumTruncated(BinomialMasses(n, p), g, t.Floor, n);
  }
}
