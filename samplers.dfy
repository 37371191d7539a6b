// The generate*Data samplers (utils/mathUtils.ts). A continuous kind is
// sampled on 201 evenly spaced points of a window; a discrete kind gets one
// point per unit step from the start of its domain up to its end. Each sampler
// first computes a default window or domain and then lets the axis overrides
// replace its ends.

module Samplers {
  import opened Types
  import opened Numerics
  import opened Distributions

  /** The x range a sampler covers. */
  datatype Window = Window(start: real, end: real)

  /** The curve samplers divide their window into this many equal steps. */
  const Steps: int := 200

  // ------------------------------------------------------------ curves

  /** An override replaces the default end it stands for; a window that is
      then empty or reversed is widened to one unit after its start. */
  function ContinuousWindow(defaultStart: real, defaultEnd: real,
                            xMin: Option<real>, xMax: Option<real>): Window
  {
    var start := if xMin.Some? then xMin.value else defaultStart;
    var end := if xMax.Some? then xMax.value else defaultEnd;
    if start >= end then Window(start, start + 1.0) else Window(start, end)
  }

  /** The window always has positive width; it starts where asked, and it ends
      where asked unless that is not after the start, in which case it ends one
      unit after the start. */
  lemma ContinuousWindowProperties(defaultStart: real, defaultEnd: real,
                                   xMin: Option<real>, xMax: Option<real>)
    ensures ContinuousWindow(defaultStart, defaultEnd, xMin, xMax).start
         < ContinuousWindow(defaultStart, defaultEnd, xMin, xMax).end
    ensures ContinuousWindow(defaultStart, defaultEnd, xMin, xMax).start
         == (if xMin.Some? then xMin.value else defaultStart)
    ensures var asked := if xMax.Some? then xMax.value else defaultEnd;
            var w := ContinuousWindow(defaultStart, defaultEnd, xMin, xMax);
            (w.end == asked <==> w.start < asked) && (w.end != asked ==> w.end == w.start + 1.0)
  {
  }

  /** The i-th grid point: start + i * (end - start) / 200. */
  function GridX(w: Window, i: int): real
  {
    w.start + i as real * ((w.end - w.start) / Steps as real)
  }

  /** The 201 points a curve sampler emits, the density taken at each grid point. */
  function CurveGrid(density: real -> real, w: Window): seq<DataPoint>
  {
    seq(Steps + 1, i => DataPoint(GridX(w, i), density(GridX(w, i))))
  }

  lemma GridStep(w: Window, i: int, j: int)
    requires w.start < w.end && i < j
    ensures GridX(w, i) < GridX(w, j)
  {
    var step := (w.end - w.start) / Steps as real;
    assert step > 0.0;
    assert GridX(w, j) - GridX(w, i) == (j - i) as real * step;
    ProductPositiveInt(j - i, step);
  }

  lemma ProductPositiveInt(n: int, s: real)
    requires n > 0 && s > 0.0
    ensures n as real * s > 0.0
  {
  }

  /** 201 points, from the start of the window to its end, strictly increasing,
      each carrying the density at its x. */
  lemma CurveGridShape(density: real -> real, w: Window)
    requires w.start < w.end
    ensures |CurveGrid(density, w)| == 201
    ensures CurveGrid(density, w)[0].x == w.start
    ensures CurveGrid(density, w)[200].x == w.end
    ensures forall i, j :: 0 <= i < j < 201 ==> CurveGrid(density, w)[i].x < CurveGrid(density, w)[j].x
    ensures forall i :: 0 <= i < 201 ==> w.start <= CurveGrid(density, w)[i].x <= w.end
    ensures forall i :: 0 <= i < 201 ==> CurveGrid(density, w)[i].y == density(CurveGrid(density, w)[i].x)
  {
    var grid := CurveGrid(density, w);
    assert GridX(w, 0) == w.start;
    assert GridX(w, 200) == w.end by {
      assert Steps as real == 200.0;
      assert 200.0 * ((w.end - w.start) / 200.0) == w.end - w.start;
    }
    forall i, j | 0 <= i < j < 201
      ensures grid[i].x < grid[j].x
    {
      GridStep(w, i, j);
    }
    forall i | 0 < i < 200
      ensures w.start < grid[i].x < w.end
    {
      GridStep(w, 0, i);
      GridStep(w, i, 200);
    }
  }

  /** The source's loop: push the point at start + i * step for i = 0 .. 200. */
  method SampleCurve(density: real -> real, w: Window) returns (data: seq<DataPoint>)
    ensures data == CurveGrid(density, w)
  {
    var step := (w.end - w.start) / Steps as real;
    data := [];
    var i := 0;
    while i <= Steps
      invariant 0 <= i <= Steps + 1
      invariant data == CurveGrid(density, w)[..i]
    {
      var x := w.start + i as real * step;
      assert x == GridX(w, i);
      data := data + [DataPoint(x, density(x))];
      i := i + 1;
    }
  }

  // ---------------------------------------------------------- mass ranges

  /** How many of start, start + 1, start + 2, ... are at most end. */
  function PointCount(start: real, end: real): (n: nat)
    ensures n == 0 <==> start > end
    ensures n > 0 ==> start + (n - 1) as real <= end < start + n as real
  {
    if start <= end then (end - start).Floor + 1 else 0
  }

  /** The points a discrete sampler emits: k = start, start + 1, ... while k <= end,
      each with its mass. */
  function MassRange(mass: real -> real, start: real, end: real): seq<DataPoint>
  {
    seq(PointCount(start, end), j => DataPoint(start + j as real, mass(start + j as real)))
  }

  /** One point per unit step from start up to end, ascending, each carrying its
      mass; the step after the last point would pass end, and there is nothing
      when start > end. */
  lemma MassRangeShape(mass: real -> real, start: real, end: real)
    ensures |MassRange(mass, start, end)| == 0 <==> start > end
    ensures forall j :: 0 <= j < |MassRange(mass, start, end)| ==>
      MassRange(mass, start, end)[j].x == start + j as real
      && start <= MassRange(mass, start, end)[j].x <= end
      && MassRange(mass, start, end)[j].y == mass(MassRange(mass, start, end)[j].x)
    ensures var r := MassRange(mass, start, end);
            |r| > 0 ==> r[|r| - 1].x + 1.0 > end
  {
  }

  /** Moving the end down by one drops exactly the last point. */
  lemma MassRangePrefix(mass: real -> real, start: real, end: real)
    requires start <= end
    ensures var r := MassRange(mass, start, end);
            |r| == |MassRange(mass, start, end - 1.0)| + 1
            && r[..|r| - 1] == MassRange(mass, start, end - 1.0)
  {
    if start <= end - 1.0 {
      assert (end - 1.0 - start).Floor == (end - start).Floor - 1;
    } else {
      assert (end - start).Floor == 0;
    }
  }

  /** The source's loop: for (k = start; k <= end; k++) push the point at k. */
  method SampleMasses(mass: real -> real, start: real, end: real) returns (data: seq<DataPoint>)
    ensures data == MassRange(mass, start, end)
  {
    data := [];
    var k := start;
    while k <= end
      invariant k == start + |data| as real
      invariant |data| <= PointCount(start, end)
      invariant data == MassRange(mass, start, end)[..|data|]
      decreases PointCount(start, end) - |data|
    {
      data := data + [DataPoint(k, mass(k))];
      k := k + 1.0;
    }
  }

  /** The heights of a run of points added up, last point last. */
  function SumY(data: seq<DataPoint>): real
  {
    if |data| == 0 then 0.0 else SumY(data[..|data| - 1]) + data[|data| - 1].y
  }

  /** Sampling 0, 1, .., m and adding up the heights gives the partial sum of
      the masses up to m. */
  lemma {:induction false} MassRangeSum(mass: real -> real, g: int -> real, m: int)
    requires m >= -1
    requires forall j :: 0 <= j <= m ==> mass(j as real) == g(j)
    ensures SumY(MassRange(mass, 0.0, m as real)) == PartialSum(g, m)
    decreases m + 1
  {
    if m >= 0 {
      var r := MassRange(mass, 0.0, m as real);
      assert |r| == m + 1;
      assert r[..m] == MassRange(mass, 0.0, (m - 1) as real);
      MassRangeSum(mass, g, m - 1);
      assert r[m].y == g(m);
    }
  }

  // ------------------------------------------------------------- helpers

  /** Math.max on two whole numbers is again a whole number. */
  function WholeMax(a: int, b: int): (r: int)
    ensures r >= a && r >= b && (r == a || r == b)
  {
    Max(a as real, b as real).Floor
  }

  /** Math.min on two whole numbers is again a whole number. */
  function WholeMin(a: int, b: int): (r: int)
    ensures r <= a && r <= b && (r == a || r == b)
  {
    Min(a as real, b as real).Floor
  }

  // -------------------------------------------- the three curve samplers

  function NormalDensity(env: Env, mean: real, stdDev: real): real -> real
  {
    x => NormalPdf(env, x, mean, stdDev)
  }

  function UniformDensity(min: real, max: real): real -> real
    requires min != max
  {
    x => UniformPdf(x, min, max)
  }

  function ExponentialDensity(env: Env, rate: real): real -> real
  {
    x => ExponentialPdf(env, x, rate)
  }

  /** By default four standard deviations either side of the mean. */
  function NormalData(env: Env, mean: real, stdDev: real,
                      xMin: Option<real>, xMax: Option<real>): seq<DataPoint>
  {
    CurveGrid(NormalDensity(env, mean, stdDev),
              ContinuousWindow(mean - 4.0 * stdDev, mean + 4.0 * stdDev, xMin, xMax))
  }

  method GenerateNormalData(env: Env, mean: real, stdDev: real,
                            xMin: Option<real>, xMax: Option<real>) returns (data: seq<DataPoint>)
    ensures data == NormalData(env, mean, stdDev, xMin, xMax)
  {
    var start := mean - 4.0 * stdDev;
    var end := mean + 4.0 * stdDev;
    if xMin.Some? { start := xMin.value; }
    if xMax.Some? { end := xMax.value; }
    if start >= end { end := start + 1.0; }
    data := SampleCurve(NormalDensity(env, mean, stdDev), Window(start, end));
  }

  /** Without overrides and with stdDev > 0 the curve runs from mean - 4 stdDev to
      mean + 4 stdDev and its middle point is the mean. */
  lemma NormalDefaultWindow(env: Env, mean: real, stdDev: real)
    requires stdDev > 0.0
    ensures var data := NormalData(env, mean, stdDev, None, None);
            |data| == 201 && data[0].x == mean - 4.0 * stdDev && data[200].x == mean + 4.0 * stdDev
            && data[100].x == mean
  {
    var w := ContinuousWindow(mean - 4.0 * stdDev, mean + 4.0 * stdDev, None, None);
    CurveGridShape(NormalDensity(env, mean, stdDev), w);
    assert GridX(w, 100) == mean by {
      assert Steps as real == 200.0;
      assert 100.0 * ((8.0 * stdDev) / 200.0) == 4.0 * stdDev;
    }
  }

  /** By default half the support's width is added on either side. */
  function UniformData(min: real, max: real, xMin: Option<real>, xMax: Option<real>): seq<DataPoint>
    requires min != max
  {
    CurveGrid(UniformDensity(min, max),
              ContinuousWindow(min - (max - min) * 0.5, max + (max - min) * 0.5, xMin, xMax))
  }

  method GenerateUniformData(min: real, max: real, xMin: Option<real>, xMax: Option<real>)
    returns (data: seq<DataPoint>)
    requires min != max
    ensures data == UniformData(min, max, xMin, xMax)
  {
    var margin := (max - min) * 0.5;
    var start := min - margin;
    var end := max + margin;
    if xMin.Some? { start := xMin.value; }
    if xMax.Some? { end := xMax.value; }
    if start >= end { end := start + 1.0; }
    data := SampleCurve(UniformDensity(min, max), Window(start, end));
  }

  /** Without overrides and with min < max the support sits in the middle half of the
      window: points 50 and 150 are min and max, the density is 0 before point 50 and
      after point 150 and 1 / (max - min) from 50 to 150. */
  lemma UniformDefaultWindow(min: real, max: real)
    requires min < max
    ensures var data := UniformData(min, max, None, None);
            |data| == 201 && data[50].x == min && data[150].x == max
            && (forall i :: 0 <= i < 50 || 150 < i <= 200 ==> data[i].y == 0.0)
            && (forall i :: 50 <= i <= 150 ==> data[i].y == 1.0 / (max - min))
  {
    var w := ContinuousWindow(min - (max - min) * 0.5, max + (max - min) * 0.5, None, None);
    var grid := CurveGrid(UniformDensity(min, max), w);
    CurveGridShape(UniformDensity(min, max), w);
    assert Steps as real == 200.0;
    assert GridX(w, 50) == min by {
      assert 50.0 * ((2.0 * (max - min)) / 200.0) == (max - min) * 0.5;
    }
    assert GridX(w, 150) == max by {
      assert 150.0 * ((2.0 * (max - min)) / 200.0) == (max - min) * 1.5;
    }
    forall i | 0 <= i < 50
      ensures grid[i].y == 0.0
    {
      GridStep(w, i, 50);
    }
    forall i | 150 < i <= 200
      ensures grid[i].y == 0.0
    {
      GridStep(w, 150, i);
    }
    forall i | 50 < i < 150
      ensures grid[i].y == 1.0 / (max - min)
    {
      GridStep(w, 50, i);
      GridStep(w, i, 150);
    }
  }

  /** By default from 0 to 5 / rate. When rate is 0 that bound is infinite in the
      source and no grid can be built from it, so an xMax override is then required;
      the placeholder 0 below is always replaced by it. */
  function ExponentialData(env: Env, rate: real, xMin: Option<real>, xMax: Option<real>): seq<DataPoint>
    requires rate != 0.0 || xMax.Some?
  {
    CurveGrid(ExponentialDensity(env, rate),
              ContinuousWindow(0.0, if rate != 0.0 then 5.0 / rate else 0.0, xMin, xMax))
  }

  method GenerateExponentialData(env: Env, rate: real, xMin: Option<real>, xMax: Option<real>)
    returns (data: seq<DataPoint>)
    requires rate != 0.0 || xMax.Some?
    ensures data == ExponentialData(env, rate, xMin, xMax)
  {
    var start := 0.0;
    var end := if rate != 0.0 then 5.0 / rate else 0.0;
    if xMin.Some? { start := xMin.value; }
    if xMax.Some? { end := xMax.value; }
    if start >= end { end := start + 1.0; }
    data := SampleCurve(ExponentialDensity(env, rate), Window(start, end));
  }

  /** Without overrides and with rate > 0 the curve runs from 0 to 5 / rate, and
      no point lies in the region x < 0 where the density is 0. */
  lemma ExponentialDefaultWindow(env: Env, rate: real)
    requires rate > 0.0
    ensures var data := ExponentialData(env, rate, None, None);
            |data| == 201 && data[0].x == 0.0 && data[200].x == 5.0 / rate
            && forall i :: 0 <= i < 201 ==> data[i].x >= 0.0
  {
    var w := ContinuousWindow(0.0, 5.0 / rate, None, None);
    assert 5.0 / rate > 0.0;
    CurveGridShape(ExponentialDensity(env, rate), w);
  }

  // ------------------------------------------- the four discrete samplers

  /** The bar height each discrete chart draws at a sampled x: the PMF at a real
      argument, which is 0 off the whole numbers. (The Distributions masses with
      an int index are the same PMFs restricted to whole k, for partial sums.) */
  function PoissonHeight(env: Env, lam: real): real -> real
  {
    k => PoissonPmf(env, k, lam)
  }

  function DiscreteUniformHeight(min: real, max: real): real -> real
  {
    k => DiscreteUniformPmf(k, min, max)
  }

  function BernoulliHeight(p: real): real -> real
  {
    k => BernoulliPmf(k, p)
  }

  function BinomialHeight(n: int, p: real): real -> real
  {
    k => BinomialPmf(k, n, p)
  }

  /** ceil(lam + 4 sqrt(lam)) + 2, the default last k of the Poisson chart. */
  function PoissonDefaultEnd(env: Env, lam: real): int
  {
    Ceil(lam + 4.0 * Sqrt(env, lam)) + 2
  }

  /** From 0 (or the floored xMin, never below 0) to the default end (or the
      ceiled xMax, never below the default end). */
  function PoissonDomain(env: Env, lam: real, xMin: Option<real>, xMax: Option<real>): Window
  {
    var start := if xMin.Some? then WholeMax(0, xMin.value.Floor) else 0;
    var maxK := PoissonDefaultEnd(env, lam);
    var end := if xMax.Some? then WholeMax(maxK, Ceil(xMax.value)) else maxK;
    Window(start as real, end as real)
  }

  /** For lam < 0 the source's end is sqrt of a negative number, NaN, and no k
      passes the loop test: the chart is empty. */
  function PoissonData(env: Env, lam: real, xMin: Option<real>, xMax: Option<real>): seq<DataPoint>
  {
    if lam < 0.0 then []
    else
      var d := PoissonDomain(env, lam, xMin, xMax);
      MassRange(PoissonHeight(env, lam), d.start, d.end)
  }

  method GeneratePoissonData(env: Env, lam: real, xMin: Option<real>, xMax: Option<real>)
    returns (data: seq<DataPoint>)
    ensures data == PoissonData(env, lam, xMin, xMax)
  {
    if lam < 0.0 {
      return [];
    }
    var start := 0;
    var maxK := Ceil(lam + 4.0 * Sqrt(env, lam)) + 2;
    if xMin.Some? { start := WholeMax(0, xMin.value.Floor); }
    if xMax.Some? { maxK := WholeMax(maxK, Ceil(xMax.value)); }
    assert PoissonDomain(env, lam, xMin, xMax) == Window(start as real, maxK as real);
    data := SampleMasses(PoissonHeight(env, lam), start as real, maxK as real);
  }

  /** The Poisson domain never starts below 0, an xMax override can only extend
      it, and the default end lies at least 2 past lam. */
  lemma PoissonDomainBounds(env: Env, lam: real, xMin: Option<real>, xMax: Option<real>)
    requires lam >= 0.0
    ensures PoissonDomain(env, lam, xMin, xMax).start >= 0.0
    ensures PoissonDomain(env, lam, xMin, xMax).end >= PoissonDefaultEnd(env, lam) as real
    ensures xMax.Some? ==> PoissonDomain(env, lam, xMin, xMax).end >= xMax.value
    ensures xMax.None? ==> PoissonDomain(env, lam, xMin, xMax).end == PoissonDefaultEnd(env, lam) as real
    ensures PoissonDefaultEnd(env, lam) as real >= lam + 2.0
  {
  }

  /** Every Poisson point sits on a whole k >= 0 and carries the mass at k. */
  lemma PoissonDataOnSupport(env: Env, lam: real, xMin: Option<real>, xMax: Option<real>)
    ensures var data := PoissonData(env, lam, xMin, xMax);
            forall j :: 0 <= j < |data| ==>
              data[j].x >= 0.0 && IsInteger(data[j].x) && data[j].y == PoissonPmf(env, data[j].x, lam)
  {
    if lam >= 0.0 {
      var d := PoissonDomain(env, lam, xMin, xMax);
      MassRangeShape(PoissonHeight(env, lam), d.start, d.end);
      var data := MassRange(PoissonHeight(env, lam), d.start, d.end);
      forall j | 0 <= j < |data|
        ensures IsInteger(data[j].x)
      {
        assert data[j].x == (d.start.Floor + j) as real;
      }
    }
  }

  /** By default one point below min and one above max. */
  function DiscreteUniformDomain(min: real, max: real, xMin: Option<real>, xMax: Option<real>): Window
  {
    Window(if xMin.Some? then xMin.value.Floor as real else min - 1.0,
           if xMax.Some? then Ceil(xMax.value) as real else max + 1.0)
  }

  function DiscreteUniformData(min: real, max: real, xMin: Option<real>, xMax: Option<real>): seq<DataPoint>
  {
    var d := DiscreteUniformDomain(min, max, xMin, xMax);
    MassRange(DiscreteUniformHeight(min, max), d.start, d.end)
  }

  method GenerateDiscreteUniformData(min: real, max: real, xMin: Option<real>, xMax: Option<real>)
    returns (data: seq<DataPoint>)
    ensures data == DiscreteUniformData(min, max, xMin, xMax)
  {
    var start := min - 1.0;
    var end := max + 1.0;
    if xMin.Some? { start := xMin.value.Floor as real; }
    if xMax.Some? { end := Ceil(xMax.value) as real; }
    data := SampleMasses(DiscreteUniformHeight(min, max), start, end);
  }

  /** Without overrides and with whole bounds min <= max the chart has the zero bar
      at min - 1, one bar of height 1 / (max - min + 1) for each of min .. max, and
      the zero bar at max + 1. */
  lemma DiscreteUniformDefaultData(min: real, max: real)
    requires IsInteger(min) && IsInteger(max) && min <= max
    ensures var data := DiscreteUniformData(min, max, None, None);
            |data| == (max - min).Floor + 3
            && data[0] == DataPoint(min - 1.0, 0.0)
            && data[|data| - 1] == DataPoint(max + 1.0, 0.0)
            && forall j :: 0 < j < |data| - 1 ==> data[j].y == 1.0 / (max - min + 1.0)
  {
    var lo, hi := min.Floor, max.Floor;
    var data := DiscreteUniformData(min, max, None, None);
    assert PointCount(min - 1.0, max + 1.0) == hi - lo + 3 by {
      assert max + 1.0 - (min - 1.0) == (hi - lo + 2) as real;
    }
    assert (max - min).Floor == hi - lo by {
      assert max - min == (hi - lo) as real;
    }
    forall j | 0 < j < |data| - 1
      ensures data[j].y == 1.0 / (max - min + 1.0)
    {
      assert data[j].x == (lo - 1 + j) as real;
      assert IsInteger(data[j].x);
    }
  }

  /** Shifting by a whole number keeps a number whole or non-whole. */
  lemma WholeShift(a: real, j: int)
    ensures IsInteger(a + j as real) <==> IsInteger(a)
  {
    assert (a + j as real).Floor == a.Floor + j;
  }

  /** With a non-whole min every sampled k of the default chart is non-whole, so
      every bar is 0. */
  lemma DiscreteUniformNonWholeMinIsFlat(min: real, max: real)
    requires !IsInteger(min)
    ensures var data := DiscreteUniformData(min, max, None, None);
            forall j :: 0 <= j < |data| ==> data[j].y == 0.0
  {
    var data := DiscreteUniformData(min, max, None, None);
    forall j | 0 <= j < |data|
      ensures data[j].y == 0.0
    {
      var x := min - 1.0 + j as real;
      assert data[j].x == x;
      WholeShift(min, j - 1);
    }
  }

  /** On whole bounds, extending the run by one point adds that point's height. */
  lemma SumYStep(mass: real -> real, start: int, m: int)
    requires start <= m
    ensures SumY(MassRange(mass, start as real, m as real))
         == SumY(MassRange(mass, start as real, (m - 1) as real)) + mass(m as real)
  {
    var r := MassRange(mass, start as real, m as real);
    MassRangePrefix(mass, start as real, m as real);
    assert (m as real) - 1.0 == (m - 1) as real;
    assert PointCount(start as real, m as real) == m - start + 1 by {
      assert m as real - start as real == (m - start) as real;
    }
  }

  /** With whole bounds min <= max, the heights drawn from min - 1 up to a whole m
      add up to the CDF at m. */
  lemma {:induction false} DiscreteUniformRunningSum(min: real, max: real, m: int)
    requires IsInteger(min) && IsInteger(max) && min <= max
    requires m >= min.Floor - 2
    ensures SumY(MassRange(DiscreteUniformHeight(min, max), min - 1.0, m as real))
         == DiscreteUniformCdf(m as real, min, max)
    decreases m - min.Floor + 2
  {
    var height := DiscreteUniformHeight(min, max);
    var start := min.Floor - 1;
    assert min - 1.0 == start as real;
    if m == start - 1 {
      assert MassRange(height, start as real, m as real) == [];
    } else {
      var previous := SumY(MassRange(height, start as real, (m - 1) as real));
      assert SumY(MassRange(height, start as real, m as real)) == previous + height(m as real) by {
        SumYStep(height, start, m);
      }
      assert previous == DiscreteUniformCdf((m - 1) as real, min, max) by {
        DiscreteUniformRunningSum(min, max, m - 1);
      }
      DiscreteUniformCdfStep(m, min, max);
    }
  }

  /** Without overrides and with whole bounds min <= max the discrete uniform
      chart's heights add up to 1. */
  lemma DiscreteUniformDefaultChartTotal(min: real, max: real)
    requires IsInteger(min) && IsInteger(max) && min <= max
    ensures SumY(DiscreteUniformData(min, max, None, None)) == 1.0
  {
    var hi := max.Floor;
    assert max + 1.0 == (hi + 1) as real;
    DiscreteUniformRunningSum(min, max, hi + 1);
  }

  /** By default -1 .. 2, around the two outcomes. */
  function BernoulliDomain(xMin: Option<real>, xMax: Option<real>): Window
  {
    Window(if xMin.Some? then xMin.value.Floor as real else -1.0,
           if xMax.Some? then Ceil(xMax.value) as real else 2.0)
  }

  function BernoulliData(p: real, xMin: Option<real>, xMax: Option<real>): seq<DataPoint>
  {
    var d := BernoulliDomain(xMin, xMax);
    MassRange(BernoulliHeight(p), d.start, d.end)
  }

  method GenerateBernoulliData(p: real, xMin: Option<real>, xMax: Option<real>)
    returns (data: seq<DataPoint>)
    ensures data == BernoulliData(p, xMin, xMax)
  {
    var start := -1.0;
    var end := 2.0;
    if xMin.Some? { start := xMin.value.Floor as real; }
    if xMax.Some? { end := Ceil(xMax.value) as real; }
    data := SampleMasses(BernoulliHeight(p), start, end);
  }

  /** Without overrides the chart is exactly the four bars at -1, 0, 1 and 2. */
  lemma BernoulliDefaultData(p: real)
    ensures BernoulliData(p, None, None)
         == [DataPoint(-1.0, 0.0), DataPoint(0.0, 1.0 - p), DataPoint(1.0, p), DataPoint(2.0, 0.0)]
  {
    assert PointCount(-1.0, 2.0) == 4;
  }

  /** From 0 (or the floored xMin, never below 0) to trials (or the ceiled xMax,
      never above trials). */
  function BinomialDomain(n: int, xMin: Option<real>, xMax: Option<real>): Window
  {
    Window((if xMin.Some? then WholeMax(0, xMin.value.Floor) else 0) as real,
           (if xMax.Some? then WholeMin(n, Ceil(xMax.value)) else n) as real)
  }

  function BinomialData(n: int, p: real, xMin: Option<real>, xMax: Option<real>): seq<DataPoint>
  {
    var d := BinomialDomain(n, xMin, xMax);
    MassRange(BinomialHeight(n, p), d.start, d.end)
  }

  method GenerateBinomialData(n: int, p: real, xMin: Option<real>, xMax: Option<real>)
    returns (data: seq<DataPoint>)
    ensures data == BinomialData(n, p, xMin, xMax)
  {
    var start := 0;
    var end := n;
    if xMin.Some? { start := WholeMax(0, xMin.value.Floor); }
    if xMax.Some? { end := WholeMin(n, Ceil(xMax.value)); }
    data := SampleMasses(BinomialHeight(n, p), start as real, end as real);
  }

  /** Every binomial point sits on a whole k in [0, trials] and carries the mass at
      k, whatever the overrides. */
  lemma BinomialDataOnSupport(n: int, p: real, xMin: Option<real>, xMax: Option<real>)
    ensures var data := BinomialData(n, p, xMin, xMax);
            forall j :: 0 <= j < |data| ==>
              0.0 <= data[j].x <= n as real && IsInteger(data[j].x)
              && data[j].y == BinomialPmf(data[j].x, n, p)
  {
    var d := BinomialDomain(n, xMin, xMax);
    MassRangeShape(BinomialHeight(n, p), d.start, d.end);
    var data := MassRange(BinomialHeight(n, p), d.start, d.end);
    forall j | 0 <= j < |data|
      ensures IsInteger(data[j].x)
    {
      assert data[j].x == (d.start.Floor + j) as real;
    }
  }

  /** Without overrides the binomial chart has trials + 1 bars whose heights add
      up to 1 (binomial theorem). */
  lemma BinomialDefaultChartTotal(n: nat, p: real)
    ensures |BinomialData(n, p, None, None)| == n + 1
    ensures SumY(BinomialData(n, p, None, None)) == 1.0
  {
    forall j {:trigger BinomialMasses(n, p)(j)} | 0 <= j <= n
      ensures BinomialHeight(n, p)(j as real) == BinomialMasses(n, p)(j)
    {
    }
    MassRangeSum(BinomialHeight(n, p), BinomialMasses(n, p), n);
    BinomialTotal(n, p);
  }

  /** Without overrides and with lam >= 0 the Poisson chart's heights add up to
      the CDF at its last k. */
  lemma PoissonDefaultChartTotal(env: Env, lam: real)
    requires lam >= 0.0
    ensures SumY(PoissonData(env, lam, None, None))
         == PoissonCdf(env, PoissonDefaultEnd(env, lam) as real, lam)
  {
    var m := PoissonDefaultEnd(env, lam);
    forall j {:trigger PoissonMasses(env, lam)(j)} | 0 <= j <= m
      ensures PoissonHeight(env, lam)(j as real) == PoissonMasses(env, lam)(j)
    {
    }
    assert (m as real).Floor == m;
    MassRangeSum(PoissonHeight(env, lam), PoissonMasses(env, lam), m);
  }
}
