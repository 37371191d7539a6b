// The mass, density and cumulative functions of the seven distributions
// (utils/mathUtils.ts), and the two cumulative sums the source computes with loops.

module Distributions {
  import opened Types
  import opened Numerics

  /** Normal, uniform and exponential are continuous; the other four are discrete. */
  predicate IsContinuous(kind: DistributionType)
  {
    kind in {Normal, Uniform, Exponential}
  }

  // ---------------------------------------------------------------- Normal

  /** The normal CDF through the error function; 0 when stdDev <= 0. */
  function NormalCdf(env: Env, x: real, mean: real, stdDev: real): real
  {
    if stdDev <= 0.0 then 0.0 else 0.5 * (1.0 + Erf(env, ErfArgument(env, x, mean, stdDev)))
  }

  /** (x - mean) / (stdDev * sqrt 2), the point the error function is taken at. */
  function ErfArgument(env: Env, x: real, mean: real, stdDev: real): real
    requires stdDev > 0.0
  {
    (x - mean) / (stdDev * Sqrt(env, 2.0))
  }

  /** The normal density; 0 when stdDev <= 0. Math.pow(z, 2) is z * z. */
  function NormalPdf(env: Env, x: real, mean: real, stdDev: real): real
  {
    if stdDev <= 0.0 then 0.0
    else
      var z := (x - mean) / stdDev;
      (1.0 / (stdDev * Sqrt(env, 2.0 * Pi))) * Exp(env, -0.5 * (z * z))
  }

  /** The density is positive exactly when the standard deviation is. */
  lemma NormalPdfPositive(env: Env, x: real, mean: real, stdDev: real)
    ensures NormalPdf(env, x, mean, stdDev) > 0.0 <==> stdDev > 0.0
    ensures stdDev <= 0.0 ==> NormalPdf(env, x, mean, stdDev) == 0.0
  {
    if stdDev > 0.0 {
      ProductPositive(stdDev, Sqrt(env, 2.0 * Pi));
      ProductPositive(1.0 / (stdDev * Sqrt(env, 2.0 * Pi)),
                      Exp(env, -0.5 * (((x - mean) / stdDev) * ((x - mean) / stdDev))));
    }
  }

  /** The density is symmetric about the mean. */
  lemma NormalPdfSymmetric(env: Env, d: real, mean: real, stdDev: real)
    ensures NormalPdf(env, mean + d, mean, stdDev) == NormalPdf(env, mean - d, mean, stdDev)
  {
    if stdDev > 0.0 {
      SquaredQuotientSymmetric(mean, d, stdDev);
    }
  }

  lemma HalvesOfOpposites(e1: real, e2: real)
    requires e2 == -e1
    ensures 0.5 * (1.0 + e1) + 0.5 * (1.0 + e2) == 1.0
  {
  }

  /** Away from the mean, the CDF at mean + d and at mean - d add up to 1,
      because the error function approximation is odd. */
  lemma NormalCdfComplement(env: Env, d: real, mean: real, stdDev: real)
    requires stdDev > 0.0 && d != 0.0
    ensures NormalCdf(env, mean + d, mean, stdDev) + NormalCdf(env, mean - d, mean, stdDev) == 1.0
  {
    ErfArgumentOpposite(env, d, mean, stdDev);
    if d > 0.0 {
      ErfOdd(env, ErfArgument(env, mean + d, mean, stdDev));
    } else {
      ErfOdd(env, ErfArgument(env, mean - d, mean, stdDev));
    }
    HalvesOfOpposites(Erf(env, ErfArgument(env, mean + d, mean, stdDev)),
                      Erf(env, ErfArgument(env, mean - d, mean, stdDev)));
  }

  /** The error-function arguments at mean + d and mean - d are opposite. */
  lemma ErfArgumentOpposite(env: Env, d: real, mean: real, stdDev: real)
    requires stdDev > 0.0
    ensures ErfArgument(env, mean - d, mean, stdDev) == -ErfArgument(env, mean + d, mean, stdDev)
    ensures d > 0.0 ==> ErfArgument(env, mean + d, mean, stdDev) > 0.0
    ensures d < 0.0 ==> ErfArgument(env, mean - d, mean, stdDev) > 0.0
  {
    ProductPositive(stdDev, Sqrt(env, 2.0));
    OppositeQuotients(mean, d, stdDev * Sqrt(env, 2.0));
  }

  /** Offsets d and -d from the mean, scaled by s > 0, are opposite, with the
      sign of d. */
  lemma OppositeQuotients(mean: real, d: real, s: real)
    requires s > 0.0
    ensures ((mean - d) - mean) / s == -(((mean + d) - mean) / s)
    ensures d > 0.0 ==> ((mean + d) - mean) / s > 0.0
    ensures d < 0.0 ==> ((mean - d) - mean) / s > 0.0
  {
    assert (mean + d) - mean == d;
    assert (mean - d) - mean == -d;
  }

  lemma SquaredQuotientSymmetric(mean: real, d: real, s: real)
    requires s > 0.0
    ensures (((mean + d) - mean) / s) * (((mean + d) - mean) / s)
         == (((mean - d) - mean) / s) * (((mean - d) - mean) / s)
  {
    OppositeQuotients(mean, d, s);
  }

  lemma ProductPositive(a: real, b: real)
    requires a > 0.0 && b > 0.0
    ensures a * b > 0.0
  {
  }

  // --------------------------------------------------------------- Uniform

  /** The continuous uniform density: 1 / (max - min) on [min, max], 0 elsewhere.
      min = max would divide by zero. */
  function UniformPdf(x: real, min: real, max: real): real
    requires min != max
  {
    if x < min || x > max then 0.0 else 1.0 / (max - min)
  }

  /** The continuous uniform CDF: 0 below min, 1 above max, linear in between. */
  function UniformCdf(x: real, min: real, max: real): real
    requires min != max
  {
    if x < min then 0.0
    else if x > max then 1.0
    else (x - min) / (max - min)
  }

  /** The CDF is a probability. */
  lemma UniformCdfBounds(x: real, min: real, max: real)
    requires min != max
    ensures 0.0 <= UniformCdf(x, min, max) <= 1.0
  {
    if min <= x <= max {
      QuotientBounds(x - min, max - min);
    }
  }

  /** The CDF never decreases. */
  lemma UniformCdfMonotone(x1: real, x2: real, min: real, max: real)
    requires min != max && x1 <= x2
    ensures UniformCdf(x1, min, max) <= UniformCdf(x2, min, max)
  {
    UniformCdfBounds(x1, min, max);
    UniformCdfBounds(x2, min, max);
    if min <= x1 && x2 <= max {
      QuotientMonotone(x1 - min, x2 - min, max - min);
    }
  }

  /** Inside the range, the CDF is the area under the density from min to x. */
  lemma UniformCdfIsArea(x: real, min: real, max: real)
    requires min < max && min <= x <= max
    ensures UniformCdf(x, min, max) == (x - min) * UniformPdf(x, min, max)
  {
  }

  // ----------------------------------------------------------- Exponential

  /** rate * exp(-rate x) for x >= 0, and 0 below. */
  function ExponentialPdf(env: Env, x: real, rate: real): real
  {
    if x < 0.0 then 0.0 else rate * Exp(env, -rate * x)
  }

  /** 1 - exp(-rate x) for x >= 0, and 0 below. */
  function ExponentialCdf(env: Env, x: real, rate: real): real
  {
    if x < 0.0 then 0.0 else 1.0 - Exp(env, -rate * x)
  }

  /** The CDF stays below 1, and the density is non-negative for a non-negative rate. */
  lemma ExponentialBounds(env: Env, x: real, rate: real)
    ensures ExponentialCdf(env, x, rate) < 1.0
    ensures rate >= 0.0 ==> ExponentialPdf(env, x, rate) >= 0.0
  {
    if x >= 0.0 {
      if rate >= 0.0 {
        ProductNonNegative(rate, Exp(env, -rate * x));
      }
    }
  }

  /** Memorylessness in the source's terms: for x >= 0 the density is the
      rate times the probability of exceeding x. */
  lemma ExponentialPdfIsRateTimesSurvival(env: Env, x: real, rate: real)
    requires x >= 0.0
    ensures ExponentialPdf(env, x, rate) == rate * (1.0 - ExponentialCdf(env, x, rate))
  {
  }

  // --------------------------------------------------------------- Poisson

  /** lam^k e^(-lam) / k! on the non-negative integers, 0 elsewhere. */
  function PoissonPmf(env: Env, k: real, lam: real): real
  {
    if k < 0.0 || !IsInteger(k) then 0.0
    else
      FactorialAtLeastOne(k.Floor);
      (Pow(lam, k.Floor) * Exp(env, -lam)) / Factorial(k.Floor)
  }

  /** The Poisson masses as a function of a whole index. */
  function PoissonMasses(env: Env, lam: real): int -> real
  {
    i => PoissonPmf(env, i as real, lam)
  }

  /** The Poisson CDF: 0 below 0, otherwise the masses at 0 .. floor(k). */
  function PoissonCdf(env: Env, k: real, lam: real): real
  {
    if k < 0.0 then 0.0 else PartialSum(PoissonMasses(env, lam), k.Floor)
  }

  /** With lam >= 0 every mass is non-negative; with lam > 0 the mass is
      positive exactly on the non-negative integers. */
  lemma PoissonPmfSign(env: Env, k: real, lam: real)
    requires lam >= 0.0
    ensures PoissonPmf(env, k, lam) >= 0.0
    ensures lam > 0.0 ==> (PoissonPmf(env, k, lam) > 0.0 <==> k >= 0.0 && IsInteger(k))
  {
    if k >= 0.0 && IsInteger(k) {
      var n := k.Floor;
      FactorialAtLeastOne(n);
      var num := Pow(lam, n) * Exp(env, -lam);
      ProductNonNegative(Pow(lam, n), Exp(env, -lam));
      if lam > 0.0 {
        PowPositive(lam, n);
        ProductPositive(Pow(lam, n), Exp(env, -lam));
      }
    }
  }

  lemma PoissonMassesNonNegative(env: Env, lam: real)
    requires lam >= 0.0
    ensures forall i: int :: PoissonMasses(env, lam)(i) >= 0.0
  {
    forall i: int ensures PoissonMasses(env, lam)(i) >= 0.0 {
      PoissonPmfSign(env, i as real, lam);
    }
  }

  /** The CDF never decreases, for lam >= 0. */
  lemma PoissonCdfMonotone(env: Env, k1: real, k2: real, lam: real)
    requires lam >= 0.0 && k1 <= k2
    ensures 0.0 <= PoissonCdf(env, k1, lam) <= PoissonCdf(env, k2, lam)
  {
    PoissonMassesNonNegative(env, lam);
    if k2 >= 0.0 {
      PartialSumNonNegative(PoissonMasses(env, lam), k2.Floor);
      if k1 >= 0.0 {
        PartialSumNonNegative(PoissonMasses(env, lam), k1.Floor);
        PartialSumMonotone(PoissonMasses(env, lam), k1.Floor, k2.Floor);
      }
    }
  }

  /** The source's loop: sum the masses at 0, 1, .., floor(k). */
  method AccumulatePoissonCdf(env: Env, k: real, lam: real) returns (sum: real)
    ensures sum == PoissonCdf(env, k, lam)
  {
    if k < 0.0 {
      return 0.0;
    }
    sum := 0.0;
    var limit := k.Floor;
    var i := 0;
    while i <= limit
      invariant 0 <= i <= limit + 1 || (limit < 0 && i == 0)
      invariant sum == PartialSum(PoissonMasses(env, lam), i - 1)
    {
      sum := sum + PoissonPmf(env, i as real, lam);
      i := i + 1;
    }
  }

  /** At a whole k the CDF grows by exactly the mass at k. */
  lemma PoissonCdfStep(env: Env, k: int, lam: real)
    ensures PoissonCdf(env, k as real, lam)
         == PoissonCdf(env, (k - 1) as real, lam) + PoissonPmf(env, k as real, lam)
  {
    assert (k as real).Floor == k;
    assert ((k - 1) as real).Floor == k - 1;
    if k >= 0 {
      assert PoissonMasses(env, lam)(k) == PoissonPmf(env, k as real, lam);
    }
  }

  // ------------------------------------------------------ Discrete uniform

  /** 1 / (max - min + 1) on the integers of [min, max], 0 elsewhere. */
  function DiscreteUniformPmf(k: real, min: real, max: real): real
  {
    if k < min || k > max || !IsInteger(k) then 0.0 else 1.0 / (max - min + 1.0)
  }

  /** 0 below min, 1 at or above max, and (floor(k) - min + 1) / (max - min + 1) between. */
  function DiscreteUniformCdf(k: real, min: real, max: real): real
  {
    if k < min then 0.0
    else if k >= max then 1.0
    else (k.Floor as real - min + 1.0) / (max - min + 1.0)
  }

  /** The mass is positive exactly on the integers of [min, max]. */
  lemma DiscreteUniformSupport(k: real, min: real, max: real)
    ensures DiscreteUniformPmf(k, min, max) >= 0.0
    ensures DiscreteUniformPmf(k, min, max) > 0.0 <==> min <= k <= max && IsInteger(k)
  {
    if min <= k <= max && IsInteger(k) {
      QuotientPositive(1.0 / (max - min + 1.0), 1.0, max - min + 1.0);
    }
  }

  /** The CDF is a probability, strictly between 0 and 1 inside [min, max). */
  lemma DiscreteUniformCdfBounds(k: real, min: real, max: real)
    ensures 0.0 <= DiscreteUniformCdf(k, min, max) <= 1.0
    ensures min <= k < max ==> 0.0 < DiscreteUniformCdf(k, min, max) < 1.0
  {
    if min <= k < max {
      assert 0.0 < k.Floor as real - min + 1.0 < max - min + 1.0;
      QuotientBounds(k.Floor as real - min + 1.0, max - min + 1.0);
    }
  }

  /** The CDF never decreases. */
  lemma DiscreteUniformCdfMonotone(k1: real, k2: real, min: real, max: real)
    requires k1 <= k2
    ensures DiscreteUniformCdf(k1, min, max) <= DiscreteUniformCdf(k2, min, max)
  {
    if k1 < min {
      DiscreteUniformCdfBounds(k2, min, max);
    } else if k2 >= max {
      DiscreteUniformCdfBounds(k1, min, max);
    } else {
      assert k1.Floor <= k2.Floor;
      QuotientMonotone(k1.Floor as real - min + 1.0, k2.Floor as real - min + 1.0, max - min + 1.0);
    }
  }

  /** With whole bounds min <= max, the CDF at a whole k grows by exactly the mass at k. */
  lemma DiscreteUniformCdfStep(k: int, min: real, max: real)
    requires IsInteger(min) && IsInteger(max) && min <= max
    ensures DiscreteUniformCdf(k as real, min, max)
         == DiscreteUniformCdf((k - 1) as real, min, max) + DiscreteUniformPmf(k as real, min, max)
  {
    var lo, hi := min.Floor, max.Floor;
    assert (k as real).Floor == k && ((k - 1) as real).Floor == k - 1;
    var w := max - min + 1.0;
    if k == lo && lo < hi {
      assert DiscreteUniformCdf(k as real, min, max) == 1.0 / w;
    } else if lo < k < hi {
      assert DiscreteUniformCdf(k as real, min, max) == (k as real - min + 1.0) / w;
      assert DiscreteUniformCdf((k - 1) as real, min, max) == (k as real - min) / w;
      QuotientSum(k as real - min, 1.0, w);
    } else if k == hi && lo < k {
      assert DiscreteUniformCdf((k - 1) as real, min, max) == (max - min) / w;
      QuotientSum(max - min, 1.0, w);
    }
  }

  // ------------------------------------------------------------- Bernoulli

  /** p at 1, 1 - p at 0, 0 elsewhere. */
  function BernoulliPmf(k: real, p: real): real
  {
    if k == 1.0 then p else if k == 0.0 then 1.0 - p else 0.0
  }

  // -------------------------------------------------------------- Binomial

  /** C(n, k) p^k (1-p)^(n-k) on the integers of [0, n], 0 elsewhere. */
  function BinomialPmf(k: real, n: int, p: real): real
  {
    if k < 0.0 || k > n as real || !IsInteger(k) then 0.0
    else Combinations(n, k.Floor) * Pow(p, k.Floor) * Pow(1.0 - p, n - k.Floor)
  }

  /** The binomial masses as a function of a whole index. */
  function BinomialMasses(n: int, p: real): int -> real
  {
    i => BinomialPmf(i as real, n, p)
  }

  /** The binomial CDF: 0 below 0, otherwise the masses at 0 .. min(floor(k), n). */
  function BinomialCdf(k: real, n: int, p: real): real
  {
    if k < 0.0 then 0.0
    else PartialSum(BinomialMasses(n, p), if k.Floor < n then k.Floor else n)
  }

  /** A binomial mass is the matching term of (p + (1 - p))^n. */
  lemma BinomialPmfIsExpansion(i: int, n: int, p: real)
    requires 0 <= i <= n
    ensures BinomialPmf(i as real, n, p) == Expansion(n, i, p, 1.0 - p)
  {
    assert (i as real).Floor == i;
    CombinationsIsChoose(n, i);
    ExpansionIsBinomialTerm(n, i, p, 1.0 - p);
  }

  lemma BinomialMassesAreExpansion(n: int, p: real)
    ensures forall i :: 0 <= i <= n ==>
      BinomialMasses(n, p)(i) == ExpansionTerms(n, p, 1.0 - p)(i)
  {
    forall i {:trigger BinomialMasses(n, p)(i)} | 0 <= i <= n
      ensures BinomialMasses(n, p)(i) == ExpansionTerms(n, p, 1.0 - p)(i)
    {
      BinomialPmfIsExpansion(i, n, p);
    }
  }

  /** The masses at 0 .. n add up to 1, whatever p is (binomial theorem). */
  lemma BinomialTotal(n: nat, p: real)
    ensures PartialSum(BinomialMasses(n, p), n) == 1.0
  {
    BinomialMassesAreExpansion(n, p);
    PartialSumCongruent(BinomialMasses(n, p), ExpansionTerms(n, p, 1.0 - p), n);
    BinomialTheorem(n, p, 1.0 - p);
    assert p + (1.0 - p) == 1.0;
    PowOne(n);
  }

  /** At or beyond n trials the CDF is exactly 1. */
  lemma BinomialCdfFull(k: real, n: int, p: real)
    requires n >= 0 && k >= n as real
    ensures BinomialCdf(k, n, p) == 1.0
  {
    assert k.Floor >= n;
    BinomialTotal(n, p);
  }

  /** For 0 <= p <= 1 every binomial mass is non-negative; for 0 < p < 1 it is
      positive exactly on the integers of [0, n]. */
  lemma BinomialPmfSign(k: real, n: int, p: real)
    requires 0.0 <= p <= 1.0
    ensures BinomialPmf(k, n, p) >= 0.0
    ensures 0.0 < p < 1.0 ==> (BinomialPmf(k, n, p) > 0.0 <==> 0.0 <= k <= n as real && IsInteger(k))
  {
    if 0.0 <= k <= n as real && IsInteger(k) {
      var i := k.Floor;
      CombinationsSign(n, i);
      assert Combinations(n, i) > 0.0;
      ProductNonNegative(Combinations(n, i), Pow(p, i));
      ProductNonNegative(Combinations(n, i) * Pow(p, i), Pow(1.0 - p, n - i));
      if 0.0 < p < 1.0 {
        PowPositive(p, i);
        PowPositive(1.0 - p, n - i);
        ProductPositive(Combinations(n, i), Pow(p, i));
        ProductPositive(Combinations(n, i) * Pow(p, i), Pow(1.0 - p, n - i));
      }
    }
  }

  lemma BinomialMassesNonNegative(n: int, p: real)
    requires 0.0 <= p <= 1.0
    ensures forall i: int :: BinomialMasses(n, p)(i) >= 0.0
  {
    forall i: int ensures BinomialMasses(n, p)(i) >= 0.0 {
      BinomialPmfSign(i as real, n, p);
    }
  }

  /** For 0 <= p <= 1 the CDF is a probability and never decreases. */
  lemma BinomialCdfMonotone(k1: real, k2: real, n: int, p: real)
    requires 0.0 <= p <= 1.0 && k1 <= k2
    ensures 0.0 <= BinomialCdf(k1, n, p) <= BinomialCdf(k2, n, p) <= 1.0
  {
    BinomialMassesNonNegative(n, p);
    var f := BinomialMasses(n, p);
    var top := if n >= 0 then n else -1;
    if n >= 0 {
      BinomialTotal(n, p);
    }
    if k2 >= 0.0 {
      var m2 := if k2.Floor < n then k2.Floor else n;
      PartialSumNonNegative(f, m2);
      PartialSumMonotone(f, m2, top);
      if k1 >= 0.0 {
        var m1 := if k1.Floor < n then k1.Floor else n;
        PartialSumMonotone(f, m1, m2);
        PartialSumNonNegative(f, m1);
      }
    }
  }

  /** For 0 <= p <= 1 every mass is at most 1: it is one of the terms that add up to 1. */
  lemma BinomialPmfAtMostOne(k: real, n: int, p: real)
    requires 0.0 <= p <= 1.0
    ensures BinomialPmf(k, n, p) <= 1.0
  {
    if 0.0 <= k <= n as real && IsInteger(k) {
      assert BinomialMasses(n, p)(k.Floor) == BinomialPmf(k, n, p);
      BinomialMassesNonNegative(n, p);
      PartialSumAtLeastLast(BinomialMasses(n, p), k.Floor);
      PartialSumMonotone(BinomialMasses(n, p), k.Floor, n);
      BinomialTotal(n, p);
    }
  }

  /** At a whole k the CDF grows by exactly the mass at k. */
  lemma BinomialCdfStep(k: int, n: int, p: real)
    ensures BinomialCdf(k as real, n, p)
         == BinomialCdf((k - 1) as real, n, p) + BinomialPmf(k as real, n, p)
  {
    assert (k as real).Floor == k;
    assert ((k - 1) as real).Floor == k - 1;
    if 0 <= k <= n {
      assert BinomialMasses(n, p)(k) == BinomialPmf(k as real, n, p);
    }
  }

  /** The source's loop: sum the masses at 0, 1, .., min(floor(k), n). */
  method AccumulateBinomialCdf(k: real, n: int, p: real) returns (sum: real)
    ensures sum == BinomialCdf(k, n, p)
  {
    if k < 0.0 {
      return 0.0;
    }
    sum := 0.0;
    var limit := if k.Floor < n then k.Floor else n;
    var i := 0;
    while i <= limit
      invariant 0 <= i <= limit + 1 || (limit < 0 && i == 0)
      invariant sum == PartialSum(BinomialMasses(n, p), i - 1)
    {
      sum := sum + BinomialPmf(i as real, n, p);
      i := i + 1;
    }
  }
}
