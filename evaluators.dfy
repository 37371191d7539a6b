// The calculate*Probability evaluators (utils/mathUtils.ts): each turns an
// operator and one or two thresholds into a probability through the
// distribution's mass, density and cumulative functions. An operator a kind
// does not handle (EQUAL on a continuous kind, BETWEEN on a discrete one)
// falls through to the switch's default and gives 0.

module Evaluators {
  import opened Types
  import opened Numerics
  import opened Distributions

  /** Math.abs. */
  function Abs(x: real): (r: real)
    ensures r >= 0.0
    ensures r == x || r == -x
  {
    if x < 0.0 then -x else x
  }

  // ------------------------------------------------------ the seven evaluators

  function NormalProbability(env: Env, mean: real, stdDev: real, x: real,
                             op: CalculationOperator, x2: Option<real>): real
  {
    match op
    case LessEqual => NormalCdf(env, x, mean, stdDev)
    case Greater => 1.0 - NormalCdf(env, x, mean, stdDev)
    case Between =>
      if x2.None? then 0.0
      else Abs(NormalCdf(env, x2.value, mean, stdDev) - NormalCdf(env, x, mean, stdDev))
    case Equal => 0.0
  }

  function UniformProbability(min: real, max: real, x: real,
                              op: CalculationOperator, x2: Option<real>): real
    requires min != max
  {
    match op
    case LessEqual => UniformCdf(x, min, max)
    case Greater => 1.0 - UniformCdf(x, min, max)
    case Between =>
      if x2.None? then 0.0
      else Abs(UniformCdf(x2.value, min, max) - UniformCdf(x, min, max))
    case Equal => 0.0
  }

  function ExponentialProbability(env: Env, rate: real, x: real,
                                  op: CalculationOperator, x2: Option<real>): real
  {
    match op
    case LessEqual => ExponentialCdf(env, x, rate)
    case Greater => 1.0 - ExponentialCdf(env, x, rate)
    case Between =>
      if x2.None? then 0.0
      else Abs(ExponentialCdf(env, x2.value, rate) - ExponentialCdf(env, x, rate))
    case Equal => 0.0
  }

  function PoissonProbability(env: Env, lam: real, x: real, op: CalculationOperator): real
  {
    match op
    case Equal => PoissonPmf(env, x, lam)
    case LessEqual => PoissonCdf(env, x, lam)
    case Greater => 1.0 - PoissonCdf(env, x, lam)
    case Between => 0.0
  }

  function DiscreteUniformProbability(min: real, max: real, x: real, op: CalculationOperator): real
  {
    match op
    case Equal => DiscreteUniformPmf(x, min, max)
    case LessEqual => DiscreteUniformCdf(x, min, max)
    case Greater => 1.0 - DiscreteUniformCdf(x, min, max)
    case Between => 0.0
  }

  /** The Bernoulli evaluator has its own piecewise cumulative rule instead of a CDF helper. */
  function BernoulliProbability(p: real, x: real, op: CalculationOperator): real
  {
    match op
    case Equal => BernoulliPmf(x, p)
    case LessEqual => if x < 0.0 then 0.0 else if x >= 1.0 then 1.0 else 1.0 - p
    case Greater => if x < 0.0 then 1.0 else if x >= 1.0 then 0.0 else p
    case Between => 0.0
  }

  function BinomialProbability(n: int, p: real, x: real, op: CalculationOperator): real
  {
    match op
    case Equal => BinomialPmf(x, n, p)
    case LessEqual => BinomialCdf(x, n, p)
    case Greater => 1.0 - BinomialCdf(x, n, p)
    case Between => 0.0
  }

  // ------------------------------------------------------------- dispatch

  /** Parameters every evaluator can be applied to: a continuous uniform with
      min = max would divide by zero. */
  predicate WellDefined(params: Params)
  {
    params.UniformParams? ==> params.min != params.max
  }

  /** The kind-to-evaluator dispatch of the application: only the continuous
      evaluators receive the second threshold. */
  function Probability(env: Env, params: Params, x: real, op: CalculationOperator,
                       x2: Option<real>): real
    requires WellDefined(params)
  {
    match params
    case NormalParams(mean, stdDev) => NormalProbability(env, mean, stdDev, x, op, x2)
    case UniformParams(min, max) => UniformProbability(min, max, x, op, x2)
    case ExponentialParams(rate) => ExponentialProbability(env, rate, x, op, x2)
    case PoissonParams(lam) => PoissonProbability(env, lam, x, op)
    case DiscreteUniformParams(min, max) => DiscreteUniformProbability(min, max, x, op)
    case BernoulliParams(p) => BernoulliProbability(p, x, op)
    case BinomialParams(n, p) => BinomialProbability(n, p, x, op)
  }

  // ------------------------------------------------------ operator algebra

  /** GREATER is always the complement of LESS_EQUAL, for every kind. */
  lemma GreaterIsComplement(env: Env, params: Params, x: real, x2: Option<real>)
    requires WellDefined(params)
    ensures Probability(env, params, x, Greater, x2) == 1.0 - Probability(env, params, x, LessEqual, x2)
  {
  }

  /** BETWEEN does not depend on the order of the two thresholds. */
  lemma BetweenIsSymmetric(env: Env, params: Params, x1: real, x2: real)
    requires WellDefined(params)
    ensures Probability(env, params, x1, Between, Some(x2))
         == Probability(env, params, x2, Between, Some(x1))
  {
  }

  /** BETWEEN without a second threshold is 0. */
  lemma BetweenNeedsSecondThreshold(env: Env, params: Params, x: real)
    requires WellDefined(params)
    ensures Probability(env, params, x, Between, None) == 0.0
  {
  }

  /** An operator the kind does not offer gives 0: EQUAL on a continuous kind,
      BETWEEN on a discrete one. */
  lemma UnsupportedOperatorIsZero(env: Env, params: Params, x: real, op: CalculationOperator,
                                  x2: Option<real>)
    requires WellDefined(params)
    requires IsContinuous(KindOf(params)) <==> op == Equal
    requires op == Equal || op == Between
    ensures Probability(env, params, x, op, x2) == 0.0
  {
  }

  /** A normal with stdDev <= 0 has CDF 0 everywhere: LESS_EQUAL and BETWEEN give 0,
      GREATER gives 1. */
  lemma DegenerateNormal(env: Env, mean: real, stdDev: real, x: real, x2: Option<real>)
    requires stdDev <= 0.0
    ensures NormalProbability(env, mean, stdDev, x, LessEqual, x2) == 0.0
    ensures NormalProbability(env, mean, stdDev, x, Greater, x2) == 1.0
    ensures NormalProbability(env, mean, stdDev, x, Between, x2) == 0.0
  {
  }

  // ------------------------------------------------------------- ranges

  /** For min != max every operator gives a probability; with min > max every
      answer is 0 or 1. */
  lemma UniformProbabilityBounds(min: real, max: real, x: real, op: CalculationOperator,
                                 x2: Option<real>)
    requires min != max
    ensures 0.0 <= UniformProbability(min, max, x, op, x2) <= 1.0
    ensures min > max ==> UniformProbability(min, max, x, op, x2) in {0.0, 1.0}
  {
    UniformCdfBounds(x, min, max);
    if x2.Some? {
      UniformCdfBounds(x2.value, min, max);
    }
  }

  /** Inside [min, max] BETWEEN is the length of the interval over the width of the support. */
  lemma UniformBetweenIsLength(min: real, max: real, x1: real, x2: real)
    requires min < max && min <= x1 <= x2 <= max
    ensures UniformProbability(min, max, x1, Between, Some(x2)) == (x2 - x1) / (max - min)
  {
    QuotientSum(x1 - min, x2 - x1, max - min);
    QuotientBounds(x2 - x1, max - min);
  }

  /** Every operator gives a probability for a discrete uniform. */
  lemma DiscreteUniformProbabilityBounds(min: real, max: real, x: real, op: CalculationOperator)
    ensures 0.0 <= DiscreteUniformProbability(min, max, x, op) <= 1.0
  {
    DiscreteUniformCdfBounds(x, min, max);
    DiscreteUniformSupport(x, min, max);
    if min <= x <= max {
      QuotientBounds(1.0, max - min + 1.0);
    }
  }

  /** For 0 <= p <= 1 every operator gives a probability for a Bernoulli. */
  lemma BernoulliProbabilityBounds(p: real, x: real, op: CalculationOperator)
    requires 0.0 <= p <= 1.0
    ensures 0.0 <= BernoulliProbability(p, x, op) <= 1.0
  {
  }

  /** For 0 <= p <= 1 every operator gives a probability for a binomial. */
  lemma BinomialProbabilityBounds(n: int, p: real, x: real, op: CalculationOperator)
    requires 0.0 <= p <= 1.0
    ensures 0.0 <= BinomialProbability(n, p, x, op) <= 1.0
  {
    BinomialCdfMonotone(x, x, n, p);
    BinomialPmfSign(x, n, p);
    BinomialPmfAtMostOne(x, n, p);
  }

  // -------------------------------------------- EQUAL against LESS_EQUAL

  /** On a whole x, EQUAL is the jump of LESS_EQUAL from x - 1 to x. */
  lemma PoissonEqualIsJump(env: Env, lam: real, k: int)
    ensures PoissonProbability(env, lam, k as real, Equal)
         == PoissonProbability(env, lam, k as real, LessEqual)
          - PoissonProbability(env, lam, (k - 1) as real, LessEqual)
  {
    PoissonCdfStep(env, k, lam);
  }

  /** On a whole x, EQUAL is the jump of LESS_EQUAL from x - 1 to x. */
  lemma BinomialEqualIsJump(n: int, p: real, k: int)
    ensures BinomialProbability(n, p, k as real, Equal)
         == BinomialProbability(n, p, k as real, LessEqual)
          - BinomialProbability(n, p, (k - 1) as real, LessEqual)
  {
    BinomialCdfStep(k, n, p);
  }

  /** With whole bounds min <= max, on a whole x EQUAL is the jump of LESS_EQUAL. */
  lemma DiscreteUniformEqualIsJump(min: real, max: real, k: int)
    requires IsInteger(min) && IsInteger(max) && min <= max
    ensures DiscreteUniformProbability(min, max, k as real, Equal)
         == DiscreteUniformProbability(min, max, k as real, LessEqual)
          - DiscreteUniformProbability(min, max, (k - 1) as real, LessEqual)
  {
    DiscreteUniformCdfStep(k, min, max);
  }

  /** LESS_EQUAL never decreases as the threshold grows (0 <= p <= 1 for the binomial,
      lam >= 0 for the Poisson). */
  lemma LessEqualIsMonotone(env: Env, params: Params, x1: real, x2: real)
    requires WellDefined(params) && x1 <= x2
    requires params.BinomialParams? || params.BernoulliParams? ==> 0.0 <= params.prob <= 1.0
    requires params.PoissonParams? ==> params.lam >= 0.0
    requires !params.NormalParams? && !params.ExponentialParams?
    ensures Probability(env, params, x1, LessEqual, None) <= Probability(env, params, x2, LessEqual, None)
  {
    match params
    case UniformParams(min, max) => UniformCdfMonotone(x1, x2, min, max);
    case PoissonParams(lam) => PoissonCdfMonotone(env, x1, x2, lam);
    case DiscreteUniformParams(min, max) => DiscreteUniformCdfMonotone(x1, x2, min, max);
    case BernoulliParams(p) =>
    case BinomialParams(n, p) => BinomialCdfMonotone(x1, x2, n, p);
  }

  // ------------------------------------------------ Bernoulli = Binomial(1, p)

  /** A Bernoulli is a binomial with one trial, operator by operator. */
  lemma BernoulliIsOneTrial(p: real, x: real, op: CalculationOperator)
    ensures BernoulliProbability(p, x, op) == BinomialProbability(1, p, x, op)
  {
    CombinationsEdges(1);
    assert Pow(p, 1) == p * Pow(p, 0);
    assert Pow(1.0 - p, 1) == (1.0 - p) * Pow(1.0 - p, 0);
    assert (1.0).Floor == 1;
    assert BinomialPmf(0.0, 1, p) == 1.0 - p;
    assert BinomialPmf(1.0, 1, p) == p;
    if x >= 0.0 {
      assert PartialSum(BinomialMasses(1, p), 0) == 1.0 - p;
      assert PartialSum(BinomialMasses(1, p), 1) == 1.0;
    }
  }
}
