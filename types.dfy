// The records and enumerations shared by the probability engine, the
// application shell and the chart (types.ts).

module Types {

  datatype Option<+T> = None | Some(value: T)

  /** The seven supported distributions; the first three are continuous. */
  datatype DistributionType =
    | Normal | Uniform | Exponential
    | Poisson | DiscreteUniform | Bernoulli | Binomial

  /** The event asked about: P(X <= x), P(X > x), P(X = x), P(x1 < X < x2). */
  datatype CalculationOperator = LessEqual | Greater | Equal | Between

  /** One parameter record per distribution. */
  datatype Params =
    | NormalParams(mean: real, stdDev: real)
    | UniformParams(min: real, max: real)
    | ExponentialParams(rate: real)
    | PoissonParams(lam: real)
    | DiscreteUniformParams(min: real, max: real)
    | BernoulliParams(prob: real)
    | BinomialParams(trials: int, prob: real)

  function KindOf(p: Params): DistributionType
  {
    match p
    case NormalParams(_, _) => Normal
    case UniformParams(_, _) => Uniform
    case ExponentialParams(_) => Exponential
    case PoissonParams(_) => Poisson
    case DiscreteUniformParams(_, _) => DiscreteUniform
    case BernoulliParams(_) => Bernoulli
    case BinomialParams(_, _) => Binomial
  }

  /** A sampled point of a density or mass curve (its display label is not modelled). */
  datatype DataPoint = DataPoint(x: real, y: real)

  /** The relation symbol shown in a single-threshold result label. */
  datatype OperatorSymbol = LessOrEqualSign | GreaterSign | EqualSign

  /** The result label, as structured data rather than text:
      RangeLabel(a, b) reads "P(a < X < b)", ComparisonLabel(s, x) reads "P(X s x)". */
  datatype ProbabilityLabel =
    | RangeLabel(low: real, high: real)
    | ComparisonLabel(symbol: OperatorSymbol, threshold: real)

  datatype ProbabilityResult = ProbabilityResult(value: real, caption: ProbabilityLabel)
}
