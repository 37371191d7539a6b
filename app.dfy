// The application shell (App.tsx): its input state, the runModel step that
// samples the chart and evaluates the probability for the current inputs, the
// result label, and the rule that resets an operator the newly selected kind
// does not offer.

module Application {
  import opened Types
  import opened Numerics
  import opened Distributions
  import opened Evaluators
  import opened Samplers

  // ------------------------------------------------------------- the label

  /** BETWEEN reads P(min < X < max) with the thresholds in ascending order; every
      other operator reads P(X op x) with op "≤", ">" or, for anything else, "=". */
  function ResultLabel(op: CalculationOperator, targetX: real, targetX2: real): ProbabilityLabel
  {
    if op == Between then RangeLabel(Min(targetX, targetX2), Max(targetX, targetX2))
    else
      var symbol := if op == LessEqual then LessOrEqualSign
                    else if op == CalculationOperator.Greater then GreaterSign
                    else EqualSign;
      ComparisonLabel(symbol, targetX)
  }

  /** A BETWEEN label lists the two thresholds in ascending order, so swapping
      them gives the same label; any other label shows the first threshold only,
      with the operator's own symbol. */
  lemma ResultLabelProperties(op: CalculationOperator, a: real, b: real, c: real)
    ensures op == Between ==>
      ResultLabel(op, a, b) == ResultLabel(op, b, a)
      && ResultLabel(op, a, b).low <= ResultLabel(op, a, b).high
      && ((ResultLabel(op, a, b).low == a && ResultLabel(op, a, b).high == b)
          || (ResultLabel(op, a, b).low == b && ResultLabel(op, a, b).high == a))
    ensures op != Between ==>
      ResultLabel(op, a, b) == ResultLabel(op, a, c)
      && ResultLabel(op, a, b).ComparisonLabel? && ResultLabel(op, a, b).threshold == a
      && (ResultLabel(op, a, b).symbol == LessOrEqualSign <==> op == LessEqual)
      && (ResultLabel(op, a, b).symbol == GreaterSign <==> op == CalculationOperator.Greater)
      && (ResultLabel(op, a, b).symbol == EqualSign <==> op == Equal)
  {
  }

  // ----------------------------------------------------- operator reset

  /** The operators a kind offers: no EQUAL for a continuous kind, no BETWEEN for
      a discrete one. */
  predicate Offers(kind: DistributionType, op: CalculationOperator)
  {
    (IsContinuous(kind) ==> op != Equal) && (!IsContinuous(kind) ==> op != Between)
  }

  /** On a change of kind, BETWEEN on a discrete kind and EQUAL on a continuous
      one become LESS_EQUAL. */
  function ResetOperator(kind: DistributionType, op: CalculationOperator): CalculationOperator
  {
    if !IsContinuous(kind) && op == Between then LessEqual
    else if IsContinuous(kind) && op == Equal then LessEqual
    else op
  }

  /** After the reset the operator is one the kind offers; an offered operator is
      kept, any other becomes LESS_EQUAL, and resetting twice changes nothing more. */
  lemma ResetOperatorProperties(kind: DistributionType, op: CalculationOperator)
    ensures Offers(kind, ResetOperator(kind, op))
    ensures Offers(kind, op) <==> ResetOperator(kind, op) == op
    ensures !Offers(kind, op) ==> ResetOperator(kind, op) == LessEqual
    ensures ResetOperator(kind, ResetOperator(kind, op)) == ResetOperator(kind, op)
  {
  }

  // --------------------------------------------------------- the inputs

  /** An axis text: empty means no override, otherwise the number parseFloat reads
      from it. parse stands for parseFloat, with None for NaN, which the samplers'
      isNaN test also turns into no override. */
  function AxisOverride(parse: string -> Option<real>, text: string): Option<real>
  {
    if text == "" then None else parse(text)
  }

  /** Everything runModel reads. */
  datatype Inputs = Inputs(
    kind: DistributionType,
    mean: real, stdDev: real, lam: real, distMin: real, distMax: real,
    distProb: real, trials: int,
    targetX: real, targetX2: real, calcOp: CalculationOperator,
    xMin: string, xMax: string)

  /** The parameter record each kind is run with: the exponential's rate and the
      Poisson's lam are the same input, and both uniforms share min and max. */
  function ParamsFor(i: Inputs): Params
  {
    match i.kind
    case Normal => NormalParams(i.mean, i.stdDev)
    case Uniform => UniformParams(i.distMin, i.distMax)
    case Exponential => ExponentialParams(i.lam)
    case Poisson => PoissonParams(i.lam)
    case DiscreteUniform => DiscreteUniformParams(i.distMin, i.distMax)
    case Bernoulli => BernoulliParams(i.distProb)
    case Binomial => BinomialParams(i.trials, i.distProb)
  }

  /** The parameter record is the selected kind's, built from the inputs it uses. */
  lemma ParamsForKind(i: Inputs)
    ensures KindOf(ParamsFor(i)) == i.kind
    ensures ParamsFor(i.(kind := Exponential)).rate == ParamsFor(i.(kind := Poisson)).lam == i.lam
    ensures ParamsFor(i.(kind := Uniform)).min == ParamsFor(i.(kind := DiscreteUniform)).min == i.distMin
    ensures ParamsFor(i.(kind := Uniform)).max == ParamsFor(i.(kind := DiscreteUniform)).max == i.distMax
  {
  }

  /** The inputs under which every sampler and evaluator is defined: a continuous
      uniform needs min != max, and the exponential needs a non-zero rate unless
      an xMax override replaces its default end 5 / rate. */
  predicate Runnable(i: Inputs, parse: string -> Option<real>)
  {
    && (i.kind == Uniform ==> i.distMin != i.distMax)
    && (i.kind == Exponential ==> i.lam != 0.0 || AxisOverride(parse, i.xMax).Some?)
  }

  /** The chart runModel draws for these inputs. */
  function ChartFor(env: Env, i: Inputs, parse: string -> Option<real>): seq<DataPoint>
    requires Runnable(i, parse)
  {
    var xMin := AxisOverride(parse, i.xMin);
    var xMax := AxisOverride(parse, i.xMax);
    match i.kind
    case Normal => NormalData(env, i.mean, i.stdDev, xMin, xMax)
    case Uniform => UniformData(i.distMin, i.distMax, xMin, xMax)
    case Exponential => ExponentialData(env, i.lam, xMin, xMax)
    case Poisson => PoissonData(env, i.lam, xMin, xMax)
    case DiscreteUniform => DiscreteUniformData(i.distMin, i.distMax, xMin, xMax)
    case Bernoulli => BernoulliData(i.distProb, xMin, xMax)
    case Binomial => BinomialData(i.trials, i.distProb, xMin, xMax)
  }

  /** With both axis fields empty every kind draws its default chart, the one its
      sampler gives without overrides. */
  lemma EmptyAxisFieldsGiveDefaultChart(env: Env, i: Inputs, parse: string -> Option<real>)
    requires i.xMin == "" && i.xMax == ""
    requires Runnable(i, parse)
    ensures ChartFor(env, i, parse)
         == match i.kind
            case Normal => NormalData(env, i.mean, i.stdDev, None, None)
            case Uniform => UniformData(i.distMin, i.distMax, None, None)
            case Exponential => ExponentialData(env, i.lam, None, None)
            case Poisson => PoissonData(env, i.lam, None, None)
            case DiscreteUniform => DiscreteUniformData(i.distMin, i.distMax, None, None)
            case Bernoulli => BernoulliData(i.distProb, None, None)
            case Binomial => BinomialData(i.trials, i.distProb, None, None)
  {
  }

  /** An axis text that does not read as a number (NaN) overrides nothing: the
      chart is the one drawn with that field left empty. */
  lemma UnreadableAxisTextIsIgnored(env: Env, i: Inputs, parse: string -> Option<real>)
    requires parse(i.xMin).None? && parse(i.xMax).None?
    requires Runnable(i, parse)
    ensures Runnable(i.(xMin := "", xMax := ""), parse)
    ensures ChartFor(env, i, parse) == ChartFor(env, i.(xMin := "", xMax := ""), parse)
  {
  }

  /** The result runModel stores for these inputs: the evaluator's value as is,
      with the label. */
  function ResultFor(env: Env, i: Inputs): ProbabilityResult
    requires i.kind == Uniform ==> i.distMin != i.distMax
  {
    ProbabilityResult(Probability(env, ParamsFor(i), i.targetX, i.calcOp, Some(i.targetX2)),
                      ResultLabel(i.calcOp, i.targetX, i.targetX2))
  }

  /** Only the continuous evaluators receive the second threshold: for a discrete
      kind the value does not depend on it. */
  lemma DiscreteResultIgnoresSecondThreshold(env: Env, i: Inputs, other: real)
    requires !IsContinuous(i.kind)
    ensures ResultFor(env, i).value == ResultFor(env, i.(targetX2 := other)).value
  {
  }

  /** For the four kinds whose formulas need no transcendental functions, and
      parameters in their natural range, the stored value is a probability. */
  lemma ResultIsProbability(env: Env, i: Inputs)
    requires i.kind == Uniform || i.kind == DiscreteUniform || i.kind == Bernoulli || i.kind == Binomial
    requires i.kind == Uniform ==> i.distMin != i.distMax
    requires i.kind == Bernoulli || i.kind == Binomial ==> 0.0 <= i.distProb <= 1.0
    ensures 0.0 <= ResultFor(env, i).value <= 1.0
  {
    var x2 := Some(i.targetX2);
    match i.kind
    case Uniform => UniformProbabilityBounds(i.distMin, i.distMax, i.targetX, i.calcOp, x2);
    case DiscreteUniform => DiscreteUniformProbabilityBounds(i.distMin, i.distMax, i.targetX, i.calcOp);
    case Bernoulli => BernoulliProbabilityBounds(i.distProb, i.targetX, i.calcOp);
    case Binomial => BinomialProbabilityBounds(i.trials, i.distProb, i.targetX, i.calcOp);
  }

  // ---------------------------------------------------------- the state

  /** The application's state: the inputs, one field per useState, and the two results. */
  class ProbabilityApp {
    var distributionType: DistributionType
    var mean: real
    var stdDev: real
    var lam: real
    var distMin: real
    var distMax: real
    var distProb: real
    var trials: int
    var targetX: real
    var targetX2: real
    var calcOp: CalculationOperator
    var xMin: string
    var xMax: string
    var chartData: seq<DataPoint>
    var probabilityResult: Option<ProbabilityResult>

    /** The initial state: a standard normal, P(X <= 0), no axis overrides, nothing computed. */
    constructor ()
      ensures CurrentInputs() == Inputs(Normal, 0.0, 1.0, 1.0, 0.0, 10.0, 0.5, 10, 0.0, 1.0, LessEqual, "", "")
      ensures chartData == [] && probabilityResult == None
    {
      distributionType := Normal;
      mean, stdDev, lam := 0.0, 1.0, 1.0;
      distMin, distMax := 0.0, 10.0;
      distProb, trials := 0.5, 10;
      targetX, targetX2 := 0.0, 1.0;
      calcOp := LessEqual;
      xMin, xMax := "", "";
      chartData := [];
      probabilityResult := None;
    }

    function CurrentInputs(): Inputs
      reads this
    {
      Inputs(distributionType, mean, stdDev, lam, distMin, distMax, distProb, trials,
             targetX, targetX2, calcOp, xMin, xMax)
    }

    /** runModel: sample the selected kind's curve, evaluate the event, build the
        label, and store the chart and the result; the inputs are left as they are. */
    method RunModel(env: Env, parse: string -> Option<real>)
      requires Runnable(CurrentInputs(), parse)
      modifies this
      ensures CurrentInputs() == old(CurrentInputs())
      ensures chartData == ChartFor(env, CurrentInputs(), parse)
      ensures probabilityResult == Some(ResultFor(env, CurrentInputs()))
    {
      var xMinNum := AxisOverride(parse, xMin);
      var xMaxNum := AxisOverride(parse, xMax);
      var data: seq<DataPoint>;
      var probValue: real;
      match distributionType {
        case Normal =>
          data := GenerateNormalData(env, mean, stdDev, xMinNum, xMaxNum);
          probValue := NormalProbability(env, mean, stdDev, targetX, calcOp, Some(targetX2));
        case Uniform =>
          data := GenerateUniformData(distMin, distMax, xMinNum, xMaxNum);
          probValue := UniformProbability(distMin, distMax, targetX, calcOp, Some(targetX2));
        case Exponential =>
          data := GenerateExponentialData(env, lam, xMinNum, xMaxNum);
          probValue := ExponentialProbability(env, lam, targetX, calcOp, Some(targetX2));
        case Poisson =>
          data := GeneratePoissonData(env, lam, xMinNum, xMaxNum);
          probValue := PoissonProbability(env, lam, targetX, calcOp);
        case DiscreteUniform =>
          data := GenerateDiscreteUniformData(distMin, distMax, xMinNum, xMaxNum);
          probValue := DiscreteUniformProbability(distMin, distMax, targetX, calcOp);
        case Bernoulli =>
          data := GenerateBernoulliData(distProb, xMinNum, xMaxNum);
          probValue := BernoulliProbability(distProb, targetX, calcOp);
        case Binomial =>
          data := GenerateBinomialData(trials, distProb, xMinNum, xMaxNum);
          probValue := BinomialProbability(trials, distProb, targetX, calcOp);
      }
      var probLabel := ResultLabel(calcOp, targetX, targetX2);
      chartData := data;
      probabilityResult := Some(ProbabilityResult(probValue, probLabel));
    }

    /** Selecting a kind: the kind changes and an operator it does not offer is
        reset to LESS_EQUAL; nothing else changes. */
    method SelectDistribution(kind: DistributionType)
      modifies this
      ensures CurrentInputs() == old(CurrentInputs()).(kind := kind, calcOp := ResetOperator(kind, old(calcOp)))
      ensures Offers(kind, calcOp)
      ensures chartData == old(chartData) && probabilityResult == old(probabilityResult)
    {
      distributionType := kind;
      var isCont := IsContinuous(kind);
      if !isCont && calcOp == Between {
        calcOp := LessEqual;
      }
      if isCont && calcOp == Equal {
        calcOp := LessEqual;
      }
    }
  }
}
