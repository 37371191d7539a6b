# Probability model engine, in Dafny

This project models the calculation core of a small probability explorer.
The user picks one of seven distributions:

- continuous: Normal, Uniform and Exponential;
- discrete: Poisson, Discrete Uniform, Bernoulli and Binomial.

The user also sets the distribution's parameters, a threshold (and a second
threshold for a range), and an operator: `≤`, `>`, `=` or "between".
The engine then does four things:

- samples points of the density or mass function for the chart;
- evaluates the probability of the event;
- labels that probability;
- marks which chart points belong to the event.

Modules, one per file:

- `Types` (`types.dfy`): the distribution kinds, the operators and the
  parameter records, plus chart points and result labels.
- `Numerics` (`numerics.dfy`): the error-function approximation, the factorial
  (both as the recursive definition and as the source's loop), binomial
  coefficients with Pascal's rule, partial sums and the binomial theorem.
- `Distributions` (`distributions.dfy`): every PDF, PMF and CDF helper. The
  Poisson and binomial CDFs are modelled as partial sums, together with the
  source's accumulation loops proved equal to them.
- `Evaluators` (`evaluators.dfy`): the seven `calculate*Probability` functions
  and a dispatch over the parameter record.
- `Samplers` (`samplers.dfy`): the seven `generate*Data` samplers. The
  200-step curve grid and the unit-step mass loop are each one method, proved
  equal to a specification function.
- `Visualization` (`visualization.dfy`): the chart's highlight predicate and its
  `chartData` mapping.
- `Application` (`app.dfy`): the application state as a class.
  - `RunModel` dispatches on the selected kind, samples, evaluates and labels.
  - `SelectDistribution` switches the kind and resets an operator the new
    kind does not offer.

Numbers are modelled as mathematical reals. `Math.exp` and `Math.sqrt` are
parameters (`Numerics.Env`). Nothing is assumed of them except their signs:
`exp` is positive, and `sqrt` is non-negative (positive) on non-negative
(positive) arguments. A free-text axis bound is turned into a number by a
parameter `parse`, which answers `None` where the host would produce NaN.
The Poisson and exponential rate, `lambda` in the source, is named `lam`
throughout the model.

## Model

| member | source | states |
|---|---|---|
| Numerics.ErfOdd | utils/mathUtils.ts:25-39 | the sign handling of the A&S 7.1.26 approximation makes it odd: erf(-x) = -erf(x) for x > 0 |
| Numerics.ComputeFactorial | utils/mathUtils.ts:41-47 | the source's loop returns 0 for a negative argument, and n! (at least 1) for n >= 0 |
| Numerics.CombinationsEdges | utils/mathUtils.ts:49-52 | C(n,0) = C(n,n) = 1 |
| Numerics.CombinationsSymmetric | utils/mathUtils.ts:49-52 | C(n,k) = C(n,n-k) for every n, k, including outside 0..n, where both are 0 |
| Numerics.CombinationsSign | utils/mathUtils.ts:49-52 | C(n,k) >= 1 for 0 <= k <= n and 0 otherwise |
| Numerics.Pascal | utils/mathUtils.ts:49-52 | Pascal's rule C(n,k) = C(n-1,k-1) + C(n-1,k) for n >= 1 and every whole k, the edges and the zeros outside the row included |
| Numerics.BinomialTheoremClosedForm | utils/mathUtils.ts:49-52 | the sum over i = 0..n of C(n,i) a^i b^(n-i), with the source's factorial-based C, is (a+b)^n |
| Numerics.BinomialTheorem | utils/mathUtils.ts:49-52 | the n + 1 terms of the multiplied-out (a+b)^n add up to (a+b)^n; this is what makes the binomial PMF a distribution |
| Distributions.NormalPdfPositive | utils/mathUtils.ts:61-65 | the density is positive exactly when stdDev > 0, and 0 otherwise |
| Distributions.NormalPdfSymmetric | utils/mathUtils.ts:61-65 | the density is symmetric about the mean |
| Distributions.NormalCdfComplement | utils/mathUtils.ts:56-59 | for stdDev > 0 and d ≠ 0, cdf(mean + d) + cdf(mean - d) = 1, the complement rule the erf approximation keeps |
| Distributions.UniformCdfBounds | utils/mathUtils.ts:107-111 | the uniform CDF lies in [0, 1] |
| Distributions.UniformCdfMonotone | utils/mathUtils.ts:107-111 | the uniform CDF is non-decreasing |
| Distributions.UniformCdfIsArea | utils/mathUtils.ts:102-111 | inside the support the CDF is the area (x - min) times the PDF |
| Distributions.ExponentialBounds | utils/mathUtils.ts:150-158 | the exponential CDF stays below 1, and the PDF is non-negative for a non-negative rate |
| Distributions.ExponentialPdfIsRateTimesSurvival | utils/mathUtils.ts:150-158 | for x >= 0 the PDF is rate times (1 - CDF) |
| Distributions.PoissonPmfSign | utils/mathUtils.ts:196-199 | the PMF is non-negative, and for lambda > 0 it is positive exactly at whole k >= 0 |
| Distributions.PoissonCdfMonotone | utils/mathUtils.ts:201-207 | the Poisson CDF is non-negative and non-decreasing in k |
| Distributions.PoissonCdfStep | utils/mathUtils.ts:201-207 | cdf(k) = cdf(k-1) + pmf(k) at every whole k |
| Distributions.AccumulatePoissonCdf | utils/mathUtils.ts:201-207 | the source's loop over i = 0..k returns the partial sum PoissonCdf |
| Distributions.DiscreteUniformSupport | utils/mathUtils.ts:236-239 | the PMF is non-negative, and positive exactly at whole k in [min, max] |
| Distributions.DiscreteUniformCdfBounds | utils/mathUtils.ts:241-245 | the CDF lies in [0, 1], and strictly between for min <= k < max |
| Distributions.DiscreteUniformCdfMonotone | utils/mathUtils.ts:241-245 | the CDF is non-decreasing for any min and max |
| Distributions.DiscreteUniformCdfStep | utils/mathUtils.ts:236-245 | for whole min <= max, cdf(k) = cdf(k-1) + pmf(k) at every whole k. Non-whole bounds break this: with min = 0.5, max = 3 and k = 1, cdf(1) = 1.5/3.5 but cdf(0) + pmf(1) = 1/3.5 |
| Distributions.BinomialPmfIsExpansion | utils/mathUtils.ts:316-319 | the PMF at 0 <= i <= n is the i-th term of the expansion of (p + (1-p))^n |
| Distributions.BinomialTotal | utils/mathUtils.ts:316-327 | the masses at 0..n add up to 1, for any p |
| Distributions.BinomialCdfFull | utils/mathUtils.ts:321-327 | the CDF is 1 at and past n |
| Distributions.BinomialPmfSign | utils/mathUtils.ts:316-319 | the PMF is non-negative for p in [0, 1], and for 0 < p < 1 positive exactly at whole k in [0, n] |
| Distributions.BinomialPmfAtMostOne | utils/mathUtils.ts:316-319 | the PMF is at most 1 for p in [0, 1] |
| Distributions.BinomialCdfMonotone | utils/mathUtils.ts:321-327 | the CDF is non-decreasing and within [0, 1] for p in [0, 1] |
| Distributions.BinomialCdfStep | utils/mathUtils.ts:321-327 | cdf(k) = cdf(k-1) + pmf(k) at every whole k |
| Distributions.AccumulateBinomialCdf | utils/mathUtils.ts:321-327 | the source's loop over i = 0..k returns the partial sum BinomialCdf |
| Evaluators.Abs | utils/mathUtils.ts:95 | Math.abs: the result is non-negative and equals x or -x |
| Evaluators.GreaterIsComplement | utils/mathUtils.ts:87-355 | for every kind, P(X > x) is 1 - P(X <= x) |
| Evaluators.BetweenIsSymmetric | utils/mathUtils.ts:87-192 | a range probability does not depend on the order of its two thresholds |
| Evaluators.BetweenNeedsSecondThreshold | utils/mathUtils.ts:87-355 | BETWEEN without a second threshold evaluates to 0 for every kind |
| Evaluators.UnsupportedOperatorIsZero | utils/mathUtils.ts:87-355 | EQUAL on a continuous kind and BETWEEN on a discrete kind evaluate to 0 |
| Evaluators.DegenerateNormal | utils/mathUtils.ts:56-95 | with stdDev <= 0 the normal CDF is 0 (line 56), so `≤` gives 0, `>` gives 1 (line 92) and a range gives 0 |
| Evaluators.UniformProbabilityBounds | utils/mathUtils.ts:135-146 | for every min ≠ max each uniform answer lies in [0, 1]; with min > max it is 0 or 1 |
| Evaluators.UniformBetweenIsLength | utils/mathUtils.ts:135-146 | inside the support a range has probability (x2 - x1) / (max - min) |
| Evaluators.DiscreteUniformProbabilityBounds | utils/mathUtils.ts:262-270 | every discrete uniform answer lies in [0, 1] |
| Evaluators.BernoulliProbabilityBounds | utils/mathUtils.ts:297-312 | every Bernoulli answer lies in [0, 1] for p in [0, 1] |
| Evaluators.BinomialProbabilityBounds | utils/mathUtils.ts:347-355 | every binomial answer lies in [0, 1] for p in [0, 1] |
| Evaluators.PoissonEqualIsJump | utils/mathUtils.ts:224-232 | P(X = k) is P(X <= k) - P(X <= k-1) at whole k |
| Evaluators.BinomialEqualIsJump | utils/mathUtils.ts:347-355 | P(X = k) is P(X <= k) - P(X <= k-1) at whole k |
| Evaluators.DiscreteUniformEqualIsJump | utils/mathUtils.ts:262-270 | for whole min <= max, P(X = k) is P(X <= k) - P(X <= k-1) at whole k |
| Evaluators.LessEqualIsMonotone | utils/mathUtils.ts:135-355 | P(X <= x) is non-decreasing in x for the uniform and the four discrete kinds with sensible parameters |
| Evaluators.BernoulliIsOneTrial | utils/mathUtils.ts:297-312 | the Bernoulli evaluator agrees with the binomial evaluator for one trial, for every x and operator |
| Samplers.ContinuousWindowProperties | utils/mathUtils.ts:67-76 | the plotted window starts where asked and always has positive width; it ends where asked unless that is not after the start, and then one unit after the start |
| Samplers.CurveGridShape | utils/mathUtils.ts:77-84 | the curve has 201 strictly increasing points from start to end, each carrying the density at its x |
| Samplers.SampleCurve | utils/mathUtils.ts:77-84 | the 200-step loop builds exactly CurveGrid |
| Samplers.PointCount | utils/mathUtils.ts:214-220 | the unit-step loop from start runs 0 times exactly when start > end, otherwise until the last k <= end. So a discrete chart whose axis overrides reverse its window is empty: nothing widens it, unlike the curves (lines 252-258) |
| Samplers.MassRangeShape | utils/mathUtils.ts:214-220 | the points are start, start+1, ... within [start, end], each carrying the mass at its x, and the next k would pass end |
| Samplers.SampleMasses | utils/mathUtils.ts:214-220 | the `for (k = start; k <= end; k++)` loop builds exactly MassRange |
| Samplers.MassRangeSum | utils/mathUtils.ts:214-220 | the masses plotted from 0 to m add up to the partial sum of the mass function |
| Samplers.GenerateNormalData | utils/mathUtils.ts:67-85 | the normal sampler returns NormalData |
| Samplers.NormalDefaultWindow | utils/mathUtils.ts:67-85 | for stdDev > 0, by default the curve spans mean ± 4 stdDev, with its middle point at the mean |
| Samplers.GenerateUniformData | utils/mathUtils.ts:113-133 | the uniform sampler returns UniformData |
| Samplers.UniformDefaultWindow | utils/mathUtils.ts:113-133 | for min < max, by default points 50 and 150 are min and max; the density is 1/(max-min) between them and 0 outside |
| Samplers.GenerateExponentialData | utils/mathUtils.ts:160-179 | the exponential sampler returns ExponentialData |
| Samplers.ExponentialDefaultWindow | utils/mathUtils.ts:160-179 | for rate > 0, by default the curve runs from 0 to 5/rate |
| Samplers.GeneratePoissonData | utils/mathUtils.ts:209-222 | the Poisson sampler returns PoissonData |
| Samplers.PoissonDomainBounds | utils/mathUtils.ts:209-222 | the range starts at 0 or above; it ends at the default end ceil(lambda + 4 sqrt(lambda)) + 2 (at least lambda + 2), or later when xMax asks for more |
| Samplers.PoissonDataOnSupport | utils/mathUtils.ts:209-222 | every plotted x is a whole k >= 0 carrying the Poisson PMF |
| Samplers.GenerateDiscreteUniformData | utils/mathUtils.ts:247-260 | the discrete uniform sampler returns DiscreteUniformData |
| Samplers.DiscreteUniformDefaultData | utils/mathUtils.ts:247-260 | for whole min <= max, by default the chart runs from min-1 to max+1, with zero bars at both ends and 1/(max-min+1) in between |
| Samplers.DiscreteUniformNonWholeMinIsFlat | utils/mathUtils.ts:236-259 | with a non-whole min every sampled k of the default chart is non-whole, so every bar is 0 |
| Samplers.DiscreteUniformRunningSum | utils/mathUtils.ts:236-259 | for whole min <= max, the heights drawn from min-1 up to a whole m add up to the CDF at m |
| Samplers.DiscreteUniformDefaultChartTotal | utils/mathUtils.ts:236-259 | for whole min <= max, the default chart's bars add up to 1 |
| Samplers.GenerateBernoulliData | utils/mathUtils.ts:280-295 | the Bernoulli sampler returns BernoulliData |
| Samplers.BernoulliDefaultData | utils/mathUtils.ts:280-295 | the default chart is exactly the points (-1, 0), (0, 1-p), (1, p) and (2, 0) |
| Samplers.GenerateBinomialData | utils/mathUtils.ts:329-345 | the binomial sampler returns BinomialData |
| Samplers.BinomialDataOnSupport | utils/mathUtils.ts:329-345 | every plotted x is a whole k in [0, n] carrying the binomial PMF |
| Samplers.BinomialDefaultChartTotal | utils/mathUtils.ts:316-345 | the default chart has n+1 bars that add up to 1 |
| Samplers.PoissonDefaultChartTotal | utils/mathUtils.ts:201-222 | the default chart's bars add up to the CDF at the default end |
| Visualization.ChartDataShape | components/Visualization.tsx:73-79 | the mapping keeps length and order and copies x and y. Base height is y; highlighted height is y inside the event and 0 outside |
| Visualization.NothingHighlightedWithoutTarget | components/Visualization.tsx:45-47 | without a threshold or an operator nothing is highlighted |
| Visualization.ThresholdHighlights | components/Visualization.tsx:54-60 | `≤` highlights exactly the x <= t; `>` the x > t, or x >= t for a continuous kind |
| Visualization.LessEqualAndGreaterSplit | components/Visualization.tsx:54-60 | `≤` and `>` cover the axis. They overlap only at t itself, and only for a continuous kind |
| Visualization.BetweenHighlight | components/Visualization.tsx:48-63 | BETWEEN highlights the closed interval between the thresholds in either order; without a second threshold it highlights only the first |
| Visualization.EqualHighlightsOnePoint | components/Visualization.tsx:64-66 | EQUAL highlights x within 0.1 of t: at most one point per unit-spaced grid, and for whole t and x exactly x = t |
| Visualization.SumHighlightedIsPartialSum | components/Visualization.tsx:73-79 | the highlighted heights add up to the partial sum of their values |
| Visualization.ShadedBinomialBarsAddUp | components/Visualization.tsx:45-79 | on the default binomial chart, the bars shaded for `≤ t` add up to the probability the evaluator reports |
| Numerics.Min | App.tsx:126 | Math.min: at most both arguments and equal to one of them |
| Numerics.Max | App.tsx:127 | Math.max: at least both arguments and equal to one of them |
| Samplers.WholeMax | utils/mathUtils.ts:214-215 | Math.max of two whole numbers is the larger of them, again whole |
| Samplers.WholeMin | utils/mathUtils.ts:335 | Math.min of two whole numbers is the smaller of them, again whole |
| Application.ResultLabelProperties | App.tsx:125-132 | a range label lists its thresholds in ascending order, so swapping them gives the same label; any other label shows the first threshold with the operator's own symbol |
| Application.ResetOperatorProperties | App.tsx:145-155 | after a switch the operator is one the kind offers; it is unchanged exactly when already offered, else it becomes `≤`, and resetting twice changes nothing |
| Application.EmptyAxisFieldsGiveDefaultChart | App.tsx:75-122 | with both axis fields empty, every kind draws the chart its sampler gives without overrides |
| Application.UnreadableAxisTextIsIgnored | App.tsx:75-76 | axis text that reads as NaN overrides nothing: the inputs stay runnable and the chart is the one drawn with both fields empty |
| Application.ParamsForKind | App.tsx:79-122 | the dispatch builds the record of the selected kind. Exponential and Poisson share the lambda field; Uniform and Discrete Uniform share min and max |
| Application.DiscreteResultIgnoresSecondThreshold | App.tsx:79-122 | for a discrete kind the second threshold never changes the probability |
| Application.ResultIsProbability | App.tsx:79-122 | for the uniform (any min ≠ max), discrete uniform, Bernoulli and binomial (p in [0, 1]) kinds, the stored result lies in [0, 1] |
| Application.ProbabilityApp.constructor | App.tsx:40-68 | the initial state is Normal(0, 1), λ 1, range 0..10, p 0.5, 10 trials, thresholds 0 and 1, `≤`, empty axis fields, no chart and no result |
| Application.ProbabilityApp.RunModel | App.tsx:70-136 | leaves the inputs unchanged; the chart is the selected kind's sampler output; the result is that kind's probability with its label |
| Application.ProbabilityApp.SelectDistribution | App.tsx:145-155 | records the new kind; resets the operator to one the kind offers; leaves the rest of the inputs, the chart and the result unchanged |

## Left out

- Number formatting (`toFixed` in the labels and elsewhere) is left out. A label is the structured value `ProbabilityLabel` rather than a string.
- Samplers.SampleCurve: keeps each grid x exact. The source stores it rounded to two decimals (`Number(x.toFixed(2))`); it evaluates the density at the exact x.
- NaN and infinities are left out. Inputs the host would turn into NaN are either `None` (axis overrides) or excluded by `requires`:
  - `UniformCdf` and its callers require min ≠ max; the source would divide by zero there.
  - The exponential sampler requires a non-zero rate or an explicit xMax; without one the source's default end 5/rate is infinite.
- The numerical accuracy of the erf approximation, `Math.exp` and `Math.sqrt` is not modelled. They appear only through their signs, so no lemma relates the normal or exponential CDF to its limit values.
- Application.ResultIsProbability: does not cover the Normal, Exponential and Poisson kinds. Their bounds need facts about `Math.exp` and the erf approximation beyond their signs (for the Poisson, that the masses e^-λ λ^k / k! add up to at most 1), which the model does not assume.
- Evaluators.LessEqualIsMonotone: does not cover the Normal and Exponential kinds. Their monotonicity rests on `Math.exp` and on the erf approximation, which the model treats as opaque.
- Numerics.ComputeFactorial: uses unbounded reals. The source's 64-bit floats overflow to Infinity past 170!, and this is not modelled.
- `Factorial` is defined on naturals only. The source's 0 for a negative argument lives in `ComputeFactorial`, because no caller passes a negative number.
- The React scheduling is not modelled. In the source, the effect at App.tsx:145-158 resets the operator and then calls `runModel` in the same render, so that run still sees the old operator. `SelectDistribution` models the reset and leaves the next `RunModel` to the caller.
- These components are not part of this model:
  - `components/InputPanel.tsx` (form widgets);
  - `components/StatsPanel.tsx` and `components/InsightCard.tsx` (display);
  - `services/geminiService.ts` (a network call to a language model);
  - the Recharts rendering in `components/Visualization.tsx`, including its y-axis domain.
- The `label` string every sampler sets on a data point (`x.toFixed(1)` or `k.toString()`) is left out with the other number formatting.
- Samplers.PoissonData: with lambda < 0 the source's loop bound is NaN, so no point passes the loop test. The model returns the empty chart directly instead of evaluating a square root of a negative number.
