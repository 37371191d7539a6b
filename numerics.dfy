// Numeric primitives of the probability engine (utils/mathUtils.ts):
// the error-function approximation, factorial, binomial coefficients,
// and the binomial theorem that the binomial distribution relies on.

module Numerics {

  /** The host's Math.exp and Math.sqrt. Nothing is known of them but their signs. */
  datatype Transcendentals = Transcendentals(exp: real -> real, sqrt: real -> real)

  ghost predicate SignFacts(t: Transcendentals)
  {
    && (forall x: real :: t.exp(x) > 0.0)
    && (forall x: real :: x >= 0.0 ==> t.sqrt(x) >= 0.0)
    && (forall x: real :: x > 0.0 ==> t.sqrt(x) > 0.0)
  }

  /** Transcendental functions that obey the sign facts. */
  type Env = t: Transcendentals | SignFacts(t)
    witness Transcendentals(x => 1.0, x => if x > 0.0 then x else 0.0)

  /** Math.exp. */
  function Exp(env: Env, x: real): (r: real)
    ensures r > 0.0
  {
    env.exp(x)
  }

  /** Math.sqrt. */
  function Sqrt(env: Env, x: real): (r: real)
    ensures x >= 0.0 ==> r >= 0.0
    ensures x > 0.0 ==> r > 0.0
  {
    env.sqrt(x)
  }

  /** Math.PI. */
  const Pi: real := 3.141592653589793

  // Abramowitz & Stegun 7.1.26 coefficients.
  const A1: real := 0.254829592
  const A2: real := -0.284496736
  const A3: real := 1.421413741
  const A4: real := -1.453152027
  const A5: real := 1.061405429
  const P: real := 0.3275911

  /** The A&S 7.1.26 approximation of erf on |x|: the polynomial in
      t = 1/(1 + p|x|), times t and exp(-x^2), taken from 1. */
  function ErfMagnitude(env: Env, ax: real): real
    requires ax >= 0.0
  {
    var t := 1.0 / (1.0 + P * ax);
    1.0 - (((((A5 * t + A4) * t) + A3) * t + A2) * t + A1) * t * Exp(env, -ax * ax)
  }

  /** The error function: the magnitude is computed on |x| and the sign of x
      put back (x = 0 counts as positive). */
  function Erf(env: Env, x: real): real
  {
    var sign := if x >= 0.0 then 1.0 else -1.0;
    var ax := if x >= 0.0 then x else -x;
    sign * ErfMagnitude(env, ax)
  }

  /** The approximation is odd away from zero. */
  lemma ErfOdd(env: Env, x: real)
    requires x > 0.0
    ensures Erf(env, -x) == -Erf(env, x)
  {
    assert -(-x) == x;
  }

  /** x^e for a whole exponent, as Math.pow computes it (exactly). */
  function Pow(b: real, e: nat): (r: real)
    ensures b >= 0.0 ==> r >= 0.0
    ensures 0.0 <= b <= 1.0 ==> r <= 1.0
  {
    if e == 0 then 1.0
    else
      var rest := Pow(b, e - 1);
      assert b >= 0.0 ==> b * rest >= 0.0 by {
        if b >= 0.0 { ProductNonNegative(b, rest); }
      }
      assert 0.0 <= b <= 1.0 ==> b * rest <= rest;
      b * rest
  }

  /** x^e is positive for a positive base. */
  lemma {:induction false} PowPositive(b: real, e: nat)
    requires b > 0.0
    ensures Pow(b, e) > 0.0
  {
    if e > 0 {
      PowPositive(b, e - 1);
      assert b * Pow(b, e - 1) > 0.0;
    }
  }

  /** 1^e = 1. */
  lemma {:induction false} PowOne(e: nat)
    ensures Pow(1.0, e) == 1.0
  {
    if e > 0 {
      PowOne(e - 1);
    }
  }

  /** Math.max on two numbers. */
  function Max(a: real, b: real): (r: real)
    ensures r >= a && r >= b && (r == a || r == b)
  {
    if a >= b then a else b
  }

  /** Math.min on two numbers. */
  function Min(a: real, b: real): (r: real)
    ensures r <= a && r <= b && (r == a || r == b)
  {
    if a <= b then a else b
  }

  /** Number.isInteger on a finite number. */
  predicate IsInteger(x: real)
  {
    x == x.Floor as real
  }

  /** Math.ceil, through the floor of the negation. */
  function Ceil(x: real): (c: int)
    ensures x <= c as real < x + 1.0
  {
    -((-x).Floor)
  }

  /** The factorial of a whole number. The source's factorial also answers 0 for a
      negative argument; no caller ever passes one (see ComputeFactorial). */
  function Factorial(n: nat): real
  {
    if n == 0 then 1.0 else (n as real) * Factorial(n - 1)
  }

  lemma {:induction false} FactorialAtLeastOne(n: nat)
    ensures Factorial(n) >= 1.0
  {
    if n > 0 {
      FactorialAtLeastOne(n - 1);
      var f := Factorial(n - 1);
      assert (n as real) * f >= f;
    }
  }

  /** n! = n (n-1)!. */
  lemma {:induction false} FactorialStep(n: nat)
    requires n >= 1
    ensures Factorial(n) == (n as real) * Factorial(n - 1)
  {
  }

  /** The factorial as the source computes it: 0 below zero, 1 at 0 and 1,
      otherwise a running product 2 * 3 * ... * n. */
  method ComputeFactorial(n: int) returns (result: real)
    ensures n < 0 ==> result == 0.0
    ensures n >= 0 ==> result == Factorial(n) && result >= 1.0
  {
    if n < 0 {
      return 0.0;
    }
    FactorialAtLeastOne(n);
    if n == 0 || n == 1 {
      return 1.0;
    }
    result := 1.0;
    var i := 2;
    while i <= n
      invariant 2 <= i <= n + 1
      invariant result == Factorial(i - 1)
    {
      result := result * (i as real);
      i := i + 1;
    }
  }

  /** The divisor k! (n-k)! of the binomial coefficient. */
  function Denominator(n: int, k: int): real
    requires 0 <= k <= n
  {
    Factorial(k) * Factorial(n - k)
  }

  lemma {:induction false} DenominatorAtLeastOne(n: int, k: int)
    requires 0 <= k <= n
    ensures Denominator(n, k) >= 1.0
  {
    FactorialAtLeastOne(k);
    FactorialAtLeastOne(n - k);
    ProductAtLeastOne(Factorial(k), Factorial(n - k));
  }

  /** The binomial coefficient n! / (k! (n-k)!), and 0 outside 0 <= k <= n. */
  function Combinations(n: int, k: int): real
  {
    if k < 0 || k > n then 0.0
    else
      DenominatorAtLeastOne(n, k);
      Factorial(n) / Denominator(n, k)
  }

  lemma ProductNonNegative(a: real, b: real)
    requires a >= 0.0 && b >= 0.0
    ensures a * b >= 0.0
  {
  }

  lemma ProductAtLeastOne(a: real, b: real)
    requires a >= 1.0 && b >= 1.0
    ensures a * b >= 1.0
  {
  }

  /** A quotient a / d with 0 <= a <= d is a fraction in [0, 1], strictly inside
      when a is strictly inside (0, d). */
  lemma QuotientBounds(a: real, d: real)
    requires d > 0.0 && 0.0 <= a <= d
    ensures 0.0 <= a / d <= 1.0
    ensures a > 0.0 ==> a / d > 0.0
    ensures a < d ==> a / d < 1.0
  {
    assert a / d * d == a;
  }

  /** Dividing by a positive number keeps the order. */
  lemma QuotientMonotone(a1: real, a2: real, d: real)
    requires d > 0.0 && a1 <= a2
    ensures a1 / d <= a2 / d
  {
    assert a1 / d * d == a1 && a2 / d * d == a2;
  }

  lemma QuotientTimes(q: real, a: real, d: real)
    requires d > 0.0 && q == a / d
    ensures q * d == a
  {
  }

  lemma QuotientPositive(q: real, a: real, d: real)
    requires d > 0.0 && a > 0.0 && q == a / d
    ensures q > 0.0
  {
  }

  /** Division by d distributes over a sum. */
  lemma QuotientSum(a: real, b: real, d: real)
    requires d != 0.0
    ensures (a + b) / d == a / d + b / d
  {
  }

  /** The coefficient times its divisor gives back n!. */
  lemma {:induction false} CombinationsTimesDenominator(n: int, k: int)
    requires 0 <= k <= n
    ensures Combinations(n, k) * Denominator(n, k) == Factorial(n)
  {
    DenominatorAtLeastOne(n, k);
    QuotientTimes(Combinations(n, k), Factorial(n), Denominator(n, k));
  }

  lemma CancelToOne(c: real, f: real)
    requires f > 0.0 && c * f == f
    ensures c == 1.0
  {
    assert (c - 1.0) * f == 0.0;
  }

  /** C(n, 0) = C(n, n) = 1. */
  lemma {:induction false} CombinationsEdges(n: nat)
    ensures Combinations(n, 0) == 1.0
    ensures Combinations(n, n) == 1.0
  {
    FactorialAtLeastOne(n);
    assert Denominator(n, 0) == Factorial(n) by {
      assert Factorial(0) == 1.0;
    }
    CombinationsTimesDenominator(n, 0);
    CancelToOne(Combinations(n, 0), Factorial(n));
    assert Denominator(n, n) == Factorial(n) by {
      assert n - n == 0;
      assert Factorial(n - n) == 1.0;
    }
    CombinationsTimesDenominator(n, n);
    CancelToOne(Combinations(n, n), Factorial(n));
  }

  /** C(n, k) = C(n, n - k), everywhere, the zero cases included. */
  lemma {:induction false} CombinationsSymmetric(n: int, k: int)
    ensures Combinations(n, k) == Combinations(n, n - k)
  {
    if 0 <= k <= n {
      assert n - (n - k) == k;
      assert Denominator(n, k) == Denominator(n, n - k);
    }
  }

  lemma ScaleLeft(a: real, b: real, c: real, y: real)
    requires a == y * b
    ensures a * c == y * (b * c)
  {
  }

  lemma ScaleRight(a: real, b: real, c: real, y: real)
    requires a == y * b
    ensures c * a == y * (c * b)
  {
  }

  /** k! (n-k)! = k ((k-1)! (n-k)!). */
  lemma {:induction false} DenominatorStepLow(n: int, k: int)
    requires 0 < k <= n
    ensures Denominator(n, k) == (k as real) * Denominator(n - 1, k - 1)
  {
    FactorialStep(k);
    assert (n - 1) - (k - 1) == n - k;
    ScaleLeft(Factorial(k), Factorial(k - 1), Factorial(n - k), k as real);
  }

  /** k! (n-k)! = (n-k) (k! (n-k-1)!). */
  lemma {:induction false} DenominatorStepHigh(n: int, k: int)
    requires 0 <= k < n
    ensures Denominator(n, k) == ((n - k) as real) * Denominator(n - 1, k)
  {
    FactorialStep(n - k);
    assert (n - 1) - k == n - k - 1;
    ScaleRight(Factorial(n - k), Factorial(n - k - 1), Factorial(k), (n - k) as real);
  }

  lemma Rescale(c: real, d: real, d1: real, f: real, y: real)
    requires c * d1 == f && d == y * d1
    ensures c * d == y * f
  {
  }

  lemma {:induction false} PascalLow(n: int, k: int)
    requires 0 < k < n
    ensures Combinations(n - 1, k - 1) * Denominator(n, k) == (k as real) * Factorial(n - 1)
  {
    CombinationsTimesDenominator(n - 1, k - 1);
    DenominatorStepLow(n, k);
    Rescale(Combinations(n - 1, k - 1), Denominator(n, k), Denominator(n - 1, k - 1),
            Factorial(n - 1), k as real);
  }

  lemma {:induction false} PascalHigh(n: int, k: int)
    requires 0 < k < n
    ensures Combinations(n - 1, k) * Denominator(n, k) == ((n - k) as real) * Factorial(n - 1)
  {
    CombinationsTimesDenominator(n - 1, k);
    DenominatorStepHigh(n, k);
    Rescale(Combinations(n - 1, k), Denominator(n, k), Denominator(n - 1, k),
            Factorial(n - 1), (n - k) as real);
  }

  /** The arithmetic behind Pascal's rule, over named values: with d = k! (n-k)!,
      c d = n!, c1 d = k (n-1)!, c2 d = (n-k) (n-1)! and n! = n (n-1)!. */
  lemma PascalArithmetic(c: real, c1: real, c2: real, d: real, fn: real, fn1: real,
                         x: real, y: real, s: real)
    requires d > 0.0 && s == x + y && fn == s * fn1
    requires c * d == fn && c1 * d == y * fn1 && c2 * d == x * fn1
    ensures c == c1 + c2
  {
    assert (c1 + c2) * d == c * d;
  }

  /** Pascal's rule strictly inside a row: C(n, k) = C(n-1, k-1) + C(n-1, k). */
  lemma {:induction false} PascalInterior(n: int, k: int)
    requires 0 < k < n
    ensures Combinations(n, k) == Combinations(n - 1, k - 1) + Combinations(n - 1, k)
  {
    PascalLow(n, k);
    PascalHigh(n, k);
    CombinationsTimesDenominator(n, k);
    FactorialStep(n);
    DenominatorAtLeastOne(n, k);
    PascalArithmetic(Combinations(n, k), Combinations(n - 1, k - 1), Combinations(n - 1, k),
                     Denominator(n, k), Factorial(n), Factorial(n - 1),
                     (n - k) as real, k as real, n as real);
  }

  /** f(0) + f(1) + ... + f(m), and 0 when m < 0. */
  function PartialSum(f: int -> real, m: int): real
    decreases if m < 0 then 0 else m + 1
  {
    if m < 0 then 0.0 else PartialSum(f, m - 1) + f(m)
  }

  /** Sums of non-negative terms are non-negative. */
  lemma {:induction false} PartialSumNonNegative(f: int -> real, m: int)
    requires forall i :: 0 <= i <= m ==> f(i) >= 0.0
    ensures PartialSum(f, m) >= 0.0
    decreases if m < 0 then 0 else m + 1
  {
    if m >= 0 {
      PartialSumNonNegative(f, m - 1);
    }
  }

  /** With non-negative terms the partial sums grow with m. */
  lemma {:induction false} PartialSumMonotone(f: int -> real, m1: int, m2: int)
    requires m1 <= m2
    requires forall i :: 0 <= i <= m2 ==> f(i) >= 0.0
    ensures PartialSum(f, m1) <= PartialSum(f, m2)
    decreases m2 - m1
  {
    if m1 < m2 {
      PartialSumMonotone(f, m1, m2 - 1);
    }
  }

  /** A sum of non-negative terms is at least its last term. */
  lemma PartialSumAtLeastLast(f: int -> real, m: int)
    requires m >= 0
    requires forall i :: 0 <= i <= m ==> f(i) >= 0.0
    ensures f(m) <= PartialSum(f, m)
  {
    PartialSumNonNegative(f, m - 1);
  }

  /** Sums of pointwise equal terms are equal. */
  lemma {:induction false} PartialSumCongruent(f: int -> real, g: int -> real, m: int)
    requires forall i :: 0 <= i <= m ==> f(i) == g(i)
    ensures PartialSum(f, m) == PartialSum(g, m)
    decreases if m < 0 then 0 else m + 1
  {
    if m >= 0 {
      PartialSumCongruent(f, g, m - 1);
    }
  }

  /** Summing f with every term past c replaced by 0 gives the sum of f up to
      c, or up to n if that comes first. */
  lemma {:induction false} PartialSumTruncated(f: int -> real, g: int -> real, c: int, n: int)
    requires forall i :: 0 <= i <= n ==> g(i) == (if i <= c then f(i) else 0.0)
    ensures PartialSum(g, n) == PartialSum(f, if n <= c then n else c)
    decreases if n < 0 then 0 else n + 1
  {
    if n >= 0 {
      PartialSumTruncated(f, g, c, n - 1);
    }
  }

  /** Terms beyond n are zero, so the sum stops growing at m = n. */
  lemma {:induction false} PartialSumSaturates(f: int -> real, n: int, m: int)
    requires n <= m
    requires forall i :: n < i <= m ==> f(i) == 0.0
    ensures PartialSum(f, m) == PartialSum(f, n)
    decreases m - n
  {
    if n < m {
      PartialSumSaturates(f, n, m - 1);
    }
  }

  /** (a x1 + b y1) + (a x2 + b y2) = a (x1 + x2) + b (y1 + y2), over named sums:
      x = x1 + x2, y = y1 + y2, u = a x and v = b y. */
  lemma SumShiftArithmetic(a: real, b: real, s: real, p: real, q: real,
                           x1: real, x2: real, x: real, y1: real, y2: real, y: real,
                           u: real, v: real)
    requires s == p + q && p == a * x1 + b * y1 && q == a * x2 + b * y2
    requires x == x1 + x2 && y == y1 + y2 && u == a * x && v == b * y
    ensures s == u + v
  {
  }

  /** One step of summing a Pascal-like relation: the relation for m follows from the relation
      for m - 1 and the one for the m-th terms. */
  lemma PartialSumShiftStep(f: int -> real, g: int -> real, h: int -> real,
                            a: real, b: real, m: int)
    requires m >= 0 && g(-1) == 0.0
    requires PartialSum(f, m - 1) == a * PartialSum(g, m - 1 - 1) + b * PartialSum(h, m - 1)
    requires f(m) == a * g(m - 1) + b * h(m)
    ensures PartialSum(f, m) == a * PartialSum(g, m - 1) + b * PartialSum(h, m)
  {
    SumShiftArithmetic(a, b, PartialSum(f, m), PartialSum(f, m - 1), f(m),
                       PartialSum(g, m - 1 - 1), g(m - 1), PartialSum(g, m - 1),
                       PartialSum(h, m - 1), h(m), PartialSum(h, m),
                       a * PartialSum(g, m - 1), b * PartialSum(h, m));
  }

  /** Every term of f up to m is a times the previous term of g plus b times the
      same term of h. */
  predicate ShiftedCombination(f: int -> real, g: int -> real, h: int -> real,
                               a: real, b: real, m: int)
  {
    forall i {:trigger f(i)} :: 0 <= i <= m ==> f(i) == a * g(i - 1) + b * h(i)
  }

  /** If every term of f is a times the previous term of g plus b times the
      same term of h, the sums are related the same way. */
  lemma {:induction false} PartialSumShift(f: int -> real, g: int -> real, h: int -> real,
                                           a: real, b: real, m: int)
    requires m >= -1 && g(-1) == 0.0
    requires ShiftedCombination(f, g, h, a, b, m)
    ensures PartialSum(f, m) == a * PartialSum(g, m - 1) + b * PartialSum(h, m)
    decreases m + 1
  {
    if m >= 0 {
      PartialSumShift(f, g, h, a, b, m - 1);
      PartialSumShiftStep(f, g, h, a, b, m);
    }
  }

  /** If each term of f is a times the previous term of g plus b times the same
      term of g, and g has no terms below 0 or above n - 1, then f sums over
      0..n to (a + b) times the sum of g over 0..n-1. */
  lemma {:induction false} PartialSumScale(f: int -> real, g: int -> real, a: real, b: real,
                                           n: int, q: real)
    requires n >= 0 && g(-1) == 0.0 && g(n) == 0.0
    requires ShiftedCombination(f, g, g, a, b, n)
    requires PartialSum(g, n - 1) == q
    ensures PartialSum(f, n) == (a + b) * q
  {
    PartialSumShift(f, g, g, a, b, n);
    PartialSumSaturates(g, n - 1, n);
    FactorOut(a, b, q, PartialSum(f, n), (a + b) * q);
  }

  /** Pascal's triangle: the binomial coefficient built by additions alone. */
  function Choose(n: int, k: int): real
    decreases if n < 0 then 0 else n
  {
    if k < 0 || k > n then 0.0
    else if k == 0 || k == n then 1.0
    else Choose(n - 1, k - 1) + Choose(n - 1, k)
  }

  /** The factorial formula and Pascal's triangle give the same coefficients. */
  lemma {:induction false} CombinationsIsChoose(n: int, k: int)
    ensures Combinations(n, k) == Choose(n, k)
    decreases if n < 0 then 0 else n
  {
    if k < 0 || k > n {
    } else if k == 0 || k == n {
      CombinationsEdges(n);
    } else {
      PascalInterior(n, k);
      CombinationsIsChoose(n - 1, k - 1);
      CombinationsIsChoose(n - 1, k);
    }
  }

  lemma {:induction false} ChooseAtLeastOne(n: int, k: int)
    requires 0 <= k <= n
    ensures Choose(n, k) >= 1.0
    decreases n
  {
    if 0 < k < n {
      ChooseAtLeastOne(n - 1, k - 1);
      ChooseAtLeastOne(n - 1, k);
    }
  }

  /** The coefficient is at least 1 exactly when 0 <= k <= n, and 0 otherwise. */
  lemma CombinationsSign(n: int, k: int)
    ensures 0 <= k <= n ==> Combinations(n, k) >= 1.0
    ensures !(0 <= k <= n) ==> Combinations(n, k) == 0.0
  {
    if 0 <= k <= n {
      CombinationsIsChoose(n, k);
      ChooseAtLeastOne(n, k);
    }
  }

  /** Pascal's rule C(n, k) = C(n-1, k-1) + C(n-1, k) on every whole k of a row
      n >= 1, the edges and the zeros outside the row included. */
  lemma Pascal(n: int, k: int)
    requires n >= 1
    ensures Combinations(n, k) == Combinations(n - 1, k - 1) + Combinations(n - 1, k)
  {
    if 0 < k < n {
      PascalInterior(n, k);
    } else if k == 0 {
      CombinationsEdges(n);
      CombinationsEdges(n - 1);
    } else if k == n {
      CombinationsEdges(n);
      CombinationsEdges(n - 1);
    }
  }

  /** The i-th term C(n, i) a^i b^(n-i) of (a + b)^n, and 0 outside 0 <= i <= n. */
  function BinomialTerm(n: int, i: int, a: real, b: real): real
  {
    if 0 <= i <= n then Choose(n, i) * Pow(a, i) * Pow(b, n - i) else 0.0
  }

  /** The arithmetic of one term of (a + b)^(n+1): with pa = a pa1 and
      pb = b pb1, t = (c1 + c2) pa pb is a t1 + b t2 where t1 = c1 pa1 pb
      and t2 = c2 pa pb1. */
  lemma TermArithmetic(c1: real, c2: real, pa: real, pa1: real, pb: real, pb1: real,
                       a: real, b: real, t: real, t1: real, t2: real)
    requires pa == a * pa1 && pb == b * pb1
    requires t == (c1 + c2) * pa * pb && t1 == c1 * pa1 * pb && t2 == c2 * pa * pb1
    ensures t == a * t1 + b * t2
  {
  }

  lemma {:induction false} TermPascalFirst(n: int, a: real, b: real)
    requires n >= 1
    ensures BinomialTerm(n, 0, a, b)
         == a * BinomialTerm(n - 1, -1, a, b) + b * BinomialTerm(n - 1, 0, a, b)
  {
    assert BinomialTerm(n, 0, a, b) == Pow(b, n);
    assert BinomialTerm(n - 1, 0, a, b) == Pow(b, n - 1);
  }

  lemma {:induction false} TermPascalLast(n: int, a: real, b: real)
    requires n >= 1
    ensures BinomialTerm(n, n, a, b)
         == a * BinomialTerm(n - 1, n - 1, a, b) + b * BinomialTerm(n - 1, n, a, b)
  {
    assert BinomialTerm(n, n, a, b) == Pow(a, n);
    assert BinomialTerm(n - 1, n - 1, a, b) == Pow(a, n - 1);
  }

  lemma {:induction false} TermPascalInterior(n: int, i: int, a: real, b: real)
    requires 0 < i < n
    ensures BinomialTerm(n, i, a, b)
         == a * BinomialTerm(n - 1, i - 1, a, b) + b * BinomialTerm(n - 1, i, a, b)
  {
    var c1, c2 := Choose(n - 1, i - 1), Choose(n - 1, i);
    var pa, pa1, pb, pb1 := Pow(a, i), Pow(a, i - 1), Pow(b, n - i), Pow(b, n - 1 - i);
    assert BinomialTerm(n - 1, i - 1, a, b) == c1 * pa1 * pb by {
      assert (n - 1) - (i - 1) == n - i;
    }
    assert pa == a * pa1 && pb == b * pb1 by {
      assert n - i - 1 == n - 1 - i;
    }
    TermArithmetic(c1, c2, pa, pa1, pb, pb1, a, b, BinomialTerm(n, i, a, b),
                   BinomialTerm(n - 1, i - 1, a, b), BinomialTerm(n - 1, i, a, b));
  }

  /** Each term of (a + b)^n is a times the previous term of (a + b)^(n-1)
      plus b times the same term of (a + b)^(n-1). */
  lemma {:induction false} TermPascal(n: int, i: int, a: real, b: real)
    requires n >= 1 && i >= 0
    ensures BinomialTerm(n, i, a, b)
         == a * BinomialTerm(n - 1, i - 1, a, b) + b * BinomialTerm(n - 1, i, a, b)
  {
    if i == 0 {
      TermPascalFirst(n, a, b);
    } else if i == n {
      TermPascalLast(n, a, b);
    } else if i < n {
      TermPascalInterior(n, i, a, b);
    }
  }

  lemma FactorOut(a: real, b: real, s: real, u: real, v: real)
    requires u == a * s + b * s && v == (a + b) * s
    ensures u == v
  {
  }

  /** The terms of (a + b)^n as they come out of multiplying (a + b) out n
      times: term i of (a + b)^n is a times term i - 1 of (a + b)^(n-1) plus
      b times term i of (a + b)^(n-1). */
  function Expansion(n: int, i: int, a: real, b: real): real
    decreases if n < 0 then 0 else n
  {
    if i < 0 || i > n then 0.0
    else if n == 0 then 1.0
    else a * Expansion(n - 1, i - 1, a, b) + b * Expansion(n - 1, i, a, b)
  }

  /** The terms of (a + b)^n as a function of their index. */
  function ExpansionTerms(n: int, a: real, b: real): int -> real
  {
    i => Expansion(n, i, a, b)
  }

  /** One step of ExpansionIsBinomialTerm: Pascal's rule carries the closed form
      from (a + b)^(n-1) to (a + b)^n. */
  lemma {:induction false} ExpansionStep(n: int, i: int, a: real, b: real)
    requires 0 <= i <= n && n > 0
    requires Expansion(n - 1, i - 1, a, b) == BinomialTerm(n - 1, i - 1, a, b)
    requires Expansion(n - 1, i, a, b) == BinomialTerm(n - 1, i, a, b)
    ensures Expansion(n, i, a, b) == BinomialTerm(n, i, a, b)
  {
    TermPascal(n, i, a, b);
  }

  /** Multiplying out gives the closed form C(n, i) a^i b^(n-i). */
  lemma {:induction false} ExpansionIsBinomialTerm(n: int, i: int, a: real, b: real)
    ensures Expansion(n, i, a, b) == BinomialTerm(n, i, a, b)
    decreases if n < 0 then 0 else n
  {
    if 0 <= i <= n && n > 0 {
      ExpansionIsBinomialTerm(n - 1, i - 1, a, b);
      ExpansionIsBinomialTerm(n - 1, i, a, b);
      ExpansionStep(n, i, a, b);
    }
  }

  /** Pascal's rule for one term, read through the function of indices. */
  lemma ExpansionPascalAt(n: int, i: int, a: real, b: real)
    requires n >= 1 && 0 <= i <= n
    ensures ExpansionTerms(n, a, b)(i)
         == a * ExpansionTerms(n - 1, a, b)(i - 1) + b * ExpansionTerms(n - 1, a, b)(i)
  {
  }

  /** (a + b)^(n-1) has no term below 0 or above n - 1. */
  lemma ExpansionOutside(n: int, a: real, b: real)
    ensures ExpansionTerms(n - 1, a, b)(-1) == 0.0 && ExpansionTerms(n - 1, a, b)(n) == 0.0
  {
  }

  /** The terms of (a + b)^n against those of (a + b)^(n-1), for every index. */
  lemma {:induction false} ExpansionPascal(n: int, a: real, b: real)
    requires n >= 1
    ensures forall i :: 0 <= i <= n ==>
      ExpansionTerms(n, a, b)(i)
        == a * ExpansionTerms(n - 1, a, b)(i - 1) + b * ExpansionTerms(n - 1, a, b)(i)
  {
    forall i {:trigger ExpansionTerms(n, a, b)(i)} | 0 <= i <= n
      ensures ExpansionTerms(n, a, b)(i)
        == a * ExpansionTerms(n - 1, a, b)(i - 1) + b * ExpansionTerms(n - 1, a, b)(i)
    {
      ExpansionPascalAt(n, i, a, b);
    }
  }

  /** The terms of (a + b)^n add up to (a + b) times those of (a + b)^(n-1). */
  lemma ExpansionSumScale(n: int, a: real, b: real, q: real)
    requires n >= 1 && PartialSum(ExpansionTerms(n - 1, a, b), n - 1) == q
    ensures PartialSum(ExpansionTerms(n, a, b), n) == (a + b) * q
  {
    ExpansionOutside(n, a, b);
    ExpansionPascal(n, a, b);
    PartialSumScale(ExpansionTerms(n, a, b), ExpansionTerms(n - 1, a, b), a, b, n, q);
  }

  /** (a + b)^0 has the single term 1. */
  lemma ExpansionSumZero(a: real, b: real)
    ensures PartialSum(ExpansionTerms(0, a, b), 0) == 1.0
  {
    assert PartialSum(ExpansionTerms(0, a, b), 0) == ExpansionTerms(0, a, b)(0);
  }

  lemma {:induction false} BinomialTheoremStep(n: int, a: real, b: real)
    requires n >= 1
    requires PartialSum(ExpansionTerms(n - 1, a, b), n - 1) == Pow(a + b, n - 1)
    ensures PartialSum(ExpansionTerms(n, a, b), n) == Pow(a + b, n)
  {
    ExpansionSumScale(n, a, b, Pow(a + b, n - 1));
  }

  /** The binomial theorem: the n + 1 terms of (a + b)^n add up to (a + b)^n. */
  lemma {:induction false} BinomialTheorem(n: nat, a: real, b: real)
    ensures PartialSum(ExpansionTerms(n, a, b), n) == Pow(a + b, n)
  {
    if n == 0 {
      ExpansionSumZero(a, b);
    } else {
      BinomialTheorem(n - 1, a, b);
      BinomialTheoremStep(n, a, b);
    }
  }

  /** The binomial theorem in closed form: the sum over i = 0..n of
      C(n, i) a^i b^(n-i) is (a + b)^n. */
  lemma BinomialTheoremClosedForm(n: nat, a: real, b: real)
    ensures PartialSum(i => if 0 <= i <= n then Combinations(n, i) * Pow(a, i) * Pow(b, n - i) else 0.0, n) == Pow(a + b, n)
  {
    var closed := i => if 0 <= i <= n then Combinations(n, i) * Pow(a, i) * Pow(b, n - i) else 0.0;
    forall i | 0 <= i <= n
      ensures ExpansionTerms(n, a, b)(i) == closed(i)
    {
      ExpansionIsBinomialTerm(n, i, a, b);
      CombinationsIsChoose(n, i);
    }
    PartialSumCongruent(ExpansionTerms(n, a, b), closed, n);
    BinomialTheorem(n, a, b);
  }
}
