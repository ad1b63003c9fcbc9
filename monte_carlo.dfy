/**
 * `monte_carlo_price`: simulates terminal prices under geometric Brownian
 * motion, averages the discounted payoffs and reports the standard error of
 * that average. The Mersenne-Twister generator and the normal distribution are
 * replaced by a stream of standard-normal draws fixed by the seed.
 */
module MonteCarlo {
  import opened Numerics
  import opened BlackScholes

  /** `std::uint32_t`. */
  type Uint32 = x: int | 0 <= x < 0x1_0000_0000

  /** `draw(seed, i)` is the i-th standard-normal number produced by a
      generator freshly seeded with `seed`. */
  type NormalStream = (Uint32, nat) -> real

  datatype MonteCarloResult = MonteCarloResult(price: real, standardError: real)

  /** The log-price drift over the life of the option, (r - q - sigma^2/2) T. */
  function Drift(option: OptionInput): real
  {
    (option.rate - option.dividendYield - 0.5 * option.volatility * option.volatility)
      * option.timeToMaturity
  }

  /** The log-price diffusion over the life of the option, sigma sqrt(T). */
  function Diffusion(m: MathLib, option: OptionInput): real
  {
    option.volatility * m.sqrt(option.timeToMaturity)
  }

  /** The simulated price at maturity for one standard-normal draw `z`: a
      positive spot stays positive, whatever the draw. */
  function Terminal(m: MathLib, spot: real, drift: real, diffusion: real, z: real): (t: real)
    ensures Lawful(m) && spot > 0.0 ==> t > 0.0
  {
    spot * m.exp(drift + diffusion * z)
  }

  /** The payoff of the path that draws `z`: the call or put payoff on the
      simulated terminal price, never negative. */
  function PathPayoff(m: MathLib, option: OptionInput, z: real): (p: real)
    ensures p >= 0.0
    ensures var t := Terminal(m, option.spot, Drift(option), Diffusion(m, option), z);
      p >= (if option.isCall then t - option.strike else option.strike - t)
  {
    Payoff(option.isCall, option.strike,
           Terminal(m, option.spot, Drift(option), Diffusion(m, option), z))
  }

  /** The discount factor applied to the mean payoff and to its standard error. */
  function Discount(m: MathLib, option: OptionInput): (d: real)
    requires Lawful(m)
    ensures d > 0.0
  {
    m.exp(-option.rate * option.timeToMaturity)
  }

  /** The payoff of one path: never negative, at least the intrinsic value,
      and either zero or exactly the intrinsic value. */
  function Payoff(isCall: bool, strike: real, terminal: real): (p: real)
    ensures p >= 0.0
    ensures p >= (if isCall then terminal - strike else strike - terminal)
    ensures p == 0.0 || p == (if isCall then terminal - strike else strike - terminal)
  {
    if isCall then Max(terminal - strike, 0.0) else Max(strike - terminal, 0.0)
  }

  /** A call payoff minus a put payoff on the same path is the terminal price
      minus the strike. */
  lemma PayoffParity(strike: real, terminal: real)
    ensures Payoff(true, strike, terminal) - Payoff(false, strike, terminal) == terminal - strike
  {
    if terminal < strike {
      assert Payoff(true, strike, terminal) == 0.0;
    } else {
      assert Payoff(false, strike, terminal) == 0.0;
    }
  }

  /** The payoff buffer after `n` paths: one payoff per draw, in draw order. */
  function Payoffs(m: MathLib, draw: NormalStream, option: OptionInput, seed: Uint32, n: nat)
    : (ps: seq<real>)
    ensures |ps| == n
    ensures NonNegative(ps)
  {
    if n == 0 then []
    else Payoffs(m, draw, option, seed, n - 1)
         + [PathPayoff(m, option, draw(seed, n - 1))]
  }

  /** The i-th payoff in the buffer is the payoff of the i-th draw: the buffer
      holds one payoff per path, in draw order. */
  lemma {:induction false} PayoffsInDrawOrder(
    m: MathLib, draw: NormalStream, option: OptionInput, seed: Uint32, n: nat, i: nat)
    requires i < n
    ensures Payoffs(m, draw, option, seed, n)[i] == PathPayoff(m, option, draw(seed, i))
  {
    if i < n - 1 {
      PayoffsInDrawOrder(m, draw, option, seed, n - 1, i);
    }
  }

  /** Every element of `s` is non-negative. */
  ghost predicate NonNegative(s: seq<real>) {
    forall i :: 0 <= i < |s| ==> s[i] >= 0.0
  }

  /** The sum of `s`, added from left to right as the accumulator does. */
  function Sum(s: seq<real>): (r: real)
    ensures NonNegative(s) ==> r >= 0.0
  {
    if |s| == 0 then 0.0 else Sum(s[..|s| - 1]) + s[|s| - 1]
  }

  /** The sum of squared deviations of `s` from `mean`, left to right. */
  function SumSqDev(s: seq<real>, mean: real): (r: real)
    ensures r >= 0.0
  {
    if |s| == 0 then 0.0
    else SumSqDev(s[..|s| - 1], mean) + Square(s[|s| - 1] - mean)
  }

  function Square(x: real): (y: real)
    ensures y >= 0.0
  {
    x * x
  }

  function Mean(s: seq<real>): (mean: real)
    requires |s| > 0
    ensures NonNegative(s) ==> mean >= 0.0
  {
    Sum(s) / |s| as real
  }

  /** The population variance: the squared deviations are divided by the
      number of paths, not by one less. */
  function Variance(s: seq<real>): (v: real)
    requires |s| > 0
    ensures v >= 0.0
  {
    SumSqDev(s, Mean(s)) / |s| as real
  }

  /** The standard error of the mean, before discounting. */
  function StandardError(m: MathLib, s: seq<real>): (se: real)
    requires Lawful(m)
    requires |s| > 0
    ensures se >= 0.0
  {
    SqrtPositive(m, |s| as real);
    m.sqrt(Variance(s)) / m.sqrt(|s| as real)
  }

  /** What a run reports from its mean payoff and the standard error of that
      mean: both discounted by the same factor, so neither turns negative. */
  function Report(discount: real, mean: real, standardError: real): (result: MonteCarloResult)
    requires discount > 0.0 && mean >= 0.0 && standardError >= 0.0
    ensures result.price >= 0.0 && result.standardError >= 0.0
  {
    MonteCarloResult(discount * mean, discount * standardError)
  }

  /**
   * The result of a run, as a function of its inputs alone: the generator is
   * seeded afresh on every call, so equal inputs give equal results. Zero
   * paths give zero price and zero error; otherwise neither is negative.
   */
  function Simulate(m: MathLib, draw: NormalStream, option: OptionInput, paths: Uint32, seed: Uint32)
    : (result: MonteCarloResult)
    requires Lawful(m)
    ensures result.price >= 0.0 && result.standardError >= 0.0
  {
    if paths == 0 then MonteCarloResult(0.0, 0.0)
    else
      var payoffs := Payoffs(m, draw, option, seed, paths);
      Report(Discount(m, option), Mean(payoffs), StandardError(m, payoffs))
  }

  /** The first loop of `monte_carlo_price`: one payoff per draw is appended
      to the buffer and added to the running sum. */
  method SimulatePaths(m: MathLib, draw: NormalStream, option: OptionInput, paths: Uint32, seed: Uint32)
    returns (payoffs: seq<real>, sum: real)
    ensures payoffs == Payoffs(m, draw, option, seed, paths)
    ensures sum == Sum(payoffs)
  {
    var s := option.spot;
    var k := option.strike;
    var drift := Drift(option);
    var diffusion := Diffusion(m, option);

    payoffs := [];
    sum := 0.0;
    var i: Uint32 := 0;
    while i < paths
      invariant i <= paths
      invariant payoffs == Payoffs(m, draw, option, seed, i)
      invariant sum == Sum(payoffs)
    {
      var z := draw(seed, i);
      var terminal := Terminal(m, s, drift, diffusion, z);
      var payoff := Payoff(option.isCall, k, terminal);
      SumAppend(payoffs, payoff);
      payoffs := payoffs + [payoff];
      sum := sum + payoff;
      i := i + 1;
    }
  }

  /** The second loop of `monte_carlo_price`: the squared deviations of the
      buffered payoffs from the mean, summed in buffer order. */
  method SquaredDeviations(payoffs: seq<real>, meanPayoff: real) returns (varianceSum: real)
    ensures varianceSum == SumSqDev(payoffs, meanPayoff)
  {
    varianceSum := 0.0;
    var j := 0;
    while j < |payoffs|
      invariant j <= |payoffs|
      invariant varianceSum == SumSqDev(payoffs[..j], meanPayoff)
    {
      var diff := payoffs[j] - meanPayoff;
      SumSqDevStep(payoffs, j, meanPayoff);
      varianceSum := varianceSum + Square(diff);
      j := j + 1;
    }
    assert payoffs[..j] == payoffs;
  }

  /**
   * `monte_carlo_price`: zero paths return zeros before any draw; otherwise
   * the payoffs are simulated and summed, then their mean, population
   * variance and standard error are formed and discounted.
   */
  method MonteCarloPrice(m: MathLib, draw: NormalStream, option: OptionInput, paths: Uint32, seed: Uint32)
    returns (result: MonteCarloResult)
    requires Lawful(m)
    ensures result == Simulate(m, draw, option, paths, seed)
    ensures paths == 0 ==> result == MonteCarloResult(0.0, 0.0)
    ensures result.price >= 0.0 && result.standardError >= 0.0
  {
    if paths == 0 {
      return MonteCarloResult(0.0, 0.0);
    }
    var discount := Discount(m, option);
    var payoffs, sum := SimulatePaths(m, draw, option, paths, seed);
    var meanPayoff := sum / paths as real;
    var varianceSum := SquaredDeviations(payoffs, meanPayoff);
    var variance := varianceSum / paths as real;
    var stddev := m.sqrt(variance);
    var standardError := stddev / m.sqrt(paths as real);
    assert meanPayoff == Mean(payoffs);
    assert variance == Variance(payoffs);
    assert standardError == StandardError(m, payoffs);
    result := Report(discount, meanPayoff, standardError);
  }

  /** Appending to the buffer adds the new payoff to its sum. */
  lemma SumAppend(s: seq<real>, x: real)
    ensures Sum(s + [x]) == Sum(s) + x
  {
    assert (s + [x])[..|s|] == s;
  }

  /** One more element of the buffer adds its squared deviation. */
  lemma SumSqDevStep(s: seq<real>, j: nat, mean: real)
    requires j < |s|
    ensures SumSqDev(s[..j + 1], mean) == SumSqDev(s[..j], mean) + Square(s[j] - mean)
  {
    assert s[..j + 1][..j] == s[..j];
  }

  /** A sequence whose elements all equal `c` sums to its length times `c`. */
  lemma {:induction false} ConstantSum(s: seq<real>, c: real)
    requires forall i :: 0 <= i < |s| ==> s[i] == c
    ensures Sum(s) == |s| as real * c
  {
    if |s| > 0 {
      var init := s[..|s| - 1];
      ConstantSum(init, c);
      assert Sum(s) == Sum(init) + c;
      AddOneMore(|init| as real, c);
    }
  }

  /** No element of `s` deviates from `c` when all of them equal `c`. */
  lemma {:induction false} ConstantSumSqDev(s: seq<real>, c: real)
    requires forall i :: 0 <= i < |s| ==> s[i] == c
    ensures SumSqDev(s, c) == 0.0
  {
    if |s| > 0 {
      ConstantSumSqDev(s[..|s| - 1], c);
    }
  }

  /** When every path pays the same, the mean payoff is that payoff. */
  lemma ConstantMean(s: seq<real>)
    requires |s| > 0
    requires forall i :: 0 <= i < |s| ==> s[i] == s[0]
    ensures Mean(s) == s[0]
  {
    ConstantSum(s, s[0]);
    CancelCount(|s| as real, s[0], Sum(s));
  }

  /** When every path pays the same, the mean is that payoff and the variance
      and the standard error are zero. */
  lemma ConstantPayoffs(m: MathLib, s: seq<real>)
    requires Lawful(m)
    requires |s| > 0
    requires forall i :: 0 <= i < |s| ==> s[i] == s[0]
    ensures Mean(s) == s[0]
    ensures Variance(s) == 0.0
    ensures StandardError(m, s) == 0.0
  {
    var n := |s| as real;
    ConstantMean(s);
    ConstantSumSqDev(s, s[0]);
    assert Variance(s) == 0.0 / n;
    SqrtZero(m);
    SqrtPositive(m, n);
    assert StandardError(m, s) == 0.0 / m.sqrt(n);
  }

  /** A run of one path reports a standard error of zero. */
  lemma SinglePathNoError(m: MathLib, draw: NormalStream, option: OptionInput, seed: Uint32)
    requires Lawful(m)
    ensures Simulate(m, draw, option, 1, seed).standardError == 0.0
  {
    var payoffs := Payoffs(m, draw, option, seed, 1);
    assert Simulate(m, draw, option, 1, seed)
      == Report(Discount(m, option), Mean(payoffs), StandardError(m, payoffs));
    ConstantPayoffs(m, payoffs);
  }

  /** When every path pays the same amount c, the run reports c, discounted,
      with a standard error of zero. */
  lemma ConstantRunNoError(m: MathLib, draw: NormalStream, option: OptionInput, paths: Uint32, seed: Uint32,
                           c: real)
    requires Lawful(m)
    requires paths > 0
    requires forall i :: 0 <= i < paths ==> Payoffs(m, draw, option, seed, paths)[i] == c
    ensures Simulate(m, draw, option, paths, seed) == MonteCarloResult(Discount(m, option) * c, 0.0)
  {
    var payoffs := Payoffs(m, draw, option, seed, paths);
    assert c >= 0.0 by {
      assert payoffs[0] == c;
    }
    ConstantReport(m, Discount(m, option), payoffs, c);
  }

  /** Payoffs that all equal c are reported as c, discounted, with no error. */
  lemma ConstantReport(m: MathLib, discount: real, s: seq<real>, c: real)
    requires Lawful(m)
    requires discount > 0.0 && c >= 0.0
    requires |s| > 0
    requires forall i :: 0 <= i < |s| ==> s[i] == c
    ensures Report(discount, Mean(s), StandardError(m, s)) == MonteCarloResult(discount * c, 0.0)
  {
    ConstantPayoffs(m, s);
  }

  /** The standard error squared, times the number of paths, is the variance. */
  lemma StandardErrorSquared(m: MathLib, s: seq<real>)
    requires Lawful(m)
    requires |s| > 0
    ensures StandardError(m, s) * StandardError(m, s) * (|s| as real) == Variance(s)
  {
    var n := |s| as real;
    var root := m.sqrt(n);
    var sd := m.sqrt(Variance(s));
    SqrtPositive(m, n);
    var se := StandardError(m, s);
    assert se == sd / root;
    assert se * root == sd;
    assert root * root == n;
    assert sd * sd == Variance(s);
    calc {
      se * se * n;
      (se * root) * (se * root);
      sd * sd;
    }
  }

  /** A run with at least one path reports the discounted mean payoff and,
      with the same discount factor, the standard error of the mean: the square
      root of the population variance over the square root of the path count. */
  lemma ReportedValues(m: MathLib, draw: NormalStream, option: OptionInput, paths: Uint32, seed: Uint32)
    requires Lawful(m)
    requires paths > 0
    ensures var payoffs := Payoffs(m, draw, option, seed, paths);
      Simulate(m, draw, option, paths, seed)
        == Report(Discount(m, option), Sum(payoffs) / paths as real,
                  m.sqrt(Variance(payoffs)) / m.sqrt(paths as real))
  {
    var payoffs := Payoffs(m, draw, option, seed, paths);
    var d := Discount(m, option);
    assert Simulate(m, draw, option, paths, seed) == Report(d, Mean(payoffs), StandardError(m, payoffs));
    assert Mean(payoffs) == Sum(payoffs) / paths as real;
    assert StandardError(m, payoffs) == m.sqrt(Variance(payoffs)) / m.sqrt(paths as real);
  }
}
