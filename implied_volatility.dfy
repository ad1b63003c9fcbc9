/**
 * The bisection implied-volatility solver. It searches [lowerBound, upperBound]
 * for a volatility at which the Black-Scholes price is within `tolerance` of a
 * target price, halving the bracket on each step. Two exits count as
 * convergence: a midpoint whose price is close enough, and a bracket narrower
 * than the tolerance, whether or not the price was ever matched.
 */
module Bisection {
  import opened Numerics
  import opened BlackScholes

  datatype ImpliedVolatilityResult = ImpliedVolatilityResult(
    impliedVolatility: real,
    converged: bool,
    iterations: nat)

  /** Default arguments of the solver. */
  const DefaultLowerBound: real := 1e-6
  const DefaultUpperBound: real := 5.0
  const DefaultTolerance: real := 1e-6
  const DefaultMaxIterations: nat := 100

  /** The trial option: a copy of the caller's with only the volatility replaced. */
  function Guess(option: OptionInput, vol: real): (g: OptionInput)
    ensures g.volatility == vol
    ensures g.(volatility := option.volatility) == option
  {
    option.(volatility := vol)
  }

  /** A pricing oracle: the model price at each volatility it is asked about. */
  ghost predicate Oracle(price: real --> real) {
    forall vol :: price.requires(vol)
  }

  /** The oracle the solver consults: the Black-Scholes price of the trial
      option at the given volatility. */
  function GuessPrice(m: MathLib, option: OptionInput): (price: real --> real)
    requires Lawful(m)
    ensures Oracle(price)
    ensures forall vol :: price(vol) == Greeks(m, Guess(option, vol)).price
  {
    vol requires Lawful(m) => Greeks(m, Guess(option, vol)).price
  }

  /** 2^n as a real. */
  function Pow2(n: nat): (p: real)
    ensures p >= 1.0
  {
    if n == 0 then 1.0 else 2.0 * Pow2(n - 1)
  }

  /** `width` halved n times. */
  function Halved(width: real, n: nat): real
    decreases n
  {
    if n == 0 then width else Halved(width / 2.0, n - 1)
  }

  /** Halving n times is dividing by 2^n. */
  lemma {:induction false} HalvedIsDivision(width: real, n: nat)
    decreases n
    ensures Halved(width, n) == width / Pow2(n)
  {
    if n > 0 {
      HalvedIsDivision(width / 2.0, n - 1);
      var p := Pow2(n - 1);
      assert width / 2.0 / p == width / (2.0 * p);
    }
  }

  /** Halving n times and then once more is halving n + 1 times. */
  lemma {:induction false} HalvedOnceMore(width: real, n: nat)
    decreases n
    ensures Halved(width, n) / 2.0 == Halved(width, n + 1)
  {
    if n > 0 {
      HalvedOnceMore(width / 2.0, n - 1);
    }
  }

  /** A bracket half as wide, halved k times, is the original halved k + 1
      times. */
  lemma HalvedBracket(low: real, high: real, low': real, high': real, k: nat)
    requires high' - low' == (high - low) / 2.0
    ensures Halved(Abs(high' - low'), k) == Halved(Abs(high - low), k + 1)
  {
    assert Abs(high' - low') == Abs(high - low) / 2.0;
  }

  /** The outcome of one pass through the loop body: stop at the midpoint, or
      go on with the half of the bracket the price points to. */
  datatype StepOutcome =
    | Stop(mid: real)
    | Continue(mid: real, low: real, high: real)

  /**
   * One pass through the loop body on the bracket [low, high]. It stops when
   * the midpoint prices within tolerance or when the kept half is narrower than
   * the tolerance; otherwise it keeps the lower half when the midpoint prices
   * above the target and the upper half when it does not.
   */
  function Step(price: real --> real, target: real, tolerance: real, low: real, high: real)
    : StepOutcome
    requires Oracle(price)
  {
    var mid := 0.5 * (low + high);
    var diff := price(mid) - target;
    if Abs(diff) < tolerance then
      Stop(mid)
    else
      var low' := if diff > 0.0 then low else mid;
      var high' := if diff > 0.0 then mid else high;
      if Abs(high' - low') < tolerance then Stop(mid) else Continue(mid, low', high')
  }

  /** The step the loop body takes from [low, high], given the midpoint and
      its price gap, case by case. */
  lemma StepTaken(
    price: real --> real, target: real, tolerance: real,
    low: real, high: real, mid: real, diff: real)
    requires Oracle(price)
    requires mid == 0.5 * (low + high) && diff == price(mid) - target
    ensures Abs(diff) < tolerance ==> Step(price, target, tolerance, low, high) == Stop(mid)
    ensures Abs(diff) >= tolerance && diff > 0.0 ==>
      Step(price, target, tolerance, low, high)
        == if Abs(mid - low) < tolerance then Stop(mid) else Continue(mid, low, mid)
    ensures Abs(diff) >= tolerance && diff <= 0.0 ==>
      Step(price, target, tolerance, low, high)
        == if Abs(high - mid) < tolerance then Stop(mid) else Continue(mid, mid, high)
  {
  }

  /** What one step does: it stops when the midpoint prices within tolerance
      or the kept half is narrower than the tolerance; otherwise it keeps the
      lower half when the midpoint prices above the target and the upper half
      when not, and the new bracket is half as wide. */
  lemma StepCases(price: real --> real, target: real, tolerance: real, low: real, high: real)
    requires Oracle(price)
    ensures var s := Step(price, target, tolerance, low, high);
      && (s.mid == 0.5 * (low + high))
      && (s.Stop? ==>
            || Abs(price(s.mid) - target) < tolerance
            || Abs(high - low) / 2.0 < tolerance)
      && (s.Continue? ==>
            && Abs(price(s.mid) - target) >= tolerance
            && Abs(s.high - s.low) >= tolerance)
      && (s.Continue? ==>
            || (price(s.mid) > target && s.low == low && s.high == s.mid)
            || (price(s.mid) <= target && s.low == s.mid && s.high == high))
      && (s.Continue? ==> s.high - s.low == (high - low) / 2.0)
  {
  }

  /**
   * The solver from the state at the top of iteration `iteration`: bracket
   * [low, high] and the last priced midpoint `mid`. The reported count is one
   * more than the number of completed steps, and the result is converged
   * exactly when it stopped before running out of steps.
   */
  function Bisect(
    price: real --> real, target: real, tolerance: real, maxIterations: nat,
    low: real, high: real, mid: real, iteration: nat): (r: ImpliedVolatilityResult)
    requires Oracle(price)
    requires iteration <= maxIterations
    decreases maxIterations - iteration
    ensures iteration + 1 <= r.iterations <= maxIterations + 1
    ensures r.converged <==> r.iterations <= maxIterations
  {
    if iteration == maxIterations then
      ImpliedVolatilityResult(mid, false, iteration + 1)
    else
      match Step(price, target, tolerance, low, high)
      case Stop(mid') => ImpliedVolatilityResult(mid', true, iteration + 1)
      case Continue(mid', low', high') =>
        Bisect(price, target, tolerance, maxIterations, low', high', mid', iteration + 1)
  }

  /** One step of `Bisect` before the last: it stops where `Step` stops and
      otherwise goes on from the bracket `Step` keeps. */
  lemma BisectAdvance(
    price: real --> real, target: real, tolerance: real, maxIterations: nat,
    low: real, high: real, mid: real, iteration: nat)
    requires Oracle(price)
    requires iteration < maxIterations
    ensures var s := Step(price, target, tolerance, low, high);
      Bisect(price, target, tolerance, maxIterations, low, high, mid, iteration)
        == if s.Stop? then ImpliedVolatilityResult(s.mid, true, iteration + 1)
           else Bisect(price, target, tolerance, maxIterations, s.low, s.high, s.mid, iteration + 1)
  {
  }

  /** The bracket after k halving steps: inside the initial bracket when that
      is ordered, and exactly its width halved k times. */
  ghost predicate Narrowed(lowerBound: real, upperBound: real, low: real, high: real, k: nat) {
    && (lowerBound <= upperBound ==> lowerBound <= low <= high <= upperBound)
    && high - low == Halved(upperBound - lowerBound, k)
  }

  /** A step that goes on keeps the bracket inside the initial one and halves
      its width once more. */
  lemma NarrowedStep(
    price: real --> real, target: real, tolerance: real,
    lowerBound: real, upperBound: real, low: real, high: real, k: nat,
    mid': real, low': real, high': real)
    requires Oracle(price)
    requires Narrowed(lowerBound, upperBound, low, high, k)
    requires Step(price, target, tolerance, low, high) == Continue(mid', low', high')
    ensures Narrowed(lowerBound, upperBound, low', high', k + 1)
  {
    StepCases(price, target, tolerance, low, high);
    HalvedOnceMore(upperBound - lowerBound, k);
  }

  /** A run that takes at least one step returns one of its midpoints, and so
      a point of the bracket it started from. */
  lemma {:induction false} BisectInBracket(
    price: real --> real, target: real, tolerance: real, maxIterations: nat,
    low: real, high: real, mid: real, iteration: nat)
    requires Oracle(price)
    requires iteration < maxIterations && low <= high
    decreases maxIterations - iteration
    ensures var r := Bisect(price, target, tolerance, maxIterations, low, high, mid, iteration);
      low <= r.impliedVolatility <= high
  {
    var s := Step(price, target, tolerance, low, high);
    StepCases(price, target, tolerance, low, high);
    BisectAdvance(price, target, tolerance, maxIterations, low, high, mid, iteration);
    if s.Continue? && iteration + 1 < maxIterations {
      BisectInBracket(price, target, tolerance, maxIterations, s.low, s.high, s.mid, iteration + 1);
    }
  }

  /** What `converged` means: the returned midpoint priced within tolerance,
      or the bracket, halved once per reported iteration, fell below it. The
      second case does not look at the price at all. */
  lemma {:induction false} BisectConverged(
    price: real --> real, target: real, tolerance: real, maxIterations: nat,
    low: real, high: real, mid: real, iteration: nat)
    requires Oracle(price)
    requires iteration <= maxIterations
    decreases maxIterations - iteration
    ensures var r := Bisect(price, target, tolerance, maxIterations, low, high, mid, iteration);
      r.converged ==>
        || Abs(price(r.impliedVolatility) - target) < tolerance
        || Halved(Abs(high - low), r.iterations - iteration) < tolerance
  {
    if iteration < maxIterations {
      var r := Bisect(price, target, tolerance, maxIterations, low, high, mid, iteration);
      var s := Step(price, target, tolerance, low, high);
      StepCases(price, target, tolerance, low, high);
      BisectAdvance(price, target, tolerance, maxIterations, low, high, mid, iteration);
      if s.Stop? {
        assert Halved(Abs(high - low), 1) == Abs(high - low) / 2.0;
      } else {
        BisectConverged(price, target, tolerance, maxIterations, s.low, s.high, s.mid, iteration + 1);
        HalvedBracket(low, high, s.low, s.high, r.iterations - iteration - 1);
      }
    }
  }

  /** A run that uses up its iterations failed both tests on its last step:
      the last midpoint's price missed by at least the tolerance and the fully
      halved bracket is still at least the tolerance wide. */
  lemma {:induction false} BisectExhausted(
    price: real --> real, target: real, tolerance: real, maxIterations: nat,
    low: real, high: real, mid: real, iteration: nat)
    requires Oracle(price)
    requires iteration < maxIterations
    decreases maxIterations - iteration
    ensures var r := Bisect(price, target, tolerance, maxIterations, low, high, mid, iteration);
      !r.converged ==>
        && Abs(price(r.impliedVolatility) - target) >= tolerance
        && Halved(Abs(high - low), maxIterations - iteration) >= tolerance
  {
    var s := Step(price, target, tolerance, low, high);
    StepCases(price, target, tolerance, low, high);
    BisectAdvance(price, target, tolerance, maxIterations, low, high, mid, iteration);
    if s.Continue? {
      HalvedBracket(low, high, s.low, s.high, maxIterations - iteration - 1);
      if iteration + 1 < maxIterations {
        BisectExhausted(price, target, tolerance, maxIterations, s.low, s.high, s.mid, iteration + 1);
      }
    }
  }

  /** What a whole run from the initial bracket promises, gathered from the
      lemmas above. */
  lemma SolverGuarantees(
    price: real --> real, target: real,
    lowerBound: real, upperBound: real, tolerance: real, maxIterations: nat)
    requires Oracle(price)
    ensures var r := Bisect(price, target, tolerance, maxIterations, lowerBound, upperBound, 0.0, 0);
      && (!r.converged ==> r.iterations == maxIterations + 1)
      && (maxIterations == 0 ==> r == ImpliedVolatilityResult(0.0, false, 1))
      && (maxIterations >= 1 && lowerBound <= upperBound ==>
            lowerBound <= r.impliedVolatility <= upperBound)
      && (r.converged ==>
            || Abs(price(r.impliedVolatility) - target) < tolerance
            || Halved(Abs(upperBound - lowerBound), r.iterations) < tolerance)
      && (!r.converged && maxIterations >= 1 ==>
            && Abs(price(r.impliedVolatility) - target) >= tolerance
            && Halved(Abs(upperBound - lowerBound), maxIterations) >= tolerance)
  {
    BisectConverged(price, target, tolerance, maxIterations, lowerBound, upperBound, 0.0, 0);
    if maxIterations >= 1 {
      BisectExhausted(price, target, tolerance, maxIterations, lowerBound, upperBound, 0.0, 0);
      if lowerBound <= upperBound {
        BisectInBracket(price, target, tolerance, maxIterations, lowerBound, upperBound, 0.0, 0);
      }
    }
  }

  /**
   * `implied_volatility`: the bisection loop, with its two early exits. The
   * result is `Bisect` from the initial bracket, so `SolverGuarantees` says
   * what it means; the iteration count and the bracket bound are restated.
   */
  method ImpliedVolatility(
    price: real --> real, targetPrice: real,
    lowerBound: real, upperBound: real, tolerance: real, maxIterations: nat)
    returns (result: ImpliedVolatilityResult)
    requires Oracle(price)
    ensures result == Bisect(price, targetPrice, tolerance, maxIterations,
                             lowerBound, upperBound, 0.0, 0)
    ensures 1 <= result.iterations <= maxIterations + 1
    ensures result.converged <==> result.iterations <= maxIterations
    ensures maxIterations >= 1 && lowerBound <= upperBound ==>
      lowerBound <= result.impliedVolatility <= upperBound
  {
    ghost var spec := Bisect(price, targetPrice, tolerance, maxIterations,
                             lowerBound, upperBound, 0.0, 0);
    if maxIterations >= 1 && lowerBound <= upperBound {
      BisectInBracket(price, targetPrice, tolerance, maxIterations, lowerBound, upperBound, 0.0, 0);
    }
    var low := lowerBound;
    var high := upperBound;
    var mid := 0.0;
    var converged := false;
    var iteration: nat := 0;
    while iteration < maxIterations
      invariant iteration <= maxIterations
      invariant spec == Bisect(price, targetPrice, tolerance, maxIterations,
                               low, high, mid, iteration)
      invariant Narrowed(lowerBound, upperBound, low, high, iteration)
      invariant !converged
    {
      ghost var low0, high0, mid0 := low, high, mid;
      mid := 0.5 * (low + high);
      var diff := price(mid) - targetPrice;
      StepTaken(price, targetPrice, tolerance, low0, high0, mid, diff);
      if Abs(diff) < tolerance {
        converged := true;
        assert spec == ImpliedVolatilityResult(mid, true, iteration + 1) by {
          BisectAdvance(price, targetPrice, tolerance, maxIterations, low, high, mid0, iteration);
        }
        break;
      }
      if diff > 0.0 {
        high := mid;
      } else {
        low := mid;
      }
      if Abs(high - low) < tolerance {
        converged := true;
        assert spec == ImpliedVolatilityResult(mid, true, iteration + 1) by {
          BisectAdvance(price, targetPrice, tolerance, maxIterations, low0, high0, mid0, iteration);
        }
        break;
      }
      assert spec == Bisect(price, targetPrice, tolerance, maxIterations, low, high, mid, iteration + 1) by {
        BisectAdvance(price, targetPrice, tolerance, maxIterations, low0, high0, mid0, iteration);
      }
      NarrowedStep(price, targetPrice, tolerance, lowerBound, upperBound, low0, high0, iteration,
                   mid, low, high);
      iteration := iteration + 1;
    }
    result := ImpliedVolatilityResult(mid, converged, iteration + 1);
    assert result == spec;
  }

  /**
   * The solver as the ImpliedVol handler calls it, with the default bracket
   * [1e-6, 5], tolerance 1e-6 and 100 iterations, pricing trial copies of
   * `option`: the answer is the bisection run on that oracle, it stays in the
   * bracket and at most 101 iterations are reported.
   */
  method ImpliedVolatilityWithDefaults(m: MathLib, option: OptionInput, targetPrice: real)
    returns (result: ImpliedVolatilityResult)
    requires Lawful(m)
    ensures result == Bisect(GuessPrice(m, option), targetPrice, DefaultTolerance, DefaultMaxIterations,
                             DefaultLowerBound, DefaultUpperBound, 0.0, 0)
    ensures DefaultLowerBound <= result.impliedVolatility <= DefaultUpperBound
    ensures 1 <= result.iterations <= DefaultMaxIterations + 1
    ensures result.converged <==> result.iterations <= DefaultMaxIterations
  {
    result := ImpliedVolatility(GuessPrice(m, option), targetPrice, DefaultLowerBound, DefaultUpperBound,
                                DefaultTolerance, DefaultMaxIterations);
  }

  /**
   * Bracket collapse counts as convergence even when the price never matched:
   * with a one-point bracket the first step reports convergence at that point,
   * however far its price is from the target.
   */
  lemma CollapsedBracketConverges(
    price: real --> real, vol: real, target: real, tolerance: real, maxIterations: nat)
    requires Oracle(price)
    requires tolerance > 0.0 && maxIterations >= 1
    requires Abs(price(vol) - target) >= tolerance
    ensures var r := Bisect(price, target, tolerance, maxIterations, vol, vol, 0.0, 0);
      && r == ImpliedVolatilityResult(vol, true, 1)
      && Abs(price(r.impliedVolatility) - target) >= tolerance
  {
    assert 0.5 * (vol + vol) == vol;
  }
}
