/**
 * The part of the gRPC service that shapes the requests before the pricers
 * see them: `sanitize_option`, the extra volatility floor of the ImpliedVol
 * handler and the path-count default of the MonteCarlo handler. Status codes,
 * protobuf conversion and response setters are not part of this model.
 */
module Service {
  import opened Numerics
  import opened BlackScholes
  import opened Bisection
  import opened MonteCarlo

  /** The floor `sanitize_option` puts under spot, strike, volatility and maturity. */
  const SanitizeFloor: real := 1e-6

  /** The path count used when a request asks for zero paths. */
  const DefaultPaths: Uint32 := 10000

  /**
   * `sanitize_option`: spot, strike, volatility and maturity are raised to at
   * least `SanitizeFloor`; a value already at the floor or above is kept, a
   * value below it becomes the floor. Rate, dividend yield and the call flag
   * are left as they are.
   */
  function SanitizeOption(option: OptionInput): (s: OptionInput)
    ensures s.spot >= SanitizeFloor && s.strike >= SanitizeFloor
    ensures s.volatility >= SanitizeFloor && s.timeToMaturity >= SanitizeFloor
    ensures option.spot >= SanitizeFloor ==> s.spot == option.spot
    ensures option.strike >= SanitizeFloor ==> s.strike == option.strike
    ensures option.volatility >= SanitizeFloor ==> s.volatility == option.volatility
    ensures option.timeToMaturity >= SanitizeFloor ==> s.timeToMaturity == option.timeToMaturity
    ensures option.spot < SanitizeFloor ==> s.spot == SanitizeFloor
    ensures option.strike < SanitizeFloor ==> s.strike == SanitizeFloor
    ensures option.volatility < SanitizeFloor ==> s.volatility == SanitizeFloor
    ensures option.timeToMaturity < SanitizeFloor ==> s.timeToMaturity == SanitizeFloor
    ensures s.rate == option.rate && s.dividendYield == option.dividendYield
    ensures s.isCall == option.isCall
  {
    option.(
      volatility := Max(option.volatility, SanitizeFloor),
      timeToMaturity := Max(option.timeToMaturity, SanitizeFloor),
      strike := Max(option.strike, SanitizeFloor),
      spot := Max(option.spot, SanitizeFloor))
  }

  /** An option that already satisfies the floors is returned unchanged. */
  lemma SanitizeFixesSanitized(option: OptionInput)
    requires option.spot >= SanitizeFloor && option.strike >= SanitizeFloor
    requires option.volatility >= SanitizeFloor && option.timeToMaturity >= SanitizeFloor
    ensures SanitizeOption(option) == option
  {
    var s := SanitizeOption(option);
    assert s.spot == option.spot && s.strike == option.strike;
    assert s.volatility == option.volatility && s.timeToMaturity == option.timeToMaturity;
  }

  /** Sanitising twice is sanitising once. */
  lemma SanitizeIdempotent(option: OptionInput)
    ensures SanitizeOption(SanitizeOption(option)) == SanitizeOption(option)
  {
    SanitizeFixesSanitized(SanitizeOption(option));
  }

  /** The option the ImpliedVol handler prices: sanitised, then its volatility
      floored once more. */
  function ImpliedVolOption(option: OptionInput): (s: OptionInput)
    ensures s == SanitizeOption(option)
  {
    var sanitized := SanitizeOption(option);
    sanitized.(volatility := Max(sanitized.volatility, SanitizeFloor))
  }

  /** The pricer's own floor at 1e-9 never changes a sanitised option: the
      values it prices with are the sanitised ones. */
  lemma SanitizedNotClamped(option: OptionInput)
    ensures var s := SanitizeOption(option);
      Clamp(s) == Clamped(s.spot, s.strike, s.rate, s.dividendYield, s.volatility, s.timeToMaturity)
  {
  }

  /** The MonteCarlo handler's path count: zero becomes `DefaultPaths`, any
      other request is passed through, so the simulation always has a path. */
  function PathsForRequest(requested: Uint32): (paths: Uint32)
    ensures paths > 0
    ensures requested != 0 ==> paths == requested
    ensures requested == 0 ==> paths == DefaultPaths
  {
    if requested == 0 then DefaultPaths else requested
  }

  /**
   * The computation the MonteCarlo handler performs: the simulation runs on
   * the sanitised option with at least one path, so its result is never the
   * zero-path answer's special case and is fixed by the request alone.
   */
  method ServeMonteCarlo(m: MathLib, draw: NormalStream, option: OptionInput,
                         requestedPaths: Uint32, seed: Uint32)
    returns (result: MonteCarloResult)
    requires Lawful(m)
    ensures result == Simulate(m, draw, SanitizeOption(option), PathsForRequest(requestedPaths), seed)
    ensures result.price >= 0.0 && result.standardError >= 0.0
  {
    var sanitized := SanitizeOption(option);
    var paths := PathsForRequest(requestedPaths);
    result := MonteCarloPrice(m, draw, sanitized, paths, seed);
  }

  /**
   * The computation the ImpliedVol handler performs: the solver runs with its
   * default bracket on the sanitised option and the requested target price,
   * so the reported volatility lies in [1e-6, 5] and at most 101 iterations
   * are reported.
   */
  method ServeImpliedVol(m: MathLib, option: OptionInput, targetPrice: real)
    returns (result: ImpliedVolatilityResult)
    requires Lawful(m)
    ensures result == Bisect(GuessPrice(m, SanitizeOption(option)), targetPrice, DefaultTolerance,
                             DefaultMaxIterations, DefaultLowerBound, DefaultUpperBound, 0.0, 0)
    ensures DefaultLowerBound <= result.impliedVolatility <= DefaultUpperBound
    ensures 1 <= result.iterations <= DefaultMaxIterations + 1
    ensures result.converged <==> result.iterations <= DefaultMaxIterations
  {
    var prepared := ImpliedVolOption(option);
    result := ImpliedVolatilityWithDefaults(m, prepared, targetPrice);
  }
}
