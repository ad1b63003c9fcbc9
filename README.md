# quant-cpp pricing core in Dafny

This project models the numerical core of the `quant-cpp` option-pricing
service. It has four parts:

- the closed-form Black-Scholes pricer `black_scholes`. It returns the price,
  delta, gamma, vega, theta and rho of a European call or put with a
  continuous dividend yield.
- the bisection solver `implied_volatility`. It searches a volatility bracket
  for a volatility whose Black-Scholes price matches a target.
- the Monte Carlo pricer `monte_carlo_price`. It simulates terminal prices
  under geometric Brownian motion, then reports the discounted mean payoff and
  the discounted standard error of that mean.
- the request shaping done by the gRPC handlers. `sanitize_option` floors the
  inputs, the ImpliedVol handler floors the volatility again, and the
  MonteCarlo handler turns a request for zero paths into 10000 paths.

Doubles are modelled as `real`. `std::exp`, `std::log`, `std::sqrt` and
`std::erfc` cannot be computed over the reals, so they are carried in a
`Numerics.MathLib` value. `Numerics.Lawful` lists the only facts the proofs
assume about them:

- exp is positive;
- sqrt is non-negative on the non-negative reals and is a square root there;
  nothing is assumed about sqrt below zero;
- erfc lies in [0, 2] and satisfies erfc(y) + erfc(-y) = 2.

Nothing at all is assumed about log.

The files follow the source:

| file | module | source |
|---|---|---|
| `numerics.dfy` | `Numerics` | the C math library, `std::max`, `std::abs` |
| `black_scholes.dfy` | `BlackScholes` | `black_scholes`, `normal_pdf`, `normal_cdf` |
| `implied_volatility.dfy` | `Bisection` | `implied_volatility` |
| `monte_carlo.dfy` | `MonteCarlo` | `monte_carlo_price` |
| `service.dfy` | `Service` | `sanitize_option` and the handler logic |

`black_scholes` and `sanitize_option` are pure computations, so they are
modelled as functions and lemmas. `implied_volatility` and `monte_carlo_price`
are loops, so they are modelled as methods with loop invariants. The handlers
that call them (`Service.ServeImpliedVol`, `Service.ServeMonteCarlo`) are
methods too; the rest of the handler logic is functions and lemmas. Each method
is proved equal to a specification function (`Bisection.Bisect`,
`MonteCarlo.Payoffs`, `MonteCarlo.Sum`, `MonteCarlo.SumSqDev`,
`MonteCarlo.Simulate`), and the lemmas state what those functions promise.

Some products in the pricer are grouped differently from the source. Over the
reals these are the same values:

- S e^{-qT} is computed once, as `forward`;
- K e^{-rT} is computed once, as `strikeDiscount`;
- the call theta's `r * K * discount` is written `(r * strikeDiscount)`;
- rho's `K * T * discount` is written `(T * strikeDiscount)`.

## Model

| member | source | states |
|---|---|---|
| `Numerics.Max` | services/quant-cpp/src/grpc_service.cpp:15-18 | `std::max`: the result is at least both arguments and is one of them |
| `Numerics.Abs` | services/quant-cpp/src/black_scholes.cpp:98 | `std::abs`: the result is non-negative and is x or -x |
| `Numerics.SqrtPositive` | services/quant-cpp/src/black_scholes.cpp:33-34 | the square root of a positive number is positive, so sqrt(T) and sigma sqrt(T) may divide |
| `Numerics.SqrtZero` | services/quant-cpp/src/monte_carlo.cpp:54 | sqrt(0) = 0, so a zero variance gives a zero standard deviation |
| `BlackScholes.NormalPdf` | services/quant-cpp/src/black_scholes.cpp:12-14 | the standard normal density is positive |
| `BlackScholes.NormalCdf` | services/quant-cpp/src/black_scholes.cpp:16-18 | the standard normal CDF, computed as 0.5 erfc(-x/sqrt 2), lies in [0, 1] |
| `BlackScholes.CdfSymmetry` | services/quant-cpp/src/black_scholes.cpp:16-18 | Phi(x) + Phi(-x) = 1, the identity that links the put formulas to the call formulas |
| `BlackScholes.Clamp` | services/quant-cpp/src/black_scholes.cpp:25-31 | spot, strike, volatility and maturity are floored at 1e-9: a value at or above the floor is kept, a value below it becomes exactly 1e-9; rate and dividend yield are passed through |
| `BlackScholes.D1` | services/quant-cpp/src/black_scholes.cpp:39 | d1 = (ln(S/K) + (r - q + sigma^2/2) T) / (sigma sqrt T) on the clamped inputs |
| `BlackScholes.Decay` | services/quant-cpp/src/black_scholes.cpp:52 | the time-decay term -S e^{-qT} pdf(d1) sigma / (2 sqrt T) shared by both thetas; it is negative when S, e^{-qT}, pdf(d1) and sigma are positive |
| `BlackScholes.Prepare` | services/quant-cpp/src/black_scholes.cpp:33-42 | after clamping, every divisor and scale factor (sqrt T, sigma sqrt T, e^{-qT}, S e^{-qT}, e^{-rT}, K e^{-rT}, pdf(d1)) is positive; carry is e^{-qT}, discount is e^{-rT}, forward is S e^{-qT} and strikeDiscount is K e^{-rT}; d2 is d1 - sigma sqrt T |
| `BlackScholes.CallFormulas` | services/quant-cpp/src/black_scholes.cpp:50-55 | the call: price S e^{-qT} Phi(d1) - K e^{-rT} Phi(d2), delta e^{-qT} Phi(d1), theta decay - r K e^{-rT} Phi(d2) + q S e^{-qT} Phi(d1), rho K T e^{-rT} Phi(d2) |
| `BlackScholes.PutFormulas` | services/quant-cpp/src/black_scholes.cpp:57-62 | the put: price K e^{-rT} Phi(-d2) - S e^{-qT} Phi(-d1), delta e^{-qT} (Phi(d1) - 1), theta decay + r K e^{-rT} Phi(-d2) - q S e^{-qT} Phi(-d1), rho -K T e^{-rT} Phi(-d2) |
| `BlackScholes.CallBranch` | services/quant-cpp/src/black_scholes.cpp:49-55 | the call formulas; the call delta lies in [0, e^{-qT}] |
| `BlackScholes.PutBranch` | services/quant-cpp/src/black_scholes.cpp:56-63 | the put formulas; the put delta lies in [-e^{-qT}, 0] |
| `BlackScholes.Gamma` | services/quant-cpp/src/black_scholes.cpp:65 | gamma is positive |
| `BlackScholes.Vega` | services/quant-cpp/src/black_scholes.cpp:66 | vega is positive |
| `BlackScholes.Greeks` | services/quant-cpp/src/black_scholes.cpp:24-76 | gamma and vega are positive for any input; a call's delta lies in [0, e^{-qT}] and a put's in [-e^{-qT}, 0], with T and q the clamped maturity and dividend yield |
| `BlackScholes.SharedTerms` | services/quant-cpp/src/black_scholes.cpp:24-76 | a call and a put on the same contract share the clamped inputs and d1/d2; each takes its own branch's price, delta, theta and rho, and both have the same gamma and vega |
| `BlackScholes.FormulaGaps` | services/quant-cpp/src/black_scholes.cpp:49-63 | when Phi(-d1) = 1 - Phi(d1) and Phi(-d2) = 1 - Phi(d2), the call minus the put is S e^{-qT} - K e^{-rT} for price, e^{-qT} for delta, T K e^{-rT} for rho and q S e^{-qT} - r K e^{-rT} for theta |
| `BlackScholes.BranchGaps` | services/quant-cpp/src/black_scholes.cpp:49-63 | the same four call-minus-put gaps for the branches the pricer computes, whatever erfc returns |
| `BlackScholes.PutCallParity` | services/quant-cpp/src/black_scholes.cpp:49-63 | put-call parity: C - P = S e^{-qT} - K e^{-rT} on the clamped inputs |
| `BlackScholes.DeltaGap` | services/quant-cpp/src/black_scholes.cpp:51-58 | the call delta minus the put delta is exactly e^{-qT} |
| `BlackScholes.GammaVegaAgree` | services/quant-cpp/src/black_scholes.cpp:65-66 | gamma and vega are the same for the call and the put |
| `Bisection.Guess` | services/quant-cpp/src/black_scholes.cpp:93-94 | the trial option has the given volatility and is otherwise the caller's option, which is left unchanged |
| `Bisection.GuessPrice` | services/quant-cpp/src/black_scholes.cpp:93-95 | the solver's oracle is defined at every volatility and gives the Black-Scholes price of the trial option |
| `Bisection.HalvedIsDivision` | services/quant-cpp/src/black_scholes.cpp:91-113 | halving the bracket width k times is dividing it by 2^k |
| `Bisection.HalvedOnceMore` | services/quant-cpp/src/black_scholes.cpp:103-107 | halving k times and then once more is halving k + 1 times |
| `Bisection.HalvedBracket` | services/quant-cpp/src/black_scholes.cpp:103-107 | a bracket half as wide, halved k times, is the original halved k + 1 times |
| `Bisection.Step` | services/quant-cpp/src/black_scholes.cpp:92-112 | one pass of the loop body on [low, high], as defined: the midpoint (low + high)/2; stop there when its price is within tolerance; otherwise keep [low, mid] when it prices above the target and [mid, high] when not, and stop when the kept half is narrower than the tolerance |
| `Bisection.StepCases` | services/quant-cpp/src/black_scholes.cpp:92-112 | what one pass does: the midpoint is (low + high)/2; a stop means the price was within tolerance or the kept half is narrower than it; going on means neither, the kept half is the lower one exactly when the midpoint priced above the target, and the new bracket is half as wide |
| `Bisection.Bisect` | services/quant-cpp/src/black_scholes.cpp:91-119 | the loop from a given state: the reported count is one more than the completed steps, never above max + 1, and the result is converged exactly when the count is at most max |
| `Bisection.NarrowedStep` | services/quant-cpp/src/black_scholes.cpp:103-107 | a step that goes on keeps the bracket inside [lower, upper] when that is ordered, and its width becomes the initial width halved k + 1 times |
| `Bisection.BisectInBracket` | services/quant-cpp/src/black_scholes.cpp:91-119 | after at least one step from an ordered bracket, the returned volatility lies in that bracket |
| `Bisection.BisectConverged` | services/quant-cpp/src/black_scholes.cpp:98-112 | converged means the returned midpoint priced within tolerance, or the bracket halved once per reported iteration fell below the tolerance (a convergence that never looks at the price) |
| `Bisection.BisectExhausted` | services/quant-cpp/src/black_scholes.cpp:98-113 | a run that uses up its iterations missed the target by at least the tolerance on its last midpoint, and the bracket halved max times is still at least the tolerance |
| `Bisection.SolverGuarantees` | services/quant-cpp/src/black_scholes.cpp:85-119 | a whole run: not converged means max + 1 iterations; max = 0 gives (0, not converged, 1); the result lies in [lower, upper]; the converged and exhausted cases mean what the two lemmas above say |
| `Bisection.ImpliedVolatility` | services/quant-cpp/src/black_scholes.cpp:78-120 | the loop itself equals `Bisect` from the initial bracket. The loop invariant keeps lower <= low <= high <= upper and high - low = (upper - lower)/2^k. The method also states the 1..max+1 iteration range, that converged holds iff iterations <= max, and that the result is in the bracket |
| `Bisection.ImpliedVolatilityWithDefaults` | services/quant-cpp/include/quant/black_scholes.hpp:34-40 | the result is `Bisect` run on the Black-Scholes price of trial copies of the option, with the target price and the default bracket [1e-6, 5], tolerance 1e-6 and 100 iterations; it lies in [1e-6, 5] and at most 101 iterations are reported, with 101 exactly when not converged |
| `Bisection.CollapsedBracketConverges` | services/quant-cpp/src/black_scholes.cpp:109-112 | with a one-point bracket the first step reports convergence at that point, however far its price is from the target |
| `MonteCarlo.Drift` | services/quant-cpp/src/monte_carlo.cpp:28 | the log-price drift (r - q - sigma^2/2) T, on the unclamped inputs |
| `MonteCarlo.Diffusion` | services/quant-cpp/src/monte_carlo.cpp:29 | the log-price diffusion sigma sqrt(T), on the unclamped inputs |
| `MonteCarlo.Terminal` | services/quant-cpp/src/monte_carlo.cpp:38 | the simulated terminal price S exp(drift + diffusion z), positive whenever the spot is |
| `MonteCarlo.PathPayoff` | services/quant-cpp/src/monte_carlo.cpp:37-41 | the payoff of the path drawing z is the call or put payoff on its terminal price: never negative and at least the intrinsic value |
| `MonteCarlo.Discount` | services/quant-cpp/src/monte_carlo.cpp:30 | the discount factor e^{-rT} is positive |
| `MonteCarlo.Payoff` | services/quant-cpp/src/monte_carlo.cpp:39-41 | a path payoff is non-negative, at least the intrinsic value, and either zero or exactly the intrinsic value |
| `MonteCarlo.PayoffParity` | services/quant-cpp/src/monte_carlo.cpp:39-41 | on one path, the call payoff minus the put payoff is terminal - strike |
| `MonteCarlo.Payoffs` | services/quant-cpp/src/monte_carlo.cpp:32-44 | the payoff buffer after n paths holds n payoffs, none negative |
| `MonteCarlo.PayoffsInDrawOrder` | services/quant-cpp/src/monte_carlo.cpp:36-42 | the i-th buffered payoff is the payoff of the i-th normal draw |
| `MonteCarlo.Sum` | services/quant-cpp/src/monte_carlo.cpp:35-43 | the running sum of non-negative payoffs is non-negative |
| `MonteCarlo.SumSqDev` | services/quant-cpp/src/monte_carlo.cpp:47-51 | the sum of squared deviations is non-negative |
| `MonteCarlo.Mean` | services/quant-cpp/src/monte_carlo.cpp:46 | the mean of non-negative payoffs is non-negative |
| `MonteCarlo.Variance` | services/quant-cpp/src/monte_carlo.cpp:53 | the population variance (divided by n, not n - 1) is non-negative |
| `MonteCarlo.StandardError` | services/quant-cpp/src/monte_carlo.cpp:54-55 | the standard error of the mean is non-negative |
| `MonteCarlo.Report` | services/quant-cpp/src/monte_carlo.cpp:57-60 | price and standard error are discounted by the same positive factor and stay non-negative |
| `MonteCarlo.Simulate` | services/quant-cpp/src/monte_carlo.cpp:10-61 | a run's result depends only on its inputs (the generator is reseeded on every call), and neither its price nor its standard error is negative |
| `MonteCarlo.SimulatePaths` | services/quant-cpp/src/monte_carlo.cpp:32-44 | the first loop leaves the buffer equal to one payoff per draw in draw order, and the running sum equal to the buffer's sum |
| `MonteCarlo.SquaredDeviations` | services/quant-cpp/src/monte_carlo.cpp:47-51 | the second loop sums the squared deviations of the whole buffer from the mean |
| `MonteCarlo.MonteCarloPrice` | services/quant-cpp/src/monte_carlo.cpp:10-61 | the function equals `Simulate`; zero paths return (0, 0) before any draw; price and standard error are never negative |
| `MonteCarlo.SumAppend` | services/quant-cpp/src/monte_carlo.cpp:42-43 | appending a payoff to the buffer adds it to the sum |
| `MonteCarlo.SumSqDevStep` | services/quant-cpp/src/monte_carlo.cpp:48-51 | one more buffered payoff adds its squared deviation |
| `MonteCarlo.ConstantSum` | services/quant-cpp/src/monte_carlo.cpp:43-46 | n equal payoffs c sum to n c |
| `MonteCarlo.ConstantSumSqDev` | services/quant-cpp/src/monte_carlo.cpp:47-51 | payoffs that all equal the mean have no squared deviation |
| `MonteCarlo.ConstantMean` | services/quant-cpp/src/monte_carlo.cpp:46 | the mean of equal payoffs is that payoff |
| `MonteCarlo.ConstantPayoffs` | services/quant-cpp/src/monte_carlo.cpp:46-55 | equal payoffs have that payoff as mean, variance zero and standard error zero |
| `MonteCarlo.SinglePathNoError` | services/quant-cpp/src/monte_carlo.cpp:46-55 | a run of one path reports a standard error of zero |
| `MonteCarlo.ConstantRunNoError` | services/quant-cpp/src/monte_carlo.cpp:46-60 | when every path pays the same c, the run reports e^{-rT} c with zero standard error |
| `MonteCarlo.ConstantReport` | services/quant-cpp/src/monte_carlo.cpp:46-60 | the report of equal payoffs c: the discounted c as price and zero standard error |
| `MonteCarlo.StandardErrorSquared` | services/quant-cpp/src/monte_carlo.cpp:53-55 | SE^2 n equals the population variance |
| `MonteCarlo.ReportedValues` | services/quant-cpp/src/monte_carlo.cpp:46-60 | with at least one path, the run reports e^{-rT} times sum/n, and e^{-rT} times sqrt(variance)/sqrt(n) |
| `Service.SanitizeOption` | services/quant-cpp/src/grpc_service.cpp:13-20 | spot, strike, volatility and maturity are raised to at least 1e-6 (kept when already at or above, set to 1e-6 when below); rate, dividend yield and the call flag are unchanged |
| `Service.SanitizeFixesSanitized` | services/quant-cpp/src/grpc_service.cpp:13-20 | an option already meeting the floors is returned unchanged |
| `Service.SanitizeIdempotent` | services/quant-cpp/src/grpc_service.cpp:13-20 | sanitising twice is sanitising once |
| `Service.ImpliedVolOption` | services/quant-cpp/src/grpc_service.cpp:74-75 | the ImpliedVol handler's second volatility floor changes nothing: the priced option is the sanitised one |
| `Service.SanitizedNotClamped` | services/quant-cpp/src/grpc_service.cpp:43-44 | the pricer's 1e-9 clamp never changes a sanitised option, so the service prices the sanitised values themselves |
| `Service.PathsForRequest` | services/quant-cpp/src/grpc_service.cpp:91 | zero requested paths becomes 10000 and any other count is passed through, so the simulation always has a path |
| `Service.ServeMonteCarlo` | services/quant-cpp/src/grpc_service.cpp:90-93 | the MonteCarlo handler's result is `Simulate` on the sanitised option with the defaulted path count, and is never negative |
| `Service.ServeImpliedVol` | services/quant-cpp/src/grpc_service.cpp:74-76 | the ImpliedVol handler's result is `Bisect` with the defaults on the price of the sanitised option at trial volatilities, against the requested target; it reports a volatility in [1e-6, 5] and 1..101 iterations, with 101 exactly when not converged |

## Left out

- The values of exp, log, sqrt and erfc are not modelled. The proofs assume only the facts in `Numerics.Lawful`, so no numeric price is derived.
- IEEE-754 rounding, overflow, infinities and NaN are not modelled, because doubles are modelled as reals. The Monte Carlo pricer does not clamp its inputs, so for a negative maturity the source takes the square root of a negative number and reports NaN. `Lawful` assumes nothing of sqrt below zero, so the model leaves that value unknown; the non-negativity that `MonteCarlo.MonteCarloPrice` proves still holds of the model there, where the source's answer is NaN.
- `std::mt19937` and `std::normal_distribution` are not modelled. A `MonteCarlo.NormalStream` gives the i-th draw for a seed. The statistical claims (an unbiased estimator, convergence to the Black-Scholes price) are out of reach.
- `Bisection.ImpliedVolatility` is not proved to find a root. That would need the price to be monotone in volatility, which would need real analysis of erfc. The solver therefore takes any pricing oracle, and `Bisection.GuessPrice` ties it to the pricer.
- `monte_carlo_price` is one function with two loops. The model splits the loops into `MonteCarlo.SimulatePaths` and `MonteCarlo.SquaredDeviations`, which `MonteCarlo.MonteCarloPrice` calls in the source's order. The `std::vector` buffer is a `seq<real>`, and the `reserve` call has no counterpart.
- `BlackScholes.Greeks`: the delta bound is stated with e^{-qT} as `Prepare`'s `carry` term, whose own contract says it is exp(-qT) of the clamped inputs.
- `BlackScholes.PutCallParity`: the rho and theta gaps between the call and the put are stated for the two branches by `BlackScholes.BranchGaps`, not restated at the level of `Greeks`.
- The gRPC plumbing is not modelled: status codes, the null request check, `option_from_proto`, the response setters and the cast of the iteration count to uint32. `server_main.cpp` is not part of this model either.
- The Price and Greeks handlers (grpc_service.cpp:36-65) are `sanitize_option` followed by `black_scholes`. `Service.SanitizedNotClamped` covers them, and they have no members of their own.
- `std::size_t` is not bounded: iteration counts are `nat`. `std::uint32_t` path counts and seeds are the subset type `MonteCarlo.Uint32`.
