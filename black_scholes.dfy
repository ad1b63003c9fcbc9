/**
 * The closed-form Black-Scholes pricer for a European call or put with a
 * continuous dividend yield: price and five Greeks, as real-valued algebra over
 * an abstract math library. The numbers themselves are out of reach; what is
 * proved here are the structural identities between the call and the put
 * (put-call parity, the delta gap, shared gamma and vega) and the sign facts
 * that follow from the clamping of the inputs.
 */
module BlackScholes {
  import opened Numerics

  /** One option contract, as the service receives it. */
  datatype OptionInput = OptionInput(
    spot: real,
    strike: real,
    rate: real,
    volatility: real,
    timeToMaturity: real,
    dividendYield: real,
    isCall: bool)

  /** Price and first-order risk sensitivities. */
  datatype OptionGreeks = OptionGreeks(
    price: real,
    delta: real,
    gamma: real,
    vega: real,
    theta: real,
    rho: real)

  const SqrtTwo: real := 1.41421356237309504880
  /** 1 / sqrt(2 pi) */
  const InvSqrtTwoPi: real := 0.39894228040143267794
  /** The floor the pricer puts under spot, strike, volatility and maturity. */
  const Eps: real := 1e-9

  /** Standard normal density. */
  function NormalPdf(m: MathLib, x: real): (y: real)
    requires Lawful(m)
    ensures y > 0.0
  {
    MulPositive(InvSqrtTwoPi, m.exp(-0.5 * x * x));
    InvSqrtTwoPi * m.exp(-0.5 * x * x)
  }

  /** Standard normal distribution function, through the complementary error function. */
  function NormalCdf(m: MathLib, x: real): (p: real)
    requires Lawful(m)
    ensures 0.0 <= p <= 1.0
  {
    0.5 * m.erfc(-x / SqrtTwo)
  }

  /** Phi(x) + Phi(-x) = 1, from the point symmetry of erfc. */
  lemma CdfSymmetry(m: MathLib, x: real)
    requires Lawful(m)
    ensures NormalCdf(m, x) + NormalCdf(m, -x) == 1.0
  {
    var y := -x / SqrtTwo;
    assert -(-x) / SqrtTwo == -y;
    assert m.erfc(y) + m.erfc(-y) == 2.0;
  }

  /** Spot, strike, volatility and maturity floored at `Eps`; rate and
      dividend yield as given. */
  datatype Clamped = Clamped(s: real, k: real, r: real, q: real, sigma: real, t: real)

  function Clamp(option: OptionInput): (c: Clamped)
    ensures c.s >= Eps && c.k >= Eps && c.sigma >= Eps && c.t >= Eps
    ensures option.spot >= Eps ==> c.s == option.spot
    ensures option.strike >= Eps ==> c.k == option.strike
    ensures option.volatility >= Eps ==> c.sigma == option.volatility
    ensures option.timeToMaturity >= Eps ==> c.t == option.timeToMaturity
    ensures option.spot < Eps ==> c.s == Eps
    ensures option.strike < Eps ==> c.k == Eps
    ensures option.volatility < Eps ==> c.sigma == Eps
    ensures option.timeToMaturity < Eps ==> c.t == Eps
    ensures c.r == option.rate && c.q == option.dividendYield
  {
    Clamped(
      Max(option.spot, Eps), Max(option.strike, Eps), option.rate,
      option.dividendYield, Max(option.volatility, Eps), Max(option.timeToMaturity, Eps))
  }

  /** The quantities the pricer derives from its clamped inputs before it
      branches on call or put; `carry` is e^{-qT} and `discount` is e^{-rT}. */
  datatype Terms = Terms(
    c: Clamped, sqrtT: real, sigmaSqT: real, carry: real, forward: real,
    discount: real, strikeDiscount: real, d1: real, d2: real, pdfD1: real, decay: real)

  /** Every factor the formulas divide by or scale with is positive. */
  ghost predicate PositiveFactors(p: Terms) {
    && p.c.s > 0.0 && p.c.k > 0.0 && p.c.sigma > 0.0 && p.c.t > 0.0
    && p.sqrtT > 0.0 && p.sigmaSqT > 0.0 && p.carry > 0.0 && p.forward > 0.0
    && p.discount > 0.0 && p.strikeDiscount > 0.0 && p.pdfD1 > 0.0
  }

  /** d1 of the Black-Scholes formula, from ln(S/K), the drift of the log-price
      and sigma sqrt(T). */
  function D1(logTerm: real, c: Clamped, sigmaSqT: real): real
    requires sigmaSqT > 0.0
  {
    (logTerm + (c.r - c.q + 0.5 * c.sigma * c.sigma) * c.t) / sigmaSqT
  }

  /** The time-decay term shared by the call and the put theta,
      -S e^{-qT} pdf(d1) sigma / (2 sqrt(T)): with positive factors, time
      decay lowers theta. */
  function Decay(c: Clamped, carry: real, pdfD1: real, sqrtT: real): (d: real)
    requires sqrtT > 0.0
    ensures c.s > 0.0 && carry > 0.0 && pdfD1 > 0.0 && c.sigma > 0.0 ==> d < 0.0
  {
    -(c.s * carry * pdfD1 * c.sigma) / (2.0 * sqrtT)
  }

  /** Computes d1 and d2 and the factors shared by both branches; every divisor
      and every scale factor comes out positive. */
  function Prepare(m: MathLib, c: Clamped): (p: Terms)
    requires Lawful(m)
    requires c.s >= Eps && c.k >= Eps && c.sigma >= Eps && c.t >= Eps
    ensures p.c == c
    ensures PositiveFactors(p)
    ensures p.carry == m.exp(-c.q * c.t) && p.discount == m.exp(-c.r * c.t)
    ensures p.forward == c.s * p.carry && p.strikeDiscount == c.k * p.discount
    ensures p.d2 == p.d1 - p.sigmaSqT
  {
    SqrtPositive(m, c.t);
    var sqrtT := m.sqrt(c.t);
    MulPositive(c.sigma, sqrtT);
    var sigmaSqT := c.sigma * sqrtT;
    var carry := m.exp(-c.q * c.t);
    MulPositive(c.s, carry);
    var forward := c.s * carry;
    var discount := m.exp(-c.r * c.t);
    MulPositive(c.k, discount);
    var strikeDiscount := c.k * discount;
    var d1 := D1(m.log(c.s / c.k), c, sigmaSqT);
    var pdfD1 := NormalPdf(m, d1);
    Terms(c, sqrtT, sigmaSqT, carry, forward, discount, strikeDiscount,
          d1, d1 - sigmaSqT, pdfD1, Decay(c, carry, pdfD1, sqrtT))
  }

  /** The Greeks whose formulas differ between a call and a put. */
  datatype Branch = Branch(price: real, delta: real, theta: real, rho: real)

  /** The call formulas, given Phi(d1) and Phi(d2). */
  function CallFormulas(p: Terms, cdfD1: real, cdfD2: real): Branch
  {
    Branch(
      price := p.forward * cdfD1 - p.strikeDiscount * cdfD2,
      delta := p.carry * cdfD1,
      theta := p.decay - (p.c.r * p.strikeDiscount) * cdfD2 + (p.c.q * p.forward) * cdfD1,
      rho := (p.c.t * p.strikeDiscount) * cdfD2)
  }

  /** The put formulas, given Phi(d1), Phi(-d1) and Phi(-d2). */
  function PutFormulas(p: Terms, cdfD1: real, cdfMinusD1: real, cdfMinusD2: real): Branch
  {
    Branch(
      price := p.strikeDiscount * cdfMinusD2 - p.forward * cdfMinusD1,
      delta := p.carry * (cdfD1 - 1.0),
      theta := p.decay + (p.c.r * p.strikeDiscount) * cdfMinusD2 - (p.c.q * p.forward) * cdfMinusD1,
      rho := -(p.c.t * p.strikeDiscount) * cdfMinusD2)
  }

  /** The call branch; its delta lies in [0, e^{-qT}]. */
  function CallBranch(m: MathLib, p: Terms): (b: Branch)
    requires Lawful(m) && PositiveFactors(p)
    ensures 0.0 <= b.delta <= p.carry
  {
    var cdfD1 := NormalCdf(m, p.d1);
    ScaleUnit(p.carry, cdfD1);
    CallFormulas(p, cdfD1, NormalCdf(m, p.d2))
  }

  /** The put branch; its delta lies in [-e^{-qT}, 0]. */
  function PutBranch(m: MathLib, p: Terms): (b: Branch)
    requires Lawful(m) && PositiveFactors(p)
    ensures -p.carry <= b.delta <= 0.0
  {
    var cdfD1 := NormalCdf(m, p.d1);
    ScaleUnit(p.carry, cdfD1);
    PutFormulas(p, cdfD1, NormalCdf(m, -p.d1), NormalCdf(m, -p.d2))
  }

  /** Gamma, computed outside the call/put branch; it is positive. */
  function Gamma(p: Terms): (g: real)
    requires PositiveFactors(p)
    ensures g > 0.0
  {
    MulPositive(p.carry, p.pdfD1);
    MulPositive(p.c.s, p.sigmaSqT);
    p.carry * p.pdfD1 / (p.c.s * p.sigmaSqT)
  }

  /** Vega, computed outside the call/put branch; it is positive. */
  function Vega(p: Terms): (v: real)
    requires PositiveFactors(p)
    ensures v > 0.0
  {
    MulPositive(p.c.s, p.carry);
    MulPositive(p.c.s * p.carry, p.pdfD1);
    MulPositive(p.c.s * p.carry * p.pdfD1, p.sqrtT);
    p.c.s * p.carry * p.pdfD1 * p.sqrtT
  }

  /** Price and Greeks of the option. Gamma and vega are positive; a call's
      delta lies in [0, e^{-qT}] and a put's in [-e^{-qT}, 0], where e^{-qT} is
      the `carry` that `Prepare` computes. */
  function Greeks(m: MathLib, option: OptionInput): (g: OptionGreeks)
    requires Lawful(m)
    ensures g.gamma > 0.0 && g.vega > 0.0
    ensures var p := Prepare(m, Clamp(option));
      && (option.isCall ==> 0.0 <= g.delta <= p.carry)
      && (!option.isCall ==> -p.carry <= g.delta <= 0.0)
  {
    var p := Prepare(m, Clamp(option));
    var b := if option.isCall then CallBranch(m, p) else PutBranch(m, p);
    OptionGreeks(b.price, b.delta, Gamma(p), Vega(p), b.theta, b.rho)
  }

  function AsCall(option: OptionInput): OptionInput { option.(isCall := true) }
  function AsPut(option: OptionInput): OptionInput { option.(isCall := false) }

  /** The call and the put are priced from the same shared terms: each
      takes its branch formulas, and both take the same gamma and vega. */
  lemma SharedTerms(m: MathLib, option: OptionInput)
    requires Lawful(m)
    ensures var p := Prepare(m, Clamp(option));
      var call, put := Greeks(m, AsCall(option)), Greeks(m, AsPut(option));
      && call.price == CallBranch(m, p).price && put.price == PutBranch(m, p).price
      && call.delta == CallBranch(m, p).delta && put.delta == PutBranch(m, p).delta
      && call.theta == CallBranch(m, p).theta && put.theta == PutBranch(m, p).theta
      && call.rho == CallBranch(m, p).rho && put.rho == PutBranch(m, p).rho
      && call.gamma == Gamma(p) == put.gamma
      && call.vega == Vega(p) == put.vega
  {
    assert Clamp(AsCall(option)) == Clamp(option) == Clamp(AsPut(option));
  }

  /** Whatever Phi(d1) and Phi(d2) are, the call and put formulas differ by
      fixed amounts once Phi(-d1) = 1 - Phi(d1) and Phi(-d2) = 1 - Phi(d2). */
  lemma FormulaGaps(p: Terms, x: real, xm: real, y: real, ym: real)
    requires x + xm == 1.0 && y + ym == 1.0
    ensures var call, put := CallFormulas(p, x, y), PutFormulas(p, x, xm, ym);
      && call.price - put.price == p.forward - p.strikeDiscount
      && call.delta - put.delta == p.carry
      && call.rho - put.rho == p.c.t * p.strikeDiscount
      && call.theta - put.theta == p.c.q * p.forward - p.c.r * p.strikeDiscount
  {
    Complement(p.forward, x, xm);
    Complement(p.strikeDiscount, y, ym);
    Complement(p.c.t * p.strikeDiscount, y, ym);
    Complement(p.c.q * p.forward, x, xm);
    Complement(p.c.r * p.strikeDiscount, y, ym);
  }

  /** The call and put branches are linked through Phi(x) + Phi(-x) = 1. */
  lemma BranchGaps(m: MathLib, p: Terms)
    requires Lawful(m) && PositiveFactors(p)
    ensures CallBranch(m, p).price - PutBranch(m, p).price == p.forward - p.strikeDiscount
    ensures CallBranch(m, p).delta - PutBranch(m, p).delta == p.carry
    ensures CallBranch(m, p).rho - PutBranch(m, p).rho == p.c.t * p.strikeDiscount
    ensures CallBranch(m, p).theta - PutBranch(m, p).theta
      == p.c.q * p.forward - p.c.r * p.strikeDiscount
  {
    CdfSymmetry(m, p.d1);
    CdfSymmetry(m, p.d2);
    FormulaGaps(p, NormalCdf(m, p.d1), NormalCdf(m, -p.d1), NormalCdf(m, p.d2), NormalCdf(m, -p.d2));
  }

  /** Put-call parity: C - P = S e^{-qT} - K e^{-rT} on the clamped inputs
      (`forward` is S e^{-qT} and `discount` is e^{-rT}, as `Prepare` states). */
  lemma PutCallParity(m: MathLib, option: OptionInput)
    requires Lawful(m)
    ensures var p := Prepare(m, Clamp(option));
      Greeks(m, AsCall(option)).price - Greeks(m, AsPut(option)).price
        == p.forward - p.strikeDiscount
  {
    var p := Prepare(m, Clamp(option));
    SharedTerms(m, option);
    BranchGaps(m, p);
  }

  /** A call's delta exceeds the put's by exactly e^{-qT}. */
  lemma DeltaGap(m: MathLib, option: OptionInput)
    requires Lawful(m)
    ensures var p := Prepare(m, Clamp(option));
      Greeks(m, AsCall(option)).delta - Greeks(m, AsPut(option)).delta == p.carry
  {
    var p := Prepare(m, Clamp(option));
    SharedTerms(m, option);
    BranchGaps(m, p);
  }

  /** Gamma and vega do not depend on whether the option is a call or a put. */
  lemma GammaVegaAgree(m: MathLib, option: OptionInput)
    requires Lawful(m)
    ensures Greeks(m, AsCall(option)).gamma == Greeks(m, AsPut(option)).gamma
    ensures Greeks(m, AsCall(option)).vega == Greeks(m, AsPut(option)).vega
  {
    SharedTerms(m, option);
  }
}
