/**
 * The normalised Black function b(x, s) = Φ(x/s + s/2)·exp(x/2) - Φ(x/s - s/2)·exp(-x/2)
 * of "Let's Be Rational", its vega, the intrinsic values and the plain Black
 * price, with the dispatch over the evaluation regimes.
 *
 * x = ln(F/K) is the log-moneyness and s = σ·sqrt(T) the total volatility;
 * q = +1 marks a call and q = -1 a put.
 */
module BlackEvaluation {
  import opened Definitions
  import opened SpecialFunctions

  /** Positive prices below this cutoff are treated as zero; it is set to 0. */
  const DENORMALISATION_CUTOFF: real := 0.0

  /** The last coefficient of the intrinsic-value series gives the bound 98 on x² / FOURTH_ROOT_DBL_EPSILON. */
  const INTRINSIC_SERIES_BOUND: real := 98.0 * FOURTH_ROOT_DBL_EPSILON

  /** The argument at which Cody's erfc and erfcx switch formulas. */
  const CODYS_THRESHOLD: real := 0.46875

  /**
   * The collaborators of the evaluator: the special functions, the sums of
   * the two series expansions (as functions of their own variables), and
   * the build switch that selects the formulas of regions 3 and 4.
   */
  datatype Evaluator = Evaluator(
    special: SpecialFunctions,
    /** The 17th-order sum A(h, t) as a function of e = (t/h)² and q = (h/r)², r = (h+t)(h-t). */
    asymptoticExpansionSum: (real, real) -> real,
    /** The 12th-order expansion in t of Y(h+t) - Y(h-t), given a = 1 + h·Y(h), h and t. */
    smallTExpansion: (real, real, real) -> real,
    doNotOptimiseRegions3And4: bool)
  {
    ghost predicate Valid()
    {
      special.Valid()
    }
  }

  /** `fabs(max(b, 0))`, the clamp every evaluator applies: the positive part of b. */
  function PositivePart(b: real): (r: real)
    ensures r >= 0.0
    ensures b >= 0.0 ==> r == b
    ensures b <= 0.0 ==> r == 0.0
  {
    Fabs(Max(b, 0.0))
  }

  /** `is_below_horizon`: a magnitude below the denormalisation cutoff. */
  predicate IsBelowHorizon(x: real)
  {
    Fabs(x) < DENORMALISATION_CUTOFF
  }

  /** With the cutoff at 0 no number is below the horizon, so every branch guarded by it is dead. */
  lemma NothingIsBelowHorizon(x: real)
    ensures !IsBelowHorizon(x)
  {
  }

  /** `householder_factor`: the correction that turns a Newton step into a third-order Householder step. */
  function HouseholderFactor(newton: real, halley: real, hh3: real): (factor: real)
    requires 1.0 + newton * (halley + hh3 * newton / 6.0) != 0.0
    ensures newton == 0.0 ==> factor == 1.0
  {
    (1.0 + 0.5 * halley * newton) / (1.0 + newton * (halley + hh3 * newton / 6.0))
  }

  /**
   * With u = g/g', a = g''/g' and c = g'''/g' for the objective g, the
   * update newton·householder_factor(newton, halley, hh3) at newton = -u,
   * halley = a, hh3 = c is the textbook Householder step of order 3,
   * -u·(1 - u·a/2) / (1 - u·(a - c·u/6)).
   */
  lemma HouseholderFactorGivesThirdOrderStep(u: real, a: real, c: real)
    requires 1.0 - u * (a - c * u / 6.0) != 0.0
    ensures 1.0 + (-u) * (a + c * (-u) / 6.0) != 0.0
    ensures (-u) * HouseholderFactor(-u, a, c) == (-u) * (1.0 - u * a / 2.0) / (1.0 - u * (a - c * u / 6.0))
  {
    var num, den := 1.0 - u * a / 2.0, 1.0 - u * (a - c * u / 6.0);
    assert 1.0 + (-u) * (a + c * (-u) / 6.0) == den;
    assert 1.0 + 0.5 * a * (-u) == num;
    assert HouseholderFactor(-u, a, c) == num / den;
    assert (-u) * (num / den) == (-u) * num / den;
  }

  /**
   * The intrinsic value of the normalised option: 0 out of the money, and
   * q·(exp(x/2) - exp(-x/2)) in the money, by a series near x = 0.
   */
  function NormalisedIntrinsic(sf: SpecialFunctions, x: real, q: real): (v: real)
    requires sf.Valid()
    ensures v >= 0.0
    ensures q * x <= 0.0 ==> v == 0.0
    ensures q * x > 0.0 && x * x < INTRINSIC_SERIES_BOUND ==> v > 0.0
  {
    if q * x <= 0.0 then
      0.0
    else
      var sign := Sel(q < 0.0, -1.0, 1.0);
      SignedMoneynessIsPositive(q, x);
      InTheMoneyIntrinsic(sf, x, sign)
  }

  /** q·x > 0 makes x positive for a call and negative for a put: sel(q < 0, -1, 1)·x > 0. */
  lemma SignedMoneynessIsPositive(q: real, x: real)
    requires q * x > 0.0
    ensures Sel(q < 0.0, -1.0, 1.0) * x > 0.0
  {
    if q < 0.0 {
      SignOfProduct(-q, -x);
    } else {
      SignOfProduct(q, x);
    }
  }

  /**
   * The in-the-money branch of the intrinsic value with sign = ±1 for a call
   * or a put: sign·x times a series near x = 0, sign·(exp(x/2) - exp(-x/2))
   * beyond, clamped to be non-negative.
   */
  function InTheMoneyIntrinsic(sf: SpecialFunctions, x: real, sign: real): (v: real)
    requires sf.Valid()
    ensures v >= 0.0
    ensures sign * x > 0.0 && x * x < INTRINSIC_SERIES_BOUND ==> v > 0.0
  {
    var x2 := x * x;
    if x2 < INTRINSIC_SERIES_BOUND then
      IntrinsicSeriesIsPositive(x, sign);
      PositivePart(sign * x * IntrinsicSeriesFactor(x2))
    else
      var bMax := sf.exp(0.5 * x);
      var oneOverBMax := 1.0 / bMax;
      PositivePart(sign * (bMax - oneOverBMax))
  }

  /** 1 + x²/24 + x⁴/1920 + x⁶/322560 + x⁸/92897280, in Horner form. */
  function IntrinsicSeriesFactor(x2: real): real
  {
    1.0 + x2 * ((1.0 / 24.0) + x2 * ((1.0 / 1920.0) + x2 * ((1.0 / 322560.0) + (1.0 / 92897280.0) * x2)))
  }

  lemma IntrinsicSeriesIsPositive(x: real, sign: real)
    ensures sign * x > 0.0 ==> sign * x * IntrinsicSeriesFactor(x * x) > 0.0
  {
    var x2 := x * x;
    assert x2 >= 0.0;
    var inner := (1.0 / 322560.0) + (1.0 / 92897280.0) * x2;
    assert inner > 0.0;
    var middle := (1.0 / 1920.0) + x2 * inner;
    assert x2 * inner >= 0.0;
    var outer := (1.0 / 24.0) + x2 * middle;
    assert x2 * middle >= 0.0;
    assert x2 * outer >= 0.0;
    assert IntrinsicSeriesFactor(x2) >= 1.0;
    var signedX := sign * x;
    if signedX > 0.0 {
      assert signedX * IntrinsicSeriesFactor(x2) > 0.0;
    }
  }

  /** Flipping both the sign and x leaves the in-the-money branch unchanged. */
  lemma InTheMoneyIntrinsicIsSymmetric(sf: SpecialFunctions, x: real, sign: real)
    requires sf.Valid()
    ensures InTheMoneyIntrinsic(sf, x, sign) == InTheMoneyIntrinsic(sf, -x, -sign)
  {
    assert (-x) * (-x) == x * x;
    if x * x < INTRINSIC_SERIES_BOUND {
      assert (-sign) * (-x) == sign * x;
    } else {
      var e, f := sf.exp(0.5 * x), sf.exp(0.5 * (-x));
      assert 0.5 * (-x) == -(0.5 * x);
      assert e * f == 1.0;
      assert 1.0 / f == e;
      assert 1.0 / e == f;
      assert (-sign) * (f - e) == sign * (e - f);
    }
  }

  /** `normalised_intrinsic_call`. */
  function NormalisedIntrinsicCall(sf: SpecialFunctions, x: real): (v: real)
    requires sf.Valid()
    ensures v >= 0.0
    ensures x <= 0.0 ==> v == 0.0
  {
    NormalisedIntrinsic(sf, x, 1.0)
  }

  /** Reciprocal-strike symmetry: the intrinsic value of (x, q) is that of (-x, -q). */
  lemma NormalisedIntrinsicIsSymmetric(sf: SpecialFunctions, x: real, q: real)
    requires sf.Valid()
    ensures NormalisedIntrinsic(sf, x, q) == NormalisedIntrinsic(sf, -x, -q)
  {
    assert (-q) * (-x) == q * x;
    if q * x > 0.0 {
      assert q != 0.0;
      assert Sel(-q < 0.0, -1.0, 1.0) == -Sel(q < 0.0, -1.0, 1.0);
      InTheMoneyIntrinsicIsSymmetric(sf, x, Sel(q < 0.0, -1.0, 1.0));
    }
  }

  /** Only the sign of q matters: q > 0 prices a call at x, q < 0 a call at -x, and q = 0 nothing. */
  lemma NormalisedIntrinsicOfCallOrPut(sf: SpecialFunctions, x: real, q: real)
    requires sf.Valid()
    ensures q > 0.0 ==> NormalisedIntrinsic(sf, x, q) == NormalisedIntrinsicCall(sf, x)
    ensures q < 0.0 ==> NormalisedIntrinsic(sf, x, q) == NormalisedIntrinsicCall(sf, -x)
    ensures q == 0.0 ==> NormalisedIntrinsic(sf, x, q) == 0.0
  {
    if q > 0.0 {
      SignOfProduct(q, x);
      SignOfProduct(1.0, x);
      NormalisedIntrinsicDependsOnSignOnly(sf, x, q, 1.0);
    } else if q < 0.0 {
      NormalisedIntrinsicIsSymmetric(sf, x, q);
      SignOfProduct(-q, -x);
      SignOfProduct(1.0, -x);
      NormalisedIntrinsicDependsOnSignOnly(sf, -x, -q, 1.0);
    }
  }

  lemma NormalisedIntrinsicDependsOnSignOnly(sf: SpecialFunctions, x: real, q: real, q2: real)
    requires sf.Valid()
    requires (q * x <= 0.0) == (q2 * x <= 0.0)
    requires (q < 0.0) == (q2 < 0.0)
    ensures NormalisedIntrinsic(sf, x, q) == NormalisedIntrinsic(sf, x, q2)
  {
    assert Sel(q < 0.0, -1.0, 1.0) == Sel(q2 < 0.0, -1.0, 1.0);
  }

  /** The asymptotic expansion for large negative h - |t|, clamped to be non-negative. */
  function AsymptoticExpansionOfNormalisedBlackCall(ev: Evaluator, h: real, t: real): (b: real)
    requires h != 0.0 && h + t != 0.0 && h - t != 0.0
    ensures b >= 0.0
  {
    var hPlusT, hMinusT := h + t, h - t;
    ProductIsNonZero(hPlusT, hMinusT);
    var r := hPlusT * hMinusT;
    var e := (t / h) * (t / h);
    var q := (h / r) * (h / r);
    PositivePart(ONE_OVER_SQRT_TWO_PI * ev.special.exp(-0.5 * (h * h + t * t)) * (t / r) * ev.asymptoticExpansionSum(e, q))
  }

  lemma SignOfProduct(q: real, x: real)
    requires q > 0.0
    ensures q * x > 0.0 <==> x > 0.0
    ensures q * x <= 0.0 <==> x <= 0.0
  {
    if x > 0.0 {
      assert q * x > 0.0;
    } else {
      assert q * (-x) >= 0.0;
    }
  }

  lemma ProductIsNonZero(a: real, b: real)
    requires a != 0.0 && b != 0.0
    ensures a * b != 0.0
  {
  }

  /** The expansion for small t, clamped to be non-negative. */
  function SmallTExpansionOfNormalisedBlackCall(ev: Evaluator, h: real, t: real): (b: real)
    ensures b >= 0.0
  {
    var a := 1.0 + h * (0.5 * SQRT_TWO_PI) * ev.special.erfcx(-ONE_OVER_SQRT_TWO * h);
    PositivePart(ONE_OVER_SQRT_TWO_PI * ev.special.exp(-0.5 * (h * h + t * t)) * ev.smallTExpansion(a, h, t))
  }

  /** The Black formula through the cumulative normal, clamped to be non-negative. */
  function NormalisedBlackCallUsingNormCdf(sf: SpecialFunctions, x: real, s: real): (b: real)
    requires sf.Valid()
    requires s != 0.0
    ensures b >= 0.0
  {
    var h := x / s;
    var t := 0.5 * s;
    var bMax := sf.exp(0.5 * x);
    PositivePart(sf.normCdf(h + t) * bMax - sf.normCdf(h - t) / bMax)
  }

  /** The Black formula through Cody's scaled complementary error function, clamped to be non-negative. */
  function NormalisedBlackCallUsingErfcx(sf: SpecialFunctions, h: real, t: real): (b: real)
    ensures b >= 0.0
  {
    PositivePart(0.5 * sf.exp(-0.5 * (h * h + t * t)) * (sf.erfcx(-ONE_OVER_SQRT_TWO * (h + t)) - sf.erfcx(-ONE_OVER_SQRT_TWO * (h - t))))
  }

  /**
   * The Black formula written with erfc or erfcx for each of its two terms,
   * whichever of Cody's branches avoids an exponential, clamped to be non-negative.
   */
  function NormalisedBlackCallWithOptimalUseOfCodysFunctions(sf: SpecialFunctions, x: real, s: real): (b: real)
    requires s != 0.0
    ensures b >= 0.0
  {
    var h := x / s;
    var t := 0.5 * s;
    var q1 := -ONE_OVER_SQRT_TWO * (h + t);
    var q2 := -ONE_OVER_SQRT_TWO * (h - t);
    var twoB :=
      if q1 < CODYS_THRESHOLD then
        if q2 < CODYS_THRESHOLD then
          sf.exp(0.5 * x) * sf.erfc(q1) - sf.exp(-0.5 * x) * sf.erfc(q2)
        else
          sf.exp(0.5 * x) * sf.erfc(q1) - sf.exp(-0.5 * (h * h + t * t)) * sf.erfcx(q2)
      else if q2 < CODYS_THRESHOLD then
        sf.exp(-0.5 * (h * h + t * t)) * sf.erfcx(q1) - sf.exp(-0.5 * x) * sf.erfc(q2)
      else
        sf.exp(-0.5 * (h * h + t * t)) * (sf.erfcx(q1) - sf.erfcx(q2));
    PositivePart(0.5 * twoB)
  }

  /** The formula the out-of-the-money evaluation picks. */
  datatype Regime =
    | ZeroVolatility
    | AsymptoticExpansion
    | SmallTExpansion
    | NormCdf
    | Erfcx
    | OptimalCody

  /**
   * The regime of an out-of-the-money call (x <= 0), decided without dividing
   * by s. Stated in h = x/s and t = s/2: the first test is |h| > |η| together
   * with t < τ + |h| - |η|, the second t < τ, the third h + t > 0.85; the
   * tests are tried in this order.
   */
  function RegimeOfNormalisedBlackCall(ev: Evaluator, x: real, s: real): (regime: Regime)
    requires x <= 0.0
    ensures regime == ZeroVolatility <==> s <= 0.0
    ensures s > 0.0 ==>
      var h, t := x / s, 0.5 * s;
      var eta, tau := ASYMPTOTIC_EXPANSION_ACCURACY_THRESHOLD, SMALL_T_EXPANSION_OF_NORMALISED_BLACK_THRESHOLD;
      var asymptotic := h < eta && t < tau + Fabs(h) - Fabs(eta);
      && (regime == AsymptoticExpansion <==> asymptotic)
      && (regime == SmallTExpansion <==> !asymptotic && t < tau)
      && (regime == NormCdf <==> !asymptotic && t >= tau && ev.doNotOptimiseRegions3And4 && h + t > 0.85)
      && (regime == Erfcx <==> !asymptotic && t >= tau && ev.doNotOptimiseRegions3And4 && h + t <= 0.85)
      && (regime == OptimalCody <==> !asymptotic && t >= tau && !ev.doNotOptimiseRegions3And4)
    ensures regime == AsymptoticExpansion ==> x / s < 0.0 && x / s + 0.5 * s < 0.0 && x / s - 0.5 * s < 0.0
  {
    var eta := ASYMPTOTIC_EXPANSION_ACCURACY_THRESHOLD;
    var tau := SMALL_T_EXPANSION_OF_NORMALISED_BLACK_THRESHOLD;
    if s <= Fabs(x) * DENORMALISATION_CUTOFF then
      ZeroVolatility
    else
      DivisionFreeTests(x, s);
      if x < s * eta && 0.5 * s * s + x < s * (tau + eta) then
        AsymptoticExpansion
      else if 0.5 * s < tau then
        SmallTExpansion
      else if ev.doNotOptimiseRegions3And4 then
        if x + 0.5 * s * s > s * 0.85 then NormCdf else Erfcx
      else
        OptimalCody
  }

  /** The division-free tests of the regime selection are the tests in h = x/s and t = s/2. */
  lemma DivisionFreeTests(x: real, s: real)
    requires s > 0.0
    ensures x < s * ASYMPTOTIC_EXPANSION_ACCURACY_THRESHOLD <==> x / s < ASYMPTOTIC_EXPANSION_ACCURACY_THRESHOLD
    ensures 0.5 * s * s + x < s * (SMALL_T_EXPANSION_OF_NORMALISED_BLACK_THRESHOLD + ASYMPTOTIC_EXPANSION_ACCURACY_THRESHOLD)
      <==> 0.5 * s + x / s < SMALL_T_EXPANSION_OF_NORMALISED_BLACK_THRESHOLD + ASYMPTOTIC_EXPANSION_ACCURACY_THRESHOLD
    ensures x + 0.5 * s * s > s * 0.85 <==> x / s + 0.5 * s > 0.85
  {
    var h := x / s;
    assert x == h * s;
    ScaleByPositive(h, ASYMPTOTIC_EXPANSION_ACCURACY_THRESHOLD, s);
    assert 0.5 * s * s + x == (0.5 * s + h) * s;
    ScaleByPositive(0.5 * s + h, SMALL_T_EXPANSION_OF_NORMALISED_BLACK_THRESHOLD + ASYMPTOTIC_EXPANSION_ACCURACY_THRESHOLD, s);
    var m := h + 0.5 * s;
    assert x + 0.5 * s * s == m * s;
    ScaleByPositive(0.85, m, s);
    assert (x + 0.5 * s * s > s * 0.85) == (0.85 * s < m * s);
  }

  lemma ScaleByPositive(a: real, b: real, s: real)
    requires s > 0.0
    ensures a * s < b * s <==> a < b
  {
    assert (b - a) * s == b * s - a * s;
    if a < b {
      assert (b - a) * s > 0.0;
    } else {
      assert (a - b) * s >= 0.0;
    }
  }

  /**
   * `normalised_black_call`: an in-the-money call is its intrinsic value plus
   * the out-of-the-money call at -x (one level of recursion); otherwise the
   * formula of the selected regime.
   */
  function NormalisedBlackCall(ev: Evaluator, x: real, s: real): (b: real)
    requires ev.Valid()
    ensures b >= 0.0
    ensures b >= NormalisedIntrinsicCall(ev.special, x)
    decreases if x > 0.0 then 1 else 0
  {
    if x > 0.0 then
      NormalisedIntrinsicCall(ev.special, x) + NormalisedBlackCall(ev, -x, s)
    else
      OutOfTheMoneyNormalisedBlackCall(ev, x, s)
  }

  /**
   * The out-of-the-money call (x <= 0): the formula of the selected regime,
   * and the intrinsic value, 0, at zero volatility.
   */
  function OutOfTheMoneyNormalisedBlackCall(ev: Evaluator, x: real, s: real): (b: real)
    requires ev.Valid()
    requires x <= 0.0
    ensures b >= 0.0
    ensures s <= 0.0 ==> b == 0.0
  {
    match RegimeOfNormalisedBlackCall(ev, x, s)
    case ZeroVolatility => NormalisedIntrinsicCall(ev.special, x)
    case AsymptoticExpansion => AsymptoticExpansionOfNormalisedBlackCall(ev, x / s, 0.5 * s)
    case SmallTExpansion => SmallTExpansionOfNormalisedBlackCall(ev, x / s, 0.5 * s)
    case NormCdf => NormalisedBlackCallUsingNormCdf(ev.special, x, s)
    case Erfcx => NormalisedBlackCallUsingErfcx(ev.special, x / s, 0.5 * s)
    case OptimalCody => NormalisedBlackCallWithOptimalUseOfCodysFunctions(ev.special, x, s)
  }

  /** At zero (or negative) volatility the out-of-the-money call is worth nothing and the in-the-money call its intrinsic value. */
  lemma NormalisedBlackCallAtZeroVolatility(ev: Evaluator, x: real, s: real)
    requires ev.Valid()
    requires s <= 0.0
    ensures NormalisedBlackCall(ev, x, s) == NormalisedIntrinsicCall(ev.special, x)
  {
    if x > 0.0 {
      assert NormalisedBlackCall(ev, -x, s) == 0.0;
    }
  }

  /** `normalised_black`: a put at x is priced as the call at -x. */
  function NormalisedBlack(ev: Evaluator, x: real, s: real, q: real): (b: real)
    requires ev.Valid()
    ensures b >= 0.0
    ensures b >= NormalisedIntrinsic(ev.special, x, q)
  {
    NormalisedIntrinsicOfCallOrPut(ev.special, x, q);
    NormalisedBlackCall(ev, Sel(q < 0.0, -x, x), s)
  }

  /** In the money, the call is its intrinsic value plus the out-of-the-money call at -x. */
  lemma NormalisedBlackCallInTheMoney(ev: Evaluator, x: real, s: real)
    requires ev.Valid()
    requires x > 0.0
    ensures NormalisedBlackCall(ev, x, s) == NormalisedIntrinsicCall(ev.special, x) + NormalisedBlackCall(ev, -x, s)
  {
  }

  /** A call (q >= 0) is priced at x, a put (q < 0) as the call at -x. */
  lemma NormalisedBlackOfCallOrPut(ev: Evaluator, x: real, s: real, q: real)
    requires ev.Valid()
    ensures q < 0.0 ==> NormalisedBlack(ev, x, s, q) == NormalisedBlackCall(ev, -x, s)
    ensures q >= 0.0 ==> NormalisedBlack(ev, x, s, q) == NormalisedBlackCall(ev, x, s)
  {
  }

  /**
   * Put-call parity of the normalised prices: the call minus the put at the
   * same x is the call's intrinsic value minus the put's.
   */
  lemma NormalisedPutCallParity(ev: Evaluator, x: real, s: real)
    requires ev.Valid()
    ensures NormalisedBlack(ev, x, s, 1.0) - NormalisedBlack(ev, x, s, -1.0)
      == NormalisedIntrinsic(ev.special, x, 1.0) - NormalisedIntrinsic(ev.special, x, -1.0)
  {
    var sf := ev.special;
    NormalisedIntrinsicOfCallOrPut(sf, x, -1.0);
    NormalisedBlackOfCallOrPut(ev, x, s, 1.0);
    NormalisedBlackOfCallOrPut(ev, x, s, -1.0);
    if x > 0.0 {
      NormalisedBlackCallInTheMoney(ev, x, s);
      assert NormalisedIntrinsicCall(sf, -x) == 0.0;
    } else if x < 0.0 {
      NormalisedBlackCallInTheMoney(ev, -x, s);
      assert NormalisedIntrinsicCall(sf, x) == 0.0;
    } else {
      assert -x == x;
    }
  }

  /**
   * `normalised_vega`, ∂b/∂s = exp(-(h² + t²)/2)/sqrt(2π): at the money the
   * exact value, and 0 when s is not positive or so small against |x| that
   * h² would overflow.
   */
  function NormalisedVega(sf: SpecialFunctions, x: real, s: real): (v: real)
    requires sf.Valid()
    ensures v >= 0.0
    ensures v == 0.0 <==> x != 0.0 && (s <= 0.0 || s <= Fabs(x) * SQRT_DBL_MIN)
  {
    var ax := Fabs(x);
    if ax <= 0.0 then
      ONE_OVER_SQRT_TWO_PI * sf.exp(-0.125 * s * s)
    else if s <= 0.0 || s <= ax * SQRT_DBL_MIN then
      0.0
    else
      ONE_OVER_SQRT_TWO_PI * sf.exp(-0.5 * (Square(x / s) + Square(0.5 * s)))
  }

  /** The intrinsic value of an undiscounted option with forward f and strike k. */
  function Intrinsic(f: real, k: real, q: real): (v: real)
    ensures v >= 0.0
    ensures q * (f - k) > 0.0 ==> v == Fabs(f - k)
    ensures q * (f - k) <= 0.0 && q != 0.0 ==> v == 0.0
  {
    PositivePart(Sel(q < 0.0, k - f, f - k))
  }

  /**
   * `black`: the undiscounted Black price. In the money it is the intrinsic
   * value plus the out-of-the-money price of the opposite option (one level of
   * recursion); otherwise sqrt(f·k)·b(ln(f/k), σ·sqrt(T)), never below intrinsic.
   */
  function Black(ev: Evaluator, f: real, k: real, sigma: real, t: real, q: real): (price: real)
    requires ev.Valid()
    requires k != 0.0
    ensures price >= 0.0
    ensures price >= Intrinsic(f, k, q)
    decreases if q * (f - k) > 0.0 then 1 else 0
  {
    var intrinsic := Intrinsic(f, k, q);
    if q * (f - k) > 0.0 then
      intrinsic + Black(ev, f, k, sigma, t, -q)
    else
      Max(intrinsic, ScaledNormalisedBlack(ev, f, k, LogMoneyness(ev.special, f, k), TotalVolatility(ev.special, sigma, t), q))
  }

  /** sqrt(f)·sqrt(k)·b(x, s), at x = ln(f/k) and s = σ·sqrt(T): the Black price before it is floored at intrinsic. */
  function ScaledNormalisedBlack(ev: Evaluator, f: real, k: real, x: real, s: real, q: real): real
    requires ev.Valid()
  {
    Denormalise(ev.special, f, k, NormalisedBlack(ev, x, s, q))
  }

  /** x = ln(f/k). */
  function LogMoneyness(sf: SpecialFunctions, f: real, k: real): real
    requires k != 0.0
  {
    sf.log(f / k)
  }

  /** s = σ·sqrt(T). */
  function TotalVolatility(sf: SpecialFunctions, sigma: real, t: real): real
  {
    sigma * sf.sqrt(t)
  }

  /** A normalised price b scaled back to the price of forward f and strike k: sqrt(f)·sqrt(k)·b. */
  function Denormalise(sf: SpecialFunctions, f: real, k: real, b: real): real
  {
    (sf.sqrt(f) * sf.sqrt(k)) * b
  }

  /** Put-call parity of the undiscounted Black prices: the call minus the put is f - k. */
  lemma BlackPutCallParity(ev: Evaluator, f: real, k: real, sigma: real, t: real)
    requires ev.Valid()
    requires k != 0.0
    ensures Black(ev, f, k, sigma, t, 1.0) - Black(ev, f, k, sigma, t, -1.0) == f - k
  {
    if f > k {
      BlackInTheMoney(ev, f, k, sigma, t, 1.0);
    } else if f < k {
      BlackInTheMoney(ev, f, k, sigma, t, -1.0);
    } else {
      BlackAtTheMoney(ev, f, k, sigma, t);
    }
  }

  /** In the money, the Black price is the intrinsic value |f - k| plus the price of the opposite option. */
  lemma BlackInTheMoney(ev: Evaluator, f: real, k: real, sigma: real, t: real, q: real)
    requires ev.Valid()
    requires k != 0.0
    requires q * (f - k) > 0.0
    ensures Black(ev, f, k, sigma, t, q) == Fabs(f - k) + Black(ev, f, k, sigma, t, -q)
  {
  }

  /** Out of the money, the Black price is the scaled normalised price, floored at the intrinsic value. */
  lemma BlackOutOfTheMoney(ev: Evaluator, f: real, k: real, sigma: real, t: real, q: real)
    requires ev.Valid()
    requires k != 0.0
    requires q * (f - k) <= 0.0
    ensures Black(ev, f, k, sigma, t, q)
      == Max(Intrinsic(f, k, q), ScaledNormalisedBlack(ev, f, k, LogMoneyness(ev.special, f, k), TotalVolatility(ev.special, sigma, t), q))
  {
  }

  /** At x = 0 the call and the put have the same scaled price. */
  lemma ScaledNormalisedBlackAtTheMoney(ev: Evaluator, f: real, k: real, s: real)
    requires ev.Valid()
    ensures ScaledNormalisedBlack(ev, f, k, 0.0, s, 1.0) == ScaledNormalisedBlack(ev, f, k, 0.0, s, -1.0)
  {
    NormalisedBlackOfCallOrPut(ev, 0.0, s, 1.0);
    NormalisedBlackOfCallOrPut(ev, 0.0, s, -1.0);
  }

  /** At the money, f = k, the log-moneyness is 0. */
  lemma LogMoneynessAtTheMoney(sf: SpecialFunctions, f: real, k: real)
    requires sf.Valid()
    requires k != 0.0 && f == k
    ensures LogMoneyness(sf, f, k) == 0.0
  {
    assert f / k == 1.0;
    assert !(sf.log(1.0) > 0.0) && !(sf.log(1.0) < 0.0);
  }

  /** At the money the call and the put have the same Black price. */
  lemma BlackAtTheMoney(ev: Evaluator, f: real, k: real, sigma: real, t: real)
    requires ev.Valid()
    requires k != 0.0 && f == k
    ensures Black(ev, f, k, sigma, t, 1.0) == Black(ev, f, k, sigma, t, -1.0)
  {
    assert 1.0 * (f - k) == 0.0 && -1.0 * (f - k) == 0.0;
    BlackOutOfTheMoney(ev, f, k, sigma, t, 1.0);
    BlackOutOfTheMoney(ev, f, k, sigma, t, -1.0);
    assert Intrinsic(f, k, 1.0) == 0.0 && Intrinsic(f, k, -1.0) == 0.0;
    LogMoneynessAtTheMoney(ev.special, f, k);
    ScaledNormalisedBlackAtTheMoney(ev, f, k, TotalVolatility(ev.special, sigma, t));
  }
}
