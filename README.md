# Let's Be Rational: a verified model of the implied-volatility core

This project models the core of a Rust implementation of Peter Jäckel's
"Let's Be Rational" algorithm. The algorithm finds the Black implied
volatility of an option price in at most two iterations. The model has four
modules:

- `Definitions` (`definitions.dfy`): the machine constants, the two volatility
  sentinels and the scalar helpers `max`, `sel`, `is_zero`, `fabs`, `square`
  and `d_int`.
- `RationalCubic` (`rational_cubic.dfy`): the rational cubic interpolant of
  Delbourgo and Gregory, the control parameters that fit a second derivative
  at either end, the least shape-preserving control parameter, and the two
  "convex" variants that combine them.
- `BlackEvaluation` (`normalised_black.dfy`):
  - the normalised intrinsic value;
  - the five evaluators of the normalised Black call and the ordered regime
    selection between them;
  - the in-the-money to out-of-the-money reduction;
  - the normalised vega, the undiscounted Black price and the Householder
    factor.
- `ImpliedVolatility` (`implied_volatility.dfy`):
  - the out-of-the-money mapping and the entry guards;
  - the lower and upper boundary maps and their inverses;
  - the four-segment rational-cubic initial guess;
  - the refinement loop with its bracket, step clamp, reversal counter and
    bisection fallback;
  - the guarded entry points, for prices and for normalised prices.

`special_functions.dfy` (module `SpecialFunctions`) holds the numerical
collaborators:
- `exp`, `log`, `sqrt`;
- Cody's `erfc` and `erfcx`;
- the cumulative normal and its inverse.

They are a record of function values. Its `Valid` predicate lists the only
facts the proofs use:
- `exp` is positive and `exp(y)·exp(-y) = 1`;
- `sqrt` is positive on positive numbers;
- `log` has the sign of its argument's distance from 1;
- the inverse cumulative normal is a right inverse on (0, 1).

Every theorem therefore holds for any implementation of these functions that
has these properties.

Doubles are modelled as `real`:
- Constants whose double value is a power of two, and `DBL_MAX`, are exact.
- `SQRT_DBL_MAX` and the small-t threshold τ = 2·ε^(1/16) are rounded
  decimals.

Seeding divides by the vega taken at three volatilities: s_c, s_l and s_h. A
zero vega at s_l or s_h makes a derivative of the interpolation infinite.
Every control parameter fitted from it is then infinite or NaN, so the
interpolation takes its straight-line branch. The model seeds those two cases
linearly. A zero vega at s_c with β below b_c makes s_l = −∞, and the seed
becomes s = −∞. That seed still passes the loop test once. The one iteration
computes a NaN step, is counted, and the loop then stops. Only that case gives
`Outcome.NonFinite`, after min(n, 1) iterations.

The refinement loop is written once. In the source the same loop appears three
times, once per objective function:
- `lets_be_rational.rs:454-494`, the lowest segment, g = 1/ln b − 1/ln β;
- `lets_be_rational.rs:549-589`, the upper segment, g = ln(b_max − β) − ln(b_max − b);
- `lets_be_rational.rs:602-632`, the middle segments, g = b − β.

Here the loop is the method `ImpliedVolatility.Refine`. Its body is the
function `ImpliedVolatility.SafeguardedStep`, and the `Objective` datatype
selects the step. The loop invariants prove the following:
- the iteration count never exceeds n;
- the bracket only tightens;
- every end that moved is an iterate priced on its own side of β;
- the loop stops for one of the source's three reasons;
- a positive start keeps s positive.

## Model

| member | source | states |
|---|---|---|
| `Definitions.SentinelsBracketZero` | src/definitions.rs:3-4 | The below-intrinsic sentinel is negative, the above-maximum sentinel is positive, and each is the negative of the other (f64::MIN = −f64::MAX). |
| `Definitions.Fabs` | src/definitions.rs:60-62 | The result is non-negative, equals x or −x, and dominates both. |
| `Definitions.FabsIsEven` | src/definitions.rs:60-62 | fabs(−x) = fabs(x), and fabs(x) = 0 exactly when x = 0. |
| `Definitions.IsZero` | src/definitions.rs:21-23 | `is_zero` holds exactly on the open interval (−DBL_MIN, DBL_MIN). |
| `Definitions.IsZeroIsOpenInterval` | src/definitions.rs:21-23 | 0 is zero, and no number whose magnitude is at least DBL_MIN is. |
| `Definitions.Max` | src/definitions.rs:26-32 | The result is an upper bound of both arguments and is one of them; on a tie it is the first. |
| `Definitions.Sel` | src/definitions.rs:65-71 | The result is x when c holds and y otherwise. |
| `Definitions.Square` | src/definitions.rs:55-57 | The square is non-negative and equals fabs(x)·fabs(x). |
| `Definitions.DInt` | src/definitions.rs:74-80 | The result is an integer on the zero side of x, less than 1 away from it. |
| `Definitions.DIntIsOdd` | src/definitions.rs:74-80 | d_int(−x) = −d_int(x). |
| `Definitions.DIntIsNearestIntegerTowardZero` | src/definitions.rs:74-80 | No integer lies strictly between x and d_int(x) on the way to zero. |
| `Definitions.ScalarHelperExamples` | src/definitions.rs:86-134 | The values the unit tests of `max`, `fabs`, `sel` and `d_int` assert. |
| `RationalCubic.ControlParameterBounds` | src/rational_cubic.rs:4-7 | MAXIMUM is 2/ε² and (1 + MINIMUM)² = ε. Also −1 < MINIMUM < 0 < MAXIMUM. |
| `RationalCubic.InterpolationOfDegenerateInterval` | src/rational_cubic.rs:12-15 | With x_l = x_r the interpolant is the average of the two ordinates, whatever x and r. |
| `RationalCubic.RationalCubicInterpolation` | src/rational_cubic.rs:11-28 | On a proper interval the interpolant passes through (x_l, y_l) and (x_r, y_r), for every r. |
| `RationalCubic.InterpolationIsLinearForLargeControlParameter` | src/rational_cubic.rs:18-27 | From r = MAXIMUM upwards the interpolant is the straight line through the two points. |
| `RationalCubic.InterpolationReproducesStraightLines` | src/rational_cubic.rs:17-24 | Data on a straight line are interpolated by that line, for every admissible r. |
| `RationalCubic.DenominatorIsPositiveOnInterval` | src/rational_cubic.rs:16-24 | For r > −1 the denominator 1 + (r−3)·t·(1−t) is positive for t in [0, 1]. |
| `RationalCubic.InterpolationIsDefinedOnInterval` | src/rational_cubic.rs:16-24 | An abscissa between the two ends and r > −1 keep the interpolant defined. |
| `RationalCubic.ControlParameterToFitSecondDerivativeAtLeftSide` | src/rational_cubic.rs:31-46 | The result is 0 for a zero numerator, and ±the bound (by the numerator's sign) for a zero denominator. Otherwise r·((y_r−y_l)/h − d_l) = ½·h·f'' + (d_r − d_l). |
| `RationalCubic.ControlParameterToFitSecondDerivativeAtRightSide` | src/rational_cubic.rs:49-64 | The same three cases, with the fitting equation r·(d_r − (y_r−y_l)/h) = ½·h·f'' + (d_r − d_l). |
| `RationalCubic.CubicNumeratorExpansion` | src/rational_cubic.rs:20-24 | The numerator of the cubic branch, as a polynomial in t, has coefficients y_l, b − 3y_l, 3y_l − 2b + a and y_r − a + b − y_l, where a = r·y_r − h·d_r and b = r·y_l + h·d_l. |
| `RationalCubic.CubicBranchIsSymmetric` | src/rational_cubic.rs:20-24 | Reading the interval backwards (t → 1 − t) swaps y_l with y_r and d_l with −d_r, and keeps the denominator. |
| `RationalCubic.LeftFitEquationGivesSecondDerivative` | src/rational_cubic.rs:33-45 | A control parameter that solves the left fitting equation makes the t² Taylor coefficient c₂ of the cubic branch at x_l satisfy 2·c₂ = f''·h². |
| `RationalCubic.ControlParameterFitsSecondDerivativeAtLeftSide` | src/rational_cubic.rs:31-46 | Wherever the left fit divides by a non-zero denominator, the interpolant's second derivative at x_l is f'' (2·c₂ = f''·h²). |
| `RationalCubic.ControlParameterFitsSecondDerivativeAtRightSide` | src/rational_cubic.rs:49-64 | Wherever the right fit divides by a non-zero denominator, the interpolant's second derivative at x_r is f''. |
| `RationalCubic.MinimumRationalCubicControlParameter` | src/rational_cubic.rs:67-101 | The result is never below MINIMUM, and is exactly MINIMUM for data that are neither monotonic, convex nor concave. |
| `RationalCubic.MinimumControlParameterMeetsMonotonicityCondition` | src/rational_cubic.rs:78-84 | For monotonic data with a non-zero secant slope s, the result satisfies the monotonicity condition r ≥ (d_l + d_r)/s. |
| `RationalCubic.MinimumControlParameterMeetsConvexityCondition` | src/rational_cubic.rs:89-95 | For convex or concave data whose end slopes differ from the secant slope, the result satisfies the convexity condition r ≥ max(\|(d_r−d_l)/(d_r−s)\|, \|(d_r−d_l)/(s−d_l)\|). |
| `RationalCubic.MinimumControlParameterForcesStraightLine` | src/rational_cubic.rs:81-99 | With shape preservation preferred, a zero secant slope on monotonic data, monotonic data that are neither convex nor concave, or a convexity condition that would divide by zero give a result of at least MAXIMUM, which forces linear interpolation. |
| `RationalCubic.ConvexControlParameterToFitSecondDerivativeAtLeftSide` | src/rational_cubic.rs:105-118 | The result is at least the parameter fitted at the left side and at least MINIMUM. |
| `RationalCubic.ConvexControlParameterToFitSecondDerivativeAtLeftSideIsLargerOfBoth` | src/rational_cubic.rs:115-117 | The result is at least the shape-preserving minimum and equals either it or the fitted parameter. |
| `RationalCubic.ConvexControlParameterToFitSecondDerivativeAtRightSide` | src/rational_cubic.rs:122-135 | The result is at least the parameter fitted at the right side and at least MINIMUM. |
| `RationalCubic.ConvexControlParameterToFitSecondDerivativeAtRightSideIsLargerOfBoth` | src/rational_cubic.rs:132-134 | The result is at least the shape-preserving minimum and equals either it or the fitted parameter. |
| `BlackEvaluation.PositivePart` | src/lets_be_rational.rs:106-107 | fabs(max(b, 0)) is b when b ≥ 0 and 0 otherwise. |
| `BlackEvaluation.NothingIsBelowHorizon` | src/lets_be_rational.rs:319-321 | Because DENORMALISATION_CUTOFF is 0, `is_below_horizon` is false for every number. |
| `BlackEvaluation.HouseholderFactor` | src/lets_be_rational.rs:71-74 | The factor is 1 when the Newton step is 0, so a Householder step is then no step. |
| `BlackEvaluation.HouseholderFactorGivesThirdOrderStep` | src/lets_be_rational.rs:380-386 | With newton = −g/g', halley = g''/g' and hh3 = g'''/g', newton·factor is the Householder step of order 3, −u·(1 − u·a/2)/(1 − u·(a − c·u/6)), and its denominator is the one the factor divides by. |
| `BlackEvaluation.NormalisedIntrinsic` | src/lets_be_rational.rs:139-154 | The result is non-negative and is 0 out of the money. It is positive in the money on the series branch. |
| `BlackEvaluation.NormalisedIntrinsicCall` | src/lets_be_rational.rs:157-159 | The result is non-negative and is 0 for x ≤ 0. |
| `BlackEvaluation.NormalisedIntrinsicIsSymmetric` | src/lets_be_rational.rs:139-154 | Swapping the strike for its reciprocal and flipping the option type, (x, q) → (−x, −q), keeps the intrinsic value, on the exponential branch as well as on the series branch. |
| `BlackEvaluation.NormalisedIntrinsicOfCallOrPut` | src/lets_be_rational.rs:139-159 | Only the sign of q matters: a positive q gives the call at x, a negative q the call at −x, and q = 0 gives 0. |
| `BlackEvaluation.AsymptoticExpansionOfNormalisedBlackCall` | src/lets_be_rational.rs:100-108 | The result is non-negative; it is defined wherever h, h + t and h − t are non-zero. |
| `BlackEvaluation.SmallTExpansionOfNormalisedBlackCall` | src/lets_be_rational.rs:126-136 | The result is non-negative. |
| `BlackEvaluation.NormalisedBlackCallUsingNormCdf` | src/lets_be_rational.rs:167-173 | The result is non-negative for every s ≠ 0. |
| `BlackEvaluation.NormalisedBlackCallUsingErfcx` | src/lets_be_rational.rs:212-215 | The result is non-negative. |
| `BlackEvaluation.NormalisedBlackCallWithOptimalUseOfCodysFunctions` | src/lets_be_rational.rs:237-256 | The result is non-negative in each of the four erfc/erfcx combinations. |
| `BlackEvaluation.RegimeOfNormalisedBlackCall` | src/lets_be_rational.rs:273-297 | The regimes are tried in order: zero volatility exactly when s ≤ 0; asymptotic exactly when h < η and t < τ + \|h\| − \|η\|; then small t exactly when t < τ; then the regions 3/4 split at h + t = 0.85 under the build switch. The asymptotic regime has h, h + t and h − t all negative. |
| `BlackEvaluation.DivisionFreeTests` | src/lets_be_rational.rs:276-290 | For s > 0, the source's division-free comparisons are exactly the tests h < η, h + t < τ + η and h + t > 0.85. |
| `BlackEvaluation.OutOfTheMoneyNormalisedBlackCall` | src/lets_be_rational.rs:273-297 | For x ≤ 0 the selected regime's price is non-negative, and it is 0 at zero volatility. |
| `BlackEvaluation.NormalisedBlackCall` | src/lets_be_rational.rs:269-298 | The price is non-negative and never below the normalised intrinsic value. In the money it recurses one level, to the out-of-the-money call at −x. |
| `BlackEvaluation.NormalisedBlackCallInTheMoney` | src/lets_be_rational.rs:270-272 | For x > 0 the call is the intrinsic value plus the out-of-the-money call at −x. |
| `BlackEvaluation.NormalisedBlackCallAtZeroVolatility` | src/lets_be_rational.rs:270-275 | At s ≤ 0 the call is worth exactly its intrinsic value. |
| `BlackEvaluation.NormalisedBlack` | src/lets_be_rational.rs:301-304 | The price is non-negative and at least the intrinsic value of (x, q). |
| `BlackEvaluation.NormalisedBlackOfCallOrPut` | src/lets_be_rational.rs:301-304 | A call (q ≥ 0) is priced as the call at x, a put (q < 0) as the call at −x. |
| `BlackEvaluation.NormalisedPutCallParity` | src/lets_be_rational.rs:269-304 | b(x, s, +1) − b(x, s, −1) equals the call's intrinsic value minus the put's. |
| `BlackEvaluation.NormalisedVega` | src/lets_be_rational.rs:307-316 | The vega is non-negative. It is 0 exactly off the money when s ≤ 0 or s ≤ \|x\|·sqrt(DBL_MIN), which is the vega underflow guard. |
| `BlackEvaluation.Intrinsic` | src/lets_be_rational.rs:260 | The intrinsic value is \|f − k\| in the money and 0 out of the money. |
| `BlackEvaluation.Black` | src/lets_be_rational.rs:259-266 | The Black price is non-negative and never below the intrinsic value, with one level of in-the-money recursion. |
| `BlackEvaluation.BlackPutCallParity` | src/lets_be_rational.rs:259-266 | Black(call) − Black(put) = f − k, for every f, k ≠ 0, σ and T. |
| `BlackEvaluation.BlackInTheMoney` | src/lets_be_rational.rs:261-264 | In the money, the price is \|f − k\| plus the price of the opposite option. |
| `BlackEvaluation.BlackOutOfTheMoney` | src/lets_be_rational.rs:265 | Out of the money the price is the larger of the intrinsic value and sqrt(f)·sqrt(k)·b(ln(f/k), σ·sqrt(T), q). |
| `BlackEvaluation.BlackAtTheMoney` | src/lets_be_rational.rs:265 | At f = k the call and the put have the same price. |
| `ImpliedVolatility.OutOfTheMoneyCall` | src/lets_be_rational.rs:391-399 | The mapped log-moneyness is ±x and is ≤ 0 for q ≠ 0. An out-of-the-money quote is kept, and an in-the-money one becomes a non-negative price. |
| `ImpliedVolatility.OutOfTheMoneyCallKeepsTheQuote` | src/lets_be_rational.rs:391-399 | If β is the price of (x, q) at s, the mapped price is the price of the mapped out-of-the-money call at the same s, so the mapping preserves the implied volatility. |
| `ImpliedVolatility.DenormalisationGuardIsDead` | src/lets_be_rational.rs:404-407 | No positive price lies below DENORMALISATION_CUTOFF = 0. |
| `ImpliedVolatility.LowerMap` | src/lets_be_rational.rs:324-345 | The second derivative is always its formula; the value and the first derivative follow the horizon cases. |
| `ImpliedVolatility.LowerMapIsItsFormula` | src/lets_be_rational.rs:332-343 | Since nothing is below the horizon, the lower map and both derivatives are always the formula values. |
| `ImpliedVolatility.UpperMap` | src/lets_be_rational.rs:348-361 | The map's value is Φ(−s/2). |
| `ImpliedVolatility.InverseLowerMap` | src/lets_be_rational.rs:364-370 | The inverse lower map is non-negative. |
| `ImpliedVolatility.InverseUpperMap` | src/lets_be_rational.rs:373-375 | For f in (0, 1) the result s satisfies Φ(−s/2) = f. |
| `ImpliedVolatility.UpperMapOfInverseUpperMap` | src/lets_be_rational.rs:373-375 | For f in (0, 1) the upper map at −2·Φ⁻¹(f) takes the value f. |
| `ImpliedVolatility.ProposedStep` | src/lets_be_rational.rs:476-489 | On the lowest segment a price or vega at or below 0 makes the step land on the bracket midpoint; so does a price at b_max or a vega at or below DBL_MIN on the upper segment (lines 572-575). Otherwise the step is the objective's Householder step, as on the middle segments (lines 626-629). |
| `ImpliedVolatility.Seed` | src/lets_be_rational.rs:422-536 | It gives up exactly when β < b_c and the vega at s_c is 0. Below b_c the right end is priced above β and the left end is DBL_MIN or priced at most β. From b_c up the left end is priced at most β and the right end is DBL_MAX or priced at least β. The lowest segment keeps DBL_MIN on the left. The upper segment keeps DBL_MAX on the right, needs β > b_max/2, and has its left end priced below β. |
| `ImpliedVolatility.SeedAndRefine` | src/lets_be_rational.rs:412-634 | At most n iterations. The result is non-finite exactly when β < b_c and the vega at s_c is 0. It then comes after min(n, 1) iterations: the single iteration on the seed −∞ that yields NaN (lines 602-631). |
| `ImpliedVolatility.SafeguardedStep` | src/lets_be_rational.rs:454-493 | One pass of the loop body. It stops exactly when it bisects and the bracket is at most ε·s wide, leaving s at the midpoint. Otherwise the count goes up by one, the step is clamped to ds ≥ −s/2 and s becomes s + ds. A bisection resets the reversal counter and the previous step. The bracket only tightens: a moved right end is an iterate priced above β, a moved left end one priced below β. |
| `ImpliedVolatility.SafeguardedStepKeepsVolatilityPositive` | src/lets_be_rational.rs:491-492 | With a positive s and a positive bracket, a step keeps s and the bracket positive. |
| `ImpliedVolatility.SafeguardedStepBoundsReversals` | src/lets_be_rational.rs:455-466 | The reversal counter stays at or below 2 after each completed step, so the test `3 == count` is the only trigger needed. |
| `ImpliedVolatility.Refine` | src/lets_be_rational.rs:454-494 | The loop: iterations ≤ n, and the bracket only tightens with every moved end priced on its own side of β. It exits because the budget is spent, \|ds\| ≤ ε·s, or the bracket collapsed. A positive start keeps s positive. |
| `ImpliedVolatility.UncheckedNormalisedImpliedVolatility` | src/lets_be_rational.rs:390-634 | On the out-of-the-money (β, x): β ≤ 0 gives 0, and β ≥ exp(x/2) gives the above-maximum sentinel, both after 0 iterations. Otherwise the solver seeds one of four segments and runs at most n iterations. A non-finite result comes after min(n, 1) iterations. |
| `ImpliedVolatility.LogMoneynessHasTheSignOfMoneyness` | src/lets_be_rational.rs:651-656 | For f, k > 0, q·ln(f/k) > 0 exactly when q·(f − k) > 0, so the two in-the-money tests of the wrapper agree. |
| `ImpliedVolatility.ImpliedVolatilityFromATransformedRationalGuessWithLimitedIterations` | src/lets_be_rational.rs:642-658 | A price below intrinsic gives the below-intrinsic sentinel. A price at or above the maximum (k for a put, f for a call) gives the above-maximum sentinel. A price equal to intrinsic (and below the maximum) gives 0. A non-positive forward or strike always gives one of the two sentinels. |
| `ImpliedVolatility.ImpliedVolatilityFromATransformedRationalGuess` | src/lets_be_rational.rs:637-639 | The same guarantees, with the default budget of 2 iterations. |
| `ImpliedVolatility.NormalisedImpliedVolatilityFromATransformedRationalGuessWithLimitedIterations` | src/lets_be_rational.rs:660-670 | A normalised price below the normalised intrinsic value gives the below-intrinsic sentinel, and one equal to it gives 0. An out-of-the-money price at or above b_max = exp(x/2) gives the above-maximum sentinel. |
| `ImpliedVolatility.NormalisedImpliedVolatilityFromATransformedRationalGuess` | src/lets_be_rational.rs:672-674 | The same guarantees, sentinels included, with the default budget of 2 iterations. |

## Left out

- The special functions are opaque: the exponential, logarithm and square root
  wrappers, `pow`, Cody's erf/erfc/erfcx, and the cumulative normal and its
  inverse. They are given by their values together with the facts in
  `SpecialFunctions.Valid`.
- The two series bodies are opaque for the same reason: the 17th-order
  asymptotic sum and the 12th-order small-t expansion. Their transcription is
  a fixed table of coefficients. The evaluators around them are modelled.
- The boundary-map formulas are opaque: the lower map and its two derivatives,
  the upper map's two derivatives, and the quotient inside the inverse lower
  map. The horizon cases and the upper map's value Φ(−s/2) are modelled.
- The Householder step of each objective is an opaque input of the solver. It
  is newton·householder_factor(newton, halley, hh3), with the newton, halley
  and hh3 terms that lines 480-489, 576-584 and 626-629 compute from b, b'
  and the objective. The factor itself is modelled and proved correct
  separately. Real arithmetic cannot represent the infinities these terms
  produce when b' or ln b is 0.
- Accuracy claims (full double precision after two iterations) are left out.
  Proving them needs the floating-point semantics and the special-function
  error bounds.
- IEEE behaviour (NaN propagation, infinities, rounding) is left out. A zero
  vega at s_l or s_h is modelled by the straight-line seed that its infinite
  control parameter selects. A zero vega at s_c with β below b_c gives
  `NonFinite`.
- The atomic global tunables are left out: the maximum iteration count is the
  constant `IMPLIED_VOLATILITY_MAXIMUM_ITERATIONS` or the explicit n. The
  output-type switch is left out too; the iteration count is returned next to
  the volatility instead.
- The compile-time switch for regions 3 and 4 is a boolean field of the
  evaluator, so both builds are covered. The switch that changes the
  Householder order is left out; the default order 4 is modelled.
- `ImpliedVolatility.UncheckedNormalisedImpliedVolatility` omits the
  `beta < DENORMALISATION_CUTOFF` return of line 405. The guard is dead, as
  `ImpliedVolatility.DenormalisationGuardIsDead` proves.
- `ImpliedVolatility.UncheckedNormalisedImpliedVolatility`: its contract
  covers the guards and the iteration bound. The bracket and the termination
  facts of the search are stated on `ImpliedVolatility.Refine`. The
  volatility it returns is not related to β, because the seed comes from
  opaque maps.
- `ImpliedVolatility.ImpliedVolatilityFromATransformedRationalGuessWithLimitedIterations`
  requires t > 0. With t ≤ 0 the source, past the sentinel guards, divides by
  sqrt(t), which is 0 or NaN.
  A non-positive f or k is modelled: it always reaches a sentinel before the
  logarithm.
- `lib.rs` and the test-only helpers are not part of this model.
