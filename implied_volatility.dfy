/**
 * The implied-volatility solver of "Let's Be Rational": the out-of-the-money
 * mapping and entry guards, the rational-cubic initial guess on one of four
 * segments, and the bracketed Householder refinement with its bisection
 * safeguard, followed by the two guarded entry points.
 */
module ImpliedVolatility {
  import opened Definitions
  import opened SpecialFunctions
  import opened RationalCubic
  import opened BlackEvaluation

  /** The default iteration budget of the solver. */
  const IMPLIED_VOLATILITY_MAXIMUM_ITERATIONS: nat := 2

  /** The objective function the refinement drives to zero on each segment. */
  datatype Objective =
    | /** g(s) = 1/ln(b(x,s)) - 1/ln(beta), on the lowest segment. */
      Lowest
    | /** g(s) = b(x,s) - beta, on the two middle segments and the lower half of the upper one. */
      Middle
    | /** g(s) = ln(b_max - beta) - ln(b_max - b(x,s)), on the upper segment above b_max/2. */
      Upper

  /**
   * The collaborators of the solver: the Black evaluator, the formulas of the
   * two boundary maps and of the inverse lower map, and the Householder step
   * newton·householder_factor(newton, halley, hh3) of each objective.
   */
  datatype Solver = Solver(
    evaluator: Evaluator,
    lowerMapValue: (real, real) -> real,
    lowerMapFirstDerivative: (real, real) -> real,
    lowerMapSecondDerivative: (real, real) -> real,
    upperMapFirstDerivative: (real, real) -> real,
    upperMapSecondDerivative: (real, real) -> real,
    /** The quotient x / (sqrt(3)·Φ⁻¹((f/(2π/sqrt(27)·|x|))^(1/3))) of the inverse lower map. */
    inverseLowerMapQuotient: (real, real) -> real,
    /** The step of the objective at (x, beta, b_max, s, b(x,s), b'(x,s)). */
    householderStep: (Objective, real, real, real, real, real, real) -> real)
  {
    ghost predicate Valid()
    {
      evaluator.Valid()
    }
  }

  /** The result of the solver: a volatility, or a value the source's double arithmetic would leave the finite numbers for. */
  datatype Outcome = Finite(volatility: real) | NonFinite

  /** The normalised call price b(x, s) the solver inverts. */
  function Price(sv: Solver, x: real, s: real): (b: real)
    requires sv.Valid()
    ensures b >= 0.0
  {
    NormalisedBlackCall(sv.evaluator, x, s)
  }

  /**
   * Subtract the intrinsic value from an in-the-money quote and flip the
   * option type, then map a put to the call at -x. The pair returned is the
   * out-of-the-money call price and its log-moneyness.
   */
  function OutOfTheMoneyCall(sf: SpecialFunctions, beta: real, x: real, q: real): (r: (real, real))
    requires sf.Valid()
    ensures q != 0.0 ==> r.1 <= 0.0
    ensures r.1 == x || r.1 == -x
    ensures q * x <= 0.0 ==> r.0 == beta
    ensures q * x > 0.0 ==> r.0 >= 0.0
  {
    if q * x > 0.0 then
      var otm := PositivePart(beta - NormalisedIntrinsic(sf, x, q));
      (otm, if -q < 0.0 then -x else x)
    else
      (beta, if q < 0.0 then -x else x)
  }

  /**
   * The mapping keeps the quote: if beta is the normalised price of the
   * option (x, q) at total volatility s, the mapped price is that of the
   * mapped out-of-the-money call at the same s. So the solver may invert the
   * call instead.
   */
  lemma OutOfTheMoneyCallKeepsTheQuote(ev: Evaluator, beta: real, x: real, q: real, s: real)
    requires ev.Valid()
    requires q != 0.0
    requires beta == NormalisedBlack(ev, x, s, q)
    ensures var r := OutOfTheMoneyCall(ev.special, beta, x, q);
      r.0 == NormalisedBlackCall(ev, r.1, s)
  {
    var sf := ev.special;
    var y := Sel(q < 0.0, -x, x);
    NormalisedIntrinsicOfCallOrPut(sf, x, q);
    if q * x > 0.0 {
      assert y > 0.0 by { SignOfProduct(if q > 0.0 then q else -q, if q > 0.0 then x else -x); }
      assert beta == NormalisedIntrinsicCall(sf, y) + NormalisedBlackCall(ev, -y, s);
      assert NormalisedIntrinsic(sf, x, q) == NormalisedIntrinsicCall(sf, y);
    }
  }

  /** With the denormalisation cutoff at 0, the guard on positive prices below it never fires. */
  lemma DenormalisationGuardIsDead(beta: real)
    requires beta > 0.0
    ensures !(beta < DENORMALISATION_CUTOFF)
  {
  }

  /**
   * `compute_f_lower_map_and_first_two_derivatives`: the lower boundary map
   * and its first two derivatives at (x, s), with the horizon cases.
   */
  function LowerMap(sv: Solver, x: real, s: real): (m: (real, real, real))
    ensures m.2 == sv.lowerMapSecondDerivative(x, s)
  {
    var fpp := sv.lowerMapSecondDerivative(x, s);
    if IsBelowHorizon(s) then
      (0.0, 1.0, fpp)
    else
      (if IsBelowHorizon(x) then 0.0 else sv.lowerMapValue(x, s), sv.lowerMapFirstDerivative(x, s), fpp)
  }

  /** As no number is below the horizon, the lower map is always given by its formulas. */
  lemma LowerMapIsItsFormula(sv: Solver, x: real, s: real)
    ensures LowerMap(sv, x, s) == (sv.lowerMapValue(x, s), sv.lowerMapFirstDerivative(x, s), sv.lowerMapSecondDerivative(x, s))
  {
    NothingIsBelowHorizon(s);
    NothingIsBelowHorizon(x);
  }

  /**
   * `compute_f_upper_map_and_first_two_derivatives`: the upper boundary map
   * Φ(-s/2) and its first two derivatives, with the horizon case.
   */
  function UpperMap(sv: Solver, x: real, s: real): (m: (real, real, real))
    ensures m.0 == sv.evaluator.special.normCdf(-0.5 * s)
  {
    var f := sv.evaluator.special.normCdf(-0.5 * s);
    if IsBelowHorizon(x) then
      (f, -0.5, 0.0)
    else
      (f, sv.upperMapFirstDerivative(x, s), sv.upperMapSecondDerivative(x, s))
  }

  /** `inverse_f_lower_map`: the volatility at which the lower map takes the value f. */
  function InverseLowerMap(sv: Solver, x: real, f: real): (s: real)
    ensures s >= 0.0
  {
    Sel(IsBelowHorizon(f), 0.0, Fabs(sv.inverseLowerMapQuotient(x, f)))
  }

  /** `inverse_f_upper_map`: the volatility s with Φ(-s/2) = f. */
  function InverseUpperMap(sf: SpecialFunctions, f: real): (s: real)
    ensures sf.Valid() && 0.0 < f < 1.0 ==> sf.normCdf(-0.5 * s) == f
  {
    -2.0 * sf.inverseNormCdf(f)
  }

  /** The inverse upper map inverts the upper map: at s = InverseUpperMap(f) the map takes the value f. */
  lemma UpperMapOfInverseUpperMap(sv: Solver, x: real, f: real)
    requires sv.Valid()
    requires 0.0 < f < 1.0
    ensures UpperMap(sv, x, InverseUpperMap(sv.evaluator.special, f)).0 == f
  {
    var sf := sv.evaluator.special;
    assert -0.5 * InverseUpperMap(sf, f) == sf.inverseNormCdf(f);
  }

  /** The state the refinement loop carries from one iteration to the next. */
  datatype Refinement = Refinement(
    s: real,
    ds: real,
    dsPrevious: real,
    sLeft: real,
    sRight: real,
    iterations: nat,
    reversals: nat)

  /** One iteration of the refinement: it either completes a step or finds the bracket collapsed and stops. */
  datatype StepOutcome = Stepped(state: Refinement) | Collapsed(state: Refinement)

  /** The direction-reversal count after comparing the last two steps. */
  function CountReversal(st: Refinement): nat
  {
    if st.ds * st.dsPrevious < 0.0 then st.reversals + 1 else st.reversals
  }

  /** After the first iteration, three reversals or an iterate outside the open bracket switch to bisection. */
  predicate Bisects(st: Refinement)
  {
    st.iterations > 0 && (CountReversal(st) == 3 || !(st.sLeft < st.s < st.sRight))
  }

  /** The midpoint of the bracket. */
  function Midpoint(st: Refinement): real
  {
    0.5 * (st.sLeft + st.sRight)
  }

  /**
   * The step the objective proposes at s, where b and bp are the price and
   * vega there. The lowest and upper objectives fall back to the bracket
   * midpoint when b or bp has underflowed (or b has reached b_max).
   */
  function ProposedStep(sv: Solver, objective: Objective, x: real, beta: real, bMax: real, s: real, b: real, bp: real, sLeft: real, sRight: real): (step: real)
    ensures var underflow := (objective == Lowest && (b <= 0.0 || bp <= 0.0)) || (objective == Upper && (b >= bMax || bp <= DBL_MIN));
      && (underflow ==> s + step == 0.5 * (sLeft + sRight))
      && (!underflow ==> step == sv.householderStep(objective, x, beta, bMax, s, b, bp))
  {
    match objective
    case Lowest =>
      if b <= 0.0 || bp <= 0.0 then 0.5 * (sLeft + sRight) - s
      else sv.householderStep(Lowest, x, beta, bMax, s, b, bp)
    case Upper =>
      if b >= bMax || bp <= DBL_MIN then 0.5 * (sLeft + sRight) - s
      else sv.householderStep(Upper, x, beta, bMax, s, b, bp)
    case Middle =>
      sv.householderStep(Middle, x, beta, bMax, s, b, bp)
  }

  /**
   * The body of the refinement loop shared by the three objectives: count
   * direction reversals, bisect when needed (stopping once the bracket is
   * narrower than DBL_EPSILON·s), tighten the bracket with the price at s,
   * and take the proposed step, never shrinking s by more than half.
   */
  function SafeguardedStep(sv: Solver, objective: Objective, x: real, beta: real, bMax: real, st: Refinement): (next: StepOutcome)
    requires sv.Valid()
    ensures next.Collapsed? <==> Bisects(st) && st.sRight - st.sLeft <= DBL_EPSILON * Midpoint(st)
    ensures next.Collapsed? ==> next.state == st.(s := Midpoint(st), reversals := CountReversal(st))
    ensures next.Stepped? ==>
      var m := next.state;
      var sUsed := if Bisects(st) then Midpoint(st) else st.s;
      && m.iterations == st.iterations + 1
      && m.ds >= -0.5 * sUsed
      && m.s == sUsed + m.ds
      && (Bisects(st) ==> m.reversals == 0 && m.dsPrevious == 0.0)
      && (!Bisects(st) ==> m.reversals == CountReversal(st) && m.dsPrevious == st.ds)
      && st.sLeft <= m.sLeft && m.sRight <= st.sRight
      && (m.sLeft == st.sLeft || (m.sLeft == sUsed && Price(sv, x, sUsed) < beta))
      && (m.sRight == st.sRight || (m.sRight == sUsed && Price(sv, x, sUsed) > beta))
  {
    var reversals := CountReversal(st);
    var bisect := Bisects(st);
    var s := if bisect then Midpoint(st) else st.s;
    if bisect && st.sRight - st.sLeft <= DBL_EPSILON * s then
      Collapsed(st.(s := s, reversals := reversals))
    else
      var reversals := if bisect then 0 else reversals;
      var ds := if bisect then 0.0 else st.ds;
      var b := Price(sv, x, s);
      var bp := NormalisedVega(sv.evaluator.special, x, s);
      var (sLeft, sRight) :=
        if b > beta && s < st.sRight then (st.sLeft, s)
        else if b < beta && s > st.sLeft then (s, st.sRight)
        else (st.sLeft, st.sRight);
      var step := Max(-0.5 * s, ProposedStep(sv, objective, x, beta, bMax, s, b, bp, sLeft, sRight));
      Stepped(Refinement(s + step, step, ds, sLeft, sRight, st.iterations + 1, reversals))
  }

  /** Each completed step keeps s positive, given a positive bracket and a positive s to start from. */
  lemma SafeguardedStepKeepsVolatilityPositive(sv: Solver, objective: Objective, x: real, beta: real, bMax: real, st: Refinement)
    requires sv.Valid()
    requires st.s > 0.0 && st.sLeft > 0.0 && st.sRight > 0.0
    ensures var next := SafeguardedStep(sv, objective, x, beta, bMax, st);
      next.state.s > 0.0 && next.state.sLeft > 0.0 && next.state.sRight > 0.0
  {
  }

  /** A step leaves the reversal count below 3 if it was so before and nothing reversed before the first iteration. */
  lemma SafeguardedStepBoundsReversals(sv: Solver, objective: Objective, x: real, beta: real, bMax: real, st: Refinement)
    requires sv.Valid()
    requires st.reversals <= 2
    requires st.iterations == 0 ==> st.dsPrevious == 0.0 && st.reversals == 0
    ensures var next := SafeguardedStep(sv, objective, x, beta, bMax, st);
      next.Stepped? ==> next.state.reversals <= 2
  {
    if st.iterations == 0 {
      assert st.ds * st.dsPrevious == 0.0;
    }
  }

  /**
   * The refinement loop: iterate the safeguarded step while the budget n
   * lasts and the last step is larger than DBL_EPSILON·s. The bracket only
   * tightens, and each end that moved is an iterate priced on its side of
   * beta.
   */
  method Refine(sv: Solver, objective: Objective, x: real, beta: real, bMax: real, start: Refinement, n: nat)
    returns (final: Refinement)
    requires sv.Valid()
    requires start.iterations == 0 && start.reversals == 0 && start.dsPrevious == 0.0
    ensures final.iterations <= n
    ensures start.sLeft <= final.sLeft && final.sRight <= start.sRight
    ensures final.sLeft == start.sLeft || Price(sv, x, final.sLeft) < beta
    ensures final.sRight == start.sRight || Price(sv, x, final.sRight) > beta
    ensures final.iterations == n || Fabs(final.ds) <= DBL_EPSILON * final.s || final.sRight - final.sLeft <= DBL_EPSILON * final.s
    ensures start.s > 0.0 && start.sLeft > 0.0 && start.sRight > 0.0 ==> final.s > 0.0
  {
    var positive := start.s > 0.0 && start.sLeft > 0.0 && start.sRight > 0.0;
    final := start;
    while final.iterations < n && Fabs(final.ds) > DBL_EPSILON * final.s
      invariant final.iterations <= n
      invariant start.sLeft <= final.sLeft && final.sRight <= start.sRight
      invariant final.sLeft == start.sLeft || Price(sv, x, final.sLeft) < beta
      invariant final.sRight == start.sRight || Price(sv, x, final.sRight) > beta
      invariant final.reversals <= 2
      invariant final.iterations == 0 ==> final.dsPrevious == 0.0 && final.reversals == 0
      invariant positive ==> final.s > 0.0 && final.sLeft > 0.0 && final.sRight > 0.0
      decreases n - final.iterations
    {
      var next := SafeguardedStep(sv, objective, x, beta, bMax, final);
      SafeguardedStepBoundsReversals(sv, objective, x, beta, bMax, final);
      if positive {
        SafeguardedStepKeepsVolatilityPositive(sv, objective, x, beta, bMax, final);
      }
      if next.Collapsed? {
        final := next.state;
        break;
      }
      final := next.state;
    }
  }

  /**
   * `unchecked_normalised_implied_volatility_from_a_transformed_rational_guess_with_limited_iterations`:
   * map to an out-of-the-money call, return 0 for non-positive prices and the
   * above-maximum sentinel for prices at or above b_max = exp(x/2), otherwise
   * seed with the rational-cubic guess of the segment beta falls in and refine
   * with at most n iterations.
   */
  method UncheckedNormalisedImpliedVolatility(sv: Solver, beta0: real, x0: real, q: real, n: nat)
    returns (outcome: Outcome, iterations: nat)
    requires sv.Valid()
    ensures iterations <= n
    ensures outcome.NonFinite? ==> iterations == (if n > 0 then 1 else 0)
    ensures var (beta, x) := OutOfTheMoneyCall(sv.evaluator.special, beta0, x0, q);
      && (beta <= 0.0 ==> outcome == Finite(0.0) && iterations == 0)
      && (beta > 0.0 && beta >= sv.evaluator.special.exp(0.5 * x) ==>
            outcome == Finite(VOLATILITY_VALUE_TO_SIGNAL_PRICE_IS_ABOVE_MAXIMUM) && iterations == 0)
  {
    var sf := sv.evaluator.special;
    var (beta, x) := OutOfTheMoneyCall(sf, beta0, x0, q);
    if beta <= 0.0 {
      return Finite(0.0), 0;
    }
    DenormalisationGuardIsDead(beta);
    var bMax := sf.exp(0.5 * x);
    if beta >= bMax {
      return Finite(VOLATILITY_VALUE_TO_SIGNAL_PRICE_IS_ABOVE_MAXIMUM), 0;
    }
    outcome, iterations := SeedAndRefine(sv, beta, x, n);
  }

  /**
   * The initial guess s and the bracket (sLeft, sRight) of the refinement with
   * the objective to drive to zero, or none when the vega at the central point
   * s_c has underflowed to zero below it.
   */
  datatype InitialGuess =
    | Guess(s: real, sLeft: real, sRight: real, objective: Objective)
    | ZeroCentralVega

  /**
   * The rational-cubic guess on the segment beta falls in, for an
   * out-of-the-money price strictly between 0 and b_max = exp(x/2). The four
   * segments are split at b_l, b_c and b_h. Each bracket end the segment sets
   * is a volatility priced on its side of beta, and the two outer segments
   * leave the far end at DBL_MIN or DBL_MAX.
   */
  method Seed(sv: Solver, beta: real, x: real) returns (guess: InitialGuess)
    requires sv.Valid()
    requires 0.0 < beta < sv.evaluator.special.exp(0.5 * x)
    ensures var sC := sv.evaluator.special.sqrt(Fabs(2.0 * x));
      var bC := Price(sv, x, sC);
      && (guess.ZeroCentralVega? <==> beta < bC && NormalisedVega(sv.evaluator.special, x, sC) == 0.0)
      && (guess.Guess? && beta < bC ==>
            && Price(sv, x, guess.sRight) > beta
            && (guess.sLeft == DBL_MIN || Price(sv, x, guess.sLeft) <= beta))
      && (guess.Guess? && beta >= bC ==>
            && Price(sv, x, guess.sLeft) <= beta
            && (guess.sRight == DBL_MAX || Price(sv, x, guess.sRight) >= beta))
    ensures guess.Guess? && guess.objective == Lowest ==>
      guess.sLeft == DBL_MIN && Price(sv, x, guess.sRight) > beta
    ensures guess.Guess? && guess.objective == Upper ==>
      guess.sRight == DBL_MAX && Price(sv, x, guess.sLeft) < beta && beta > 0.5 * sv.evaluator.special.exp(0.5 * x)
  {
    var ev := sv.evaluator;
    var sf := ev.special;
    var bMax := sf.exp(0.5 * x);
    ControlParameterBounds();
    var f := -DBL_MAX;
    var s: real;
    var sLeft, sRight := DBL_MIN, DBL_MAX;
    var objective := Middle;
    var sC := sf.sqrt(Fabs(2.0 * x));
    var bC := Price(sv, x, sC);
    var vC := NormalisedVega(sf, x, sC);
    if beta < bC {
      if vC == 0.0 {
        return ZeroCentralVega;
      }
      var sL := sC - bC / vC;
      var bL := Price(sv, x, sL);
      if beta < bL {
        // The lowest segment, interpolated in the lower map.
        var (fL, dfL, d2fL) := LowerMap(sv, x, sL);
        var rLL := ConvexControlParameterToFitSecondDerivativeAtRightSide(0.0, bL, 0.0, fL, 1.0, dfL, d2fL, true);
        InterpolationIsDefinedOnInterval(beta, 0.0, bL, rLL);
        f := RationalCubicInterpolation(beta, 0.0, bL, 0.0, fL, 1.0, dfL, rLL);
        if f <= 0.0 {
          var t := beta / bL;
          f := (fL * t + bL * (1.0 - t)) * t;
        }
        s := InverseLowerMap(sv, x, f);
        sRight := sL;
        objective := Lowest;
      } else {
        // The lower middle segment, interpolated in s.
        var vL := NormalisedVega(sf, x, sL);
        if vL == 0.0 {
          // The slope 1/vL is infinite: the control parameter becomes +inf or
          // NaN, and the interpolation takes its linear branch.
          var t := (beta - bL) / (bC - bL);
          s := sC * t + sL * (1.0 - t);
        } else {
          var rLM := ConvexControlParameterToFitSecondDerivativeAtRightSide(bL, bC, sL, sC, 1.0 / vL, 1.0 / vC, 0.0, false);
          InterpolationIsDefinedOnInterval(beta, bL, bC, rLM);
          s := RationalCubicInterpolation(beta, bL, bC, sL, sC, 1.0 / vL, 1.0 / vC, rLM);
        }
        sLeft, sRight := sL, sC;
      }
    } else {
      var sH := if vC > DBL_MIN then sC + (bMax - bC) / vC else sC;
      var bH := Price(sv, x, sH);
      if beta <= bH {
        // The upper middle segment, interpolated in s.
        var vH := NormalisedVega(sf, x, sH);
        if bH == bC {
          // The fitted parameter would divide by bH - bC = 0; the interpolant
          // over a collapsed interval is the average whatever the parameter.
          s := 0.5 * (sC + sH);
        } else if vH == 0.0 {
          // The slope 1/vH is infinite: the control parameter becomes +inf and
          // the interpolation takes its linear branch.
          var t := (beta - bC) / (bH - bC);
          s := sH * t + sC * (1.0 - t);
        } else {
          var rHM := ConvexControlParameterToFitSecondDerivativeAtLeftSide(bC, bH, sC, sH, 1.0 / vC, 1.0 / vH, 0.0, false);
          InterpolationIsDefinedOnInterval(beta, bC, bH, rHM);
          s := RationalCubicInterpolation(beta, bC, bH, sC, sH, 1.0 / vC, 1.0 / vH, rHM);
        }
        sLeft, sRight := sC, sH;
      } else {
        // The upper segment, interpolated in the upper map.
        var (fU, dfU, d2fU) := UpperMap(sv, x, sH);
        if -SQRT_DBL_MAX < d2fU < SQRT_DBL_MAX {
          var rHH := ConvexControlParameterToFitSecondDerivativeAtLeftSide(bH, bMax, fU, 0.0, dfU, -0.5, d2fU, true);
          InterpolationIsDefinedOnInterval(beta, bH, bMax, rHH);
          f := RationalCubicInterpolation(beta, bH, bMax, fU, 0.0, dfU, -0.5, rHH);
        }
        if f <= 0.0 {
          var h := bMax - bH;
          var t := (beta - bH) / h;
          f := (fU * (1.0 - t) + 0.5 * h * t) * (1.0 - t);
        }
        s := InverseUpperMap(sf, f);
        sLeft := sH;
        if beta > 0.5 * bMax {
          objective := Upper;
        }
      }
    }
    guess := Guess(s, sLeft, sRight, objective);
  }

  /**
   * The search proper, for an out-of-the-money price strictly between 0 and
   * b_max = exp(x/2): the initial guess and bracket, then at most n
   * refinement iterations with the segment's objective. It leaves the finite
   * numbers exactly when the central vega has underflowed below b_c. Then the
   * seed is s = -inf, which still passes the loop test once: that iteration
   * computes a NaN step and is counted before the loop stops.
   */
  method SeedAndRefine(sv: Solver, beta: real, x: real, n: nat)
    returns (outcome: Outcome, iterations: nat)
    requires sv.Valid()
    requires 0.0 < beta < sv.evaluator.special.exp(0.5 * x)
    ensures iterations <= n
    ensures outcome.NonFinite? ==> iterations == (if n > 0 then 1 else 0)
    ensures var sC := sv.evaluator.special.sqrt(Fabs(2.0 * x));
      outcome.NonFinite? <==> beta < Price(sv, x, sC) && NormalisedVega(sv.evaluator.special, x, sC) == 0.0
  {
    var guess := Seed(sv, beta, x);
    if guess.ZeroCentralVega? {
      return NonFinite, if n > 0 then 1 else 0;
    }
    var bMax := sv.evaluator.special.exp(0.5 * x);
    var final := Refine(sv, guess.objective, x, beta, bMax, Refinement(guess.s, -DBL_MAX, 0.0, guess.sLeft, guess.sRight, 0, 0), n);
    return Finite(final.s), final.iterations;
  }

  /** For positive f and k, ln(f/k) has the sign of f - k, so the two in-the-money tests agree. */
  lemma LogMoneynessHasTheSignOfMoneyness(sf: SpecialFunctions, f: real, k: real, q: real)
    requires sf.Valid()
    requires f > 0.0 && k > 0.0
    ensures q * sf.log(f / k) > 0.0 <==> q * (f - k) > 0.0
  {
    var x := sf.log(f / k);
    QuotientComparesWithOne(f, k);
    if q > 0.0 {
      SignOfProduct(q, x);
      SignOfProduct(q, f - k);
    } else if q < 0.0 {
      SignOfProduct(-q, -x);
      SignOfProduct(-q, k - f);
    }
  }

  lemma QuotientComparesWithOne(f: real, k: real)
    requires k > 0.0
    ensures f / k > 1.0 <==> f > k
    ensures f / k < 1.0 <==> f < k
    ensures f > 0.0 ==> f / k > 0.0
  {
    var r := f / k;
    assert r * k == f;
    assert 1.0 * k == k;
    ScaleByPositive(1.0, r, k);
    ScaleByPositive(r, 1.0, k);
    ScaleByPositive(0.0, r, k);
  }

  /**
   * `implied_volatility_from_a_transformed_rational_guess_with_limited_iterations`:
   * the sentinel below intrinsic, the sentinel at or above the maximum price
   * (the strike for a put, the forward for a call), and otherwise the
   * normalised solver on the out-of-the-money price divided by sqrt(f·k),
   * scaled back by 1/sqrt(t).
   */
  method ImpliedVolatilityFromATransformedRationalGuessWithLimitedIterations(sv: Solver, price: real, f: real, k: real, t: real, q: real, n: nat)
    returns (outcome: Outcome)
    requires sv.Valid()
    requires t > 0.0
    ensures price < Intrinsic(f, k, q) ==> outcome == Finite(VOLATILITY_VALUE_TO_SIGNAL_PRICE_IS_BELOW_INTRINSIC)
    ensures Intrinsic(f, k, q) <= price && price >= Sel(q < 0.0, k, f) ==>
      outcome == Finite(VOLATILITY_VALUE_TO_SIGNAL_PRICE_IS_ABOVE_MAXIMUM)
    ensures q != 0.0 && price == Intrinsic(f, k, q) && price < Sel(q < 0.0, k, f) ==> outcome == Finite(0.0)
    ensures f <= 0.0 || k <= 0.0 ==>
      outcome == Finite(VOLATILITY_VALUE_TO_SIGNAL_PRICE_IS_BELOW_INTRINSIC) ||
      outcome == Finite(VOLATILITY_VALUE_TO_SIGNAL_PRICE_IS_ABOVE_MAXIMUM)
  {
    var sf := sv.evaluator.special;
    var intrinsic := Intrinsic(f, k, q);
    if price < intrinsic {
      return Finite(VOLATILITY_VALUE_TO_SIGNAL_PRICE_IS_BELOW_INTRINSIC);
    }
    var maxPrice := Sel(q < 0.0, k, f);
    if price >= maxPrice {
      return Finite(VOLATILITY_VALUE_TO_SIGNAL_PRICE_IS_ABOVE_MAXIMUM);
    }
    // Past both guards the forward and the strike are positive: the price
    // lies in [intrinsic, maximum), which is empty when either is not.
    assert f > 0.0 && k > 0.0;
    var x := sf.log(f / k);
    LogMoneynessHasTheSignOfMoneyness(sf, f, k, q);
    var otmPrice, otmQ := price, q;
    if q * x > 0.0 {
      otmPrice := PositivePart(price - intrinsic);
      otmQ := -q;
      assert otmQ * x < 0.0;
    }
    var scale := sf.sqrt(f) * sf.sqrt(k);
    assert scale > 0.0 by { ProductIsPositive(sf.sqrt(f), sf.sqrt(k)); }
    var normalised, iterations := UncheckedNormalisedImpliedVolatility(sv, otmPrice / scale, x, otmQ, n);
    outcome := match normalised
      case Finite(v) => Finite(v / sf.sqrt(t))
      case NonFinite => NonFinite;
  }

  lemma ProductIsPositive(a: real, b: real)
    requires a > 0.0 && b > 0.0
    ensures a * b > 0.0
  {
  }

  /** `implied_volatility_from_a_transformed_rational_guess`: the same with the default iteration budget. */
  method ImpliedVolatilityFromATransformedRationalGuess(sv: Solver, price: real, f: real, k: real, t: real, q: real)
    returns (outcome: Outcome)
    requires sv.Valid()
    requires t > 0.0
    ensures price < Intrinsic(f, k, q) ==> outcome == Finite(VOLATILITY_VALUE_TO_SIGNAL_PRICE_IS_BELOW_INTRINSIC)
    ensures Intrinsic(f, k, q) <= price && price >= Sel(q < 0.0, k, f) ==>
      outcome == Finite(VOLATILITY_VALUE_TO_SIGNAL_PRICE_IS_ABOVE_MAXIMUM)
    ensures q != 0.0 && price == Intrinsic(f, k, q) && price < Sel(q < 0.0, k, f) ==> outcome == Finite(0.0)
    ensures f <= 0.0 || k <= 0.0 ==>
      outcome == Finite(VOLATILITY_VALUE_TO_SIGNAL_PRICE_IS_BELOW_INTRINSIC) ||
      outcome == Finite(VOLATILITY_VALUE_TO_SIGNAL_PRICE_IS_ABOVE_MAXIMUM)
  {
    outcome := ImpliedVolatilityFromATransformedRationalGuessWithLimitedIterations(sv, price, f, k, t, q, IMPLIED_VOLATILITY_MAXIMUM_ITERATIONS);
  }

  /**
   * `normalised_implied_volatility_from_a_transformed_rational_guess_with_limited_iterations`:
   * subtract the intrinsic value of an in-the-money quote (without clamping),
   * signal a quote below it, and otherwise run the normalised solver.
   */
  method NormalisedImpliedVolatilityFromATransformedRationalGuessWithLimitedIterations(sv: Solver, beta: real, x: real, q: real, n: nat)
    returns (outcome: Outcome)
    requires sv.Valid()
    ensures beta < NormalisedIntrinsic(sv.evaluator.special, x, q) ==> outcome == Finite(VOLATILITY_VALUE_TO_SIGNAL_PRICE_IS_BELOW_INTRINSIC)
    ensures beta == NormalisedIntrinsic(sv.evaluator.special, x, q) ==> outcome == Finite(0.0)
    ensures var (b, y) := OutOfTheMoneyCall(sv.evaluator.special, beta, x, q);
      b >= sv.evaluator.special.exp(0.5 * y) ==> outcome == Finite(VOLATILITY_VALUE_TO_SIGNAL_PRICE_IS_ABOVE_MAXIMUM)
  {
    var sf := sv.evaluator.special;
    var otmBeta, otmQ := beta, q;
    if q * x > 0.0 {
      otmBeta := beta - NormalisedIntrinsic(sf, x, q);
      otmQ := -q;
      assert otmQ * x < 0.0;
    }
    if otmBeta < 0.0 {
      assert OutOfTheMoneyCall(sf, beta, x, q).0 <= 0.0;
      return Finite(VOLATILITY_VALUE_TO_SIGNAL_PRICE_IS_BELOW_INTRINSIC);
    }
    // Without the clamp, the out-of-the-money quote is the one the guarded solver maps to.
    assert OutOfTheMoneyCall(sf, otmBeta, x, otmQ) == OutOfTheMoneyCall(sf, beta, x, q);
    var iterations;
    outcome, iterations := UncheckedNormalisedImpliedVolatility(sv, otmBeta, x, otmQ, n);
  }

  /** `normalised_implied_volatility_from_a_transformed_rational_guess`: the same with the default iteration budget. */
  method NormalisedImpliedVolatilityFromATransformedRationalGuess(sv: Solver, beta: real, x: real, q: real)
    returns (outcome: Outcome)
    requires sv.Valid()
    ensures beta < NormalisedIntrinsic(sv.evaluator.special, x, q) ==> outcome == Finite(VOLATILITY_VALUE_TO_SIGNAL_PRICE_IS_BELOW_INTRINSIC)
    ensures beta == NormalisedIntrinsic(sv.evaluator.special, x, q) ==> outcome == Finite(0.0)
    ensures var (b, y) := OutOfTheMoneyCall(sv.evaluator.special, beta, x, q);
      b >= sv.evaluator.special.exp(0.5 * y) ==> outcome == Finite(VOLATILITY_VALUE_TO_SIGNAL_PRICE_IS_ABOVE_MAXIMUM)
  {
    outcome := NormalisedImpliedVolatilityFromATransformedRationalGuessWithLimitedIterations(sv, beta, x, q, IMPLIED_VOLATILITY_MAXIMUM_ITERATIONS);
  }
}
