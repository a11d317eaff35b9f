/**
 * The rational cubic interpolator of Delbourgo and Gregory: a one-parameter
 * family of cubics through two points with prescribed slopes, the control
 * parameter `r` that fits a second derivative at one end, and the least `r`
 * that preserves the monotonicity, convexity or concavity of the data.
 */
module RationalCubic {
  import opened Definitions

  /** 2 / DBL_EPSILON^2 = 2^105: from here on the interpolant is linear. */
  const MAXIMUM_RATIONAL_CUBIC_CONTROL_PARAMETER_VALUE: real := 40564819207303340847894502572032.0

  /** -(1 - sqrt(DBL_EPSILON)) = -(1 - 2^-26): the least control parameter ever produced. */
  const MINIMUM_RATIONAL_CUBIC_CONTROL_PARAMETER_VALUE: real := -(1.0 - 1.0 / 67108864.0)

  /** The two bounds are the exact values of their defining expressions in DBL_EPSILON. */
  lemma ControlParameterBounds()
    ensures MAXIMUM_RATIONAL_CUBIC_CONTROL_PARAMETER_VALUE == 2.0 / (DBL_EPSILON * DBL_EPSILON)
    ensures (1.0 + MINIMUM_RATIONAL_CUBIC_CONTROL_PARAMETER_VALUE) * (1.0 + MINIMUM_RATIONAL_CUBIC_CONTROL_PARAMETER_VALUE) == DBL_EPSILON
    ensures -1.0 < MINIMUM_RATIONAL_CUBIC_CONTROL_PARAMETER_VALUE < 0.0 < MAXIMUM_RATIONAL_CUBIC_CONTROL_PARAMETER_VALUE
  {
  }

  lemma MulNonNegative(a: real, b: real)
    requires a >= 0.0 && b >= 0.0
    ensures a * b >= 0.0
  {
  }

  lemma MulMonotonic(a: real, b: real, c: real)
    requires a >= 0.0 && b <= c
    ensures a * b <= a * c
  {
  }

  lemma DivMul(n: real, d: real)
    requires d != 0.0
    ensures (n / d) * d == n
  {
  }

  lemma DivSelf(h: real)
    requires h != 0.0
    ensures h / h == 1.0
  {
  }

  /** The denominator 1 + (r-3)·t·(1-t) of the rational cubic at the relative abscissa t. */
  function CubicDenominator(t: real, r: real): real
  {
    1.0 + (r - 3.0) * t * (1.0 - t)
  }

  /**
   * The interpolant is defined over the reals unless the cubic branch is taken
   * where its denominator vanishes (a double would give an infinity or NaN there).
   */
  predicate InterpolationIsDefined(x: real, xL: real, xR: real, r: real)
  {
    xR - xL == 0.0 || r >= MAXIMUM_RATIONAL_CUBIC_CONTROL_PARAMETER_VALUE
    || CubicDenominator((x - xL) / (xR - xL), r) != 0.0
  }

  /**
   * The numerator of the cubic branch at the relative abscissa t, with
   * h = xR - xL: formula (2.4) of Delbourgo and Gregory.
   */
  function CubicNumerator(t: real, h: real, yL: real, yR: real, dL: real, dR: real, r: real): real
  {
    var omt := 1.0 - t;
    var t2 := t * t;
    var omt2 := omt * omt;
    yR * t2 * t + (r * yR - h * dR) * t2 * omt + (r * yL + h * dL) * t * omt2 + yL * omt2 * omt
  }

  /**
   * `rational_cubic_interpolation`: the value at x of the rational cubic through
   * (xL, yL) and (xR, yR) with slopes dL and dR. It passes through both points
   * for every r.
   */
  function RationalCubicInterpolation(x: real, xL: real, xR: real, yL: real, yR: real, dL: real, dR: real, r: real): (v: real)
    requires InterpolationIsDefined(x, xL, xR, r)
    ensures xL != xR && x == xL ==> v == yL
    ensures xL != xR && x == xR ==> v == yR
  {
    var h := xR - xL;
    if Fabs(h) <= 0.0 then
      0.5 * (yL + yR)
    else
      var t := (x - xL) / h;
      assert x == xL ==> t == 0.0;
      assert x == xR ==> t == 1.0 by {
        if x == xR {
          DivSelf(h);
        }
      }
      if r < MAXIMUM_RATIONAL_CUBIC_CONTROL_PARAMETER_VALUE then
        CubicNumerator(t, h, yL, yR, dL, dR, r) / CubicDenominator(t, r)
      else
        yR * t + yL * (1.0 - t)
  }

  /** With coincident abscissas the interpolant is the average of the ordinates, whatever x and r. */
  lemma InterpolationOfDegenerateInterval(x: real, xL: real, yL: real, yR: real, dL: real, dR: real, r: real)
    ensures InterpolationIsDefined(x, xL, xL, r)
    ensures RationalCubicInterpolation(x, xL, xL, yL, yR, dL, dR, r) == 0.5 * (yL + yR)
  {
  }

  /** From the maximum control parameter on, the interpolant is the straight line through the two points. */
  lemma InterpolationIsLinearForLargeControlParameter(x: real, xL: real, xR: real, yL: real, yR: real, dL: real, dR: real, r: real)
    requires xL != xR
    requires r >= MAXIMUM_RATIONAL_CUBIC_CONTROL_PARAMETER_VALUE
    ensures InterpolationIsDefined(x, xL, xR, r)
    ensures RationalCubicInterpolation(x, xL, xR, yL, yR, dL, dR, r) == yL + (yR - yL) * ((x - xL) / (xR - xL))
  {
  }

  /** The numerator of the cubic branch factors through its denominator when the data lie on a line. */
  lemma StraightLineNumerator(a: real, slope: real, h: real, t: real, r: real)
    ensures CubicNumerator(t, h, a, a + slope * h, slope, slope, r) == (a + slope * h * t) * CubicDenominator(t, r)
  {
    var b := slope * h;
    var u := 1.0 - t;
    assert t + u == 1.0;
    assert CubicNumerator(t, h, a, a + b, slope, slope, r)
      == (a + b) * (t * t) * t + (r * (a + b) - b) * (t * t) * u + (r * a + b) * t * (u * u) + a * (u * u) * u;
    // The terms in a sum to a·(1 + (r-3)·t·u), those in b to b·t·(1 + (r-3)·t·u).
    assert t * t * t + r * (t * t) * u + r * t * (u * u) + u * u * u == 1.0 + (r - 3.0) * t * u;
    assert (t * t) * t + (r - 1.0) * (t * t) * u + t * (u * u) == t * (1.0 + (r - 3.0) * t * u);
  }

  /**
   * Data taken from a straight line (equal end slopes and the secant slope
   * between them) are interpolated by that line, for every control parameter.
   */
  lemma {:induction false} InterpolationReproducesStraightLines(x: real, xL: real, xR: real, yL: real, slope: real, r: real)
    requires xL != xR
    requires InterpolationIsDefined(x, xL, xR, r)
    ensures RationalCubicInterpolation(x, xL, xR, yL, yL + slope * (xR - xL), slope, slope, r) == yL + slope * (x - xL)
  {
    var h := xR - xL;
    var t := (x - xL) / h;
    assert slope * h * t == slope * (x - xL) by {
      assert t * h == x - xL;
    }
    if r < MAXIMUM_RATIONAL_CUBIC_CONTROL_PARAMETER_VALUE {
      StraightLineNumerator(yL, slope, h, t, r);
      var d := CubicDenominator(t, r);
      assert d != 0.0;
      var n := (yL + slope * h * t) * d;
      assert n / d == yL + slope * h * t;
    }
  }

  /**
   * On the interval between the two abscissas, every r above -1 keeps the
   * denominator of the cubic branch positive: the interpolant is defined there.
   */
  lemma DenominatorIsPositiveOnInterval(t: real, r: real)
    requires 0.0 <= t <= 1.0
    requires r > -1.0
    ensures CubicDenominator(t, r) > 0.0
  {
    // t·(1-t) = ¼ - (t-½)² lies in [0, ¼], and r - 3 > -4.
    var p := t * (1.0 - t);
    MulNonNegative(t, 1.0 - t);
    var u := t - 0.5;
    MulNonNegative(u * u, 1.0);
    assert p == 0.25 - u * u;
    var q := (r - 3.0) * p;
    assert (r - 3.0) * t * (1.0 - t) == q;
    if r < 3.0 {
      MulMonotonic(3.0 - r, p, 0.25);
      assert q == -((3.0 - r) * p);
      assert q >= -((3.0 - r) * 0.25);
    } else {
      MulNonNegative(r - 3.0, p);
    }
  }

  /** Hence an abscissa between the two points and r > -1 make the interpolation defined. */
  lemma InterpolationIsDefinedOnInterval(x: real, xL: real, xR: real, r: real)
    requires xL <= x <= xR || xR <= x <= xL
    requires r > -1.0
    ensures InterpolationIsDefined(x, xL, xR, r)
  {
    if xR - xL != 0.0 {
      var t := (x - xL) / (xR - xL);
      if xL < xR {
        assert 0.0 <= t <= 1.0 by {
          assert t * (xR - xL) == x - xL;
        }
      } else {
        assert 0.0 <= t <= 1.0 by {
          assert t * (xL - xR) == xL - x;
        }
      }
      DenominatorIsPositiveOnInterval(t, r);
    }
  }

  /** The numerator ½·h·f'' + (dR - dL) shared by both second-derivative fits. */
  function FitNumerator(xL: real, xR: real, dL: real, dR: real, secondDerivative: real): real
  {
    0.5 * (xR - xL) * secondDerivative + (dR - dL)
  }

  /**
   * `rational_cubic_control_parameter_to_fit_second_derivative_at_left_side`:
   * the r that solves r·((yR-yL)/h - dL) = ½·h·f''(xL) + (dR - dL), the
   * condition for the interpolant to have second derivative f''(xL) at xL.
   * The division by h happens only once the numerator is known to be non-zero.
   */
  function ControlParameterToFitSecondDerivativeAtLeftSide(xL: real, xR: real, yL: real, yR: real, dL: real, dR: real, secondDerivativeL: real): (r: real)
    requires xR != xL || IsZero(FitNumerator(xL, xR, dL, dR, secondDerivativeL))
    ensures var numerator := FitNumerator(xL, xR, dL, dR, secondDerivativeL);
      && (IsZero(numerator) ==> r == 0.0)
      && (!IsZero(numerator) ==>
            var denominator := (yR - yL) / (xR - xL) - dL;
            && (IsZero(denominator) && numerator > 0.0 ==> r == MAXIMUM_RATIONAL_CUBIC_CONTROL_PARAMETER_VALUE)
            && (IsZero(denominator) && numerator <= 0.0 ==> r == MINIMUM_RATIONAL_CUBIC_CONTROL_PARAMETER_VALUE)
            && (!IsZero(denominator) ==> r * denominator == numerator))
  {
    var h := xR - xL;
    var numerator := FitNumerator(xL, xR, dL, dR, secondDerivativeL);
    if IsZero(numerator) then
      0.0
    else
      var denominator := (yR - yL) / h - dL;
      if IsZero(denominator) then
        Sel(numerator > 0.0, MAXIMUM_RATIONAL_CUBIC_CONTROL_PARAMETER_VALUE, MINIMUM_RATIONAL_CUBIC_CONTROL_PARAMETER_VALUE)
      else
        numerator / denominator
  }

  /**
   * `rational_cubic_control_parameter_to_fit_second_derivative_at_right_side`:
   * the r that solves r·(dR - (yR-yL)/h) = ½·h·f''(xR) + (dR - dL).
   */
  function ControlParameterToFitSecondDerivativeAtRightSide(xL: real, xR: real, yL: real, yR: real, dL: real, dR: real, secondDerivativeR: real): (r: real)
    requires xR != xL || IsZero(FitNumerator(xL, xR, dL, dR, secondDerivativeR))
    ensures var numerator := FitNumerator(xL, xR, dL, dR, secondDerivativeR);
      && (IsZero(numerator) ==> r == 0.0)
      && (!IsZero(numerator) ==>
            var denominator := dR - (yR - yL) / (xR - xL);
            && (IsZero(denominator) && numerator > 0.0 ==> r == MAXIMUM_RATIONAL_CUBIC_CONTROL_PARAMETER_VALUE)
            && (IsZero(denominator) && numerator <= 0.0 ==> r == MINIMUM_RATIONAL_CUBIC_CONTROL_PARAMETER_VALUE)
            && (!IsZero(denominator) ==> r * denominator == numerator))
  {
    var h := xR - xL;
    var numerator := FitNumerator(xL, xR, dL, dR, secondDerivativeR);
    if IsZero(numerator) then
      0.0
    else
      var denominator := dR - (yR - yL) / h;
      if IsZero(denominator) then
        Sel(numerator > 0.0, MAXIMUM_RATIONAL_CUBIC_CONTROL_PARAMETER_VALUE, MINIMUM_RATIONAL_CUBIC_CONTROL_PARAMETER_VALUE)
      else
        numerator / denominator
  }

  /**
   * The second Taylor coefficient at 0 of p(t)/q(t), for p = p0 + p1·t + p2·t² + …
   * and q = 1 + q1·t + q2·t²: the c2 of p = q·(c0 + c1·t + c2·t²) + O(t³).
   */
  function QuotientSecondCoefficient(p0: real, p1: real, p2: real, q1: real, q2: real): real
  {
    p2 - p1 * q1 + p0 * q1 * q1 - p0 * q2
  }

  /** With c0 = p0 and c1 = p1 - p0·q1, the coefficients of t, t² in q·(c0 + c1·t + c2·t²) are those of p. */
  lemma QuotientSecondCoefficientMatches(p0: real, p1: real, p2: real, q1: real, q2: real)
    ensures var c0 := p0; var c1 := p1 - p0 * q1; var c2 := QuotientSecondCoefficient(p0, p1, p2, q1, q2);
      p1 == c1 + q1 * c0 && p2 == c2 + q1 * c1 + q2 * c0
  {
  }

  /** The cubic numerator as the polynomial p0 + p1·t + p2·t² + p3·t³. */
  lemma CubicNumeratorExpansion(t: real, h: real, yL: real, yR: real, dL: real, dR: real, r: real)
    ensures var a := r * yR - h * dR; var b := r * yL + h * dL;
      CubicNumerator(t, h, yL, yR, dL, dR, r)
        == yL + (b - 3.0 * yL) * t + (3.0 * yL - 2.0 * b + a) * (t * t) + (yR - a + b - yL) * (t * t * t)
  {
  }

  /** The denominator is 1 + (r-3)·t - (r-3)·t². */
  lemma CubicDenominatorExpansion(t: real, r: real)
    ensures CubicDenominator(t, r) == 1.0 + (r - 3.0) * t + (-(r - 3.0)) * (t * t)
  {
  }

  /**
   * Seen from the right end, in u = 1 - t, the cubic branch is the cubic branch
   * of the mirrored data: ordinates swapped and slopes swapped and negated.
   */
  lemma CubicBranchIsSymmetric(u: real, h: real, yL: real, yR: real, dL: real, dR: real, r: real)
    ensures CubicNumerator(1.0 - u, h, yL, yR, dL, dR, r) == CubicNumerator(u, h, yR, yL, -dR, -dL, r)
    ensures CubicDenominator(1.0 - u, r) == CubicDenominator(u, r)
  {
  }

  /**
   * The second Taylor coefficient c2 at the left end of the cubic branch (the
   * interpolant when r < MAXIMUM), in t = (x - xL)/h: its second derivative
   * in x at xL is 2·c2/h².
   */
  function CubicTaylorCoefficientAtLeftEnd(h: real, yL: real, yR: real, dL: real, dR: real, r: real): real
  {
    var a := r * yR - h * dR;
    var b := r * yL + h * dL;
    QuotientSecondCoefficient(yL, b - 3.0 * yL, 3.0 * yL - 2.0 * b + a, r - 3.0, -(r - 3.0))
  }

  /**
   * The second Taylor coefficient at the right end of the cubic branch, in
   * u = 1 - t = (xR - x)/h: by the symmetry of the branch, that at the left
   * end of the mirrored data. Its second derivative in x at xR is 2·c2/h².
   */
  function CubicTaylorCoefficientAtRightEnd(h: real, yL: real, yR: real, dL: real, dR: real, r: real): real
  {
    CubicTaylorCoefficientAtLeftEnd(h, yR, yL, -dR, -dL, r)
  }

  /** The second Taylor coefficient at the left end is r·(yR - yL - h·dL) - h·(dR - dL). */
  lemma CubicTaylorCoefficientAtLeftEndIs(h: real, yL: real, yR: real, dL: real, dR: real, r: real)
    ensures CubicTaylorCoefficientAtLeftEnd(h, yL, yR, dL, dR, r) == r * (yR - yL - h * dL) - h * (dR - dL)
  {
  }

  /** A parameter r that solves r·m = ½·h·f'' + (dR - dL) turns r·(h·m) - h·(dR - dL) into ½·h²·f''. */
  lemma FittedCoefficient(h: real, m: real, dL: real, dR: real, secondDerivative: real, r: real)
    requires r * m == 0.5 * h * secondDerivative + (dR - dL)
    ensures 2.0 * (r * (h * m) - h * (dR - dL)) == secondDerivative * (h * h)
  {
    assert r * (h * m) == h * (r * m);
  }

  /**
   * A parameter r that solves r·(s - dL) = ½·h·f'' + (dR - dL), s the secant
   * slope, gives the cubic branch the second derivative f'' at the left end.
   */
  lemma LeftFitEquationGivesSecondDerivative(xL: real, xR: real, s: real, yL: real, yR: real, dL: real, dR: real, secondDerivative: real, r: real, m: real)
    requires s * (xR - xL) == yR - yL
    requires m == s - dL && r * m == FitNumerator(xL, xR, dL, dR, secondDerivative)
    ensures var h := xR - xL;
      2.0 * CubicTaylorCoefficientAtLeftEnd(h, yL, yR, dL, dR, r) == secondDerivative * (h * h)
  {
    var h := xR - xL;
    FittedCoefficient(h, m, dL, dR, secondDerivative, r);
    assert h * m == yR - yL - h * dL;
    CubicTaylorCoefficientAtLeftEndIs(h, yL, yR, dL, dR, r);
  }

  /**
   * Wherever the fit at the left side solves its equation (the numerator is
   * exactly 0 or not zero-like, and the denominator is not zero-like), the
   * fitted parameter gives the cubic branch the second derivative f''(xL) at
   * xL: 2·c2 = f''·h². Below MAXIMUM the cubic branch is the interpolant.
   */
  lemma {:induction false} ControlParameterFitsSecondDerivativeAtLeftSide(xL: real, xR: real, yL: real, yR: real, dL: real, dR: real, secondDerivativeL: real)
    requires xR != xL
    requires FitNumerator(xL, xR, dL, dR, secondDerivativeL) == 0.0 || !IsZero(FitNumerator(xL, xR, dL, dR, secondDerivativeL))
    requires !IsZero((yR - yL) / (xR - xL) - dL)
    ensures var h := xR - xL;
      2.0 * CubicTaylorCoefficientAtLeftEnd(h, yL, yR, dL, dR,
        ControlParameterToFitSecondDerivativeAtLeftSide(xL, xR, yL, yR, dL, dR, secondDerivativeL)) == secondDerivativeL * (h * h)
  {
    var s := (yR - yL) / (xR - xL);
    var m := s - dL;
    var r := ControlParameterToFitSecondDerivativeAtLeftSide(xL, xR, yL, yR, dL, dR, secondDerivativeL);
    var numerator := FitNumerator(xL, xR, dL, dR, secondDerivativeL);
    assert r * m == numerator by {
      if numerator == 0.0 {
        assert r == 0.0;
      } else {
        assert r == numerator / m;
        DivMul(numerator, m);
      }
    }
    LeftFitEquationGivesSecondDerivative(xL, xR, s, yL, yR, dL, dR, secondDerivativeL, r, m);
  }

  /**
   * Wherever the fit at the right side solves its equation (the numerator is
   * exactly 0 or not zero-like, and the denominator is not zero-like), the
   * fitted parameter gives the cubic branch the second derivative f''(xR) at
   * xR: 2·c2 = f''·h². Below MAXIMUM the cubic branch is the interpolant.
   */
  lemma {:induction false} ControlParameterFitsSecondDerivativeAtRightSide(xL: real, xR: real, yL: real, yR: real, dL: real, dR: real, secondDerivativeR: real)
    requires xR != xL
    requires FitNumerator(xL, xR, dL, dR, secondDerivativeR) == 0.0 || !IsZero(FitNumerator(xL, xR, dL, dR, secondDerivativeR))
    requires !IsZero(dR - (yR - yL) / (xR - xL))
    ensures var h := xR - xL;
      2.0 * CubicTaylorCoefficientAtRightEnd(h, yL, yR, dL, dR,
        ControlParameterToFitSecondDerivativeAtRightSide(xL, xR, yL, yR, dL, dR, secondDerivativeR)) == secondDerivativeR * (h * h)
  {
    var s := (yR - yL) / (xR - xL);
    var m := dR - s;
    var r := ControlParameterToFitSecondDerivativeAtRightSide(xL, xR, yL, yR, dL, dR, secondDerivativeR);
    var numerator := FitNumerator(xL, xR, dL, dR, secondDerivativeR);
    assert r * m == numerator by {
      if numerator == 0.0 {
        assert r == 0.0;
      } else {
        assert r == numerator / m;
        DivMul(numerator, m);
      }
    }
    // The right fit r·(dR - s) = ½·h·f'' + (dR - dL) is the left fit of the mirrored data.
    var sMirrored, dLMirrored, dRMirrored := -s, -dR, -dL;
    assert FitNumerator(xL, xR, dLMirrored, dRMirrored, secondDerivativeR) == numerator;
    assert sMirrored * (xR - xL) == yL - yR by {
      assert s * (xR - xL) == yR - yL;
    }
    LeftFitEquationGivesSecondDerivative(xL, xR, sMirrored, yR, yL, dLMirrored, dRMirrored, secondDerivativeR, r, m);
  }

  /** Slopes dL, dR and secant slope s allow a monotonic interpolant. */
  predicate Monotonic(dL: real, dR: real, s: real)
  {
    dL * s >= 0.0 && dR * s >= 0.0
  }

  /** Slopes dL, dR and secant slope s are those of convex data. */
  predicate Convex(dL: real, dR: real, s: real)
  {
    dL <= s <= dR
  }

  /** Slopes dL, dR and secant slope s are those of concave data. */
  predicate Concave(dL: real, dR: real, s: real)
  {
    dL >= s >= dR
  }

  /**
   * `minimum_rational_cubic_control_parameter`: the least r for which the
   * interpolant keeps the shape of the data. It is never below MINIMUM, and
   * is MINIMUM itself when the data have no shape to keep. The three lemmas
   * after it state the monotonicity condition, the convexity condition and
   * the forced straight line.
   */
  function MinimumRationalCubicControlParameter(dL: real, dR: real, s: real, preferShapePreservationOverSmoothness: bool): (r: real)
    ensures r >= MINIMUM_RATIONAL_CUBIC_CONTROL_PARAMETER_VALUE
    ensures !Monotonic(dL, dR, s) && !Convex(dL, dR, s) && !Concave(dL, dR, s)
      ==> r == MINIMUM_RATIONAL_CUBIC_CONTROL_PARAMETER_VALUE
  {
    var monotonic := Monotonic(dL, dR, s);
    var convex := Convex(dL, dR, s);
    var concave := Concave(dL, dR, s);
    if !monotonic && !convex && !concave then
      MINIMUM_RATIONAL_CUBIC_CONTROL_PARAMETER_VALUE
    else
      var dRMinusDL := dR - dL;
      var dRMinusS := dR - s;
      var sMinusDL := s - dL;
      var r1 :=
        if monotonic && !IsZero(s) then (dR + dL) / s
        else if monotonic && preferShapePreservationOverSmoothness then MAXIMUM_RATIONAL_CUBIC_CONTROL_PARAMETER_VALUE
        else -DBL_MAX;
      var r2 :=
        if convex || concave then
          if !(IsZero(sMinusDL) || IsZero(dRMinusS)) then Max(Fabs(dRMinusDL / dRMinusS), Fabs(dRMinusDL / sMinusDL))
          else if preferShapePreservationOverSmoothness then MAXIMUM_RATIONAL_CUBIC_CONTROL_PARAMETER_VALUE
          else -DBL_MAX
        else if monotonic && preferShapePreservationOverSmoothness then MAXIMUM_RATIONAL_CUBIC_CONTROL_PARAMETER_VALUE
        else -DBL_MAX;
      Max(MINIMUM_RATIONAL_CUBIC_CONTROL_PARAMETER_VALUE, Max(r1, r2))
  }

  /** Where the data are monotonic with a non-zero secant slope s, r satisfies the monotonicity condition r ≥ (dL + dR)/s. */
  lemma MinimumControlParameterMeetsMonotonicityCondition(dL: real, dR: real, s: real, preferShapePreservationOverSmoothness: bool)
    requires Monotonic(dL, dR, s) && !IsZero(s)
    ensures MinimumRationalCubicControlParameter(dL, dR, s, preferShapePreservationOverSmoothness) >= (dR + dL) / s
  {
  }

  /**
   * Where the data are convex or concave and neither end slope equals the
   * secant slope, r satisfies the convexity condition
   * r ≥ max(|(dR-dL)/(dR-s)|, |(dR-dL)/(s-dL)|).
   */
  lemma MinimumControlParameterMeetsConvexityCondition(dL: real, dR: real, s: real, preferShapePreservationOverSmoothness: bool)
    requires Convex(dL, dR, s) || Concave(dL, dR, s)
    requires !IsZero(s - dL) && !IsZero(dR - s)
    ensures var r := MinimumRationalCubicControlParameter(dL, dR, s, preferShapePreservationOverSmoothness);
      r >= Fabs((dR - dL) / (dR - s)) && r >= Fabs((dR - dL) / (s - dL))
  {
  }

  /**
   * When shape preservation is preferred and a shape condition would divide by
   * zero, or monotonic data are neither convex nor concave, r reaches MAXIMUM:
   * the interpolant is then a straight line.
   */
  lemma MinimumControlParameterForcesStraightLine(dL: real, dR: real, s: real)
    requires
      || (Monotonic(dL, dR, s) && IsZero(s))
      || (Monotonic(dL, dR, s) && !Convex(dL, dR, s) && !Concave(dL, dR, s))
      || ((Convex(dL, dR, s) || Concave(dL, dR, s)) && (IsZero(s - dL) || IsZero(dR - s)))
    ensures MinimumRationalCubicControlParameter(dL, dR, s, true) >= MAXIMUM_RATIONAL_CUBIC_CONTROL_PARAMETER_VALUE
  {
  }

  /**
   * `convex_rational_cubic_control_parameter_to_fit_second_derivative_at_left_side`:
   * the fitted parameter, raised where needed to the shape-preserving minimum.
   */
  function ConvexControlParameterToFitSecondDerivativeAtLeftSide(xL: real, xR: real, yL: real, yR: real, dL: real, dR: real, secondDerivativeL: real, preferShapePreservationOverSmoothness: bool): (r: real)
    requires xR != xL
    ensures r >= ControlParameterToFitSecondDerivativeAtLeftSide(xL, xR, yL, yR, dL, dR, secondDerivativeL)
    ensures r >= MINIMUM_RATIONAL_CUBIC_CONTROL_PARAMETER_VALUE
  {
    var rFit := ControlParameterToFitSecondDerivativeAtLeftSide(xL, xR, yL, yR, dL, dR, secondDerivativeL);
    var rMin := MinimumRationalCubicControlParameter(dL, dR, (yR - yL) / (xR - xL), preferShapePreservationOverSmoothness);
    Max(rFit, rMin)
  }

  /**
   * `convex_rational_cubic_control_parameter_to_fit_second_derivative_at_right_side`:
   * the fitted parameter, raised where needed to the shape-preserving minimum.
   */
  function ConvexControlParameterToFitSecondDerivativeAtRightSide(xL: real, xR: real, yL: real, yR: real, dL: real, dR: real, secondDerivativeR: real, preferShapePreservationOverSmoothness: bool): (r: real)
    requires xR != xL
    ensures r >= ControlParameterToFitSecondDerivativeAtRightSide(xL, xR, yL, yR, dL, dR, secondDerivativeR)
    ensures r >= MINIMUM_RATIONAL_CUBIC_CONTROL_PARAMETER_VALUE
  {
    var rFit := ControlParameterToFitSecondDerivativeAtRightSide(xL, xR, yL, yR, dL, dR, secondDerivativeR);
    var rMin := MinimumRationalCubicControlParameter(dL, dR, (yR - yL) / (xR - xL), preferShapePreservationOverSmoothness);
    Max(rFit, rMin)
  }

  /** The convex parameter fitted at the left side is the larger of the fitted and the shape-preserving minimum parameter. */
  lemma ConvexControlParameterToFitSecondDerivativeAtLeftSideIsLargerOfBoth(xL: real, xR: real, yL: real, yR: real, dL: real, dR: real, secondDerivativeL: real, preferShapePreservationOverSmoothness: bool)
    requires xR != xL
    ensures var r := ConvexControlParameterToFitSecondDerivativeAtLeftSide(xL, xR, yL, yR, dL, dR, secondDerivativeL, preferShapePreservationOverSmoothness);
      var rMin := MinimumRationalCubicControlParameter(dL, dR, (yR - yL) / (xR - xL), preferShapePreservationOverSmoothness);
      r >= rMin && (r == ControlParameterToFitSecondDerivativeAtLeftSide(xL, xR, yL, yR, dL, dR, secondDerivativeL) || r == rMin)
  {
  }

  /** The convex parameter fitted at the right side is the larger of the fitted and the shape-preserving minimum parameter. */
  lemma ConvexControlParameterToFitSecondDerivativeAtRightSideIsLargerOfBoth(xL: real, xR: real, yL: real, yR: real, dL: real, dR: real, secondDerivativeR: real, preferShapePreservationOverSmoothness: bool)
    requires xR != xL
    ensures var r := ConvexControlParameterToFitSecondDerivativeAtRightSide(xL, xR, yL, yR, dL, dR, secondDerivativeR, preferShapePreservationOverSmoothness);
      var rMin := MinimumRationalCubicControlParameter(dL, dR, (yR - yL) / (xR - xL), preferShapePreservationOverSmoothness);
      r >= rMin && (r == ControlParameterToFitSecondDerivativeAtRightSide(xL, xR, yL, yR, dL, dR, secondDerivativeR) || r == rMin)
  {
  }
}
