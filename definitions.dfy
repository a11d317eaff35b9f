/**
 * Scalar helpers and machine constants shared by the rational cubic
 * interpolator and the implied-volatility solver.
 *
 * Doubles are modelled as `real`. Every constant below whose double value is
 * a power of two (or, for DBL_MAX, an integer) is written exactly; the two
 * constants that come out of a chain of square roots are written as the
 * rounded decimal of the double.
 */
module Definitions {

  /** f64::MIN_POSITIVE = 2^-1022, the smallest positive normalised double. */
  const DBL_MIN: real := 1.0 / 44942328371557897693232629769725618340449424473557664318357520289433168951375240783177119330601884005280028469967848339414697442203604155623211857659868531094441973356216371319075554900311523529863270738021251442209537670585615720368478277635206809290837627671146574559986811484619929076208839082406056034304.0

  /** f64::MAX = (2^53 - 1) * 2^971, the largest finite double. */
  const DBL_MAX: real := 179769313486231570814527423731704356798070567525844996598917476803157260780028538760589558632766878171540458953514382464234321326889464182768467546703537516986049910576551282076245490090389328944075868508455133942304583236903222948165808559332123348274797826204144723168738177180919299881250404026184124858368.0

  /** f64::EPSILON = 2^-52. */
  const DBL_EPSILON: real := 1.0 / 4503599627370496.0

  /** sqrt(sqrt(DBL_EPSILON)) = 2^-13, exactly. */
  const FOURTH_ROOT_DBL_EPSILON: real := 1.0 / 8192.0

  /** sqrt(DBL_MIN) = 2^-511, exactly. */
  const SQRT_DBL_MIN: real := 1.0 / 6703903964971298549787012499102923063739682910296196688861780721860882015036773488400937149083451713845015929093243025426876941405973284973216824503042048.0

  /** sqrt(DBL_MAX), rounded. */
  const SQRT_DBL_MAX: real := 1.3407807929942596e154

  /** The threshold η of the asymptotic expansion of the normalised Black call. */
  const ASYMPTOTIC_EXPANSION_ACCURACY_THRESHOLD: real := -10.0

  /** τ = 2 * DBL_EPSILON^(1/16), rounded. */
  const SMALL_T_EXPANSION_OF_NORMALISED_BLACK_THRESHOLD: real := 0.21022410381342865

  /** The volatility returned when the price lies below the intrinsic value (f64::MIN). */
  const VOLATILITY_VALUE_TO_SIGNAL_PRICE_IS_BELOW_INTRINSIC: real := -DBL_MAX

  /** The volatility returned when the price lies at or above its maximum (f64::MAX). */
  const VOLATILITY_VALUE_TO_SIGNAL_PRICE_IS_ABOVE_MAXIMUM: real := DBL_MAX

  /** The sentinels lie on either side of every admissible volatility. */
  lemma SentinelsBracketZero()
    ensures VOLATILITY_VALUE_TO_SIGNAL_PRICE_IS_BELOW_INTRINSIC < 0.0 < VOLATILITY_VALUE_TO_SIGNAL_PRICE_IS_ABOVE_MAXIMUM
    ensures VOLATILITY_VALUE_TO_SIGNAL_PRICE_IS_BELOW_INTRINSIC == -VOLATILITY_VALUE_TO_SIGNAL_PRICE_IS_ABOVE_MAXIMUM
  {
  }

  /** Absolute value. */
  function Fabs(x: real): (r: real)
    ensures r >= 0.0
    ensures r == x || r == -x
    ensures r >= x && r >= -x
  {
    if x < 0.0 then -x else x
  }

  /** The absolute value does not see the sign of its argument. */
  lemma FabsIsEven(x: real)
    ensures Fabs(-x) == Fabs(x)
    ensures Fabs(x) == 0.0 <==> x == 0.0
  {
  }

  /** `is_zero`: the magnitude lies below the smallest normalised double, that is x lies in the open interval (-DBL_MIN, DBL_MIN). */
  function IsZero(x: real): (zero: bool)
    ensures zero <==> -DBL_MIN < x < DBL_MIN
  {
    Fabs(x) < DBL_MIN
  }

  /** So `is_zero` holds on 0 and on nothing of normal size. */
  lemma IsZeroIsOpenInterval(x: real)
    ensures IsZero(0.0)
    ensures Fabs(x) >= DBL_MIN ==> !IsZero(x)
  {
  }

  /** `max`: the larger argument, the first one on a tie. */
  function Max(x: real, y: real): (r: real)
    ensures r >= x && r >= y
    ensures r == x || r == y
    ensures x >= y ==> r == x
  {
    if x >= y then x else y
  }

  /** `sel`: a branch-free select, returning x exactly when c holds. */
  function Sel(c: bool, x: real, y: real): (r: real)
    ensures c ==> r == x
    ensures !c ==> r == y
  {
    if c then x else y
  }

  /** `square`. */
  function Square(x: real): (r: real)
    ensures r >= 0.0
    ensures r == Fabs(x) * Fabs(x)
  {
    x * x
  }

  /** `d_int`: truncation toward zero (floor of positive numbers, ceiling of the others). */
  function DInt(x: real): (r: real)
    ensures r == (r.Floor as real)
    ensures x >= 0.0 ==> 0.0 <= r <= x
    ensures x <= 0.0 ==> x <= r <= 0.0
    ensures Fabs(x - r) < 1.0
  {
    if x > 0.0 then x.Floor as real else (-((-x).Floor)) as real
  }

  /** `d_int` is odd: truncating -x gives the negative of truncating x. */
  lemma DIntIsOdd(x: real)
    ensures DInt(-x) == -DInt(x)
  {
  }

  /** `d_int` is the integer nearest to x on the way toward zero: no integer lies strictly between them. */
  lemma DIntIsNearestIntegerTowardZero(x: real, k: int)
    ensures 0.0 <= k as real <= x ==> k as real <= DInt(x)
    ensures x <= k as real <= 0.0 ==> DInt(x) <= k as real
  {
    if 0.0 <= k as real <= x {
      var f := x.Floor;
      assert x < (f + 1) as real;
      assert k < f + 1;
    }
    if x <= k as real <= 0.0 {
      var f := (-x).Floor;
      assert -x < (f + 1) as real;
      assert -k < f + 1;
    }
  }

  /** The values the unit tests of `d_int`, `max`, `fabs` and `sel` pin down. */
  lemma ScalarHelperExamples()
    ensures DInt(2.0) == 2.0 && DInt(2.5) == 2.0 && DInt(2.9) == 2.0
    ensures DInt(-2.0) == -2.0 && DInt(-2.5) == -2.0 && DInt(-2.9) == -2.0
    ensures Max(10.0, 9.9999) == 10.0 && Max(10.0, 10.0) == 10.0 && Max(10.0, 10.0001) == 10.0001
    ensures Fabs(0.0) == 0.0 && Fabs(1.0) == 1.0 && Fabs(-1.0) == 1.0
    ensures Sel(true, 1.0, 2.0) == 1.0 && Sel(false, 1.0, 2.0) == 2.0
  {
  }
}
