/**
 * The numerical collaborators of the Black evaluator and of the implied
 * volatility solver: the elementary functions of the standard library and
 * the special functions of the normal distribution (Cody's erfc and erfcx,
 * the cumulative normal and its inverse).
 *
 * Their bodies are not part of this model. They are passed around as a
 * record of function values, and `Valid` lists the few facts about them that
 * the proofs use; every theorem below holds for any record satisfying it.
 */
module SpecialFunctions {

  /** 1/sqrt(2), as `std::f64::consts::FRAC_1_SQRT_2` (rounded). */
  const ONE_OVER_SQRT_TWO: real := 0.7071067811865475244008443621048490392848359376887

  /** 1/sqrt(2 pi) (rounded). */
  const ONE_OVER_SQRT_TWO_PI: real := 0.3989422804014326779399460599343818684758586311649

  /** sqrt(2 pi) (rounded). */
  const SQRT_TWO_PI: real := 2.506628274631000502415765284811045253006986740610

  datatype SpecialFunctions = SpecialFunctions(
    exp: real -> real,
    log: real -> real,
    sqrt: real -> real,
    normCdf: real -> real,
    erfc: real -> real,
    erfcx: real -> real,
    inverseNormCdf: real -> real)
  {
    /**
     * The exponential is positive and exp(-y) = 1/exp(y), square roots of
     * positive numbers are positive, the logarithm of a positive number
     * has the sign of its distance from 1, and the inverse cumulative normal
     * is a right inverse of the cumulative normal on (0, 1).
     */
    ghost predicate Valid()
    {
      && (forall y :: exp(y) > 0.0)
      && (forall y, z {:trigger exp(y), exp(z)} :: y + z == 0.0 ==> exp(y) * exp(z) == 1.0)
      && (forall y :: y > 0.0 ==> sqrt(y) > 0.0)
      && (forall y :: y > 0.0 ==> (log(y) > 0.0 <==> y > 1.0))
      && (forall y :: y > 0.0 ==> (log(y) < 0.0 <==> y < 1.0))
      && (forall p :: 0.0 < p < 1.0 ==> normCdf(inverseNormCdf(p)) == p)
    }
  }
}
