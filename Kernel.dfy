/** The prolate-spheroidal gridding kernel (`spheroid`), the image-plane
    correction function (`corrfun`) and the Fourier-plane convolution function
    (`gcffun`), with the elementwise application `np.vectorize` gives them. */
module Kernel {
  import opened Polynomial

  /** One kernel evaluation: a value, or the ValueError raised outside the domain. */
  datatype Eval = Value(x: real) | OutOfDomain

  /** A computation that evaluates the kernel and stops at its first ValueError. */
  datatype Result<T> = Ok(value: T) | DomainError

  function Abs(x: real): (r: real)
    ensures r >= 0.0 && (r == x || r == -x)
  {
    if x < 0.0 then -x else x
  }

  /** Slack beyond |eta| = 1 that still evaluates (to zero). */
  const Tolerance: real := 0.0000001

  /** Rational fit on |eta| <= 0.75, in nn = eta^2 - 0.75^2. */
  const InnerNumerator: seq<real> := [0.08203343, -0.3644705, 0.6278660, -0.5335581, 0.2312756]
  const InnerDenominator: seq<real> := [1.0, 0.8212018, 0.2078043]

  /** Rational fit on 0.75 < |eta| <= 1, in nn = eta^2 - 1. */
  const OuterNumerator: seq<real> := [0.004028559, -0.03697768, 0.1021332, -0.1201436, 0.06412774]
  const OuterDenominator: seq<real> := [1.0, 0.9599102, 0.2918724]

  /** The four coefficient lists: five-term numerators that alternate in sign
      from a positive constant term, over monic quadratic denominators whose
      linear coefficient is below one. This shape is what makes both fits positive. */
  lemma FitCoefficients()
    ensures |InnerNumerator| == 5 && |OuterNumerator| == 5
    ensures PositiveFit(InnerNumerator, InnerDenominator)
    ensures PositiveFit(OuterNumerator, OuterDenominator)
  {
  }

  /** A fit that is positive on [-1, 0]: an alternating numerator over a monic
      quadratic denominator with a small linear coefficient. */
  predicate PositiveFit(p: seq<real>, q: seq<real>) {
    |p| > 0 && p[0] > 0.0 && SignAlternating(p, true) &&
    |q| == 3 && q[0] == 1.0 && 0.0 <= q[1] < 1.0 && 0.0 <= q[2]
  }

  /** One rational fit P(nn) / Q(nn), both evaluated by Horner's rule. */
  function Rational(nn: real, p: seq<real>, q: seq<real>): (r: real)
    requires -1.0 <= nn <= 0.0 && PositiveFit(p, q)
    ensures r > 0.0
  {
    assert q == [1.0, q[1], q[2]];
    MonicQuadraticPositive(nn, q[1], q[2]);
    AlternatingAtNonPositive(nn, p, true);
    Poly(nn, p) / Poly(nn, q)
  }

  lemma SquareBelow(e: real, bound: real)
    requires 0.0 <= e <= bound
    ensures e * e <= bound * bound
  {
  }

  lemma SquareStrictlyBelow(e: real, bound: real)
    requires 0.0 <= e < bound
    ensures e * e < bound * bound
  {
    var d := bound - e;
    assert bound * bound == e * e + d * (bound + e);
    assert d * (bound + e) > 0.0;
  }

  lemma AbsSquare(x: real)
    ensures Abs(x) * Abs(x) == x * x
  {
  }

  /** The inner branch, |eta| <= 0.75: the inner fit taken in nn = eta^2 - 0.75^2,
      which lies in [-0.5625, 0]; the value is positive. */
  function InnerFit(e: real): (r: real)
    requires 0.0 <= e <= 0.75
    ensures -0.5625 <= e * e - 0.75 * 0.75 <= 0.0
    ensures r > 0.0
  {
    FitCoefficients();
    SquareBelow(e, 0.75);
    Rational(e * e - 0.75 * 0.75, InnerNumerator, InnerDenominator)
  }

  /** The outer branch, 0.75 < |eta| <= 1: the outer fit taken in nn = eta^2 - 1,
      which lies in (-0.4375, 0]; the value is positive. */
  function OuterFit(e: real): (r: real)
    requires 0.75 < e <= 1.0
    ensures -0.4375 < e * e - 1.0 <= 0.0
    ensures r > 0.0
  {
    FitCoefficients();
    SquareBelow(e, 1.0);
    SquareStrictlyBelow(0.75, e);
    Rational(e * e - 1.0, OuterNumerator, OuterDenominator)
  }

  /** The spheroidal kernel (alpha = 1, m = 6). It is even, positive on [-1, 1],
      exactly zero in the floating-point slack band beyond 1, and fails beyond it. */
  function Spheroid(eta: real): (r: Eval)
    ensures r.Value? <==> Abs(eta) <= 1.0 + Tolerance
    ensures Abs(eta) <= 1.0 ==> r.Value? && r.x > 0.0
    ensures 1.0 < Abs(eta) <= 1.0 + Tolerance ==> r == Value(0.0)
  {
    var e := Abs(eta);
    if e <= 0.75 then
      Value(InnerFit(e))
    else if e <= 1.0 then
      Value(OuterFit(e))
    else if e <= 1.0 + Tolerance then
      Value(0.0)
    else
      OutOfDomain
  }

  /** Which fit the kernel uses: the inner one up to |eta| = 0.75, the outer one
      up to |eta| = 1, both fed with |eta|, whose square is eta^2. */
  lemma SpheroidBranches(eta: real)
    ensures Abs(eta) * Abs(eta) == eta * eta
    ensures Abs(eta) <= 0.75 ==> Spheroid(eta) == Value(InnerFit(Abs(eta)))
    ensures 0.75 < Abs(eta) <= 1.0 ==> Spheroid(eta) == Value(OuterFit(Abs(eta)))
  {
    AbsSquare(eta);
  }

  /** The kernel is even: it sees eta only through |eta|. */
  lemma SpheroidEven(eta: real)
    ensures Spheroid(-eta) == Spheroid(eta)
  {
    assert Abs(-eta) == Abs(eta);
  }

  /** The image-plane correction function: the kernel itself, which is positive on
      the whole closed interval [-1, 1]. */
  function CorrFun(eta: real): (r: Eval)
    ensures r.Value? <==> Abs(eta) <= 1.0 + Tolerance
    ensures Abs(eta) <= 1.0 ==> r.Value? && r.x > 0.0
  {
    Spheroid(eta)
  }

  /** The Fourier-plane convolution function |1 - eta^2| * spheroid(eta). It has
      the kernel's domain, is never negative, and is positive exactly on the open
      interval (-1, 1). */
  function GcfFun(eta: real): (r: Eval)
    ensures r.Value? <==> Abs(eta) <= 1.0 + Tolerance
    ensures r.Value? ==> r.x >= 0.0
    ensures r.Value? ==> (r.x > 0.0 <==> Abs(eta) < 1.0)
  {
    match Spheroid(eta)
    case Value(s) =>
      var g := Abs(1.0 - eta * eta);
      AbsSquare(eta);
      assert Abs(eta) < 1.0 ==> eta * eta < 1.0 by {
        if Abs(eta) < 1.0 { SquareStrictlyBelow(Abs(eta), 1.0); }
      }
      Value(g * s)
    case OutOfDomain => OutOfDomain
  }

  /** The convolution function is even. */
  lemma GcfFunEven(eta: real)
    ensures GcfFun(-eta) == GcfFun(eta)
  {
    SpheroidEven(eta);
    assert (-eta) * (-eta) == eta * eta;
  }

  /** `np.vectorize`: apply a kernel elementwise; any element outside the domain
      makes the whole call fail. */
  function Vectorize(f: real -> Eval, etas: seq<real>): (r: Result<seq<real>>)
    ensures r.Ok? <==> forall k :: 0 <= k < |etas| ==> f(etas[k]).Value?
    ensures r.Ok? ==> |r.value| == |etas| && forall k :: 0 <= k < |etas| ==> f(etas[k]) == Value(r.value[k])
  {
    if etas == [] then Ok([])
    else
      match f(etas[0])
      case OutOfDomain => DomainError
      case Value(x) =>
        match Vectorize(f, etas[1..])
        case DomainError =>
          assert forall k :: 0 <= k < |etas[1..]| ==> etas[1..][k] == etas[k + 1];
          DomainError
        case Ok(xs) =>
          assert forall k :: 1 <= k < |etas| ==> etas[k] == etas[1..][k - 1];
          Ok([x] + xs)
  }
}
