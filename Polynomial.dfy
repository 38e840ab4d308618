/** Polynomial evaluation by Horner's rule (the `horner` helper of the gridding code). */
module Polynomial {

  /** x raised to the natural power n. */
  function Pow(x: real, n: nat): real {
    if n == 0 then 1.0 else x * Pow(x, n - 1)
  }

  /** The reference meaning of a coefficient list, constant term first:
      a[0] + a[1] x + ... + a[n-1] x^(n-1), summed term by term. */
  function PolySum(x: real, a: seq<real>): real {
    if |a| == 0 then 0.0 else PolySum(x, a[..|a| - 1]) + a[|a| - 1] * Pow(x, |a| - 1)
  }

  /** The nested form a[0] + x (a[1] + x (... + x a[n-1])) that Horner's rule
      computes; the kernel evaluates its rational fits with it. */
  function Poly(x: real, a: seq<real>): (r: real)
    ensures x == 0.0 ==> r == (if |a| == 0 then 0.0 else a[0])
  {
    if |a| == 0 then 0.0 else a[0] + x * Poly(x, a[1..])
  }

  /** Peeling the constant term off the term-by-term sum. */
  lemma {:induction false} PolySumCons(x: real, a: seq<real>)
    requires |a| >= 1
    ensures PolySum(x, a) == a[0] + x * PolySum(x, a[1..])
  {
    var n := |a|;
    if n == 1 {
      assert a[..0] == [];
      assert a[1..] == [];
    } else {
      var b := a[..n - 1];
      var c := a[n - 1];
      PolySumCons(x, b);
      assert a[1..][..n - 2] == b[1..];
      assert a[1..][n - 2] == c;
      var rest, q := PolySum(x, b[1..]), Pow(x, n - 2);
      assert PolySum(x, a[1..]) == rest + c * q;
      Factor(PolySum(x, a), PolySum(x, b), PolySum(x, a[1..]), a[0], x, rest, c, q);
    }
  }

  /** The algebra of PolySumCons on plain numbers: with s = sb + c x q,
      sb = a0 + x rest and s1 = rest + c q, s is a0 + x s1. */
  lemma Factor(s: real, sb: real, s1: real, a0: real, x: real, rest: real, c: real, q: real)
    requires s == sb + c * (x * q) && sb == a0 + x * rest && s1 == rest + c * q
    ensures s == a0 + x * s1
  {
    assert c * (x * q) == x * (c * q);
  }

  /** The nested (Horner) form and the term-by-term sum are the same polynomial. */
  lemma {:induction false} PolyIsPolySum(x: real, a: seq<real>)
    ensures Poly(x, a) == PolySum(x, a)
  {
    if |a| > 0 {
      PolyIsPolySum(x, a[1..]);
      PolySumCons(x, a);
    }
  }

  /** Horner's rule as the source runs it: the running result starts at 0 and the
      coefficients are folded in from the highest power down. */
  method Horner(x: real, a: seq<real>) returns (result: real)
    ensures result == PolySum(x, a)
  {
    result := 0.0;
    var i := |a|;
    while i > 0
      invariant 0 <= i <= |a|
      invariant result == Poly(x, a[i..])
    {
      i := i - 1;
      assert a[i..][1..] == a[i + 1..];
      result := a[i] + x * result;
    }
    assert a[0..] == a;
    PolyIsPolySum(x, a);
  }

  /** Coefficients that alternate in sign, positive first when `positiveFirst`. */
  predicate SignAlternating(a: seq<real>, positiveFirst: bool) {
    forall k :: 0 <= k < |a| ==> if (k % 2 == 0) == positiveFirst then a[k] > 0.0 else a[k] < 0.0
  }

  /** At a non-positive point every term of an alternating polynomial has the sign
      of the constant term, so the value lies beyond the constant term. */
  lemma {:induction false} AlternatingAtNonPositive(x: real, a: seq<real>, positiveFirst: bool)
    requires x <= 0.0 && |a| > 0 && SignAlternating(a, positiveFirst)
    ensures positiveFirst ==> Poly(x, a) >= a[0]
    ensures !positiveFirst ==> Poly(x, a) <= a[0]
  {
    if |a| == 1 {
      assert a[1..] == [];
    } else {
      var tail := a[1..];
      forall k | 0 <= k < |tail|
        ensures if (k % 2 == 0) == !positiveFirst then tail[k] > 0.0 else tail[k] < 0.0
      {
        assert tail[k] == a[k + 1];
        assert ((k + 1) % 2 == 0) == (k % 2 != 0);
      }
      AlternatingAtNonPositive(x, tail, !positiveFirst);
      assert a[1] == tail[0];
      var t := Poly(x, tail);
      if positiveFirst {
        assert t <= a[1] < 0.0;
        assert x * t >= 0.0;
      } else {
        assert t >= a[1] > 0.0;
        assert x * t <= 0.0;
      }
    }
  }

  /** A monic quadratic denominator 1 + b x + c x^2 with 0 <= b < 1 and c >= 0
      stays positive on [-1, 0]. */
  lemma MonicQuadraticPositive(x: real, b: real, c: real)
    requires -1.0 <= x <= 0.0 && 0.0 <= b < 1.0 && 0.0 <= c
    ensures Poly(x, [1.0, b, c]) > 0.0
  {
    assert [1.0, b, c][1..] == [b, c];
    assert [b, c][1..] == [c];
    assert [c][1..] == [];
    assert Poly(x, [c]) == c;
    assert Poly(x, [b, c]) == b + x * c;
    assert x * c <= 0.0;
    assert x * (b + x * c) >= x * b;
    assert x * b >= -b;
  }
}
