/** The image-plane pre-multiply (`corrfun_mat`): one correction factor per
    pixel, the reciprocal of the separable correction function inside the image
    half-extents and zero outside them. */
module Correction {
  import opened Kernel

  /** Half the image extent along one axis: the pixel spacing, measured between
      the second and third samples, times half the number of pixels. */
  function HalfExtent(axis: seq<real>): (h: real)
    requires |axis| >= 3 && axis[2] != axis[1]
    ensures h > 0.0
  {
    Abs(axis[2] - axis[1]) * (|axis| as real) / 2.0
  }

  /** The factor for a pixel at normalised offsets (etax, etay): zero when either
      lies outside [-1, 1], otherwise 1 / (corrfun(etax) corrfun(etay)). It is
      never negative, and it is zero exactly outside the support. */
  function CorrectionCell(etax: real, etay: real): (c: real)
    ensures c >= 0.0
    ensures c == 0.0 <==> Abs(etax) > 1.0 || Abs(etay) > 1.0
  {
    if Abs(etax) > 1.0 || Abs(etay) > 1.0 then 0.0
    else
      var gx, gy := CorrFun(etax).x, CorrFun(etay).x;
      PositiveProduct(gx, gy);
      1.0 / (gx * gy)
  }

  lemma PositiveProduct(a: real, b: real)
    requires a > 0.0 && b > 0.0
    ensures a * b > 0.0 && 1.0 / (a * b) > 0.0
  {
  }

  /** Inside the support the factor is the reciprocal of the product of the two
      correction values, both of which are defined and positive. */
  lemma CorrectionInside(etax: real, etay: real)
    requires Abs(etax) <= 1.0 && Abs(etay) <= 1.0
    ensures CorrFun(etax).Value? && CorrFun(etay).Value?
    ensures CorrFun(etax).x * CorrFun(etay).x > 0.0
    ensures CorrectionCell(etax, etay) == 1.0 / (CorrFun(etax).x * CorrFun(etay).x)
  {
    PositiveProduct(CorrFun(etax).x, CorrFun(etay).x);
  }

  /** The factor is even in each offset, as the image half-extents are symmetric. */
  lemma CorrectionCellEven(etax: real, etay: real)
    ensures CorrectionCell(-etax, etay) == CorrectionCell(etax, etay)
    ensures CorrectionCell(etax, -etay) == CorrectionCell(etax, etay)
  {
    assert Abs(-etax) == Abs(etax) && Abs(-etay) == Abs(etay);
    SpheroidEven(etax);
    SpheroidEven(etay);
    assert CorrFun(-etax) == CorrFun(etax) && CorrFun(-etay) == CorrFun(etay);
  }

  /** Tabulates the pre-multiply over the pixel grid: mat[j, i] is the factor at
      RA offset alphas[i] / maxra and Dec offset deltas[j] / maxdec, every cell
      being written, column by column. */
  method CorrFunMat(alphas: seq<real>, deltas: seq<real>) returns (mat: array2<real>)
    requires |alphas| >= 3 && alphas[2] != alphas[1]
    requires |deltas| >= 3 && deltas[2] != deltas[1]
    ensures fresh(mat)
    ensures mat.Length0 == |deltas| && mat.Length1 == |alphas|
    ensures forall j, i :: 0 <= j < |deltas| && 0 <= i < |alphas| ==>
      mat[j, i] == CorrectionCell(alphas[i] / HalfExtent(alphas), deltas[j] / HalfExtent(deltas))
  {
    var ny, nx := |deltas|, |alphas|;
    mat := new real[ny, nx];
    var maxra := Abs(alphas[2] - alphas[1]) * (nx as real) / 2.0;
    var maxdec := Abs(deltas[2] - deltas[1]) * (ny as real) / 2.0;
    assert maxra == HalfExtent(alphas) && maxdec == HalfExtent(deltas);
    for i := 0 to nx
      invariant forall j', i' :: 0 <= j' < ny && 0 <= i' < i ==>
        mat[j', i'] == CorrectionCell(alphas[i'] / maxra, deltas[j'] / maxdec)
    {
      for j := 0 to ny
        invariant forall j', i' :: 0 <= j' < ny && 0 <= i' < i ==>
          mat[j', i'] == CorrectionCell(alphas[i'] / maxra, deltas[j'] / maxdec)
        invariant forall j' :: 0 <= j' < j ==>
          mat[j', i] == CorrectionCell(alphas[i] / maxra, deltas[j'] / maxdec)
      {
        var etax := alphas[i] / maxra;
        var etay := deltas[j] / maxdec;
        if Abs(etax) > 1.0 || Abs(etay) > 1.0 {
          mat[j, i] := 0.0;
        } else {
          CorrectionInside(etax, etay);
          mat[j, i] := 1.0 / (CorrFun(etax).x * CorrFun(etay).x);
        }
      }
    }
  }
}
