/** Locating the 6-point neighbourhood of a (u, v) sample on the model grid.
    The u axis is the non-negative half of a real FFT, in ascending order; the
    v axis is a full FFT axis, stored non-negative frequencies first and then
    negative ones, so it wraps around at the seam between index Npix - 1 and 0. */
module Windows {
  import opened Kernel

  predicate Sorted(s: seq<real>) {
    forall i, j :: 0 <= i <= j < |s| ==> s[i] <= s[j]
  }

  /** `np.searchsorted(s, x)` with side='left': the first index whose entry is
      at least x, or |s| when there is none. */
  function SearchSorted(s: seq<real>, x: real): (r: nat)
    ensures r <= |s|
    ensures forall k :: 0 <= k < r ==> s[k] < x
    ensures r < |s| ==> x <= s[r]
  {
    if s == [] || x <= s[0] then 0 else 1 + SearchSorted(s[1..], x)
  }

  /** On a sorted axis this is the leftmost insertion point: exactly the entries
      before it are smaller than x. */
  lemma SearchSortedInsertionPoint(s: seq<real>, x: real)
    requires Sorted(s)
    ensures forall k :: 0 <= k < |s| ==> (k < SearchSorted(s, x) <==> s[k] < x)
  {
  }

  /** Grid spacing, taken between the first two samples. */
  function Spacing(axis: seq<real>): (d: real)
    requires |axis| >= 2
    ensures d >= 0.0 && (d == 0.0 <==> axis[1] == axis[0])
  {
    Abs(axis[1] - axis[0])
  }

  /** The sample is within three cells of the v = 0 seam. */
  predicate NearSeam(v: real, dv: real) {
    Abs(v) < 3.0 * dv
  }

  /** With a positive spacing the seam band is the open interval (-3 dv, 3 dv)
      around v = 0, on both sides of the seam. */
  lemma NearSeamBand(v: real, dv: real)
    requires dv > 0.0
    ensures NearSeam(v, dv) <==> -3.0 * dv < v < 3.0 * dv
  {
  }

  /** The v insertion index: positive v searches the non-negative half of the
      axis, other v the negative half, offset by Npix / 2. */
  function VCentre(v: real, vModel: seq<real>): (j0: int)
    ensures v > 0.0 ==> 0 <= j0 <= |vModel| / 2
    ensures v <= 0.0 ==> |vModel| / 2 <= j0 <= |vModel|
  {
    var half := |vModel| / 2;
    if v > 0.0 then SearchSorted(vModel[..half], v)
    else SearchSorted(vModel[half..], v) + half
  }

  /** The six v indices j0 - 3 .. j0 + 2. Near the seam, those below 0 (for
      positive v) or at or past Npix (for other v) are wrapped by Npix. */
  function VWindow(v: real, vModel: seq<real>): (js: seq<int>)
    requires |vModel| >= 2
    ensures |js| == 6
  {
    var n := |vModel|;
    var j0 := VCentre(v, vModel);
    if NearSeam(v, Spacing(vModel)) then
      if v > 0.0 then seq(6, k => if j0 - 3 + k < 0 then j0 - 3 + k + n else j0 - 3 + k)
      else seq(6, k => if j0 - 3 + k >= n then j0 - 3 + k - n else j0 - 3 + k)
    else
      seq(6, k => j0 - 3 + k)
  }

  /** The six u indices i0 - 3 .. i0 + 2 around the insertion index of |u|; the
      u axis has a hard edge at 0 and never wraps. */
  function UWindow(u: real, uModel: seq<real>): (iw: seq<int>)
    ensures |iw| == 6
  {
    var i0 := SearchSorted(uModel, Abs(u));
    seq(6, k => i0 - 3 + k)
  }

  /** Away from the seam the v window is the plain run j0 - 3 .. j0 + 2. */
  lemma VWindowAwayFromSeam(v: real, vModel: seq<real>)
    requires |vModel| >= 2 && !NearSeam(v, Spacing(vModel))
    ensures forall k :: 0 <= k < 6 ==> VWindow(v, vModel)[k] == VCentre(v, vModel) - 3 + k
  {
  }

  /** Near the seam, on an axis of at least six samples, every wrapped index is
      a valid axis index, and it is the run j0 - 3 .. j0 + 2 taken modulo Npix. */
  lemma VWindowAtSeam(v: real, vModel: seq<real>)
    requires |vModel| >= 6 && NearSeam(v, Spacing(vModel))
    ensures forall k :: 0 <= k < 6 ==> 0 <= VWindow(v, vModel)[k] < |vModel|
    ensures forall k :: 0 <= k < 6 ==> VWindow(v, vModel)[k] == (VCentre(v, vModel) - 3 + k) % |vModel|
  {
    var n, j0, js := |vModel|, VCentre(v, vModel), VWindow(v, vModel);
    forall k | 0 <= k < 6
      ensures 0 <= js[k] < n && js[k] == (j0 - 3 + k) % n
    {
      var raw := j0 - 3 + k;
      if raw < 0 {
        assert v > 0.0 && js[k] == raw + n;
        ShiftedMod(raw, n, 1);
      } else if raw >= n {
        assert v <= 0.0 && js[k] == raw - n;
        ShiftedMod(raw, n, -1);
      } else {
        assert js[k] == raw;
        ShiftedMod(raw, n, 0);
      }
    }
  }

  /** An integer moved into [0, n) by adding a multiple of n is its remainder. */
  lemma ShiftedMod(x: int, n: int, m: int)
    requires n > 0 && 0 <= x + m * n < n
    ensures x % n == x + m * n
  {
    var q, r := x / n, x % n;
    var d := q + m;
    assert d * n == (x + m * n) - r by {
      assert x == q * n + r;
      assert d * n == q * n + m * n;
    }
  }

  /** Six indices each within one axis length of a consecutive run are pairwise
      distinct once they are valid indices of an axis of at least six samples. */
  lemma WindowDistinct(js: seq<int>, j0: int, n: int)
    requires |js| == 6 && n >= 6
    requires forall k :: 0 <= k < 6 ==> 0 <= js[k] < n
    requires forall k :: 0 <= k < 6 ==> js[k] == j0 - 3 + k || js[k] == j0 - 3 + k + n || js[k] == j0 - 3 + k - n
    ensures forall a, b :: 0 <= a < b < 6 ==> js[a] != js[b]
  {
  }

  /** On an axis of at least six samples the six v indices are pairwise distinct,
      near the seam and away from it. */
  lemma VWindowDistinct(v: real, vModel: seq<real>)
    requires |vModel| >= 6
    ensures forall a, b :: 0 <= a < b < 6 ==> VWindow(v, vModel)[a] != VWindow(v, vModel)[b]
  {
    if NearSeam(v, Spacing(vModel)) {
      VWindowAtSeam(v, vModel);
      WindowDistinct(VWindow(v, vModel), VCentre(v, vModel), |vModel|);
    }
  }

  /** On a sorted axis whose window lies inside it, the window has three grid
      points below |u| and three at or above it. */
  lemma UWindowBrackets(u: real, uModel: seq<real>)
    requires Sorted(uModel)
    requires forall k :: 0 <= k < 6 ==> 0 <= UWindow(u, uModel)[k] < |uModel|
    ensures forall k :: 0 <= k < 3 ==> uModel[UWindow(u, uModel)[k]] < Abs(u)
    ensures forall k :: 3 <= k < 6 ==> Abs(u) <= uModel[UWindow(u, uModel)[k]]
  {
    SearchSortedInsertionPoint(uModel, Abs(u));
  }

  /** With each half of the v axis sorted, the centre is the insertion point of v
      into the half it searches: the non-negative half for v > 0, the negative
      half otherwise. */
  lemma VCentreInsertion(v: real, vModel: seq<real>)
    requires Sorted(vModel[..|vModel| / 2]) && Sorted(vModel[|vModel| / 2..])
    ensures v > 0.0 ==> forall k :: 0 <= k < |vModel| / 2 ==> (k < VCentre(v, vModel) <==> vModel[k] < v)
    ensures v <= 0.0 ==> forall k :: |vModel| / 2 <= k < |vModel| ==> (k < VCentre(v, vModel) <==> vModel[k] < v)
  {
    var half := |vModel| / 2;
    if v > 0.0 {
      SearchSortedInsertionPoint(vModel[..half], v);
      assert forall k :: 0 <= k < half ==> vModel[..half][k] == vModel[k];
    } else {
      SearchSortedInsertionPoint(vModel[half..], v);
      assert forall k :: half <= k < |vModel| ==> vModel[half..][k - half] == vModel[k];
    }
  }

  /** The v axis as an FFT lays it out, with spacing d = axis[1] - axis[0] > 0:
      0, d, 2 d, ... up to the middle, then the negative frequencies ..., -2 d, -d. */
  predicate FftOrdered(axis: seq<real>)
    requires |axis| >= 2
  {
    axis[1] - axis[0] > 0.0 &&
    (forall k :: 0 <= k < |axis| / 2 ==> axis[k] == (k as real) * (axis[1] - axis[0])) &&
    (forall k :: |axis| / 2 <= k < |axis| ==> axis[k] == ((k - |axis|) as real) * (axis[1] - axis[0]))
  }

  lemma FftLow(axis: seq<real>, k: int)
    requires |axis| >= 2 && FftOrdered(axis) && 0 <= k < |axis| / 2
    ensures axis[k] == (k as real) * (axis[1] - axis[0])
  {
  }

  lemma FftHigh(axis: seq<real>, k: int)
    requires |axis| >= 2 && FftOrdered(axis) && |axis| / 2 <= k < |axis|
    ensures axis[k] == ((k - |axis|) as real) * (axis[1] - axis[0])
  {
  }

  lemma StepMul(i: int, d: real)
    ensures ((i + 1) as real) * d == (i as real) * d + d
  {
  }

  /** Neighbours within one half of an FFT-ordered axis are one spacing apart. */
  lemma FftStep(axis: seq<real>, k: int)
    requires |axis| >= 2 && FftOrdered(axis) && 1 <= k < |axis| && k != |axis| / 2
    ensures axis[k] == axis[k - 1] + (axis[1] - axis[0])
  {
    if k < |axis| / 2 {
      FftLow(axis, k);
      FftLow(axis, k - 1);
      StepMul(k - 1, axis[1] - axis[0]);
    } else {
      FftHigh(axis, k);
      FftHigh(axis, k - 1);
      StepMul(k - 1 - |axis|, axis[1] - axis[0]);
    }
  }

  /** On an FFT-ordered axis of at least six samples, for v > 0, window point 2
      lies below v and less than one spacing d from it, unless v is past the last
      non-negative frequency; then window point 0 lies two spacings below it. */
  lemma VWindowNearestPositive(v: real, vModel: seq<real>)
    requires |vModel| >= 6 && FftOrdered(vModel) && v > 0.0
    ensures var js, d := VWindow(v, vModel), vModel[1] - vModel[0];
      0 <= js[2] < |vModel| && vModel[js[2]] < v &&
      (v - vModel[js[2]] <= d || (0 <= js[0] < |vModel| && vModel[js[0]] == vModel[js[2]] - 2.0 * d))
  {
    var half, d := |vModel| / 2, vModel[1] - vModel[0];
    var j0, js := VCentre(v, vModel), VWindow(v, vModel);
    var s := vModel[..half];
    FftLow(vModel, 0);
    assert s[0] == vModel[0] == 0.0;
    assert j0 >= 1;
    assert js[2] == j0 - 1;
    assert vModel[j0 - 1] == s[j0 - 1] < v;
    if j0 < half {
      assert v <= s[j0] == vModel[j0];
      FftStep(vModel, j0);
    } else {
      assert js[0] == j0 - 3;
      FftStep(vModel, j0 - 1);
      FftStep(vModel, j0 - 2);
    }
  }

  /** For v <= 0, window point 3 lies at or above v and less than one spacing
      from it, unless v is below the most negative frequency; then window point 5
      lies two spacings above it. */
  lemma VWindowNearestNonPositive(v: real, vModel: seq<real>)
    requires |vModel| >= 6 && FftOrdered(vModel) && v <= 0.0
    ensures var js, d := VWindow(v, vModel), vModel[1] - vModel[0];
      0 <= js[3] < |vModel| && v <= vModel[js[3]] &&
      (vModel[js[3]] - v < d || (0 <= js[5] < |vModel| && vModel[js[5]] == vModel[js[3]] + 2.0 * d))
  {
    var n, half, d := |vModel|, |vModel| / 2, vModel[1] - vModel[0];
    var j0, js := VCentre(v, vModel), VWindow(v, vModel);
    var s := vModel[half..];
    assert j0 == SearchSorted(s, v) + half;
    if j0 < n {
      assert js[3] == j0 && v <= vModel[j0] by {
        assert v <= s[j0 - half] == vModel[j0];
      }
      if j0 > half {
        assert vModel[j0] - v < d by {
          assert vModel[j0 - 1] == s[j0 - 1 - half] < v;
          FftStep(vModel, j0);
        }
      } else {
        assert js[5] == j0 + 2 && vModel[js[5]] == vModel[j0] + 2.0 * d by {
          FftStep(vModel, j0 + 1);
          FftStep(vModel, j0 + 2);
        }
      }
    } else {
      assert -d < v by {
        assert vModel[n - 1] == s[n - 1 - half] < v;
        FftHigh(vModel, n - 1);
      }
      assert js[3] == 0 && vModel[0] == 0.0 by {
        FftLow(vModel, 0);
        assert Spacing(vModel) == d && NearSeam(v, Spacing(vModel));
      }
    }
  }
}
