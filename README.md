# Gridding kernel and interpolation matrices (million-points-of-light)

A Dafny model of `gridding.py`, the part of million-points-of-light that
interpolates a model, held on a regular FFT grid, to irregular (u, v)
visibility samples with a prolate-spheroidal kernel. Each sample gets one row
of an interpolation matrix over the flattened grid. The project proves
properties of this model.

- `Polynomial.dfy` covers `horner`. The Horner loop is proved to compute the
  polynomial sum a[0] + a[1] x + ... + a[n-1] x^(n-1).
- `Kernel.dfy` covers `spheroid`, `corrfun` and `gcffun`, plus the elementwise
  application that `np.vectorize` gives them.
  - The kernel is a rational fit on |eta|: one branch up to 0.75 and another
    up to 1. Beyond that comes a 1e-7 band that returns 0, and past the band
    it raises a ValueError, which the model represents as `OutOfDomain`.
  - The coefficients are kept as exact reals.
  - Proved: both fits are positive on their ranges (numerators alternate in
    sign, denominators are monic quadratics), the kernel is even, and
    `gcffun = |1 - eta^2| * spheroid` is non-negative and zero exactly at
    |eta| >= 1 within the domain.
- `Correction.dfy` covers `corrfun_mat`: the image-plane pre-multiply filled
  column by column into a 2-D array. Each cell is proved equal to the factor
  at its normalised offsets. That factor is zero outside the image
  half-extents and otherwise 1 / (corrfun(etax) corrfun(etay)).
- `Windows.dfy` covers how `calc_matrices` locates its windows:
  - `np.searchsorted` (side='left') and its insertion-point meaning on sorted
    input;
  - the u window, which never wraps;
  - the v window on an FFT-ordered axis, which searches the half that matches
    the sign of v and wraps by Npix only near the v = 0 seam.
- `Interpolation.dfy` covers the rest of `calc_matrices`:
  - each sample's row plan: its 36 flattened indices `i + j * vstride` (i
    outer, j inner), the separable weights `uw[i] * vw[j]` and the
    normaliser `sum(uw) * sum(vw)`, or the u-overlap sentinel row;
  - the method that fills `C_real` and `C_imag` row by row.

  Proved about it:
  - the weights sum to one when the normaliser is non-zero, and a zero
    normaliser means every weight is 0 / 0;
  - the indices lie inside the grid and, on an axis of at least six v samples,
    are distinct;
  - the imaginary row equals the real row for u > 0 and is its negation
    otherwise, so the sample (-u, v) gets the same C_real row as (u, v) and
    the negation of its C_imag row (the grid is read at (|u|, v) for both);
  - a sample within three u cells of u = 0 gets a row of NaN.

Float64 values are modelled as Dafny `real`. The NaN that `calc_matrices`
writes is an explicit `NaN` constructor of `Interpolation.Cell`. A
ValueError raised by the kernel anywhere in `calc_matrices` aborts the whole
call, so the model reports it with `ok == false`.

A computed row does not always hold 36 non-zero weights. `gcffun` vanishes at
|eta| = 1 (`Kernel.GcfFun`), so a window point exactly three cells from the
sample gets weight 0. The normaliser of a computed row is positive exactly when
some u offset and some v offset lie strictly inside (-1, 1)
(`Interpolation.RowNormaliserPositive`). On a sorted, evenly spaced u axis the
u half of that condition always holds (`Interpolation.NearestUOffset`). On a v
axis in FFT order (0, dv, 2 dv, ..., then the negative frequencies up to -dv)
with at least six samples, the v half holds for every row whose kernel values
are all defined (`Interpolation.NearestVOffset`). On the grid layout the code
expects, every computed row therefore has a positive normaliser
(`Interpolation.FftGridNormaliser`). The sample (4, 0.3) on an 8 x 8 grid is
worked through in `Interpolation.ExampleRow`.

## Model

| member | source | states |
|---|---|---|
| Polynomial.Horner | gridding.py:7-18 | the descending loop returns the term-by-term sum a[0] + a[1] x + ... + a[n-1] x^(n-1); its invariant is that `result` holds the nested (Horner) value of the suffix a[i..] |
| Polynomial.Poly | gridding.py:7-18 | the nested form a[0] + x (a[1] + x (... + x a[n-1])) that the loop builds from the last coefficient down; its contract gives only the value at x = 0, the constant term, and its meaning is stated by PolyIsPolySum |
| Polynomial.PolySumCons | gridding.py:16-17 | the step the loop takes: a polynomial is its constant term plus x times the polynomial of the remaining coefficients |
| Polynomial.PolyIsPolySum | gridding.py:8-18 | the nested form the loop evaluates equals the term-by-term sum for every coefficient list |
| Polynomial.AlternatingAtNonPositive | gridding.py:35-40 | for x <= 0, a polynomial with alternating-sign coefficients lies at or beyond its constant term on the side of its sign; this is how both fit numerators are shown positive |
| Polynomial.MonicQuadraticPositive | gridding.py:35-40 | the fit denominators 1 + b x + c x^2 (0 <= b < 1, c >= 0) are positive on [-1, 0] |
| Kernel.Abs | gridding.py:30 | `np.abs`: non-negative, and equal to x or -x |
| Kernel.FitCoefficients | gridding.py:35-40 | the four coefficient lists as written: both numerators have five terms alternating in sign from a positive constant term, and both denominators are 1 + b nn + c nn^2 with 0 <= b < 1 and c >= 0 |
| Kernel.Rational | gridding.py:35-40 | a fit P(nn) / Q(nn) with an alternating numerator and a monic quadratic denominator is positive for nn in [-1, 0] |
| Kernel.InnerFit | gridding.py:32-35 | for abs(eta) <= 0.75, nn = eta^2 - 0.75^2 lies in [-0.5625, 0] and the first fit's value is positive |
| Kernel.OuterFit | gridding.py:37-40 | for 0.75 < abs(eta) <= 1, nn = eta^2 - 1 lies in (-0.4375, 0] and the second fit's value is positive |
| Kernel.Spheroid | gridding.py:20-49 | there is a value exactly when abs(eta) <= 1 + 1e-7; it is positive on [-1, 1] and exactly 0 in the band 1 < abs(eta) <= 1 + 1e-7; beyond the band the result is the ValueError |
| Kernel.SpheroidBranches | gridding.py:30-40 | the first fit is taken on abs(eta) <= 0.75 and the second on 0.75 < abs(eta) <= 1, both in abs(eta), whose square is eta^2 |
| Kernel.SpheroidEven | gridding.py:29-30 | spheroid(-eta) == spheroid(eta), including the error case |
| Kernel.CorrFun | gridding.py:52-59 | same domain as the kernel, and positive on [-1, 1] |
| Kernel.GcfFun | gridding.py:98-107 | same domain as the kernel; the value is never negative and is positive exactly when abs(eta) < 1 |
| Kernel.GcfFunEven | gridding.py:107 | gcffun(-eta) == gcffun(eta) |
| Kernel.Vectorize | gridding.py:20-21 | the elementwise map succeeds exactly when every element is in the domain, and then element k is the kernel's value at element k |
| Correction.HalfExtent | gridding.py:81-82 | the half-extent pixel spacing * n / 2 is positive whenever the spacing is non-zero |
| Correction.CorrectionCell | gridding.py:86-94 | a cell factor is never negative, and is zero exactly when abs(etax) > 1 or abs(etay) > 1 |
| Correction.CorrectionInside | gridding.py:93-94 | inside the support both corrfun values exist, their product is positive, and the factor is its reciprocal |
| Correction.CorrectionCellEven | gridding.py:84-94 | the factor is even in each of etax and etay |
| Correction.CorrFunMat | gridding.py:62-96 | returns a fresh ny x nx array in which every cell [j, i] is the factor at (alphas[i] / maxra, deltas[j] / maxdec), with maxra and maxdec the half-extents |
| Windows.SearchSorted | gridding.py:181 | `np.searchsorted`: an index in [0, len(s)] such that every earlier entry is below x and the entry at it, if any, is at least x |
| Windows.SearchSortedInsertionPoint | gridding.py:181 | on a sorted axis, index k lies before the result exactly when s[k] < x |
| Windows.Spacing | gridding.py:150-151 | du and dv, the absolute difference of the first two axis samples: never negative, and zero exactly when the two samples are equal |
| Windows.NearSeamBand | gridding.py:157 | with dv > 0, the v overlap test abs(v) < 3 dv holds exactly for v in the open band (-3 dv, 3 dv) around the seam |
| Windows.VCentre | gridding.py:157-172 | for v > 0 the centre lies in the non-negative half [0, Npix/2], otherwise in [Npix/2, Npix] |
| Windows.VCentreInsertion | gridding.py:159-172 | with both halves sorted, the centre is the insertion point of v into the non-negative half when v > 0 and into the negative half otherwise |
| Windows.VWindow | gridding.py:157-174 | six v indices (their values are stated by the next two lemmas) |
| Windows.VWindowAwayFromSeam | gridding.py:168-174 | away from the seam the window is exactly j0 - 3 .. j0 + 2, with no wraparound |
| Windows.VWindowAtSeam | gridding.py:157-166 | near the seam, with Npix >= 6, every index lies in [0, Npix) and equals (j0 - 3 + k) mod Npix |
| Windows.VWindowDistinct | gridding.py:157-174 | with Npix >= 6 the six v indices are pairwise distinct in both branches |
| Windows.VWindowNearestPositive | gridding.py:157-174 | on an FFT-ordered v axis of at least six samples, for v > 0: window point 2 is a valid index whose frequency lies below v and at most one spacing from it, or else window point 0 is valid and lies two spacings below point 2 |
| Windows.VWindowNearestNonPositive | gridding.py:157-174 | for v <= 0: window point 3 is a valid index whose frequency is at or above v and less than one spacing from it (index 0 after the seam wrap when v > -dv), or else window point 5 is valid and lies two spacings above point 3 |
| Windows.UWindow | gridding.py:181-182 | six u indices around the insertion point of abs(u) |
| Windows.UWindowBrackets | gridding.py:180-182 | on a sorted u axis with the window inside it, the first three window points lie below abs(u) and the last three at or above it |
| Interpolation.UEtas | gridding.py:190 | six normalised u offsets, one per window point |
| Interpolation.VEtas | gridding.py:191 | six normalised v offsets, one per window point |
| Interpolation.Resolved | gridding.py:178 | the u overlap test abs(u) > 3 du: the sample lies more than three u cells from u = 0, on either side |
| Interpolation.FlatIndices | gridding.py:185 | the 36 flattened indices i + j * vstride, i outer and j inner; its contract gives only the length, the layout is stated by WeightedRowAt and the range by FlatIndicesValid |
| Interpolation.OuterProductLength | gridding.py:202 | the separable products uw[i] * vw[j] number len(uw) * len(vw) |
| Interpolation.SumConcat | gridding.py:198 | Python `sum` over a list is additive: the sum of a concatenation is the sum of the sums |
| Interpolation.SumNonNegative | gridding.py:198 | a sum of non-negative weights is non-negative, and zero only when every weight is |
| Interpolation.UEtasSigns | gridding.py:181-190 | on a sorted u axis the offsets of the three points below abs(u) are positive, and those of the other three are non-positive |
| Interpolation.OuterProductAt | gridding.py:202 | the product list has len(xs) * len(ys) entries, with xs[a] * ys[b] at position a * len(ys) + b (i outer, j inner) |
| Interpolation.SumOuterProduct | gridding.py:198-202 | the 36 products sum to sum(uw) * sum(vw), which is the normaliser w |
| Interpolation.WeightedRowAt | gridding.py:185-202 | entry 6 a + b of a row pairs column iw[a] + js[b] * vstride with raw weight uw[a] * vw[b]; w is the sum of the 36 raw weights |
| Interpolation.WeightedRow | gridding.py:185-202 | a computed row: the flattened indices, the 36 separable products and w = sum(uw) * sum(vw); its contract gives only that it is a computed row with 36 columns, the entries are stated by WeightedRowAt |
| Interpolation.RowPlan | gridding.py:154-236 | the row is the u-overlap sentinel exactly when abs(u) <= 3 du; a computed row has 36 columns and 36 weights |
| Interpolation.RowPlanAt | gridding.py:185-202 | with uw and vw the gcffun values of a sample's u and v offsets, its row is computed; entry 6 a + b has column UWindow[a] + VWindow[b] * vstride and raw weight uw[a] * vw[b]; w is the sum of all 36 raw weights |
| Interpolation.SumPositive | gridding.py:198 | a sum of non-negative terms is non-negative, and positive exactly when some term is |
| Interpolation.WindowWeightSum | gridding.py:194-198 | the gcffun weights of a window sum to a non-negative number, positive exactly when some offset lies strictly inside (-1, 1) |
| Interpolation.WeightedRowNormaliser | gridding.py:198 | with non-negative weight sums, w = sum(uw) * sum(vw) is non-negative, and positive exactly when both sums are |
| Interpolation.RowNormaliserPositive | gridding.py:185-202 | a computed row's normaliser is non-negative, and positive exactly when some u offset and some v offset lie strictly inside (-1, 1) |
| Interpolation.NearestUOffset | gridding.py:125-128 | on a sorted u axis whose samples are one spacing apart, the window point just below abs(u) has offset in (0, 1/3] |
| Interpolation.EvenAxisNormaliser | gridding.py:178-202 | on such a u axis, a computed row's normaliser is positive exactly when some v offset lies strictly inside (-1, 1) |
| Interpolation.NearestVOffset | gridding.py:157-191 | on an FFT-ordered v axis of at least six samples, if every v offset is in the kernel's domain then v_etas[2] lies in (0, 1) for v > 0 and v_etas[3] lies in (-1, 0] otherwise |
| Interpolation.FftGridNormaliser | gridding.py:150-202 | on a sorted, evenly spaced u axis and an FFT-ordered v axis of at least six samples, every computed row has w > 0, so its stored weights are numbers and never 0 / 0 |
| Interpolation.ExampleWindows | gridding.py:154-182 | for the sample (4, 0.3) on u = 0 .. 7 and v = 0, 1, 2, 3, -4, -3, -2, -1: the row is computed, the u window is 1 .. 6, and the v window wraps to 6, 7, 0, 1, 2, 3 |
| Interpolation.ExampleLayout | gridding.py:125-131 | that grid has a sorted u axis one spacing apart and a v axis in FFT order with eight samples, the layout FftGridNormaliser needs |
| Interpolation.ExampleOffsets | gridding.py:190-191 | that sample's u offsets are 1, 2/3, 1/3, 0, -1/3, -2/3 and its v offsets are 2.3/3, 1.3/3, 0.1, -0.7/3, -1.7/3, -2.7/3 |
| Interpolation.ExampleRow | gridding.py:154-202 | that sample's row plan succeeds and has a positive normaliser |
| Interpolation.RowPlanDomain | gridding.py:190-195 | a computed row fails exactly when some u or v offset lies outside the kernel's domain |
| Interpolation.KernelWeightsNonNegative | gridding.py:194-195 | the window weights uw and vw are non-negative, and positive exactly at offsets strictly inside (-1, 1) |
| Interpolation.NormalisedSumsToOne | gridding.py:197-202 | weights divided by their non-zero sum add up to one |
| Interpolation.Weights | gridding.py:202 | the 36 stored weights raw / w, one per raw weight; an entry is NaN exactly when w == 0, the 0 / 0 of a zero normaliser |
| Interpolation.ZeroNormaliser | gridding.py:198-202 | non-negative uw and vw with sum(uw) * sum(vw) == 0 give all-zero products |
| Interpolation.WeightedRowWeights | gridding.py:197-202 | for non-negative uw and vw: w is the sum of the raw weights; if w != 0 the stored weights are raw / w and sum to one; if w == 0 every raw weight is 0 and every stored weight is NaN |
| Interpolation.RowWeights | gridding.py:178-202 | the same facts for every computed row of a sample |
| Interpolation.FlatIndicesValid | gridding.py:185 | windows inside an Npix x vstride grid give flat indices in [0, Npix * vstride); distinct windows give distinct indices |
| Interpolation.RowColumns | gridding.py:182-185 | a computed row's 36 columns lie in [0, Npix * vstride) and, with Npix >= 6, are pairwise distinct |
| Interpolation.ScatterDistinct | gridding.py:205 | assigning to distinct columns leaves each listed column with its own value and every other column at zero |
| Interpolation.ScatterNegated | gridding.py:214 | assigning the negated weights gives the negated row |
| Interpolation.Scatter | gridding.py:205 | one entry of a zero row after `C[row, cols] = vals`, written in order so that a repeated column keeps its last value; a column that no index names stays 0 |
| Interpolation.ScatterWritten | gridding.py:205 | every entry of such a row is 0 or one of the values written |
| Interpolation.RealCell | gridding.py:205-236 | entry l of a sample's C_real row: NaN for a u-overlap sample, and 0 at every column a computed row does not name |
| Interpolation.ImagCell | gridding.py:207-236 | entry l of a sample's C_imag row: NaN for a u-overlap sample, and 0 at every column a computed row does not name |
| Interpolation.CellNaN | gridding.py:202-214 | a computed row holds NaN in C_real or C_imag only when its normaliser w is zero |
| Interpolation.RowCells | gridding.py:205 | in a written row with distinct columns, column cols[k] holds weight k and every other entry is 0 |
| Interpolation.ImagMirrorsReal | gridding.py:205-214 | every entry of the C_imag row equals the C_real entry when u > 0 and is its negation otherwise, sentinel rows included |
| Interpolation.MirroredRowPlan | gridding.py:178-191 | the sample (-u, v) is inside the grid whenever (u, v) is, and has the same row plan |
| Interpolation.ConjugateSymmetry | gridding.py:207-214 | (-u, v) has the same real row as (u, v), and every entry of its imaginary row is negated |
| Interpolation.SentinelRow | gridding.py:216-236 | a sample with abs(u) <= 3 du has NaN in every entry of both rows |
| Interpolation.ScatterRow | gridding.py:205 | `C[row, cols] = vals` on a zero row: the row becomes the in-order assignment of vals at cols; other rows are unchanged |
| Interpolation.FillRow | gridding.py:235-236 | `C[row, :] = x`: every entry of the row becomes x; other rows are unchanged |
| Interpolation.Collect | gridding.py:154-195 | the row plans of the loop in order, or the error of the first sample whose kernel raises; a successful collection has one value per result |
| Interpolation.WriteRow | gridding.py:205-236 | writes one sample's real and imaginary rows and changes no other row |
| Interpolation.CollectAll | gridding.py:154-195 | the first-error collection of a list of results succeeds exactly when every result does, and then keeps all their values in order |
| Interpolation.CollectStopAtError | gridding.py:154-195 | an error among the first k results is the error of the whole collection: the loop never recovers from a ValueError |
| Interpolation.Plans | gridding.py:154-195 | the row plans of all samples, or the ValueError that ends the loop; on success one plan per sample |
| Interpolation.PlansRows | gridding.py:154-236 | the plans of all samples succeed exactly when every sample's row plan does, and then entry r is sample r's row plan |
| Interpolation.Zeros | gridding.py:146-147 | `np.zeros`: a fresh n x w matrix whose every row is zero |
| Interpolation.BuildRow | gridding.py:154-236 | one pass of the sample loop on a zero row: reports whether the sample's row plan succeeds and, if so, writes its real and imaginary rows; no other row changes |
| Interpolation.CalcMatrices | gridding.py:110-239 | returns fresh N_vis x (Npix * vstride) matrices; `ok` holds exactly when the row plans of all samples succeed (by PlansRows: when no sample's row hits a kernel domain error), and then row r of C_real and C_imag is the real and imaginary row of sample r |

## Left out

- Float64 arithmetic is modelled as exact reals: rounding, overflow, and the inexact constant `1.0 + 1e-7` are not modelled. The accuracy of the rational fits and their continuity at |eta| = 0.75 are not claimed by the code and are not proved.
- Division by zero needs IEEE infinities and NaN. The model instead requires non-zero grid spacing: `alphas[2] != alphas[1]` and `deltas[2] != deltas[1]` for `corrfun_mat`, and `u_model[1] != u_model[0]` and `v_model[1] != v_model[0]` for `calc_matrices`. The one division whose divisor can be zero with valid spacing is the weight normalisation. There every raw weight is provably 0, so the model writes NaN, as 0 / 0 does.
- numpy indexing:
  - Negative indices and out-of-range `IndexError`s are replaced by a precondition (`Interpolation.InGrid`). Whenever a row is computed, both windows must lie inside the grid. This is the containment the code leaves as a TODO.
  - `Correction.CorrFunMat` requires at least three pixels along each image axis, where `corrfun_mat` would raise an `IndexError` reading `alphas[2]` or `deltas[2]`.
  - `Interpolation.AxesOk` requires at least two samples on each model axis, where `calc_matrices` would raise an `IndexError` computing du and dv.
  - Fancy assignment with a repeated column is modelled as last write wins.
- The `print` calls before the ValueError in `spheroid` and in the u-overlap branch are diagnostic output and are left out.
- `np.vectorize` broadcasting and its output-type probing: the kernel is scalar, `Kernel.Vectorize` maps it over a sequence, and `corrfun_mat` calls it on scalars.
- The unimplemented five-step plan for the u-overlap case is left out. Only the NaN rows it currently writes are modelled.
- Sparse versus dense storage: the matrices are dense `array2`s, as in the code.
- `Windows.SearchSorted` is numpy's side='left' result only on sorted input, which every FFT axis half is. On unsorted input numpy's binary search can give a different index.
- Windows.VWindowDistinct, Interpolation.RowColumns: distinctness of the v indices is proved for Npix >= 6. Below that the seam wraparound can repeat an index.
- A positive normaliser for every computed row (`Interpolation.FftGridNormaliser`) is proved for sorted, evenly spaced u axes and for v axes in FFT order with at least six samples. For other axes only the condition of `Interpolation.RowNormaliserPositive` is stated.
