/** The interpolation-matrix builder (`calc_matrices`): for each visibility
    sample (u, v), one row of C_real and one of C_imag over the flattened RFFT
    grid, holding the 36 normalised separable kernel weights of its 6 x 6
    neighbourhood, with the imaginary row negated for u <= 0, or a row of
    not-a-number sentinels where the sample overlaps the u = 0 edge. */
module Interpolation {
  import opened Kernel
  import opened Windows

  /** A float64 matrix entry: a number, or the not-a-number sentinel. */
  datatype Cell = Num(x: real) | NaN

  function Neg(a: Cell): Cell {
    match a
    case Num(x) => Num(-x)
    case NaN => NaN
  }

  /** One visibility sample. */
  datatype UV = UV(u: real, v: real)

  /** Sum of a sequence, left to right. */
  function Sum(s: seq<real>): real {
    if s == [] then 0.0 else s[0] + Sum(s[1..])
  }

  function Scale(c: real, s: seq<real>): seq<real> {
    seq(|s|, k requires 0 <= k < |s| => c * s[k])
  }

  /** Products xs[a] * ys[b], row-major: a outer, b inner. */
  function OuterProduct(xs: seq<real>, ys: seq<real>): seq<real> {
    if xs == [] then [] else Scale(xs[0], ys) + OuterProduct(xs[1..], ys)
  }

  lemma {:induction false} SumConcat(a: seq<real>, b: seq<real>)
    ensures Sum(a + b) == Sum(a) + Sum(b)
  {
    if a != [] {
      assert (a + b)[1..] == a[1..] + b;
      SumConcat(a[1..], b);
    } else {
      assert a + b == b;
    }
  }

  lemma {:induction false} SumScale(c: real, s: seq<real>)
    ensures Sum(Scale(c, s)) == c * Sum(s)
  {
    if s != [] {
      assert forall k :: 0 <= k < |s| - 1 ==> Scale(c, s)[1..][k] == Scale(c, s[1..])[k];
      assert Scale(c, s)[1..] == Scale(c, s[1..]);
      SumScale(c, s[1..]);
    }
  }

  /** The outer product has |xs| * |ys| entries, xs[a] * ys[b] at a * |ys| + b. */
  lemma {:induction false} OuterProductAt(xs: seq<real>, ys: seq<real>, a: int, b: int)
    requires 0 <= a < |xs| && 0 <= b < |ys|
    ensures |OuterProduct(xs, ys)| == |xs| * |ys|
    ensures a * |ys| + b < |xs| * |ys|
    ensures OuterProduct(xs, ys)[a * |ys| + b] == xs[a] * ys[b]
  {
    var m := |ys|;
    MulSucc(|xs| - 1, m);
    if a == 0 {
      OuterProductLength(xs[1..], ys);
    } else {
      OuterProductAt(xs[1..], ys, a - 1, b);
      MulSucc(a - 1, m);
      assert xs[1..][a - 1] == xs[a];
    }
  }

  lemma MulSucc(k: int, m: int)
    ensures (k + 1) * m == m + k * m
  {
  }

  /** The outer product has one entry per pair. */
  lemma {:induction false} OuterProductLength(xs: seq<real>, ys: seq<real>)
    ensures |OuterProduct(xs, ys)| == |xs| * |ys|
  {
    if xs != [] {
      OuterProductLength(xs[1..], ys);
      assert |xs| * |ys| == |ys| + |xs[1..]| * |ys|;
    }
  }

  /** The outer product sums to the product of the sums. */
  lemma {:induction false} SumOuterProduct(xs: seq<real>, ys: seq<real>)
    ensures Sum(OuterProduct(xs, ys)) == Sum(xs) * Sum(ys)
  {
    if xs != [] {
      SumConcat(Scale(xs[0], ys), OuterProduct(xs[1..], ys));
      SumScale(xs[0], ys);
      SumOuterProduct(xs[1..], ys);
      assert Sum(xs) * Sum(ys) == xs[0] * Sum(ys) + Sum(xs[1..]) * Sum(ys);
    }
  }

  predicate NonNegative(s: seq<real>) {
    forall k :: 0 <= k < |s| ==> s[k] >= 0.0
  }

  /** A sum of non-negative terms is non-negative, and zero only if every term is. */
  lemma {:induction false} SumNonNegative(s: seq<real>)
    requires NonNegative(s)
    ensures Sum(s) >= 0.0
    ensures Sum(s) == 0.0 ==> forall k :: 0 <= k < |s| ==> s[k] == 0.0
  {
    if s != [] {
      SumNonNegative(s[1..]);
      assert forall k :: 1 <= k < |s| ==> s[k] == s[1..][k - 1];
    }
  }

  /** The axes the builder needs: two samples each, with non-zero spacing. */
  predicate AxesOk(uModel: seq<real>, vModel: seq<real>) {
    |uModel| >= 2 && |vModel| >= 2 && uModel[1] != uModel[0] && vModel[1] != vModel[0]
  }

  /** The sample is away from the u = 0 edge, so its row is computed. */
  predicate Resolved(p: UV, uModel: seq<real>): (r: bool)
    requires |uModel| >= 2
    ensures r <==> p.u < -3.0 * Spacing(uModel) || 3.0 * Spacing(uModel) < p.u
  {
    Abs(p.u) > 3.0 * Spacing(uModel)
  }

  /** Where a row is computed, both windows fall inside the grid. */
  predicate InGrid(p: UV, uModel: seq<real>, vModel: seq<real>)
    requires AxesOk(uModel, vModel)
  {
    Resolved(p, uModel) ==>
      (forall k :: 0 <= k < 6 ==> 0 <= UWindow(p.u, uModel)[k] < |uModel|) &&
      (forall k :: 0 <= k < 6 ==> 0 <= VWindow(p.v, vModel)[k] < |vModel|)
  }

  /** Npix * vstride: the length of a flattened grid row of C_real and C_imag. */
  function GridWidth(uModel: seq<real>, vModel: seq<real>): nat {
    |vModel| * |uModel|
  }

  /** Normalised u offsets (|u| - u_i) / (3 du) of the window from the sample. */
  function UEtas(p: UV, uModel: seq<real>, vModel: seq<real>): (etas: seq<real>)
    requires AxesOk(uModel, vModel) && InGrid(p, uModel, vModel) && Resolved(p, uModel)
    ensures |etas| == 6
  {
    var iw := UWindow(p.u, uModel);
    seq(6, k requires 0 <= k < 6 => (Abs(p.u) - uModel[iw[k]]) / (3.0 * Spacing(uModel)))
  }

  /** Normalised v offsets (v - v_j) / (3 dv) of the window from the sample. */
  function VEtas(p: UV, uModel: seq<real>, vModel: seq<real>): (etas: seq<real>)
    requires AxesOk(uModel, vModel) && InGrid(p, uModel, vModel) && Resolved(p, uModel)
    ensures |etas| == 6
  {
    var js := VWindow(p.v, vModel);
    seq(6, k requires 0 <= k < 6 => (p.v - vModel[js[k]]) / (3.0 * Spacing(vModel)))
  }

  /** On a sorted u axis the three window points below |u| have positive
      offsets and the three at or above it non-positive ones. */
  lemma UEtasSigns(p: UV, uModel: seq<real>, vModel: seq<real>)
    requires AxesOk(uModel, vModel) && InGrid(p, uModel, vModel) && Resolved(p, uModel)
    requires Sorted(uModel)
    ensures forall k :: 0 <= k < 3 ==> UEtas(p, uModel, vModel)[k] > 0.0
    ensures forall k :: 3 <= k < 6 ==> UEtas(p, uModel, vModel)[k] <= 0.0
  {
    UWindowBrackets(p.u, uModel);
    var iw, d := UWindow(p.u, uModel), 3.0 * Spacing(uModel);
    forall k | 0 <= k < 6
      ensures k < 3 ==> UEtas(p, uModel, vModel)[k] > 0.0
      ensures 3 <= k ==> UEtas(p, uModel, vModel)[k] <= 0.0
    {
      var x := Abs(p.u) - uModel[iw[k]];
      assert UEtas(p, uModel, vModel)[k] == x / d;
      if k < 3 {
        assert x > 0.0;
      } else {
        assert x <= 0.0;
      }
    }
  }

  predicate InKernelDomain(etas: seq<real>) {
    forall k :: 0 <= k < |etas| ==> Abs(etas[k]) <= 1.0 + Tolerance
  }

  /** Flattened grid indices i + j * vstride, i outer and j inner. */
  function FlatIndices(iw: seq<int>, js: seq<int>, vstride: int): (ls: seq<int>)
    requires |iw| == 6 && |js| == 6
    ensures |ls| == 36
  {
    seq(36, k requires 0 <= k < 36 => iw[k / 6] + js[k % 6] * vstride)
  }

  /** What one data point contributes: the u-overlap sentinel, or the 36 grid
      columns with their unnormalised weights and the normaliser w. */
  datatype Row = Unresolved | Weighted(cols: seq<int>, raw: seq<real>, w: real)

  /** The row of a computed sample from its two windows and their kernel weights. */
  function WeightedRow(iw: seq<int>, js: seq<int>, vstride: int, uw: seq<real>, vw: seq<real>): (r: Row)
    requires |iw| == 6 && |js| == 6
    ensures r.Weighted? && |r.cols| == 36
  {
    Weighted(FlatIndices(iw, js, vstride), OuterProduct(uw, vw), Sum(uw) * Sum(vw))
  }

  /** Entry 6 a + b of such a row pairs the column of u index a and v index b
      with the product of their weights, and the normaliser is the product of the
      weight sums, which is the sum of all 36 products. */
  lemma WeightedRowAt(iw: seq<int>, js: seq<int>, vstride: int, uw: seq<real>, vw: seq<real>, a: int, b: int)
    requires |iw| == 6 && |js| == 6 && |uw| == 6 && |vw| == 6 && 0 <= a < 6 && 0 <= b < 6
    ensures var row := WeightedRow(iw, js, vstride, uw, vw);
      |row.cols| == 36 && |row.raw| == 36 && row.w == Sum(row.raw) &&
      row.cols[6 * a + b] == iw[a] + js[b] * vstride &&
      row.raw[6 * a + b] == uw[a] * vw[b]
  {
    var k := 6 * a + b;
    assert k / 6 == a && k % 6 == b;
    OuterProductAt(uw, vw, a, b);
    SumOuterProduct(uw, vw);
  }

  /** The row for one sample. The kernel's domain error propagates. */
  function RowPlan(p: UV, uModel: seq<real>, vModel: seq<real>): (r: Result<Row>)
    requires AxesOk(uModel, vModel) && InGrid(p, uModel, vModel)
    ensures r == Ok(Unresolved) <==> !Resolved(p, uModel)
    ensures r.Ok? && r.value.Weighted? ==> |r.value.cols| == 36 && |r.value.raw| == 36
  {
    if Resolved(p, uModel) then
      var iw, js := UWindow(p.u, uModel), VWindow(p.v, vModel);
      match Vectorize(GcfFun, UEtas(p, uModel, vModel))
      case DomainError => DomainError
      case Ok(uw) =>
        match Vectorize(GcfFun, VEtas(p, uModel, vModel))
        case DomainError => DomainError
        case Ok(vw) =>
          OuterProductLength(uw, vw);
          Ok(WeightedRow(iw, js, |uModel|, uw, vw))
    else
      Ok(Unresolved)
  }

  /** A computed row fails exactly when some offset of either window lies
      outside the kernel's domain. */
  lemma RowPlanDomain(p: UV, uModel: seq<real>, vModel: seq<real>)
    requires AxesOk(uModel, vModel) && InGrid(p, uModel, vModel) && Resolved(p, uModel)
    ensures RowPlan(p, uModel, vModel).Ok? <==>
      InKernelDomain(UEtas(p, uModel, vModel)) && InKernelDomain(VEtas(p, uModel, vModel))
  {
  }

  /** A sample within three u cells of the u = 0 edge gets the sentinel in every
      entry of both rows. */
  lemma SentinelRow(p: UV, uModel: seq<real>, vModel: seq<real>, l: int)
    requires AxesOk(uModel, vModel) && InGrid(p, uModel, vModel) && !Resolved(p, uModel)
    ensures RealCell(RowPlan(p, uModel, vModel).value, l) == NaN
    ensures ImagCell(RowPlan(p, uModel, vModel).value, p.u, l) == NaN
  {
  }

  /** The 36 stored weights: raw / w, where a zero normaliser gives 0 / 0. */
  function Weights(row: Row): (ws: seq<Cell>)
    requires row.Weighted?
    ensures |ws| == |row.raw|
    ensures forall k :: 0 <= k < |ws| ==> (ws[k] == NaN <==> row.w == 0.0)
  {
    seq(|row.raw|, k requires 0 <= k < |row.raw| => if row.w == 0.0 then NaN else Num(row.raw[k] / row.w))
  }

  /** The same weights with the sign flipped (the code's conjugation for u <= 0). */
  function Negated(vals: seq<Cell>): seq<Cell> {
    seq(|vals|, k requires 0 <= k < |vals| => Neg(vals[k]))
  }

  /** Entry l of a zero row after writing vals[k] at cols[k] in order. */
  function Scatter(cols: seq<int>, vals: seq<Cell>, l: int): (c: Cell)
    ensures (forall k :: 0 <= k < |cols| ==> cols[k] != l) ==> c == Num(0.0)
  {
    if cols == [] || vals == [] then Num(0.0)
    else if cols[|cols| - 1] == l then vals[|vals| - 1]
    else Scatter(cols[..|cols| - 1], vals[..|vals| - 1], l)
  }

  /** Entry l of the sample's C_real row. */
  function RealCell(row: Row, l: int): (c: Cell)
    ensures row.Unresolved? ==> c == NaN
    ensures row.Weighted? && (forall k :: 0 <= k < |row.cols| ==> row.cols[k] != l) ==> c == Num(0.0)
  {
    match row
    case Unresolved => NaN
    case Weighted(cols, _, _) => Scatter(cols, Weights(row), l)
  }

  /** Entry l of the sample's C_imag row: the real weights for u > 0, negated otherwise. */
  function ImagCell(row: Row, u: real, l: int): (c: Cell)
    ensures row.Unresolved? ==> c == NaN
    ensures row.Weighted? && (forall k :: 0 <= k < |row.cols| ==> row.cols[k] != l) ==> c == Num(0.0)
  {
    match row
    case Unresolved => NaN
    case Weighted(cols, _, _) => Scatter(cols, if u > 0.0 then Weights(row) else Negated(Weights(row)), l)
  }

  /** A computed row holds the not-a-number sentinel only where its normaliser
      is zero: no other entry of C_real or C_imag is NaN. */
  lemma CellNaN(row: Row, u: real, l: int)
    requires row.Weighted?
    ensures RealCell(row, l) == NaN ==> row.w == 0.0
    ensures ImagCell(row, u, l) == NaN ==> row.w == 0.0
  {
    var ws := Weights(row);
    ScatterWritten(row.cols, ws, l);
    ScatterWritten(row.cols, Negated(ws), l);
    assert forall k :: 0 <= k < |ws| && Negated(ws)[k] == NaN ==> ws[k] == NaN;
  }

  /** Every entry of a scattered row is zero or one of the values written. */
  lemma {:induction false} ScatterWritten(cols: seq<int>, vals: seq<Cell>, l: int)
    ensures Scatter(cols, vals, l) == Num(0.0) || exists k :: 0 <= k < |vals| && vals[k] == Scatter(cols, vals, l)
  {
    if cols != [] && vals != [] && cols[|cols| - 1] != l {
      var n, m := |cols| - 1, |vals| - 1;
      ScatterWritten(cols[..n], vals[..m], l);
      assert forall k :: 0 <= k < m ==> vals[..m][k] == vals[k];
    }
  }

  /** Writing distinct columns: each column receives its own value, every other
      column keeps its zero. */
  lemma {:induction false} ScatterDistinct(cols: seq<int>, vals: seq<Cell>, l: int)
    requires |cols| == |vals|
    requires forall a, b :: 0 <= a < b < |cols| ==> cols[a] != cols[b]
    ensures forall k :: 0 <= k < |cols| && cols[k] == l ==> Scatter(cols, vals, l) == vals[k]
    ensures (forall k :: 0 <= k < |cols| ==> cols[k] != l) ==> Scatter(cols, vals, l) == Num(0.0)
  {
    if cols != [] {
      var n := |cols| - 1;
      ScatterDistinct(cols[..n], vals[..n], l);
    }
  }

  /** Scattering negated values gives the negated row. */
  lemma {:induction false} ScatterNegated(cols: seq<int>, vals: seq<Cell>, l: int)
    requires |cols| == |vals|
    ensures Scatter(cols, Negated(vals), l) == Neg(Scatter(cols, vals, l))
  {
    if cols != [] {
      var n := |cols| - 1;
      assert Negated(vals)[..n] == Negated(vals[..n]);
      ScatterNegated(cols[..n], vals[..n], l);
    }
  }


  /** Each raw weight divided by a non-zero normaliser. */
  function Normalised(raw: seq<real>, w: real): seq<real>
    requires w != 0.0
  {
    seq(|raw|, k requires 0 <= k < |raw| => raw[k] / w)
  }

  /** Dividing by their own sum makes the weights sum to one. */
  lemma NormalisedSumsToOne(raw: seq<real>, w: real)
    requires w == Sum(raw) && w != 0.0
    ensures Sum(Normalised(raw, w)) == 1.0
  {
    NormalisedIsScale(raw, w);
    SumScale(1.0 / w, raw);
    DivIsScale(w, w);
  }

  /** Dividing by w is scaling by 1 / w. */
  lemma NormalisedIsScale(raw: seq<real>, w: real)
    requires w != 0.0
    ensures Normalised(raw, w) == Scale(1.0 / w, raw)
  {
    forall k | 0 <= k < |raw|
      ensures Normalised(raw, w)[k] == Scale(1.0 / w, raw)[k]
    {
      DivIsScale(raw[k], w);
    }
  }

  lemma DivIsScale(x: real, w: real)
    requires w != 0.0
    ensures x / w == 1.0 / w * x
  {
  }

  /** Products of non-negative weights are non-negative. */
  lemma {:induction false} OuterProductNonNegative(xs: seq<real>, ys: seq<real>)
    requires NonNegative(xs) && NonNegative(ys)
    ensures NonNegative(OuterProduct(xs, ys))
  {
    if xs != [] {
      var head := Scale(xs[0], ys);
      forall k | 0 <= k < |head|
        ensures head[k] >= 0.0
      {
        assert head[k] == xs[0] * ys[k];
      }
      OuterProductNonNegative(xs[1..], ys);
    }
  }

  /** When the normaliser of non-negative weights is zero, one factor's weights
      all vanish and with them every product. */
  lemma ZeroNormaliser(xs: seq<real>, ys: seq<real>)
    requires NonNegative(xs) && NonNegative(ys) && Sum(xs) * Sum(ys) == 0.0
    ensures forall k :: 0 <= k < |OuterProduct(xs, ys)| ==> OuterProduct(xs, ys)[k] == 0.0
  {
    SumOuterProduct(xs, ys);
    OuterProductNonNegative(xs, ys);
    SumNonNegative(OuterProduct(xs, ys));
  }

  /** The gcffun weights of a window are never negative, and positive exactly for
      the offsets strictly inside (-1, 1). */
  lemma KernelWeightsNonNegative(etas: seq<real>)
    requires Vectorize(GcfFun, etas).Ok?
    ensures NonNegative(Vectorize(GcfFun, etas).value)
    ensures forall k :: 0 <= k < |etas| ==> (Vectorize(GcfFun, etas).value[k] > 0.0 <==> Abs(etas[k]) < 1.0)
  {
    var ws := Vectorize(GcfFun, etas).value;
    forall k | 0 <= k < |etas|
      ensures ws[k] >= 0.0 && (ws[k] > 0.0 <==> Abs(etas[k]) < 1.0)
    {
      assert GcfFun(etas[k]) == Value(ws[k]);
    }
  }

  /** A computed row is the weighted row of the sample's two windows, with the
      kernel weights of their offsets. */
  lemma RowPlanWeighted(p: UV, uModel: seq<real>, vModel: seq<real>)
    requires AxesOk(uModel, vModel) && InGrid(p, uModel, vModel)
    requires RowPlan(p, uModel, vModel).Ok? && Resolved(p, uModel)
    ensures Vectorize(GcfFun, UEtas(p, uModel, vModel)).Ok?
    ensures Vectorize(GcfFun, VEtas(p, uModel, vModel)).Ok?
    ensures RowPlan(p, uModel, vModel).value ==
      WeightedRow(UWindow(p.u, uModel), VWindow(p.v, vModel), |uModel|,
        Vectorize(GcfFun, UEtas(p, uModel, vModel)).value, Vectorize(GcfFun, VEtas(p, uModel, vModel)).value)
  {
  }

  /** Entry 6 a + b of a sample's computed row, where uw and vw are the gcffun
      values of its u and v offsets: the row is computed, the column is
      UWindow[a] + VWindow[b] * vstride, the raw weight is uw[a] * vw[b], and the
      normaliser is the sum of all 36 raw weights. */
  lemma RowPlanAt(p: UV, uModel: seq<real>, vModel: seq<real>, uw: seq<real>, vw: seq<real>, a: int, b: int)
    requires AxesOk(uModel, vModel) && InGrid(p, uModel, vModel) && Resolved(p, uModel)
    requires Vectorize(GcfFun, UEtas(p, uModel, vModel)) == Ok(uw)
    requires Vectorize(GcfFun, VEtas(p, uModel, vModel)) == Ok(vw)
    requires 0 <= a < 6 && 0 <= b < 6
    ensures RowPlan(p, uModel, vModel).Ok?
    ensures var row := RowPlan(p, uModel, vModel).value;
      row.Weighted? && |row.cols| == 36 && |row.raw| == 36 && row.w == Sum(row.raw) &&
      row.cols[6 * a + b] == UWindow(p.u, uModel)[a] + VWindow(p.v, vModel)[b] * |uModel| &&
      row.raw[6 * a + b] == uw[a] * vw[b]
  {
    RowPlanWeighted(p, uModel, vModel);
    WeightedRowAt(UWindow(p.u, uModel), VWindow(p.v, vModel), |uModel|, uw, vw, a, b);
  }

  /** The weights of a row built from non-negative kernel weights: when the
      normaliser is non-zero they are raw / w and sum to one; when it is zero
      every raw weight is zero and every stored weight is 0 / 0. */
  lemma WeightedRowWeights(iw: seq<int>, js: seq<int>, vstride: int, uw: seq<real>, vw: seq<real>)
    requires |iw| == 6 && |js| == 6 && |uw| == 6 && |vw| == 6
    requires NonNegative(uw) && NonNegative(vw)
    ensures var row := WeightedRow(iw, js, vstride, uw, vw);
      |row.raw| == 36 && row.w == Sum(row.raw) && NonNegative(row.raw) &&
      (row.w != 0.0 ==>
        Sum(Normalised(row.raw, row.w)) == 1.0 &&
        forall k :: 0 <= k < 36 ==> Weights(row)[k] == Num(Normalised(row.raw, row.w)[k])) &&
      (row.w == 0.0 ==> forall k :: 0 <= k < 36 ==> row.raw[k] == 0.0 && Weights(row)[k] == NaN)
  {
    var row := WeightedRow(iw, js, vstride, uw, vw);
    OuterProductLength(uw, vw);
    SumOuterProduct(uw, vw);
    OuterProductNonNegative(uw, vw);
    if row.w != 0.0 {
      NormalisedSumsToOne(row.raw, row.w);
    } else {
      ZeroNormaliser(uw, vw);
    }
  }

  /** The weights of every computed row: non-negative products of gcffun values,
      normalised to sum to one, or all 0 / 0 when the normaliser vanishes. */
  lemma RowWeights(p: UV, uModel: seq<real>, vModel: seq<real>)
    requires AxesOk(uModel, vModel) && InGrid(p, uModel, vModel)
    requires RowPlan(p, uModel, vModel).Ok? && Resolved(p, uModel)
    ensures var row := RowPlan(p, uModel, vModel).value;
      row.Weighted? && |row.raw| == 36 && row.w == Sum(row.raw) && NonNegative(row.raw) &&
      (row.w != 0.0 ==>
        Sum(Normalised(row.raw, row.w)) == 1.0 &&
        forall k :: 0 <= k < 36 ==> Weights(row)[k] == Num(Normalised(row.raw, row.w)[k])) &&
      (row.w == 0.0 ==> forall k :: 0 <= k < 36 ==> row.raw[k] == 0.0 && Weights(row)[k] == NaN)
  {
    RowPlanWeighted(p, uModel, vModel);
    var ue, ve := UEtas(p, uModel, vModel), VEtas(p, uModel, vModel);
    KernelWeightsNonNegative(ue);
    KernelWeightsNonNegative(ve);
    WeightedRowWeights(UWindow(p.u, uModel), VWindow(p.v, vModel), |uModel|,
      Vectorize(GcfFun, ue).value, Vectorize(GcfFun, ve).value);
  }

  /** A sum of zeros is zero. */
  lemma {:induction false} SumZero(s: seq<real>)
    requires forall k :: 0 <= k < |s| ==> s[k] == 0.0
    ensures Sum(s) == 0.0
  {
    if s != [] {
      assert forall k :: 0 <= k < |s| - 1 ==> s[1..][k] == s[k + 1];
      SumZero(s[1..]);
    }
  }

  /** A sum of non-negative terms is positive exactly when some term is. */
  lemma SumPositive(s: seq<real>)
    requires NonNegative(s)
    ensures Sum(s) >= 0.0
    ensures Sum(s) > 0.0 <==> exists k :: 0 <= k < |s| && s[k] > 0.0
  {
    SumNonNegative(s);
    if forall k :: 0 <= k < |s| ==> s[k] <= 0.0 {
      SumZero(s);
    }
  }

  lemma ProductPositive(a: real, b: real)
    requires a >= 0.0 && b >= 0.0
    ensures a * b >= 0.0
    ensures a * b > 0.0 <==> a > 0.0 && b > 0.0
  {
  }

  /** The normaliser of a computed row is never negative, and it is positive
      exactly when some u offset and some v offset lie strictly inside (-1, 1):
      only then does the row hold a non-zero weight, and only then are its
      stored weights numbers rather than 0 / 0. */
  lemma RowNormaliserPositive(p: UV, uModel: seq<real>, vModel: seq<real>)
    requires AxesOk(uModel, vModel) && InGrid(p, uModel, vModel)
    requires RowPlan(p, uModel, vModel).Ok? && Resolved(p, uModel)
    ensures RowPlan(p, uModel, vModel).value.Weighted?
    ensures RowPlan(p, uModel, vModel).value.w >= 0.0
    ensures RowPlan(p, uModel, vModel).value.w > 0.0 <==>
      (exists a :: 0 <= a < 6 && Abs(UEtas(p, uModel, vModel)[a]) < 1.0) &&
      (exists b :: 0 <= b < 6 && Abs(VEtas(p, uModel, vModel)[b]) < 1.0)
  {
    RowPlanWeighted(p, uModel, vModel);
    var ue, ve := UEtas(p, uModel, vModel), VEtas(p, uModel, vModel);
    WindowWeightSum(ue);
    WindowWeightSum(ve);
    WeightedRowNormaliser(UWindow(p.u, uModel), VWindow(p.v, vModel), |uModel|,
      Vectorize(GcfFun, ue).value, Vectorize(GcfFun, ve).value);
  }

  /** With non-negative weight sums the normaliser is non-negative, and positive
      exactly when both sums are. */
  lemma WeightedRowNormaliser(iw: seq<int>, js: seq<int>, vstride: int, uw: seq<real>, vw: seq<real>)
    requires |iw| == 6 && |js| == 6 && Sum(uw) >= 0.0 && Sum(vw) >= 0.0
    ensures WeightedRow(iw, js, vstride, uw, vw).w >= 0.0
    ensures WeightedRow(iw, js, vstride, uw, vw).w > 0.0 <==> Sum(uw) > 0.0 && Sum(vw) > 0.0
  {
    ProductPositive(Sum(uw), Sum(vw));
  }

  /** The gcffun weights of a window sum to a non-negative number, positive
      exactly when some offset lies strictly inside (-1, 1). */
  lemma WindowWeightSum(etas: seq<real>)
    requires Vectorize(GcfFun, etas).Ok?
    ensures Sum(Vectorize(GcfFun, etas).value) >= 0.0
    ensures Sum(Vectorize(GcfFun, etas).value) > 0.0 <==> exists a :: 0 <= a < |etas| && Abs(etas[a]) < 1.0
  {
    KernelWeightsNonNegative(etas);
    var ws := Vectorize(GcfFun, etas).value;
    SumPositive(ws);
    assert (exists a :: 0 <= a < |ws| && ws[a] > 0.0) <==> (exists a :: 0 <= a < |etas| && Abs(etas[a]) < 1.0);
  }

  /** An axis whose samples are one spacing apart: axis[k] = axis[0] + k d. */
  predicate EvenlySpaced(axis: seq<real>)
    requires |axis| >= 2
  {
    forall k :: 0 <= k < |axis| ==> axis[k] == axis[0] + (k as real) * (axis[1] - axis[0])
  }

  lemma NeighbourGap(axis: seq<real>, i: int)
    requires |axis| >= 2 && EvenlySpaced(axis) && 1 <= i < |axis|
    ensures axis[i] - axis[i - 1] == axis[1] - axis[0]
  {
    var d := axis[1] - axis[0];
    assert axis[i] == axis[0] + (i as real) * d;
    assert axis[i - 1] == axis[0] + ((i - 1) as real) * d;
    assert (i as real) * d == ((i - 1) as real) * d + d;
  }

  lemma ThirdOfSpacing(x: real, d: real)
    requires 0.0 < x <= d
    ensures 0.0 < x / (3.0 * d) <= 1.0 / 3.0
  {
    assert x / (3.0 * d) <= d / (3.0 * d);
  }

  /** On a sorted, evenly spaced u axis the window point just below |u| is at
      most one spacing away, so its offset lies in (0, 1/3]: some u weight is
      always positive. */
  lemma NearestUOffset(p: UV, uModel: seq<real>, vModel: seq<real>)
    requires AxesOk(uModel, vModel) && InGrid(p, uModel, vModel) && Resolved(p, uModel)
    requires Sorted(uModel) && EvenlySpaced(uModel)
    ensures 0.0 < UEtas(p, uModel, vModel)[2] <= 1.0 / 3.0
  {
    UEtasSigns(p, uModel, vModel);
    UWindowBrackets(p.u, uModel);
    var iw := UWindow(p.u, uModel);
    assert iw[2] == iw[3] - 1 && 0 <= iw[2] && iw[3] < |uModel|;
    NeighbourGap(uModel, iw[3]);
    var d := uModel[1] - uModel[0];
    assert d > 0.0 && Spacing(uModel) == d;
    var x := Abs(p.u) - uModel[iw[2]];
    assert 0.0 < x <= d;
    ThirdOfSpacing(x, d);
    assert UEtas(p, uModel, vModel)[2] == x / (3.0 * d);
  }

  /** So on such a u axis a computed row has a positive normaliser exactly when
      some v offset lies strictly inside (-1, 1). */
  lemma EvenAxisNormaliser(p: UV, uModel: seq<real>, vModel: seq<real>)
    requires AxesOk(uModel, vModel) && InGrid(p, uModel, vModel)
    requires RowPlan(p, uModel, vModel).Ok? && Resolved(p, uModel)
    requires Sorted(uModel) && EvenlySpaced(uModel)
    ensures RowPlan(p, uModel, vModel).value.Weighted?
    ensures RowPlan(p, uModel, vModel).value.w > 0.0 <==>
      exists b :: 0 <= b < 6 && Abs(VEtas(p, uModel, vModel)[b]) < 1.0
  {
    RowNormaliserPositive(p, uModel, vModel);
    NearestUOffset(p, uModel, vModel);
    assert Abs(UEtas(p, uModel, vModel)[2]) < 1.0;
  }

  /** An offset two spacings further out that is still in the kernel's domain
      keeps the nearer offset, x / (3 d) with 0 < x, below one. */
  lemma FarOffsetAbove(x: real, d: real)
    requires d > 0.0 && 0.0 < x && (x + 2.0 * d) / (3.0 * d) <= 1.0 + Tolerance
    ensures 0.0 < x / (3.0 * d) < 1.0
  {
    var e := x / (3.0 * d);
    assert e * (3.0 * d) == x;
    assert (e + 2.0 / 3.0) * (3.0 * d) == x + 2.0 * d;
    Quotient(x + 2.0 * d, 3.0 * d, e + 2.0 / 3.0);
  }

  /** The mirror image: with y <= 0, an offset (y - 2 d) / (3 d) still in the
      domain keeps y / (3 d) above minus one. */
  lemma FarOffsetBelow(y: real, d: real)
    requires d > 0.0 && y <= 0.0 && -(1.0 + Tolerance) <= (y - 2.0 * d) / (3.0 * d)
    ensures -1.0 < y / (3.0 * d) <= 0.0
  {
    var e := y / (3.0 * d);
    assert e * (3.0 * d) == y;
    assert (e - 2.0 / 3.0) * (3.0 * d) == y - 2.0 * d;
    Quotient(y - 2.0 * d, 3.0 * d, e - 2.0 / 3.0);
  }

  lemma Quotient(a: real, b: real, c: real)
    requires b != 0.0 && c * b == a
    ensures a / b == c
  {
  }

  lemma NearOffsetBelow(y: real, d: real)
    requires d > 0.0 && -d < y <= 0.0
    ensures -1.0 < y / (3.0 * d) <= 0.0
  {
    var e := y / (3.0 * d);
    assert e * (3.0 * d) == y;
  }

  /** On an FFT-ordered v axis of at least six samples, a row whose v offsets are
      all in the kernel's domain has one strictly inside (-1, 1): window point 2,
      just below v, when v > 0, and window point 3, at or just above v, otherwise. */
  lemma NearestVOffset(p: UV, uModel: seq<real>, vModel: seq<real>)
    requires AxesOk(uModel, vModel) && InGrid(p, uModel, vModel) && Resolved(p, uModel)
    requires |vModel| >= 6 && FftOrdered(vModel) && InKernelDomain(VEtas(p, uModel, vModel))
    ensures p.v > 0.0 ==> 0.0 < VEtas(p, uModel, vModel)[2] < 1.0
    ensures p.v <= 0.0 ==> -1.0 < VEtas(p, uModel, vModel)[3] <= 0.0
  {
    var js, d, ve := VWindow(p.v, vModel), vModel[1] - vModel[0], VEtas(p, uModel, vModel);
    assert Spacing(vModel) == d;
    if p.v > 0.0 {
      VWindowNearestPositive(p.v, vModel);
      var x := p.v - vModel[js[2]];
      assert ve[2] == x / (3.0 * d);
      if x <= d {
        ThirdOfSpacing(x, d);
      } else {
        assert ve[0] == (x + 2.0 * d) / (3.0 * d);
        FarOffsetAbove(x, d);
      }
    } else {
      VWindowNearestNonPositive(p.v, vModel);
      var y := p.v - vModel[js[3]];
      assert ve[3] == y / (3.0 * d);
      if -y < d {
        NearOffsetBelow(y, d);
      } else {
        assert ve[5] == (y - 2.0 * d) / (3.0 * d);
        FarOffsetBelow(y, d);
      }
    }
  }

  /** On a grid of the layout the code expects (an evenly spaced, sorted u axis
      and an FFT-ordered v axis of at least six samples) every computed row has a
      positive normaliser, so its weights are numbers and not 0 / 0. */
  lemma FftGridNormaliser(p: UV, uModel: seq<real>, vModel: seq<real>)
    requires AxesOk(uModel, vModel) && InGrid(p, uModel, vModel)
    requires RowPlan(p, uModel, vModel).Ok? && Resolved(p, uModel)
    requires Sorted(uModel) && EvenlySpaced(uModel) && |vModel| >= 6 && FftOrdered(vModel)
    ensures RowPlan(p, uModel, vModel).value.Weighted?
    ensures RowPlan(p, uModel, vModel).value.w > 0.0
  {
    RowPlanDomain(p, uModel, vModel);
    NearestVOffset(p, uModel, vModel);
    EvenAxisNormaliser(p, uModel, vModel);
    var ve := VEtas(p, uModel, vModel);
    if p.v > 0.0 {
      assert Abs(ve[2]) < 1.0;
    } else {
      assert Abs(ve[3]) < 1.0;
    }
  }

  /** A small grid: Npix = 8, the u axis 0 .. 7 and the v axis in FFT order. */
  const ExampleU: seq<real> := [0.0, 1.0, 2.0, 3.0, 4.0, 5.0, 6.0, 7.0]
  const ExampleV: seq<real> := [0.0, 1.0, 2.0, 3.0, -4.0, -3.0, -2.0, -1.0]

  /** The sample (4, 0.3) on that grid is away from the u = 0 edge; its u
      window is 1 .. 6 and its v window wraps across the seam to 6, 7, 0, 1, 2, 3. */
  lemma ExampleWindows()
    ensures AxesOk(ExampleU, ExampleV) && Resolved(UV(4.0, 0.3), ExampleU)
    ensures UWindow(4.0, ExampleU) == [1, 2, 3, 4, 5, 6]
    ensures VWindow(0.3, ExampleV) == [6, 7, 0, 1, 2, 3]
    ensures InGrid(UV(4.0, 0.3), ExampleU, ExampleV)
  {
    assert SearchSorted(ExampleU, 4.0) == 4;
    assert SearchSorted(ExampleV[..4], 0.3) == 1;
    assert VCentre(0.3, ExampleV) == 1;
  }

  /** The example grid has the layout `FftGridNormaliser` asks for. */
  lemma ExampleLayout()
    ensures |ExampleU| >= 2 && Sorted(ExampleU) && EvenlySpaced(ExampleU)
    ensures |ExampleV| >= 6 && FftOrdered(ExampleV)
  {
  }

  /** Its offsets, all inside the kernel's domain. */
  lemma ExampleOffsets()
    ensures AxesOk(ExampleU, ExampleV) && InGrid(UV(4.0, 0.3), ExampleU, ExampleV)
    ensures Resolved(UV(4.0, 0.3), ExampleU)
    ensures UEtas(UV(4.0, 0.3), ExampleU, ExampleV) == [1.0, 2.0 / 3.0, 1.0 / 3.0, 0.0, -1.0 / 3.0, -2.0 / 3.0]
    ensures VEtas(UV(4.0, 0.3), ExampleU, ExampleV) == [2.3 / 3.0, 1.3 / 3.0, 0.1, -0.7 / 3.0, -1.7 / 3.0, -2.7 / 3.0]
  {
    ExampleWindows();
  }

  /** Its row is computed, with a positive normaliser. */
  lemma ExampleRow()
    ensures AxesOk(ExampleU, ExampleV) && InGrid(UV(4.0, 0.3), ExampleU, ExampleV)
    ensures RowPlan(UV(4.0, 0.3), ExampleU, ExampleV).Ok?
    ensures RowPlan(UV(4.0, 0.3), ExampleU, ExampleV).value.Weighted?
    ensures RowPlan(UV(4.0, 0.3), ExampleU, ExampleV).value.w > 0.0
  {
    var p := UV(4.0, 0.3);
    ExampleOffsets();
    var ue, ve := UEtas(p, ExampleU, ExampleV), VEtas(p, ExampleU, ExampleV);
    assert InKernelDomain(ue) && InKernelDomain(ve) by {
      forall k | 0 <= k < 6
        ensures Abs(ue[k]) <= 1.0 && Abs(ve[k]) <= 1.0
      {
      }
    }
    RowPlanDomain(p, ExampleU, ExampleV);
    RowNormaliserPositive(p, ExampleU, ExampleV);
    assert Abs(ue[3]) < 1.0 && Abs(ve[2]) < 1.0;
  }

  lemma MulMonotone(a: int, b: int, n: int)
    requires a <= b && n >= 0
    ensures a * n <= b * n
  {
    var d := b - a;
    assert b * n == a * n + d * n;
  }

  /** i + j n for i in [0, n) and j in [0, m) lies in [0, m n). */
  lemma FlatIndexBounds(i: int, j: int, n: int, m: int)
    requires 0 <= i < n && 0 <= j < m
    ensures 0 <= i + j * n < m * n
  {
    MulMonotone(0, j, n);
    MulMonotone(j, m - 1, n);
    assert (m - 1) * n + n == m * n;
  }

  /** Distinct (i, j) pairs with i in [0, n) have distinct flat indices i + j n. */
  lemma FlatIndexDistinct(i1: int, j1: int, i2: int, j2: int, n: int)
    requires 0 <= i1 < n && 0 <= i2 < n && (i1 != i2 || j1 != j2)
    ensures i1 + j1 * n != i2 + j2 * n
  {
    if j1 < j2 {
      MulMonotone(j1 + 1, j2, n);
      assert (j1 + 1) * n == j1 * n + n;
    } else if j2 < j1 {
      MulMonotone(j2 + 1, j1, n);
      assert (j2 + 1) * n == j2 * n + n;
    }
  }

  predicate Distinct(xs: seq<int>) {
    forall a, b :: 0 <= a < b < |xs| ==> xs[a] != xs[b]
  }

  /** Windows inside an n by m grid give flat indices inside the flattened grid,
      and distinct windows give distinct flat indices. */
  lemma FlatIndicesValid(iw: seq<int>, js: seq<int>, n: int, m: int)
    requires |iw| == 6 && |js| == 6
    requires forall a :: 0 <= a < 6 ==> 0 <= iw[a] < n
    requires forall b :: 0 <= b < 6 ==> 0 <= js[b] < m
    ensures forall k :: 0 <= k < 36 ==> 0 <= FlatIndices(iw, js, n)[k] < m * n
    ensures Distinct(iw) && Distinct(js) ==> Distinct(FlatIndices(iw, js, n))
  {
    var ls := FlatIndices(iw, js, n);
    forall k | 0 <= k < 36
      ensures 0 <= ls[k] < m * n
    {
      FlatIndexBounds(iw[k / 6], js[k % 6], n, m);
    }
    if Distinct(iw) && Distinct(js) {
      forall k1, k2 | 0 <= k1 < k2 < 36
        ensures ls[k1] != ls[k2]
      {
        var a1, b1, a2, b2 := k1 / 6, k1 % 6, k2 / 6, k2 % 6;
        assert k1 == 6 * a1 + b1 && k2 == 6 * a2 + b2;
        assert a1 <= a2;
        if a1 < a2 {
          assert iw[a1] != iw[a2];
        } else {
          assert b1 < b2;
          assert js[b1] != js[b2];
        }
        FlatIndexDistinct(iw[a1], js[b1], iw[a2], js[b2], n);
      }
    }
  }

  /** The 36 columns of a computed row address the flattened Npix x vstride grid,
      and on an axis of at least six v samples no column repeats. */
  lemma RowColumns(p: UV, uModel: seq<real>, vModel: seq<real>)
    requires AxesOk(uModel, vModel) && InGrid(p, uModel, vModel)
    requires RowPlan(p, uModel, vModel).Ok? && Resolved(p, uModel)
    ensures var row := RowPlan(p, uModel, vModel).value;
      row.Weighted? && |row.cols| == 36 && |row.raw| == 36 &&
      forall k :: 0 <= k < 36 ==> 0 <= row.cols[k] < GridWidth(uModel, vModel)
    ensures |vModel| >= 6 ==> Distinct(RowPlan(p, uModel, vModel).value.cols)
  {
    RowPlanWeighted(p, uModel, vModel);
    var ue, ve := UEtas(p, uModel, vModel), VEtas(p, uModel, vModel);
    var iw, js := UWindow(p.u, uModel), VWindow(p.v, vModel);
    WeightedRowAt(iw, js, |uModel|, Vectorize(GcfFun, ue).value, Vectorize(GcfFun, ve).value, 0, 0);
    FlatIndicesValid(iw, js, |uModel|, |vModel|);
    if |vModel| >= 6 {
      VWindowDistinct(p.v, vModel);
    }
  }

  /** The imaginary row is the real row for u > 0 and its negation otherwise;
      a u-overlap row holds the sentinel in both. */
  lemma ImagMirrorsReal(row: Row, u: real, l: int)
    requires row.Weighted? ==> |row.cols| == |row.raw|
    ensures ImagCell(row, u, l) == if u > 0.0 then RealCell(row, l) else Neg(RealCell(row, l))
  {
    if row.Weighted? && u <= 0.0 {
      ScatterNegated(row.cols, Weights(row), l);
    }
  }

  /** A written row: column cols[k] holds weight k, every other column zero. */
  lemma RowCells(row: Row, l: int)
    requires row.Weighted? && |row.cols| == |row.raw| && Distinct(row.cols)
    ensures forall k :: 0 <= k < |row.cols| && row.cols[k] == l ==> RealCell(row, l) == Weights(row)[k]
    ensures (forall k :: 0 <= k < |row.cols| ==> row.cols[k] != l) ==> RealCell(row, l) == Num(0.0)
  {
    ScatterDistinct(row.cols, Weights(row), l);
  }

  /** The row plan sees u only through |u|, so (-u, v) has the same plan as (u, v). */
  lemma MirroredRowPlan(p: UV, uModel: seq<real>, vModel: seq<real>)
    requires AxesOk(uModel, vModel) && InGrid(p, uModel, vModel)
    ensures InGrid(UV(-p.u, p.v), uModel, vModel)
    ensures RowPlan(UV(-p.u, p.v), uModel, vModel) == RowPlan(p, uModel, vModel)
  {
    var q := UV(-p.u, p.v);
    assert Abs(q.u) == Abs(p.u);
    assert UWindow(q.u, uModel) == UWindow(p.u, uModel);
    if Resolved(p, uModel) {
      assert UEtas(q, uModel, vModel) == UEtas(p, uModel, vModel);
      assert VEtas(q, uModel, vModel) == VEtas(p, uModel, vModel);
    }
  }

  /** The sample (-u, v) gets the same real row as (u, v) and the negation of its
      imaginary row: the code conjugates by the sign of u alone, reading the grid
      at (|u|, v) for both. */
  lemma ConjugateSymmetry(p: UV, uModel: seq<real>, vModel: seq<real>, l: int)
    requires AxesOk(uModel, vModel) && InGrid(p, uModel, vModel)
    requires RowPlan(p, uModel, vModel).Ok?
    ensures InGrid(UV(-p.u, p.v), uModel, vModel)
    ensures RowPlan(UV(-p.u, p.v), uModel, vModel) == RowPlan(p, uModel, vModel)
    ensures ImagCell(RowPlan(p, uModel, vModel).value, -p.u, l) == Neg(ImagCell(RowPlan(p, uModel, vModel).value, p.u, l))
  {
    MirroredRowPlan(p, uModel, vModel);
    var row := RowPlan(p, uModel, vModel).value;
    ImagMirrorsReal(row, p.u, l);
    ImagMirrorsReal(row, -p.u, l);
  }

  /** `C[row, cols] = vals` on a zero row: one write per index, in order, so a
      repeated column keeps the last value written. Other rows are untouched. */
  method ScatterRow(m: array2<Cell>, row: int, cols: seq<int>, vals: seq<Cell>)
    requires 0 <= row < m.Length0 && |cols| == |vals|
    requires forall k :: 0 <= k < |cols| ==> 0 <= cols[k] < m.Length1
    requires forall l :: 0 <= l < m.Length1 ==> m[row, l] == Num(0.0)
    modifies m
    ensures forall r, l :: 0 <= r < m.Length0 && 0 <= l < m.Length1 ==>
      m[r, l] == if r == row then Scatter(cols, vals, l) else old(m[r, l])
  {
    for k := 0 to |cols|
      invariant forall r, l :: 0 <= r < m.Length0 && 0 <= l < m.Length1 ==>
        m[r, l] == if r == row then Scatter(cols[..k], vals[..k], l) else old(m[r, l])
    {
      m[row, cols[k]] := vals[k];
      assert cols[..k + 1][..k] == cols[..k] && vals[..k + 1][..k] == vals[..k];
    }
    assert cols[..|cols|] == cols && vals[..|vals|] == vals;
  }

  /** `C[row, :] = x`: every entry of the row set to x. Other rows are untouched. */
  method FillRow(m: array2<Cell>, row: int, x: Cell)
    requires 0 <= row < m.Length0
    modifies m
    ensures forall r, l :: 0 <= r < m.Length0 && 0 <= l < m.Length1 ==>
      m[r, l] == if r == row then x else old(m[r, l])
  {
    for l := 0 to m.Length1
      invariant forall r, l' :: 0 <= r < m.Length0 && 0 <= l' < m.Length1 ==>
        m[r, l'] == if r == row && l' < l then x else old(m[r, l'])
    {
      m[row, l] := x;
    }
  }

  /** Writes one sample's row into both matrices, whose rows start at zero: the
      sentinel for a u-overlap row, otherwise the weights into C_real and the
      weights, negated unless u > 0, into C_imag. */
  method WriteRow(cReal: array2<Cell>, cImag: array2<Cell>, row: int, plan: Row, u: real)
    requires cReal != cImag
    requires 0 <= row < cReal.Length0 && 0 <= row < cImag.Length0
    requires plan.Weighted? ==>
      |plan.cols| == |plan.raw| &&
      forall k :: 0 <= k < |plan.cols| ==> 0 <= plan.cols[k] < cReal.Length1 && plan.cols[k] < cImag.Length1
    requires forall l :: 0 <= l < cReal.Length1 ==> cReal[row, l] == Num(0.0)
    requires forall l :: 0 <= l < cImag.Length1 ==> cImag[row, l] == Num(0.0)
    modifies cReal, cImag
    ensures forall r, l :: 0 <= r < cReal.Length0 && 0 <= l < cReal.Length1 ==>
      cReal[r, l] == if r == row then RealCell(plan, l) else old(cReal[r, l])
    ensures forall r, l :: 0 <= r < cImag.Length0 && 0 <= l < cImag.Length1 ==>
      cImag[r, l] == if r == row then ImagCell(plan, u, l) else old(cImag[r, l])
  {
    if plan.Unresolved? {
      FillRow(cReal, row, NaN);
      FillRow(cImag, row, NaN);
    } else {
      var weights := Weights(plan);
      ScatterRow(cReal, row, plan.cols, weights);
      if u > 0.0 {
        ScatterRow(cImag, row, plan.cols, weights);
      } else {
        ScatterRow(cImag, row, plan.cols, Negated(weights));
      }
    }
  }

  /** Row r of C_real and C_imag is the real and imaginary row of a sample with
      row plan `plan` and u coordinate `u`. */
  ghost predicate RowWritten(cReal: array2<Cell>, cImag: array2<Cell>, r: int, plan: Row, u: real)
    reads cReal, cImag
    requires 0 <= r < cReal.Length0 && 0 <= r < cImag.Length0
  {
    (forall l :: 0 <= l < cReal.Length1 ==> cReal[r, l] == RealCell(plan, l)) &&
    (forall l :: 0 <= l < cImag.Length1 ==> cImag[r, l] == ImagCell(plan, u, l))
  }

  /** Row r of m is still all zero. */
  ghost predicate RowZero(m: array2<Cell>, r: int)
    reads m
    requires 0 <= r < m.Length0
  {
    forall l :: 0 <= l < m.Length1 ==> m[r, l] == Num(0.0)
  }

  /** The values of a list of results in order, or an error as soon as one of
      them is an error. */
  function Collect<T>(rs: seq<Result<T>>): (r: Result<seq<T>>)
    ensures r.Ok? ==> |r.value| == |rs|
  {
    if rs == [] then Ok([])
    else
      match Collect(rs[..|rs| - 1])
      case DomainError => DomainError
      case Ok(vs) =>
        match rs[|rs| - 1]
        case DomainError => DomainError
        case Ok(v) => Ok(vs + [v])
  }

  /** Collecting succeeds exactly when every result does, and then keeps them
      all, in order. */
  lemma {:induction false} CollectAll<T>(rs: seq<Result<T>>)
    ensures Collect(rs).Ok? <==> forall k :: 0 <= k < |rs| ==> rs[k].Ok?
    ensures Collect(rs).Ok? ==>
      |Collect(rs).value| == |rs| &&
      forall k :: 0 <= k < |rs| ==> rs[k] == Ok(Collect(rs).value[k])
  {
    if rs != [] {
      var n := |rs| - 1;
      var init := rs[..n];
      CollectAll(init);
      if Collect(init).DomainError? {
        var bad :| 0 <= bad < n && !init[bad].Ok?;
        assert !rs[bad].Ok?;
      } else if rs[n].Ok? {
        var vs := Collect(init).value;
        assert Collect(rs) == Ok(vs + [rs[n].value]);
      }
    }
  }

  /** An error among the first k results is the error of the whole list. */
  lemma {:induction false} CollectStopAtError<T>(rs: seq<Result<T>>, k: nat)
    requires k <= |rs| && Collect(rs[..k]).DomainError?
    ensures Collect(rs).DomainError?
    decreases |rs| - k
  {
    if k < |rs| {
      assert rs[..k + 1][..k] == rs[..k];
      CollectStopAtError(rs, k + 1);
    } else {
      assert rs[..k] == rs;
    }
  }

  /** The row plan of each sample, in order. */
  function RowPlans(points: seq<UV>, uModel: seq<real>, vModel: seq<real>): (rs: seq<Result<Row>>)
    requires AxesOk(uModel, vModel)
    requires forall k :: 0 <= k < |points| ==> InGrid(points[k], uModel, vModel)
    ensures |rs| == |points|
  {
    seq(|points|, k requires 0 <= k < |points| => RowPlan(points[k], uModel, vModel))
  }

  /** The row plans of a list of samples, or the domain error of the first
      sample whose row fails: the loop over samples stops at its first
      ValueError. */
  function Plans(points: seq<UV>, uModel: seq<real>, vModel: seq<real>): (r: Result<seq<Row>>)
    requires AxesOk(uModel, vModel)
    requires forall k :: 0 <= k < |points| ==> InGrid(points[k], uModel, vModel)
    ensures r.Ok? ==> |r.value| == |points|
  {
    Collect(RowPlans(points, uModel, vModel))
  }

  /** The plans succeed exactly when every sample's row does, and then entry r
      is sample r's row. */
  lemma PlansRows(points: seq<UV>, uModel: seq<real>, vModel: seq<real>)
    requires AxesOk(uModel, vModel)
    requires forall k :: 0 <= k < |points| ==> InGrid(points[k], uModel, vModel)
    ensures Plans(points, uModel, vModel).Ok? <==> forall r :: 0 <= r < |points| ==> RowPlan(points[r], uModel, vModel).Ok?
    ensures Plans(points, uModel, vModel).Ok? ==>
      |Plans(points, uModel, vModel).value| == |points| &&
      forall r :: 0 <= r < |points| ==> RowPlan(points[r], uModel, vModel) == Ok(Plans(points, uModel, vModel).value[r])
  {
    var rs := RowPlans(points, uModel, vModel);
    CollectAll(rs);
    assert forall r :: 0 <= r < |points| ==> rs[r] == RowPlan(points[r], uModel, vModel);
  }

  /** `np.zeros((n, w))` over cell values: a fresh n x w matrix, every row zero. */
  method Zeros(n: nat, w: nat) returns (m: array2<Cell>)
    ensures fresh(m) && m.Length0 == n && m.Length1 == w
    ensures forall r :: 0 <= r < n ==> RowZero(m, r)
  {
    m := new Cell[n, w]((_, _) => Num(0.0));
  }

  /** One pass of the row loop: computes the sample's row plan and, unless the
      kernel fails, writes its rows into both matrices. No other row changes. */
  method BuildRow(cReal: array2<Cell>, cImag: array2<Cell>, row: int, p: UV, uModel: seq<real>, vModel: seq<real>)
    returns (rowOk: bool)
    requires AxesOk(uModel, vModel) && InGrid(p, uModel, vModel)
    requires cReal != cImag && 0 <= row < cReal.Length0 && 0 <= row < cImag.Length0
    requires cReal.Length1 == GridWidth(uModel, vModel) && cImag.Length1 == GridWidth(uModel, vModel)
    requires RowZero(cReal, row) && RowZero(cImag, row)
    modifies cReal, cImag
    ensures rowOk == RowPlan(p, uModel, vModel).Ok?
    ensures rowOk ==> RowWritten(cReal, cImag, row, RowPlan(p, uModel, vModel).value, p.u)
    ensures forall r, l :: 0 <= r < cReal.Length0 && r != row && 0 <= l < cReal.Length1 ==> cReal[r, l] == old(cReal[r, l])
    ensures forall r, l :: 0 <= r < cImag.Length0 && r != row && 0 <= l < cImag.Length1 ==> cImag[r, l] == old(cImag[r, l])
  {
    var plan := RowPlan(p, uModel, vModel);
    if plan.DomainError? {
      return false;
    }
    if plan.value.Weighted? {
      RowColumns(p, uModel, vModel);
    }
    WriteRow(cReal, cImag, row, plan.value, p.u);
    rowOk := true;
  }

  /** Builds C_real and C_imag, one row per sample, over the flattened
      Npix x vstride grid. A kernel domain error in any row aborts the whole
      build (`ok` is false); otherwise row r of both matrices is the real and
      imaginary row of sample r. */
  method CalcMatrices(points: seq<UV>, uModel: seq<real>, vModel: seq<real>)
    returns (ok: bool, cReal: array2<Cell>, cImag: array2<Cell>)
    requires AxesOk(uModel, vModel)
    requires forall r :: 0 <= r < |points| ==> InGrid(points[r], uModel, vModel)
    ensures ok <==> Plans(points, uModel, vModel).Ok?
    ensures fresh(cReal) && fresh(cImag)
    ensures cReal.Length0 == |points| && cReal.Length1 == GridWidth(uModel, vModel)
    ensures cImag.Length0 == |points| && cImag.Length1 == GridWidth(uModel, vModel)
    ensures ok ==> forall r :: 0 <= r < |points| ==>
      RowWritten(cReal, cImag, r, Plans(points, uModel, vModel).value[r], points[r].u)
  {
    var width := GridWidth(uModel, vModel);
    cReal := Zeros(|points|, width);
    cImag := Zeros(|points|, width);
    ok := true;
    var row := 0;
    ghost var plans: seq<Row> := [];
    ghost var rs := RowPlans(points, uModel, vModel);
    while row < |points|
      invariant 0 <= row <= |points| && |plans| == row
      invariant Collect(rs[..row]) == Ok(plans)
      invariant forall r :: 0 <= r < row ==> RowWritten(cReal, cImag, r, plans[r], points[r].u)
      invariant forall r :: row <= r < |points| ==> RowZero(cReal, r) && RowZero(cImag, r)
    {
      label BeforeRow:
      var rowOk := BuildRow(cReal, cImag, row, points[row], uModel, vModel);
      if !rowOk {
        ok := false;
        assert rs[row] == RowPlan(points[row], uModel, vModel);
        CollectStopAtError(rs, row + 1);
        return;
      }
      forall r | row < r < |points|
        ensures RowZero(cReal, r) && RowZero(cImag, r)
      {
        assert old@BeforeRow(RowZero(cReal, r) && RowZero(cImag, r));
      }
      forall r | 0 <= r < row
        ensures RowWritten(cReal, cImag, r, plans[r], points[r].u)
      {
        assert old@BeforeRow(RowWritten(cReal, cImag, r, plans[r], points[r].u));
      }
      assert rs[..row + 1][..row] == rs[..row];
      assert rs[row] == RowPlan(points[row], uModel, vModel);
      plans := plans + [RowPlan(points[row], uModel, vModel).value];
      row := row + 1;
    }
    assert rs[..row] == rs;
    CollectAll(rs);
  }
}
