/**
 * The counting and array utilities of helper_functions.py: the Dice similarity
 * coefficient, the Hounsfield-range zeroing, slicing a volume along an axis, and
 * the grayscale mask built from a threshold.
 *
 * A numpy array that is only masked or counted cell by cell is modelled by its
 * cells in a flat sequence or array: the operations below do not depend on the
 * shape. Slicing depends on the shape and works on a `Grid`.
 */
module HelperFunctions {
  import opened Wrappers
  import opened Volumes

  // ---------------------------------------------------------------------------
  // calculate_dice_similarity_coefficient
  // ---------------------------------------------------------------------------

  /** `np.sum` of a boolean array: the number of true cells. */
  function Count(a: seq<bool>): nat {
    if a == [] then 0 else Count(a[..|a| - 1]) + (if a[|a| - 1] then 1 else 0)
  }

  /** `np.logical_and`, cell by cell. */
  function And(a: seq<bool>, b: seq<bool>): (c: seq<bool>)
    requires |a| == |b|
    ensures |c| == |a| && forall i :: 0 <= i < |a| ==> (c[i] <==> a[i] && b[i])
  {
    seq(|a|, i requires 0 <= i < |a| => a[i] && b[i])
  }

  /** `np.logical_or`, cell by cell. */
  function Or(a: seq<bool>, b: seq<bool>): (c: seq<bool>)
    requires |a| == |b|
    ensures |c| == |a| && forall i :: 0 <= i < |a| ==> (c[i] <==> a[i] || b[i])
  {
    seq(|a|, i requires 0 <= i < |a| => a[i] || b[i])
  }

  /** The triple returned by calculate_dice_similarity_coefficient. The
      coefficient is None where numpy's 0/0 gives NaN. */
  datatype Dice = Dice(dsc: Option<real>, numerator: nat, denominator: nat)

  /** calculate_dice_similarity_coefficient: the numerator is twice the size of
      the intersection, the denominator is |A| + |B| (the docstring's formula),
      and the coefficient is their quotient, undefined exactly when both masks
      are empty. */
  function CalculateDiceSimilarityCoefficient(mySegmentation: seq<bool>, truth: seq<bool>): (r: Dice)
    requires |mySegmentation| == |truth|
    ensures r.numerator == 2 * Count(And(mySegmentation, truth))
    ensures r.denominator == Count(mySegmentation) + Count(truth)
    ensures r.dsc.None? <==> Count(mySegmentation) == 0 && Count(truth) == 0
    ensures r.dsc.Some? ==> r.dsc.value == r.numerator as real / r.denominator as real
  {
    var intersection := And(mySegmentation, truth);
    var union := Or(mySegmentation, truth);
    var numerator := 2 * Count(intersection);
    var denominator := Count(union) + Count(intersection);
    InclusionExclusion(mySegmentation, truth);
    var dsc := if denominator == 0 then None else Some((2 * Count(intersection)) as real / denominator as real);
    Dice(dsc, numerator, denominator)
  }

  /** |A ∪ B| + |A ∩ B| == |A| + |B|. */
  lemma {:induction false} InclusionExclusion(a: seq<bool>, b: seq<bool>)
    requires |a| == |b|
    ensures Count(Or(a, b)) + Count(And(a, b)) == Count(a) + Count(b)
  {
    if a != [] {
      var n := |a| - 1;
      InclusionExclusion(a[..n], b[..n]);
      assert Or(a, b)[..n] == Or(a[..n], b[..n]);
      assert And(a, b)[..n] == And(a[..n], b[..n]);
    }
  }

  /** |A ∩ B| <= |A|, and equality means every cell of A is a cell of B. */
  lemma {:induction false} IntersectionCount(a: seq<bool>, b: seq<bool>)
    requires |a| == |b|
    ensures Count(And(a, b)) <= Count(a)
    ensures Count(And(a, b)) == Count(a) ==> forall i :: 0 <= i < |a| && a[i] ==> b[i]
  {
    if a != [] {
      var n := |a| - 1;
      IntersectionCount(a[..n], b[..n]);
      assert And(a, b)[..n] == And(a[..n], b[..n]);
      if Count(And(a, b)) == Count(a) {
        forall i | 0 <= i < |a| && a[i]
          ensures b[i]
        {
          if i < n {
            assert a[..n][i] == a[i] && b[..n][i] == b[i];
          }
        }
      }
    }
  }

  lemma {:induction false} CountOfAndWithSelf(a: seq<bool>)
    ensures Count(And(a, a)) == Count(a)
  {
    if a != [] {
      var n := |a| - 1;
      CountOfAndWithSelf(a[..n]);
      assert And(a, a)[..n] == And(a[..n], a[..n]);
    }
  }

  lemma QuotientBounds(x: real, y: real)
    requires 0.0 <= x && 0.0 < y
    ensures 0.0 <= x / y
    ensures x / y <= 1.0 <==> x <= y
    ensures x / y == 1.0 <==> x == y
  {
  }

  /** The coefficient lies in [0, 1] whenever it is defined. */
  lemma DiceInUnitInterval(a: seq<bool>, b: seq<bool>)
    requires |a| == |b|
    ensures var r := CalculateDiceSimilarityCoefficient(a, b);
            r.dsc.Some? ==> 0.0 <= r.dsc.value <= 1.0
  {
    var r := CalculateDiceSimilarityCoefficient(a, b);
    IntersectionCount(a, b);
    IntersectionCount(b, a);
    assert And(a, b) == And(b, a);
    if r.dsc.Some? {
      assert r.numerator <= r.denominator;
      QuotientBounds(r.numerator as real, r.denominator as real);
    }
  }

  /** Swapping the segmentation and the ground truth changes nothing. */
  lemma DiceSymmetric(a: seq<bool>, b: seq<bool>)
    requires |a| == |b|
    ensures CalculateDiceSimilarityCoefficient(a, b) == CalculateDiceSimilarityCoefficient(b, a)
  {
    assert And(a, b) == And(b, a);
    assert Or(a, b) == Or(b, a);
  }

  /** Two masks whose intersection is as large as each of them are equal. */
  lemma EqualFromIntersection(a: seq<bool>, b: seq<bool>)
    requires |a| == |b|
    requires Count(And(a, b)) == Count(a) && Count(And(a, b)) == Count(b)
    ensures a == b
  {
    IntersectionCount(a, b);
    IntersectionCount(b, a);
    assert And(a, b) == And(b, a);
    forall i | 0 <= i < |a|
      ensures a[i] == b[i]
    {
    }
  }

  /** The coefficient is 1 exactly when the two masks are equal and not empty. */
  lemma DiceIsOneIffEqual(a: seq<bool>, b: seq<bool>)
    requires |a| == |b|
    ensures CalculateDiceSimilarityCoefficient(a, b).dsc == Some(1.0) <==> a == b && Count(a) > 0
  {
    var r := CalculateDiceSimilarityCoefficient(a, b);
    IntersectionCount(a, b);
    IntersectionCount(b, a);
    assert And(a, b) == And(b, a);
    if r.dsc == Some(1.0) {
      QuotientBounds(r.numerator as real, r.denominator as real);
      assert r.numerator == r.denominator;
      assert Count(And(a, b)) == Count(a) && Count(And(a, b)) == Count(b);
      EqualFromIntersection(a, b);
    }
    if a == b && Count(a) > 0 {
      CountOfAndWithSelf(a);
      QuotientBounds(r.numerator as real, r.denominator as real);
    }
  }

  // ---------------------------------------------------------------------------
  // separate_hounsfield_range
  // ---------------------------------------------------------------------------

  /** The value a cell takes in the result of separate_hounsfield_range: cells at
      or below thresh_min or at or above thresh_max become 0. */
  function HounsfieldCell(v: real, threshMin: real, threshMax: real): real {
    if v <= threshMin || v >= threshMax then 0.0 else v
  }

  /** separate_hounsfield_range: a fresh copy whose cells at or below threshMin
      and then at or above threshMax are zeroed; the input keeps its cells. */
  method SeparateHounsfieldRange(slice: array<real>, threshMin: real, threshMax: real) returns (slc: array<real>)
    ensures fresh(slc) && slc.Length == slice.Length
    ensures forall i :: 0 <= i < slc.Length ==> slc[i] == HounsfieldCell(slice[i], threshMin, threshMax)
  {
    slc := new real[slice.Length](i requires 0 <= i < slice.Length reads slice => slice[i]);
    for i := 0 to slc.Length
      invariant forall k :: 0 <= k < i ==> slc[k] == (if slice[k] <= threshMin then 0.0 else slice[k])
      invariant forall k :: i <= k < slc.Length ==> slc[k] == slice[k]
    {
      if slc[i] <= threshMin {
        slc[i] := 0.0;
      }
    }
    for i := 0 to slc.Length
      invariant forall k :: 0 <= k < i ==> slc[k] == HounsfieldCell(slice[k], threshMin, threshMax)
      invariant forall k :: i <= k < slc.Length ==> slc[k] == (if slice[k] <= threshMin then 0.0 else slice[k])
    {
      if slc[i] >= threshMax {
        slc[i] := 0.0;
      }
    }
  }

  /** Every nonzero cell of the result lies strictly inside the range, and came
      from the input unchanged. */
  lemma HounsfieldKeepsOnlyTheRange(v: real, threshMin: real, threshMax: real)
    ensures HounsfieldCell(v, threshMin, threshMax) != 0.0 ==>
              threshMin < HounsfieldCell(v, threshMin, threshMax) < threshMax
              && HounsfieldCell(v, threshMin, threshMax) == v
    ensures threshMin < v < threshMax ==> HounsfieldCell(v, threshMin, threshMax) == v
  {
  }

  /** Applying separate_hounsfield_range twice changes nothing more. */
  lemma HounsfieldIdempotent(v: real, threshMin: real, threshMax: real)
    ensures HounsfieldCell(HounsfieldCell(v, threshMin, threshMax), threshMin, threshMax)
            == HounsfieldCell(v, threshMin, threshMax)
  {
  }

  // ---------------------------------------------------------------------------
  // create_grayscale_mask
  // ---------------------------------------------------------------------------

  /** The value a cell takes in create_grayscale_mask with threshold t. A cell
      below t ends at 255. A cell at or above t is first set to 0, and that 0
      is then set to 255 too when 0 <= t. */
  function GrayscaleCell(v: real, t: real): (w: real)
    ensures v < t ==> w == 255.0
    ensures v >= t && t >= 0.0 ==> w == 255.0
    ensures v >= t && t < 0.0 ==> w == 0.0
  {
    var first := if v >= t then 0.0 else v;
    if first <= t then 255.0 else first
  }

  /** create_grayscale_mask, with the Otsu threshold of the volume given as t:
      a fresh copy whose cells at or above t are set to 0, and then whose cells
      at or below t are set to 255, in that order. */
  method CreateGrayscaleMask(volume: array<real>, t: real) returns (slc: array<real>)
    ensures fresh(slc) && slc.Length == volume.Length
    ensures forall i :: 0 <= i < slc.Length ==> slc[i] == GrayscaleCell(volume[i], t)
  {
    slc := new real[volume.Length](i requires 0 <= i < volume.Length reads volume => volume[i]);
    for i := 0 to slc.Length
      invariant forall k :: 0 <= k < i ==> slc[k] == (if volume[k] >= t then 0.0 else volume[k])
      invariant forall k :: i <= k < slc.Length ==> slc[k] == volume[k]
    {
      if slc[i] >= t {
        slc[i] := 0.0;
      }
    }
    for i := 0 to slc.Length
      invariant forall k :: 0 <= k < i ==> slc[k] == GrayscaleCell(volume[k], t)
      invariant forall k :: i <= k < slc.Length ==> slc[k] == (if volume[k] >= t then 0.0 else volume[k])
    {
      if slc[i] <= t {
        slc[i] := 255.0;
      }
    }
  }

  /** The mask holds only 0 and 255; with a threshold of at least 0 every cell
      ends at 255, and with a negative one a cell is 0 exactly when it reached
      the threshold. */
  lemma GrayscaleMaskValues(v: real, t: real)
    ensures GrayscaleCell(v, t) == 0.0 || GrayscaleCell(v, t) == 255.0
    ensures t >= 0.0 ==> GrayscaleCell(v, t) == 255.0
    ensures t < 0.0 ==> (GrayscaleCell(v, t) == 0.0 <==> v >= t)
  {
  }

  // ---------------------------------------------------------------------------
  // create_slices and create_bronchial_slices
  // ---------------------------------------------------------------------------

  /** slices holds the planes of volume: slices[i] is `volume[:, :, i]`. */
  predicate ArePlanes(volume: Grid, s: Shape, slices: seq<seq<seq<real>>>)
    requires Shaped(volume, s)
  {
    && |slices| == s.planes
    && forall i :: 0 <= i < |slices| ==>
         && |slices[i]| == s.cols
         && forall x :: 0 <= x < s.cols ==>
              && |slices[i][x]| == s.rows
              && forall y :: 0 <= y < s.rows ==> slices[i][x][y] == volume[x][y][i]
  }

  /** `volume[:, :, i]`. */
  function Plane(volume: Grid, s: Shape, i: nat): (slice: seq<seq<real>>)
    requires Shaped(volume, s) && i < s.planes
    ensures |slice| == s.cols
    ensures forall x :: 0 <= x < s.cols ==>
              |slice[x]| == s.rows && forall y :: 0 <= y < s.rows ==> slice[x][y] == volume[x][y][i]
  {
    seq(s.cols, x requires 0 <= x < s.cols => seq(s.rows, y requires 0 <= y < s.rows => volume[x][y][i]))
  }

  /** create_slices: one slice per plane, in plane order. */
  method CreateSlices(volume: Grid, s: Shape) returns (slices: seq<seq<seq<real>>>)
    requires Shaped(volume, s)
    ensures ArePlanes(volume, s, slices)
  {
    slices := [];
    for i := 0 to s.planes
      invariant |slices| == i
      invariant forall k :: 0 <= k < i ==> slices[k] == Plane(volume, s, k)
    {
      var slice := Plane(volume, s, i);
      slices := slices + [slice];
    }
  }

  /** `np.dstack(slices)`: the volume rebuilt from its planes along the last axis. */
  function StackPlanes(slices: seq<seq<seq<real>>>, s: Shape): (g: Grid)
    requires |slices| == s.planes
    requires forall i :: 0 <= i < |slices| ==>
               |slices[i]| == s.cols && forall x :: 0 <= x < s.cols ==> |slices[i][x]| == s.rows
    ensures Shaped(g, s)
  {
    seq(s.cols, x requires 0 <= x < s.cols =>
      seq(s.rows, y requires 0 <= y < s.rows =>
        seq(s.planes, z requires 0 <= z < s.planes => slices[z][x][y])))
  }

  /** Slicing loses nothing: stacking the planes gives the volume back. */
  lemma SlicesRoundTrip(volume: Grid, s: Shape, slices: seq<seq<seq<real>>>)
    requires Shaped(volume, s) && ArePlanes(volume, s, slices)
    ensures StackPlanes(slices, s) == volume
  {
    var g := StackPlanes(slices, s);
    forall x | 0 <= x < s.cols
      ensures g[x] == volume[x]
    {
      forall y | 0 <= y < s.rows
        ensures g[x][y] == volume[x][y]
      {
        assert g[x][y] == seq(s.planes, z requires 0 <= z < s.planes => slices[z][x][y]);
      }
    }
  }

  /** create_bronchial_slices: one slice per column, `volume[i, :, :]`, in
      column order; on nested sequences that is the volume itself. */
  method CreateBronchialSlices(volume: Grid, s: Shape) returns (slices: seq<seq<seq<real>>>)
    requires Shaped(volume, s)
    ensures |slices| == s.cols
    ensures forall i, y, z :: 0 <= i < s.cols && 0 <= y < s.rows && 0 <= z < s.planes ==>
              |slices[i]| == s.rows && |slices[i][y]| == s.planes && slices[i][y][z] == volume[i][y][z]
  {
    slices := [];
    for i := 0 to s.cols
      invariant |slices| == i
      invariant forall k :: 0 <= k < i ==> slices[k] == volume[k]
    {
      var slice := volume[i];
      slices := slices + [slice];
    }
  }
}
