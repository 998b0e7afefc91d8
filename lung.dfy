/**
 * The counting and marker arithmetic of `Lung` (lung.py): the lung volume from
 * the per-slice masks, the filter that keeps the largest regions of the
 * internal marker, and the watershed marker built from the two markers.
 *
 * The masks, the labelled regions and the two markers are produced by library
 * filters (watershed, dilation, labelling, regionprops) and are inputs here.
 */
module Lung {
  import opened Wrappers
  import opened Volumes
  import opened Sorting
  import Lesion

  // ---------------------------------------------------------------------------
  // calculate_lung_volume
  // ---------------------------------------------------------------------------

  /** The volume of `count` pixels of area pixelArea, voxelZ thick. */
  function SliceVolume(count: real, pixelArea: real, voxelZ: real): real {
    (count * pixelArea) * voxelZ
  }

  /** One slice more: the running volume stays the volume of the running count. */
  lemma ScaleStep(total: real, count: real, px: real, dim: real, newCount: real, newTotal: real, pixelArea: real, voxelZ: real)
    requires total == SliceVolume(count, pixelArea, voxelZ)
    requires dim == px * pixelArea
    requires newCount == count + px
    requires newTotal == total + dim * voxelZ
    ensures newTotal == SliceVolume(newCount, pixelArea, voxelZ)
  {
  }

  /** Scaling by the pixel area and then by the slice spacing is scaling by the
      three spacings in turn. */
  lemma Regroup(c: real, voxelX: real, voxelY: real, voxelZ: real)
    ensures SliceVolume(c, voxelX * voxelY, voxelZ) == c * voxelX * voxelY * voxelZ
  {
  }

  /** One slice more adds its nonzero pixels to the count. */
  lemma CountStep(masks: seq<seq<seq<real>>>, i: nat)
    requires i < |masks|
    ensures CountNonzero3(masks[..i + 1]) == CountNonzero3(masks[..i]) + CountNonzero2(masks[i])
  {
    assert masks[..i + 1] == masks[..i] + [masks[i]];
    SumByAppend(masks[..i], [masks[i]], CountNonzero2);
    assert CountNonzero3([masks[i]]) == CountNonzero2(masks[i]);
  }

  /** calculate_lung_volume: the masks of the slices, stacked, measured like a
      lesion mask; that is, their nonzero pixels times the voxel volume, in
      millilitres. No masks give 0. */
  method CalculateLungVolume(masks: seq<seq<seq<real>>>, voxelX: real, voxelY: real, voxelZ: real) returns (volume: real)
    ensures volume == Lesion.CalculateTotalLesionVolume(masks, voxelX, voxelY, voxelZ).totalVolume
    ensures masks == [] ==> volume == 0.0
  {
    var totalMask := 0;
    var totalMaskVol := 0.0;
    for i := 0 to |masks|
      invariant totalMask == CountNonzero3(masks[..i])
      invariant totalMaskVol == SliceVolume(totalMask as real, voxelX * voxelY, voxelZ)
    {
      ghost var prevMask, prevVol := totalMask, totalMaskVol;
      var maskPx := CountNonzero2(masks[i]);
      totalMask := totalMask + maskPx;
      var maskDim := maskPx as real * (voxelX * voxelY);
      totalMaskVol := totalMaskVol + maskDim * voxelZ;
      ScaleStep(prevVol, prevMask as real, maskPx as real, maskDim, totalMask as real, totalMaskVol, voxelX * voxelY, voxelZ);
      CountStep(masks, i);
    }
    assert masks[..|masks|] == masks;
    Regroup(totalMask as real, voxelX, voxelY, voxelZ);
    volume := totalMaskVol / 1000.0;
  }

  /** The lung volume does not depend on the order of the masks. */
  lemma LungVolumeOrderIndependent(masks: seq<seq<seq<real>>>, others: seq<seq<seq<real>>>, voxelX: real, voxelY: real, voxelZ: real)
    requires multiset(masks) == multiset(others)
    ensures Lesion.CalculateTotalLesionVolume(masks, voxelX, voxelY, voxelZ)
            == Lesion.CalculateTotalLesionVolume(others, voxelX, voxelY, voxelZ)
  {
    SumByPermutation(masks, others, CountNonzero2);
    Lesion.SameCountSameVolume(masks, others, voxelX, voxelY, voxelZ);
  }

  // ---------------------------------------------------------------------------
  // The region filter of generate_watershed_markers
  // ---------------------------------------------------------------------------

  /** A region of `measure.regionprops`: its area and its pixel coordinates. */
  datatype Region = Region(area: real, coords: seq<(int, int)>)

  function Areas(regions: seq<Region>): (areas: seq<real>)
    ensures |areas| == |regions| && forall k :: 0 <= k < |regions| ==> areas[k] == regions[k].area
  {
    seq(|regions|, k requires 0 <= k < |regions| => regions[k].area)
  }

  /** `areas[-2]` once `areas` is sorted: the second largest area. */
  function Threshold(regions: seq<Region>): real
    requires |regions| > 2
  {
    var sorted := SortAscending(Areas(regions));
    sorted[|sorted| - 2]
  }

  /** Pixel (i, j) belongs to a region among the first `upto` whose area is
      below t. */
  predicate ClearedBy(regions: seq<Region>, t: real, upto: int, i: int, j: int) {
    exists k :: 0 <= k < upto && k < |regions| && regions[k].area < t && (i, j) in regions[k].coords
  }

  /** The pixels the filter sets to 0: with more than two regions, every pixel
      of a region whose area is below the second largest; with two regions or
      fewer, none. */
  predicate Cleared(regions: seq<Region>, i: int, j: int) {
    |regions| > 2 && ClearedBy(regions, Threshold(regions), |regions|, i, j)
  }

  /** The region filter of generate_watershed_markers, on the labelled image
      and its regions: the label of every pixel of a too-small region is set
      to 0 in place, and every other label is kept. */
  method KeepLargestRegions(markerInternalLabels: array2<int>, regions: seq<Region>)
    requires forall k, c :: 0 <= k < |regions| && c in regions[k].coords ==>
               0 <= c.0 < markerInternalLabels.Length0 && 0 <= c.1 < markerInternalLabels.Length1
    modifies markerInternalLabels
    ensures forall i, j :: 0 <= i < markerInternalLabels.Length0 && 0 <= j < markerInternalLabels.Length1 ==>
              markerInternalLabels[i, j] == if Cleared(regions, i, j) then 0 else old(markerInternalLabels[i, j])
  {
    var areas := Areas(regions);
    areas := SortAscending(areas);
    if |areas| > 2 {
      var t := areas[|areas| - 2];
      assert t == Threshold(regions);
      for k := 0 to |regions|
        invariant forall i, j :: 0 <= i < markerInternalLabels.Length0 && 0 <= j < markerInternalLabels.Length1 ==>
                    markerInternalLabels[i, j] == if ClearedBy(regions, t, k, i, j) then 0 else old(markerInternalLabels[i, j])
      {
        if regions[k].area < t {
          ClearRegion(markerInternalLabels, regions[k].coords);
        }
      }
    }
  }

  /** `marker_internal_labels[coordinates[:, 0], coordinates[:, 1]] = 0`: the
      labels of the given pixels become 0 and every other label is kept. */
  method ClearRegion(markerInternalLabels: array2<int>, coords: seq<(int, int)>)
    requires forall c :: c in coords ==> 0 <= c.0 < markerInternalLabels.Length0 && 0 <= c.1 < markerInternalLabels.Length1
    modifies markerInternalLabels
    ensures forall i, j :: 0 <= i < markerInternalLabels.Length0 && 0 <= j < markerInternalLabels.Length1 ==>
              markerInternalLabels[i, j] == if (i, j) in coords then 0 else old(markerInternalLabels[i, j])
  {
    for m := 0 to |coords|
      invariant forall i, j :: 0 <= i < markerInternalLabels.Length0 && 0 <= j < markerInternalLabels.Length1 ==>
                  markerInternalLabels[i, j] == if (i, j) in coords[..m] then 0 else old(markerInternalLabels[i, j])
    {
      assert coords[m] in coords;
      markerInternalLabels[coords[m].0, coords[m].1] := 0;
      assert coords[..m + 1] == coords[..m] + [coords[m]];
    }
    assert coords[..|coords|] == coords;
  }

  function Reaches(t: real): Region -> nat {
    (r: Region) => if r.area >= t then 1 else 0
  }

  function ReachesValue(t: real): real -> nat {
    (v: real) => if v >= t then 1 else 0
  }

  /** The number of regions whose area reaches t. */
  function CountAtLeast(regions: seq<Region>, t: real): nat {
    SumBy(regions, Reaches(t))
  }

  /** A sequence whose last two values reach t has at least two values that
      reach t. */
  lemma LastTwoReach(s: seq<real>, t: real)
    requires |s| >= 2 && s[|s| - 2] >= t && s[|s| - 1] >= t
    ensures SumBy(s, ReachesValue(t)) >= 2
  {
    var f := ReachesValue(t);
    var pair := [s[|s| - 2], s[|s| - 1]];
    assert s == s[..|s| - 2] + pair;
    SumByAppend(s[..|s| - 2], pair, f);
    assert pair[1..][1..] == [];
    assert SumBy(pair[1..], f) == 1;
  }

  /** With more than two regions, at least two reach the threshold and keep
      their labels (more when several share the second largest area). */
  lemma AtLeastTwoRegionsSurvive(regions: seq<Region>)
    requires |regions| > 2
    ensures CountAtLeast(regions, Threshold(regions)) >= 2
  {
    var t := Threshold(regions);
    var areas := Areas(regions);
    var sorted := SortAscending(areas);
    SumByPointwise(regions, Reaches(t), areas, ReachesValue(t));
    SumByPermutation(areas, sorted, ReachesValue(t));
    assert sorted[|sorted| - 2] <= sorted[|sorted| - 1];
    LastTwoReach(sorted, t);
  }

  // ---------------------------------------------------------------------------
  // The watershed marker of generate_watershed_markers
  // ---------------------------------------------------------------------------

  /** An in-place `+=` broadcasts an operand axis of size n onto a target axis
      of size m when the sizes agree or the operand's is 1. */
  predicate Broadcasts(n: nat, m: nat) {
    n == m || n == 1
  }

  /** The operand index a target index reads under broadcasting. */
  function BroadcastIndex(i: nat, n: nat): nat {
    if n == 1 then 0 else i
  }

  predicate BroadcastsTo(a: array2<bool>, width: nat, height: nat) {
    Broadcasts(a.Length0, width) && Broadcasts(a.Length1, height)
  }

  /** The value of one watershed marker pixel. */
  function MarkerValue(internal: bool, external: bool): int {
    (if internal then 255 else 0) + (if external then 128 else 0)
  }

  /** A marker pixel tells which markers cover it. */
  lemma MarkerValueDecodes(internal: bool, external: bool)
    ensures MarkerValue(internal, external) in {0, 128, 255, 383}
    ensures internal <==> MarkerValue(internal, external) >= 255
    ensures external <==> MarkerValue(internal, external) % 255 == 128
  {
  }

  /** The watershed marker of generate_watershed_markers: a zero array of
      shape (px_width, px_height), plus 255 times the internal marker, plus
      128 times the external one. numpy raises ValueError when a marker does
      not broadcast onto that shape, the internal one being added first. */
  method CombineMarkers(markerInternal: array2<bool>, markerExternal: array2<bool>, pxWidth: nat, pxHeight: nat)
    returns (markerWatershed: Result<array2<int>>)
    ensures markerWatershed.Err? <==>
              !BroadcastsTo(markerInternal, pxWidth, pxHeight) || !BroadcastsTo(markerExternal, pxWidth, pxHeight)
    ensures markerWatershed.Err? ==> markerWatershed.error == ValueError
    ensures markerWatershed.Ok? ==>
              var w := markerWatershed.value;
              && fresh(w) && w.Length0 == pxWidth && w.Length1 == pxHeight
              && forall i, j :: 0 <= i < pxWidth && 0 <= j < pxHeight ==>
                   w[i, j] == MarkerValue(
                     markerInternal[BroadcastIndex(i, markerInternal.Length0), BroadcastIndex(j, markerInternal.Length1)],
                     markerExternal[BroadcastIndex(i, markerExternal.Length0), BroadcastIndex(j, markerExternal.Length1)])
  {
    var w := new int[pxWidth, pxHeight]((i, j) => 0);
    if !BroadcastsTo(markerInternal, pxWidth, pxHeight) {
      return Err(ValueError);
    }
    for i := 0 to pxWidth
      invariant forall x, y :: 0 <= x < pxWidth && 0 <= y < pxHeight ==>
                  w[x, y] == if x < i then MarkerValue(markerInternal[BroadcastIndex(x, markerInternal.Length0), BroadcastIndex(y, markerInternal.Length1)], false) else 0
    {
      for j := 0 to pxHeight
        invariant forall x, y :: 0 <= x < pxWidth && 0 <= y < pxHeight ==>
                    w[x, y] == if x < i || (x == i && y < j) then MarkerValue(markerInternal[BroadcastIndex(x, markerInternal.Length0), BroadcastIndex(y, markerInternal.Length1)], false) else 0
      {
        w[i, j] := w[i, j] + (if markerInternal[BroadcastIndex(i, markerInternal.Length0), BroadcastIndex(j, markerInternal.Length1)] then 255 else 0);
      }
    }
    if !BroadcastsTo(markerExternal, pxWidth, pxHeight) {
      return Err(ValueError);
    }
    for i := 0 to pxWidth
      invariant forall x, y :: 0 <= x < pxWidth && 0 <= y < pxHeight ==>
                  w[x, y] == MarkerValue(
                    markerInternal[BroadcastIndex(x, markerInternal.Length0), BroadcastIndex(y, markerInternal.Length1)],
                    x < i && markerExternal[BroadcastIndex(x, markerExternal.Length0), BroadcastIndex(y, markerExternal.Length1)])
    {
      for j := 0 to pxHeight
        invariant forall x, y :: 0 <= x < pxWidth && 0 <= y < pxHeight ==>
                    w[x, y] == MarkerValue(
                      markerInternal[BroadcastIndex(x, markerInternal.Length0), BroadcastIndex(y, markerInternal.Length1)],
                      (x < i || (x == i && y < j)) && markerExternal[BroadcastIndex(x, markerExternal.Length0), BroadcastIndex(y, markerExternal.Length1)])
      {
        w[i, j] := w[i, j] + (if markerExternal[BroadcastIndex(i, markerExternal.Length0), BroadcastIndex(j, markerExternal.Length1)] then 128 else 0);
      }
    }
    markerWatershed := Ok(w);
  }
}
