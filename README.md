# LENS: a Dafny model of its counting and index arithmetic

LENS segments lungs, bronchial trees and lesions in CT volumes. Most of its
work goes through image libraries: thresholding, watershed, morphology,
contour finding. This project models the sequential logic around those calls,
and proves what that logic promises:

- **Cavity enhancement filter** (`bronchial_tree.py`), modules `CavityFilter`
  and `Morphometry`:
  - the bounds test and the P and L terms;
  - the running maximum of L − P over ordered radius pairs, for each of the
    27 offsets in {-1, 0, 1}³;
  - the in-place raster scan over the Hessian volume, as a method on an
    `array3<real>`;
  - the morphometry table's unit conversion;
  - the selection of one radius per airway generation.
- **Dice coefficient, Hounsfield windowing, grayscale masking and slicing**
  (`helper_functions.py`), module `HelperFunctions`.
- **Contour intersection and overlap bookkeeping** (`individual_lesion_volume.py`),
  module `IndividualLesionVolume`:
  - the counter-clockwise test and the segment-straddle test;
  - the list of `(centre, area)` entries built across slices;
  - the lesion volumes, sorted largest first.
- **Lesion totals and centred zero-padding** (`lesion.py`), module `Lesion`.
- **Lung volume, the largest-regions label filter and the watershed marker**
  (`lung.py`), module `Lung`.
- **Splitting input file names into images and ground-truth masks**
  (`main.py`), module `Driver`.

Shared modules:

- `Wrappers`: `Option`, plus `Result` for the Python exceptions the code can
  raise (`IndexError`, `ZeroDivisionError`, `ValueError`).
- `Volumes`: 3-D grids as nested sequences, sums, and `np.count_nonzero`.
- `Sorting`: `list.sort()`, ascending and descending.

Arithmetic conventions:

- Voxel values, spacings and areas are `real`, with exact arithmetic.
- `sys.float_info.min` is the positive constant `CavityFilter.FMIN`.
- numpy indexing is modelled as written:
  - a negative index counts from the end;
  - an index below −n raises `IndexError`.
- NaN, which numpy returns for the integer quotient 0/0 in the Dice
  coefficient, is `None`.

Where the docstrings and the code disagree, the model follows the code:

- `calculate_L`'s docstring gives I(v−r₁d) − 2(I(v) + I(v+r₂d)). The code
  computes the second difference I(v−r₁d) − 2·I(v) + I(v+r₂d)
  (`CavityFilter.LIsSecondDifference`).
- `calculate_radii_per_generation` keeps a radius when the mean reaches
  `x_mm` **or** `y_mm`.
- `contours_intersect` returns `True` or falls through to `None`; it never
  returns `False`.

## Model

| member | source | states |
|---|---|---|
| `CavityFilter.Read` | bronchial_tree.py:187 | a read of the volume succeeds exactly when each coordinate lies in -n..n-1 of its axis; otherwise it is an IndexError |
| `CavityFilter.NegativeCoordinatesWrap` | bronchial_tree.py:159-162 | `is_in_bounds` tests only the upper bounds, so a negative coordinate passes the test while lying outside the volume, and the read then wraps to n + x on each axis |
| `CavityFilter.CalculateP` | bronchial_tree.py:176-189 | -1 when either endpoint fails the bounds test; IndexError exactly when both pass but one cannot be read; otherwise a value ≥ 0 equal to ±(I(v−r₁d) − I(v+r₂d)) |
| `CavityFilter.CalculateL` | bronchial_tree.py:204-218 | FMIN when any of the three points fails the bounds test; IndexError exactly when all pass but one cannot be read |
| `CavityFilter.LIsSecondDifference` | bronchial_tree.py:213-217 | when all three points can be read, L is I(v−r₁d) − 2·I(v) + I(v+r₂d), not the docstring's formula |
| `CavityFilter.ZeroOffsetTerms` | bronchial_tree.py:176-218 | along the zero offset, at a voxel inside the volume, both L and P are 0 |
| `CavityFilter.InnerFromIsMax` | bronchial_tree.py:238-244 | the loop over r₂ leaves the largest of the starting maximum and L − P over the qualifying pairs (P ≥ 0, L > FMIN) |
| `CavityFilter.IsMaxFromCombine` | bronchial_tree.py:237-244 | the running maximum over the first r₁ followed by the running maximum over the remaining r₁ values is the running maximum over all of them |
| `CavityFilter.InnerIsMax` | bronchial_tree.py:238-244 | when the r₂ loop for one r₁ finishes, its result is the largest of the starting maximum and L − P over the qualifying pairs with that r₁ |
| `CavityFilter.OuterFromStep` | bronchial_tree.py:237-244 | when the two radius loops finish from r₁ position a, the r₂ loop for that r₁ finishes too, and its result is where the rest of the outer loop starts |
| `CavityFilter.OuterFromIsMax` | bronchial_tree.py:237-244 | the two radius loops leave the largest of the starting maximum and L − P over every qualifying ordered pair |
| `CavityFilter.DirectionMaxIsMaximum` | bronchial_tree.py:236-245 | `max_difference_p_l` is max(FMIN, the largest L − P over the qualifying pairs), and so it is at least FMIN |
| `CavityFilter.InnerFromFails` | bronchial_tree.py:238-240 | the loop over r₂ raises exactly when some remaining pair makes calculate_L or calculate_P raise |
| `CavityFilter.OuterFromFails` | bronchial_tree.py:237-240 | the two radius loops raise exactly when some ordered pair makes calculate_L or calculate_P raise |
| `CavityFilter.DirectionMaxFails` | bronchial_tree.py:236-245 | one offset's maximum raises exactly when some ordered radius pair raises |
| `CavityFilter.ZeroDirectionGivesFMIN` | bronchial_tree.py:236-245 | the zero offset contributes exactly FMIN at every voxel inside the volume, whatever the radii |
| `CavityFilter.DirectionIndex` | bronchial_tree.py:233-235 | offset (i, j, k) of {-1,0,1}³ is visited at position n = 9(i+1) + 3(j+1) + (k+1) of the offset loops, with 0 ≤ n < 27 |
| `CavityFilter.DirectionAtInverse` | bronchial_tree.py:233-235 | each of the 27 positions of the offset loops holds a vector of {-1,0,1}³, and the position is recovered from it |
| `CavityFilter.DirectionsAreTheCube` | bronchial_tree.py:233-235 | the offset loops visit 27 distinct vectors, exactly those of {-1,0,1}³, the zero vector included (at position 13) |
| `CavityFilter.MaximaFromStep` | bronchial_tree.py:232-245 | one pass of the offset loops: when the offset's maximum raises, collecting `max_differences` raises with that error; otherwise the maximum is appended and collection goes on at the next offset |
| `CavityFilter.MaximaFromOk` | bronchial_tree.py:232-245 | collecting `max_differences` succeeds exactly when every remaining offset's maximum succeeds |
| `CavityFilter.MaximaFromValues` | bronchial_tree.py:232-245 | `max_differences` holds one maximum per remaining offset, appended in loop order after those already collected |
| `CavityFilter.EnhanceOk` | bronchial_tree.py:232-246 | a voxel's new value is computed without raising exactly when the maximum of each of the 27 offsets is |
| `CavityFilter.DirectionMaximaValues` | bronchial_tree.py:232-245 | when it succeeds, `max_differences` holds exactly 27 values, the k-th being the maximum for the k-th offset of the loops |
| `CavityFilter.EnhanceSumsTheMaxima` | bronchial_tree.py:232-246 | when it does not raise, a voxel's new value is the sum of exactly 27 maxima, the k-th belonging to the k-th offset, and it is at least 27·FMIN |
| `CavityFilter.EmptyRadiiEnhance` | bronchial_tree.py:236-246 | with no radii, a voxel's new value is 27·FMIN |
| `CavityFilter.Put` | bronchial_tree.py:246 | writing one voxel changes that voxel and no other |
| `CavityFilter.ScanFrom` | bronchial_tree.py:229-246 | the raster scan keeps the shape and leaves every voxel before the start, and every voxel on the last index of an axis, as it was |
| `CavityFilter.FilterKeepsLastIndices` | bronchial_tree.py:229-231 | the filter keeps the shape, and voxels whose index is the last one on some axis keep their input value |
| `CavityFilter.ScanWritesEnhanceFirst` | bronchial_tree.py:229-246 | the first voxel of a scan gets its enhancement computed from the grid as it stands at that point, with the earlier voxels already overwritten |
| `CavityFilter.EmptyRadiiScanStep` | bronchial_tree.py:229-246 | with no radii, a scan starting at a visited voxel (c, r, p) does not raise and gives 27·FMIN at every visited voxel from (c, r, p) on |
| `CavityFilter.EmptyRadiiNextRow` | bronchial_tree.py:230-231 | with no radii, a scan past the last visited plane of a row does not raise and gives 27·FMIN at every visited voxel from there on |
| `CavityFilter.EmptyRadiiNextColumn` | bronchial_tree.py:229-230 | with no radii, a scan past the last visited row of a column does not raise and gives 27·FMIN at every visited voxel from there on |
| `CavityFilter.EmptyRadiiDone` | bronchial_tree.py:229 | a scan past the last visited column returns the volume unchanged, and no visited voxel lies at or after that point |
| `CavityFilter.EmptyRadiiScan` | bronchial_tree.py:229-246 | with no radii, a scan from (c, r, p) sets every visited voxel from there on to 27·FMIN and leaves the others as they were |
| `CavityFilter.EmptyRadiiFilter` | bronchial_tree.py:229-246 | with no radii, the filter sets every voxel off the last indices to 27·FMIN and keeps all others |
| `CavityFilter.ScanFromVisit` | bronchial_tree.py:229-246 | at a visited voxel the scan raises when that voxel's new value raises; otherwise it writes the value and goes on at the next plane |
| `CavityFilter.MaxDifference` | bronchial_tree.py:236-245 | the two radius loops, with their running maximum, compute one offset's maximum (or raise) |
| `CavityFilter.VoxelScore` | bronchial_tree.py:232-246 | the three offset loops append the 27 maxima, and their sum is the voxel's new value (or the loops raise) |
| `CavityFilter.FilterVoxel` | bronchial_tree.py:232-246 | the loop body for one voxel fails exactly when its new value, computed from the volume as it stands, raises; otherwise it writes that value at that voxel and changes no other |
| `CavityFilter.CavityEnhancementFilter` | bronchial_tree.py:227-251 | the filter overwrites the Hessian volume in place, in raster order, and returns that same array; its new contents are those of the scan specification, and it fails exactly when the specification raises |
| `Morphometry.CalculatePerTube` | bronchial_tree.py:104-108 | ZeroDivisionError exactly when `num_tubes` is 0; otherwise the result times `num_tubes` is 100 times the stored area |
| `Morphometry.ConvertRow` | bronchial_tree.py:113-123 | ZeroDivisionError exactly when `num_tubes` is 0; otherwise length_mm = 10·length_cm, 2·radius_mm = 10·diameter_cm, area·num_tubes = 100·100·area_cm², and the other columns unchanged |
| `Morphometry.ReadInMorphometryInfo` | bronchial_tree.py:110-124 | the table converts row by row, and fails with ZeroDivisionError exactly when some row has zero tubes |
| `Morphometry.RowRoundTrip` | bronchial_tree.py:113-123 | converting a row to millimetres and back to centimetres gives the row back |
| `Morphometry.ConversionRoundTrip` | bronchial_tree.py:110-124 | the whole converted table converts back to the centimetre table |
| `Morphometry.Distinct` | bronchial_tree.py:102 | `list(set(xs))` has no duplicates and the same members as xs |
| `Morphometry.Generations` | bronchial_tree.py:93 | the groupby keys are distinct, and they are exactly the generations present in the table |
| `Morphometry.RadiiOf` | bronchial_tree.py:92-93 | a generation's group is non-empty exactly when the generation occurs, and holds exactly the radii of its records |
| `Morphometry.GroupedRadii` | bronchial_tree.py:92-94 | one non-empty group per generation, the generations in first-occurrence order, each group holding that generation's radii |
| `Morphometry.Ceil` | bronchial_tree.py:100 | `math.ceil`: the least integer at or above x |
| `Morphometry.CalculateRadiiPerGeneration` | bronchial_tree.py:91-102 | the radii have no duplicates; r is among them exactly when some generation has a mean ≥ x_mm or ≥ y_mm with ceiling r; every r is ≥ x_mm or ≥ y_mm |
| `HelperFunctions.And` | helper_functions.py:21 | cell-wise logical and |
| `HelperFunctions.Or` | helper_functions.py:22 | cell-wise logical or |
| `HelperFunctions.CalculateDiceSimilarityCoefficient` | helper_functions.py:13-28 | numerator = 2·\|A∩B\|; denominator = \|A\| + \|B\|; NaN exactly when both are empty; otherwise the coefficient is numerator / denominator |
| `HelperFunctions.InclusionExclusion` | helper_functions.py:22-24 | \|A∪B\| + \|A∩B\| = \|A\| + \|B\|, so the code's denominator is the docstring's |
| `HelperFunctions.IntersectionCount` | helper_functions.py:21 | \|A∩B\| ≤ \|A\|, with equality only when A ⊆ B |
| `HelperFunctions.CountOfAndWithSelf` | helper_functions.py:21 | \|A∩A\| = \|A\| |
| `HelperFunctions.QuotientBounds` | helper_functions.py:27 | a quotient of non-negative x by positive y is ≥ 0, is ≤ 1 exactly when x ≤ y, and is 1 exactly when x = y |
| `HelperFunctions.DiceInUnitInterval` | helper_functions.py:27 | whenever it is defined, the coefficient lies in [0, 1] |
| `HelperFunctions.DiceSymmetric` | helper_functions.py:21-27 | swapping the segmentation and the truth changes neither the coefficient nor its numerator nor its denominator |
| `HelperFunctions.EqualFromIntersection` | helper_functions.py:21 | two masks whose intersection is as large as each of them are equal |
| `HelperFunctions.DiceIsOneIffEqual` | helper_functions.py:27 | the coefficient is 1 exactly when the two masks are equal and non-empty |
| `HelperFunctions.SeparateHounsfieldRange` | helper_functions.py:85-89 | a fresh copy of the slice, with cells ≤ thresh_min or ≥ thresh_max set to 0 and the others kept; the input is not changed |
| `HelperFunctions.HounsfieldKeepsOnlyTheRange` | helper_functions.py:87-89 | a nonzero result cell lies strictly inside the range, and a cell strictly inside keeps its value |
| `HelperFunctions.HounsfieldIdempotent` | helper_functions.py:85-89 | windowing twice with the same range is windowing once |
| `HelperFunctions.GrayscaleCell` | helper_functions.py:100-101 | a cell below t becomes 255; a cell at or above t becomes 0, and then 255 again when t ≥ 0 |
| `HelperFunctions.CreateGrayscaleMask` | helper_functions.py:97-102 | a fresh copy in which the two masked assignments run in order, cell by cell as `GrayscaleCell` says |
| `HelperFunctions.GrayscaleMaskValues` | helper_functions.py:99-102 | every cell ends at 0 or 255; with t ≥ 0 every cell ends at 255; with t < 0 a cell ends at 0 exactly when it was ≥ t |
| `HelperFunctions.Plane` | helper_functions.py:71 | `volume[:, :, i]`: the cols × rows plane at depth i |
| `HelperFunctions.CreateSlices` | helper_functions.py:67-73 | shape[2] slices, slice i being volume[:, :, i] |
| `HelperFunctions.StackPlanes` | bronchial_tree.py:135 | `np.dstack` of equally shaped planes (also at bronchial_tree.py:35) builds a volume of the given shape, and undoes `create_slices` (see `SlicesRoundTrip`) |
| `HelperFunctions.SlicesRoundTrip` | helper_functions.py:67-73 | stacking the slices back gives the volume |
| `HelperFunctions.CreateBronchialSlices` | helper_functions.py:76-82 | shape[0] slices, slice i being volume[i, :, :] |
| `IndividualLesionVolume.CcwIsOrientation` | individual_lesion_volume.py:27-28 | ccw holds exactly when the cross product is positive; it is invariant under cyclic rotation and flips when the last two points swap; collinear points give false |
| `IndividualLesionVolume.StraddlesSymmetric` | individual_lesion_volume.py:44 | the straddle test is symmetric under swapping the two segments |
| `IndividualLesionVolume.QueryFrom` | individual_lesion_volume.py:38-46 | the query loop from j on returns true exactly when some later query segment crosses the reference segment |
| `IndividualLesionVolume.ReferenceFrom` | individual_lesion_volume.py:33-46 | the reference loop from k on returns true exactly when some pair of segments from k on crosses |
| `IndividualLesionVolume.ContoursIntersect` | individual_lesion_volume.py:24-46 | True exactly when a segment between consecutive points of one contour crosses such a segment of the other; otherwise None, never False |
| `IndividualLesionVolume.ContoursIntersectSymmetric` | individual_lesion_volume.py:33-46 | the answer does not depend on which contour is the reference |
| `IndividualLesionVolume.ShortContoursNeverIntersect` | individual_lesion_volume.py:33-38 | a contour of fewer than two points has no segment, so the result is None |
| `IndividualLesionVolume.Lookup` | individual_lesion_volume.py:77-79 | `dict(list).get(key)` finds the last entry with that key, and None when there is none |
| `IndividualLesionVolume.LookupFound` | individual_lesion_volume.py:77-80 | a value found for a key is stored in the list under that key, so the pair `list.remove` takes out is present |
| `IndividualLesionVolume.FirstIndex` | individual_lesion_volume.py:80 | the position `list.remove` acts on holds e, and no earlier position does |
| `IndividualLesionVolume.RemoveFirst` | individual_lesion_volume.py:80 | `list.remove` leaves one element fewer: the multiset minus one e, with the total area reduced by e's area |
| `IndividualLesionVolume.RemoveFirstSplice` | individual_lesion_volume.py:80 | `list.remove` takes out the first occurrence of e, and the elements before and after it keep their order |
| `IndividualLesionVolume.RemoveFirstAt` | individual_lesion_volume.py:80 | when e first occurs at position k, `list.remove` splices out exactly position k |
| `IndividualLesionVolume.RecordOverlapReplaces` | individual_lesion_volume.py:78-82 | a nonzero stored area for curr's centre: one stored entry is traded for an entry keyed by the next centre with the summed area, which comes last; the length stays |
| `IndividualLesionVolume.RecordOverlapKeepsOrder` | individual_lesion_volume.py:77-82 | a nonzero stored area for curr's centre: the stored pair is in the list; its first occurrence is taken out, the entries before and after it keep their order, and the entry keyed by the next centre with the summed area is appended |
| `IndividualLesionVolume.RecordOverlapAppends` | individual_lesion_volume.py:78-84 | no stored area for curr's centre, or a stored area of 0 (falsy in Python): an entry keyed by the next centre with curr's area is appended and nothing else changes |
| `IndividualLesionVolume.RecordOverlapTotal` | individual_lesion_volume.py:77-84 | in both branches the total area grows by curr's area, and every new entry is keyed by the next centre |
| `IndividualLesionVolume.MatchNext` | individual_lesion_volume.py:70-84 | against the contours of slice i+1, curr adds its area once per intersecting contour, and every new entry is keyed in slice i+1 |
| `IndividualLesionVolume.MatchSlice` | individual_lesion_volume.py:63-84 | the contours of slice i together add their overlap areas, and every new entry is keyed in slice i+1 |
| `IndividualLesionVolume.MatchSlices` | individual_lesion_volume.py:50-84 | after slices 1..hi-1 the total area is the sum of the pair areas, and every entry is keyed in a slice from 2 to hi |
| `IndividualLesionVolume.OverlappingContoursArea` | individual_lesion_volume.py:50-84 | slice 0 is never the current slice: all entries are keyed in slices 2..len-1, and their total area is the summed overlap area |
| `IndividualLesionVolume.VolumesOf` | individual_lesion_volume.py:87-92 | one volume per entry: (area·mm_x·mm_y + z·mm_z)/1000 |
| `IndividualLesionVolume.MatchNextStep` | individual_lesion_volume.py:70-84 | the loop over the next contours, extended by one contour, records curr once more exactly when that contour intersects it |
| `IndividualLesionVolume.MatchSliceStep` | individual_lesion_volume.py:64-84 | the loop over the current contours, extended by one contour, matches that contour against the next slice after the earlier ones |
| `IndividualLesionVolume.MatchSlicesStep` | individual_lesion_volume.py:50-84 | one turn of the slice loop matches slice i against slice i + 1, after the earlier slices |
| `IndividualLesionVolume.ScanNext` | individual_lesion_volume.py:70-84 | the inner loop over the next slice's contours builds the list that `MatchNext` specifies |
| `IndividualLesionVolume.ScanSlice` | individual_lesion_volume.py:63-84 | the loop over the current slice's contours builds the list that `MatchSlice` specifies |
| `IndividualLesionVolume.FindLesions` | individual_lesion_volume.py:48-93 | the lesion volumes are those of the entries, one each, sorted largest first |
| `IndividualLesionVolume.ComputeLesionVolumes` | individual_lesion_volume.py:86-93 | the volume loop and the descending sort: a non-increasing permutation of the entries' volumes |
| `Sorting.SortDescending` | individual_lesion_volume.py:93 | `sort(reverse=True)` gives a non-increasing permutation |
| `Sorting.SortAscending` | lung.py:99 | `sort()` gives a non-decreasing permutation |
| `Lesion.CalculateTotalLesionVolume` | lesion.py:81-85 | total_voxels is the nonzero count, and total_volume·1000 = total_voxels·mm_x·mm_y·mm_z |
| `Lesion.LesionVolumeNonNegative` | lesion.py:83-84 | with non-negative spacings the lesion volume is non-negative |
| `Lesion.SameCountSameVolume` | lesion.py:81-85 | two masks with the same nonzero count have the same totals |
| `Lesion.PadAmounts` | lesion.py:90-98 | left + right = diff and left = diff // 2; for diff ≥ 0, 0 ≤ left ≤ right ≤ left + 1; for diff < 0, left < 0 |
| `Lesion.PadCells` | lesion.py:99-100 | constant padding of one axis: l zeros, the cells, r zeros |
| `Lesion.PadGrid` | lesion.py:99-100 | constant padding of all three axes grows each axis by its two widths |
| `Lesion.PadGridCells` | lesion.py:99-100 | the padded grid holds the input at the offset of the left widths and zeros everywhere else |
| `Lesion.ResizeJellyBeanMask` | lesion.py:87-101 | ValueError exactly when the mask is larger than the lung mask on some axis; otherwise the result has the lung mask's shape, the input at offset (pad_x_left, pad_y_left, pad_z_left) and zeros elsewhere |
| `Lesion.CountOfPadGrid` | lesion.py:99-100 | padding with zeros keeps the nonzero count |
| `Lesion.ResizeKeepsVolume` | lesion.py:81-101 | the resized mask has the same voxel count and the same lesion volume as the input |
| `Lesion.CalculateChangeInDimensions` | lesion.py:103-106 | ZeroDivisionError exactly when the volume has no nonzero voxel; otherwise a ratio ≥ 0 with ratio·nonzero(volume) = nonzero(jelly) |
| `Lesion.ChangeInDimensionsAfterResize` | lesion.py:87-106 | resizing the jelly-bean mask first does not change the ratio |
| `Lung.CountStep` | lung.py:43-45 | one more mask adds its own nonzero count to the running `total_mask` |
| `Lung.ScaleStep` | lung.py:44-47 | one pass of the loop keeps `total_mask_vol` equal to `total_mask`·(voxel_x·voxel_y)·voxel_z |
| `Lung.Regroup` | lung.py:46-47 | (count·(voxel_x·voxel_y))·voxel_z is count·voxel_x·voxel_y·voxel_z, the product the lesion volume uses |
| `Lung.CalculateLungVolume` | lung.py:38-48 | the lung volume is the lesion volume of the stacked masks, count·voxel_x·voxel_y·voxel_z / 1000, and 0 for no masks |
| `Lung.LungVolumeOrderIndependent` | lung.py:43-48 | reordering the masks does not change the volume |
| `Lung.Areas` | lung.py:98 | one area per region, in order |
| `Lung.ClearRegion` | lung.py:103-104 | setting the label of each of a region's coordinates to 0 clears exactly those pixels and keeps every other label |
| `Lung.KeepLargestRegions` | lung.py:98-104 | with more than two regions, the label of every pixel of a region whose area is below `areas[-2]` becomes 0 and all other labels are kept; with two or fewer, nothing changes |
| `Lung.AtLeastTwoRegionsSurvive` | lung.py:99-104 | with more than two regions, at least two reach `areas[-2]` and are kept (more when areas tie) |
| `Lung.LastTwoReach` | lung.py:99-102 | when the last two sorted areas reach the threshold, at least two areas reach it |
| `Lung.MarkerValueDecodes` | lung.py:112-113 | a marker pixel is 0, 128, 255 or 383, and tells which of the two markers cover it |
| `Lung.CombineMarkers` | lung.py:111-113 | a fresh (px_width, px_height) array, each cell 255·internal + 128·external under numpy broadcasting; ValueError exactly when a marker does not broadcast onto that shape |
| `Driver.ContainsIffOccurs` | main.py:17 | `sub in s` holds exactly when sub occurs at some position of s |
| `Driver.SeparationMembership` | main.py:16-20 | a name is in the ground truth exactly when it is one of the names and contains "mask", and in the images exactly when it is one of the names and does not |
| `Driver.SeparateGroundTruth` | main.py:13-21 | the loop returns the pair (images, ground_truth), in that order, each filtered from the names in input order |
| `Driver.SeparationIsAPartition` | main.py:14-21 | together the two lists hold every name exactly as often as the input, and their lengths add up to the input's |
| `Driver.ImagesKeepOrder` | main.py:16-20 | splitting a concatenation splits each part in turn, so the images keep the relative input order |
| `Driver.MasksKeepOrder` | main.py:16-18 | the same for the ground truth |
| `Driver.NoMasksAllImages` | main.py:16-20 | names without "mask" all go to the images, in order, and the ground truth is empty |

## Left out

- File and format I/O: NIfTI loading, the spacing header, the CSV read, the pickle dump of the filtered volume, directory walking and prompts. Their results are parameters.
- Library filters, taken as inputs instead of being computed:
  - unsharp masking, Sato, Frangi, erosion, top-hat and resizing;
  - watershed, Sobel, dilation, border clearing, labelling and `regionprops`;
  - Otsu's threshold;
  - `findContours`, `moments`, `contourArea` and `drawContours`.
- Visualisation (`view_3D`, `make_mesh`, `plotly_3d`, `view_volume`) and the console output of `print`.
- The class constructors and the orchestration in `volume.py`, `demo.py` and `reader.py`. The unfinished feature code of `bronchial_tree.py` is left out as well.
- IEEE rounding: all arithmetic is exact on `real`. `FMIN` stands for `sys.float_info.min`, and NaN is `None`.
- Centroids are given as integers. The `1e-5` fudge and the truncating `int()` that produce them are not modelled.
- Contours are sequences of integer points. OpenCV's extra nesting (`cnt[k][0]`) is unwrapped.
- `Morphometry.CalculateRadiiPerGeneration`: its result lists each radius once, without modelling the order `list(set(...))` happens to produce.
- `Morphometry.GroupedRadii`: the groups come in the order in which their generations first occur, not in pandas' sorted key order. Only the set of groups reaches the result of `calculate_radii_per_generation`.
- `Morphometry.GenerationMean`: `statistics.fmean` is the exact mean.
- `HelperFunctions.CalculateDiceSimilarityCoefficient`: requires the two masks to have the same length. numpy's broadcasting of unequal shapes is not modelled, and the arrays are flattened to one axis.
- `HelperFunctions.CreateGrayscaleMask`: takes the threshold as a parameter instead of calling Otsu's method. The stray `self` parameter of the module-level function is dropped.
- `HelperFunctions.SeparateHounsfieldRange` and `HelperFunctions.CreateGrayscaleMask`: work on flattened arrays. The masked assignments act cell by cell, so the shape does not matter.
- `HelperFunctions.CreateSlices`: slices are copies. numpy returns views that alias the volume, and that aliasing is not modelled.
- `Lung.KeepLargestRegions`: requires every region coordinate to lie inside the label image, which `regionprops` guarantees. Python's negative-index wrap of coordinates is therefore not reached.
- `Lung.CombineMarkers`: `np.int` no longer exists in current numpy; the array is modelled as the integer array older numpy built.
- `IndividualLesionVolume.FindLesions`: the set built after the sort is discarded by the source and is not modelled. The method returns the sorted list, while the source prints it and returns None.
- `IndividualLesionVolume.RemoveFirst`: requires the entry to be present, which `RecordOverlap`'s lookup guarantees. Python's ValueError for a missing element is not reached.
- Region areas and contour areas are `real`.
