/**
 * The arithmetic of `Lesion` (lesion.py): the lesion volume from a voxel count,
 * the centred zero padding that brings a jelly bean mask to the shape of the
 * lung mask, and the ratio of two nonzero counts.
 */
module Lesion {
  import opened Wrappers
  import opened Volumes

  // ---------------------------------------------------------------------------
  // calculate_total_lesion_volume
  // ---------------------------------------------------------------------------

  /** The pair calculate_total_lesion_volume returns. */
  datatype LesionTotals = LesionTotals(totalVoxels: nat, totalVolume: real)

  /** calculate_total_lesion_volume: the nonzero voxels, and their volume in
      millilitres (voxel spacings in millimetres, divided by 1000). */
  function CalculateTotalLesionVolume(lesions: Grid, mmX: real, mmY: real, mmZ: real): (r: LesionTotals)
    ensures r.totalVoxels == CountNonzero3(lesions)
    ensures r.totalVolume * 1000.0 == r.totalVoxels as real * mmX * mmY * mmZ
  {
    var totalVoxels := CountNonzero3(lesions);
    var totalVolume := totalVoxels as real * mmX * mmY * mmZ;
    LesionTotals(totalVoxels, totalVolume / 1000.0)
  }

  /** With non-negative spacings the lesion volume is non-negative. */
  lemma LesionVolumeNonNegative(lesions: Grid, mmX: real, mmY: real, mmZ: real)
    requires mmX >= 0.0 && mmY >= 0.0 && mmZ >= 0.0
    ensures CalculateTotalLesionVolume(lesions, mmX, mmY, mmZ).totalVolume >= 0.0
  {
    var c := CountNonzero3(lesions) as real;
    assert c * mmX >= 0.0;
    assert c * mmX * mmY >= 0.0;
    assert c * mmX * mmY * mmZ >= 0.0;
  }

  // ---------------------------------------------------------------------------
  // resize_jelly_bean_mask
  // ---------------------------------------------------------------------------

  /** The (before, after) pad widths of one axis. */
  datatype PadWidth = PadWidth(left: int, right: int)

  /** The widths resize_jelly_bean_mask computes from the difference of two
      sizes: `difference // 2` before (Python's floor division, which Dafny's
      `/` agrees with for a positive divisor) and the rest after. A
      nonnegative difference is split as evenly as possible, with the odd
      zero after; a negative one gives a negative width. */
  function PadAmounts(difference: int): (p: PadWidth)
    ensures p.left + p.right == difference
    ensures 2 * p.left <= difference < 2 * p.left + 2
    ensures difference >= 0 ==> 0 <= p.left <= p.right <= p.left + 1
    ensures difference < 0 ==> p.left < 0
  {
    var left := difference / 2;
    PadWidth(left, difference - left)
  }

  function Zeros(n: nat): (z: seq<real>)
    ensures |z| == n && forall k :: 0 <= k < n ==> z[k] == 0.0
  {
    seq(n, _ => 0.0)
  }

  /** One axis of cells with l zeros before and r zeros after. */
  function PadCells(xs: seq<real>, l: nat, r: nat): (ys: seq<real>)
    ensures |ys| == l + |xs| + r
    ensures forall k :: 0 <= k < |ys| ==> ys[k] == if l <= k < l + |xs| then xs[k - l] else 0.0
  {
    Zeros(l) + xs + Zeros(r)
  }

  function ZeroRows(n: nat, planes: nat): (rows: seq<seq<real>>)
    ensures |rows| == n && forall k :: 0 <= k < n ==> rows[k] == Zeros(planes)
  {
    seq(n, _ => Zeros(planes))
  }

  /** A 2-D array padded with ly rows before, ry rows after, and every row
      padded with lz zeros before and rz after. */
  function PadRows(rows: seq<seq<real>>, planes: nat, ly: nat, ry: nat, lz: nat, rz: nat): (h: seq<seq<real>>)
    requires forall y :: 0 <= y < |rows| ==> |rows[y]| == planes
    ensures |h| == ly + |rows| + ry
    ensures forall y :: 0 <= y < |h| ==> |h[y]| == lz + planes + rz
    ensures forall y, z :: 0 <= y < |h| && 0 <= z < lz + planes + rz ==>
              h[y][z] == if ly <= y < ly + |rows| && lz <= z < lz + planes then rows[y - ly][z - lz] else 0.0
  {
    var width := lz + planes + rz;
    var middle := seq(|rows|, y requires 0 <= y < |rows| => PadCells(rows[y], lz, rz));
    var h := ZeroRows(ly, width) + middle + ZeroRows(ry, width);
    assert forall y :: ly <= y < ly + |rows| ==> h[y] == middle[y - ly];
    h
  }

  function ZeroPlanes(n: nat, rows: nat, planes: nat): (g: Grid)
    ensures |g| == n && forall k :: 0 <= k < n ==> g[k] == ZeroRows(rows, planes)
  {
    seq(n, _ => ZeroRows(rows, planes))
  }

  /** `np.pad(g, ((lx, rx), (ly, ry), (lz, rz)), 'constant')` with nonnegative
      widths: each axis grows by its two widths. */
  function PadGrid(g: Grid, s: Shape, lx: nat, rx: nat, ly: nat, ry: nat, lz: nat, rz: nat): (h: Grid)
    requires Shaped(g, s)
    ensures Shaped(h, Shape(lx + s.cols + rx, ly + s.rows + ry, lz + s.planes + rz))
  {
    var rows := ly + s.rows + ry;
    var width := lz + s.planes + rz;
    var middle := seq(s.cols, x requires 0 <= x < s.cols => PadRows(g[x], s.planes, ly, ry, lz, rz));
    ZeroPlanes(lx, rows, width) + middle + ZeroPlanes(rx, rows, width)
  }

  /** Constant padding puts g at offset (lx, ly, lz) and 0 in every other cell. */
  lemma PadGridCells(g: Grid, s: Shape, lx: nat, rx: nat, ly: nat, ry: nat, lz: nat, rz: nat)
    requires Shaped(g, s)
    ensures forall x, y, z :: 0 <= x < lx + s.cols + rx && 0 <= y < ly + s.rows + ry && 0 <= z < lz + s.planes + rz ==>
              PadGrid(g, s, lx, rx, ly, ry, lz, rz)[x][y][z]
              == if lx <= x < lx + s.cols && ly <= y < ly + s.rows && lz <= z < lz + s.planes
                 then g[x - lx][y - ly][z - lz] else 0.0
  {
    var h := PadGrid(g, s, lx, rx, ly, ry, lz, rz);
    var rows := ly + s.rows + ry;
    var width := lz + s.planes + rz;
    var middle := seq(s.cols, x requires 0 <= x < s.cols => PadRows(g[x], s.planes, ly, ry, lz, rz));
    assert h == ZeroPlanes(lx, rows, width) + middle + ZeroPlanes(rx, rows, width);
    forall x, y, z | 0 <= x < lx + s.cols + rx && 0 <= y < rows && 0 <= z < width
      ensures h[x][y][z] == if lx <= x < lx + s.cols && ly <= y < ly + s.rows && lz <= z < lz + s.planes
                            then g[x - lx][y - ly][z - lz] else 0.0
    {
      if x < lx {
        assert h[x] == ZeroRows(rows, width);
      } else if x < lx + s.cols {
        assert h[x] == middle[x - lx];
      } else {
        assert h[x] == ZeroRows(rows, width);
      }
    }
  }

  /** resize_jelly_bean_mask, with the shape of the lung mask given. Each axis
      is padded by PadAmounts of the difference of the two sizes; np.pad
      raises ValueError when a width is negative, which happens exactly when
      the jelly bean mask is larger than the lung mask on some axis. Otherwise
      the result has the lung mask's shape, holds the jelly bean mask at the
      offset of the three left widths, and 0 everywhere else. */
  function ResizeJellyBeanMask(jellyBeanMask: Grid, s: Shape, lungShape: Shape): (r: Result<Grid>)
    requires Shaped(jellyBeanMask, s)
    ensures r.Err? <==> lungShape.cols < s.cols || lungShape.rows < s.rows || lungShape.planes < s.planes
    ensures r.Err? ==> r.error == ValueError
    ensures r.Ok? ==>
              var lx := PadAmounts(lungShape.cols - s.cols).left;
              var ly := PadAmounts(lungShape.rows - s.rows).left;
              var lz := PadAmounts(lungShape.planes - s.planes).left;
              && Shaped(r.value, lungShape)
              && forall x, y, z :: 0 <= x < lungShape.cols && 0 <= y < lungShape.rows && 0 <= z < lungShape.planes ==>
                   r.value[x][y][z] == if lx <= x < lx + s.cols && ly <= y < ly + s.rows && lz <= z < lz + s.planes
                                       then jellyBeanMask[x - lx][y - ly][z - lz] else 0.0
  {
    var px := PadAmounts(lungShape.cols - s.cols);
    var py := PadAmounts(lungShape.rows - s.rows);
    var pz := PadAmounts(lungShape.planes - s.planes);
    if px.left < 0 || px.right < 0 || py.left < 0 || py.right < 0 || pz.left < 0 || pz.right < 0 then
      Err(ValueError)
    else
      var h := PadGrid(jellyBeanMask, s, px.left, px.right, py.left, py.right, pz.left, pz.right);
      assert Shape(px.left + s.cols + px.right, py.left + s.rows + py.right, pz.left + s.planes + pz.right) == lungShape;
      PadGridCells(jellyBeanMask, s, px.left, px.right, py.left, py.right, pz.left, pz.right);
      Ok(h)
  }

  lemma CountOfZeros(n: nat)
    ensures CountNonzero1(Zeros(n)) == 0
  {
    SumByZero(Zeros(n), NonzeroCell);
  }

  lemma CountOfZeroRows(n: nat, planes: nat)
    ensures CountNonzero2(ZeroRows(n, planes)) == 0
  {
    CountOfZeros(planes);
    SumByZero(ZeroRows(n, planes), CountNonzero1);
  }

  lemma CountOfPadCells(xs: seq<real>, l: nat, r: nat)
    ensures CountNonzero1(PadCells(xs, l, r)) == CountNonzero1(xs)
  {
    assert PadCells(xs, l, r) == Zeros(l) + xs + Zeros(r);
    SumByAppend(Zeros(l) + xs, Zeros(r), NonzeroCell);
    SumByAppend(Zeros(l), xs, NonzeroCell);
    CountOfZeros(l);
    CountOfZeros(r);
  }

  lemma CountOfPadRows(rows: seq<seq<real>>, planes: nat, ly: nat, ry: nat, lz: nat, rz: nat)
    requires forall y :: 0 <= y < |rows| ==> |rows[y]| == planes
    ensures CountNonzero2(PadRows(rows, planes, ly, ry, lz, rz)) == CountNonzero2(rows)
  {
    var width := lz + planes + rz;
    var middle := seq(|rows|, y requires 0 <= y < |rows| => PadCells(rows[y], lz, rz));
    assert PadRows(rows, planes, ly, ry, lz, rz) == ZeroRows(ly, width) + middle + ZeroRows(ry, width);
    SumByAppend(ZeroRows(ly, width) + middle, ZeroRows(ry, width), CountNonzero1);
    SumByAppend(ZeroRows(ly, width), middle, CountNonzero1);
    CountOfZeroRows(ly, width);
    CountOfZeroRows(ry, width);
    forall y | 0 <= y < |rows|
      ensures CountNonzero1(middle[y]) == CountNonzero1(rows[y])
    {
      CountOfPadCells(rows[y], lz, rz);
    }
    SumByPointwise(middle, CountNonzero1, rows, CountNonzero1);
  }

  /** Padding with zeros adds no nonzero voxel and loses none. */
  lemma CountOfPadGrid(g: Grid, s: Shape, lx: nat, rx: nat, ly: nat, ry: nat, lz: nat, rz: nat)
    requires Shaped(g, s)
    ensures CountNonzero3(PadGrid(g, s, lx, rx, ly, ry, lz, rz)) == CountNonzero3(g)
  {
    var rows := ly + s.rows + ry;
    var width := lz + s.planes + rz;
    var middle := seq(s.cols, x requires 0 <= x < s.cols => PadRows(g[x], s.planes, ly, ry, lz, rz));
    var zerosBefore := ZeroPlanes(lx, rows, width);
    var zerosAfter := ZeroPlanes(rx, rows, width);
    assert PadGrid(g, s, lx, rx, ly, ry, lz, rz) == zerosBefore + middle + zerosAfter;
    SumByAppend(zerosBefore + middle, zerosAfter, CountNonzero2);
    SumByAppend(zerosBefore, middle, CountNonzero2);
    CountOfZeroRows(rows, width);
    SumByZero(zerosBefore, CountNonzero2);
    SumByZero(zerosAfter, CountNonzero2);
    forall x | 0 <= x < s.cols
      ensures CountNonzero2(middle[x]) == CountNonzero2(g[x])
    {
      CountOfPadRows(g[x], s.planes, ly, ry, lz, rz);
    }
    SumByPointwise(middle, CountNonzero2, g, CountNonzero2);
  }

  /** Resizing keeps every nonzero voxel of the jelly bean mask, so its lesion
      volume is unchanged. */
  lemma ResizeKeepsVolume(jellyBeanMask: Grid, s: Shape, lungShape: Shape, mmX: real, mmY: real, mmZ: real)
    requires Shaped(jellyBeanMask, s)
    requires ResizeJellyBeanMask(jellyBeanMask, s, lungShape).Ok?
    ensures CountNonzero3(ResizeJellyBeanMask(jellyBeanMask, s, lungShape).value) == CountNonzero3(jellyBeanMask)
    ensures CalculateTotalLesionVolume(ResizeJellyBeanMask(jellyBeanMask, s, lungShape).value, mmX, mmY, mmZ)
            == CalculateTotalLesionVolume(jellyBeanMask, mmX, mmY, mmZ)
  {
    var px := PadAmounts(lungShape.cols - s.cols);
    var py := PadAmounts(lungShape.rows - s.rows);
    var pz := PadAmounts(lungShape.planes - s.planes);
    var h := PadGrid(jellyBeanMask, s, px.left, px.right, py.left, py.right, pz.left, pz.right);
    assert ResizeJellyBeanMask(jellyBeanMask, s, lungShape) == Ok(h);
    CountOfPadGrid(jellyBeanMask, s, px.left, px.right, py.left, py.right, pz.left, pz.right);
    SameCountSameVolume(h, jellyBeanMask, mmX, mmY, mmZ);
  }

  /** The lesion totals depend on the mask only through its nonzero count. */
  lemma SameCountSameVolume(g: Grid, h: Grid, mmX: real, mmY: real, mmZ: real)
    requires CountNonzero3(g) == CountNonzero3(h)
    ensures CalculateTotalLesionVolume(g, mmX, mmY, mmZ) == CalculateTotalLesionVolume(h, mmX, mmY, mmZ)
  {
  }

  // ---------------------------------------------------------------------------
  // calculate_change_in_dimensions
  // ---------------------------------------------------------------------------

  /** calculate_change_in_dimensions: the ratio of the nonzero counts of the
      jelly bean mask and of the volume; np.count_nonzero returns Python ints,
      so an all-zero volume raises ZeroDivisionError. */
  function CalculateChangeInDimensions(jellyBeanMask: Grid, volume: Grid): (r: Result<real>)
    ensures r.Err? <==> CountNonzero3(volume) == 0
    ensures r.Err? ==> r.error == ZeroDivisionError
    ensures r.Ok? ==> r.value >= 0.0 && r.value * CountNonzero3(volume) as real == CountNonzero3(jellyBeanMask) as real
  {
    var jellyBeanSize := CountNonzero3(jellyBeanMask);
    var volumeSize := CountNonzero3(volume);
    if volumeSize == 0 then Err(ZeroDivisionError)
    else Ok(jellyBeanSize as real / volumeSize as real)
  }

  /** Resizing the jelly bean mask does not change the ratio. */
  lemma ChangeInDimensionsAfterResize(jellyBeanMask: Grid, s: Shape, lungShape: Shape, volume: Grid)
    requires Shaped(jellyBeanMask, s)
    requires ResizeJellyBeanMask(jellyBeanMask, s, lungShape).Ok?
    ensures CalculateChangeInDimensions(ResizeJellyBeanMask(jellyBeanMask, s, lungShape).value, volume)
            == CalculateChangeInDimensions(jellyBeanMask, volume)
  {
    ResizeKeepsVolume(jellyBeanMask, s, lungShape, 1.0, 1.0, 1.0);
  }
}
