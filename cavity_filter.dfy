/**
 * The multiscale cavity enhancement filter of `BronchialTree` (bronchial_tree.py):
 * the bounds test, the P and L terms, the running maximum of L - P per offset
 * vector, the sum over the 27 offsets, and the in-place raster scan that
 * overwrites the Hessian volume voxel by voxel.
 *
 * Voxel values are exact reals. numpy indexing is modelled exactly: a negative
 * index i on an axis of length n reads element n + i, and an index outside
 * [-n, n) raises IndexError.
 */
module CavityFilter {
  import opened Wrappers
  import opened Volumes

  /** Python's `sys.float_info.min`: the starting value of every running maximum
      and the value calculate_L returns when a point fails the bounds test. */
  const FMIN: real := 2.2250738585072014e-308

  /** A voxel coordinate or an offset vector. */
  datatype Point = Point(x: int, y: int, z: int)

  /** Every coordinate of p lies in [0, n) on its axis. */
  predicate Inside(s: Shape, p: Point) {
    0 <= p.x < s.cols && 0 <= p.y < s.rows && 0 <= p.z < s.planes
  }

  /** v - r·d, the first point of calculate_P and calculate_L. */
  function Behind(v: Point, d: Point, r: int): Point {
    Point(v.x - d.x * r, v.y - d.y * r, v.z - d.z * r)
  }

  /** v + r·d, the second point of calculate_P and the third of calculate_L. */
  function Ahead(v: Point, d: Point, r: int): Point {
    Point(v.x + d.x * r, v.y + d.y * r, v.z + d.z * r)
  }

  function Abs(x: real): (r: real)
    ensures r >= 0.0 && (r == x || r == -x)
  {
    if x < 0.0 then -x else x
  }

  // ---------------------------------------------------------------------------
  // Reading a voxel: is_in_bounds and numpy indexing
  // ---------------------------------------------------------------------------

  /** is_in_bounds: only the upper bound of each axis is tested. */
  predicate IsInBounds(s: Shape, p: Point) {
    p.x < s.cols && p.y < s.rows && p.z < s.planes
  }

  /** An integer index numpy accepts on an axis of length n. */
  predicate ValidIndex(i: int, n: nat) {
    -(n as int) <= i < n
  }

  predicate ValidPoint(s: Shape, p: Point) {
    ValidIndex(p.x, s.cols) && ValidIndex(p.y, s.rows) && ValidIndex(p.z, s.planes)
  }

  /** The element numpy selects for index i on an axis of length n. */
  function Wrap(i: int, n: nat): (k: nat)
    requires ValidIndex(i, n)
    ensures k < n
    ensures k == if i < 0 then n + i else i
  {
    if i < 0 then n + i else i
  }

  /** `volume[p.x, p.y, p.z]`. */
  function Read(g: Grid, s: Shape, p: Point): (r: Result<real>)
    requires Shaped(g, s)
    ensures r.Ok? <==> ValidPoint(s, p)
    ensures r.Err? ==> r.error == IndexError
  {
    if ValidPoint(s, p) then Ok(g[Wrap(p.x, s.cols)][Wrap(p.y, s.rows)][Wrap(p.z, s.planes)])
    else Err(IndexError)
  }

  /** The bounds test accepts every negative coordinate, and the read that follows
      it wraps around to the far end of the axis. */
  lemma NegativeCoordinatesWrap(g: Grid, s: Shape, p: Point)
    requires Shaped(g, s)
    requires -(s.cols as int) <= p.x < 0 && -(s.rows as int) <= p.y < 0 && -(s.planes as int) <= p.z < 0
    ensures IsInBounds(s, p) && !Inside(s, p)
    ensures Read(g, s, p) == Ok(g[s.cols + p.x][s.rows + p.y][s.planes + p.z])
  {
  }

  // ---------------------------------------------------------------------------
  // calculate_P and calculate_L
  // ---------------------------------------------------------------------------

  /** calculate_P: |I(v - r1·d) - I(v + r2·d)|, or -1 when either point fails the
      bounds test. */
  function CalculateP(g: Grid, s: Shape, v: Point, d: Point, r1: int, r2: int): (p: Result<real>)
    requires Shaped(g, s)
    ensures !(IsInBounds(s, Behind(v, d, r1)) && IsInBounds(s, Ahead(v, d, r2))) ==> p == Ok(-1.0)
    ensures p.Err? <==>
              && IsInBounds(s, Behind(v, d, r1)) && IsInBounds(s, Ahead(v, d, r2))
              && !(ValidPoint(s, Behind(v, d, r1)) && ValidPoint(s, Ahead(v, d, r2)))
    ensures p.Ok? && IsInBounds(s, Behind(v, d, r1)) && IsInBounds(s, Ahead(v, d, r2)) ==>
              && p.value >= 0.0
              && (p.value == Read(g, s, Behind(v, d, r1)).value - Read(g, s, Ahead(v, d, r2)).value ||
                  p.value == Read(g, s, Ahead(v, d, r2)).value - Read(g, s, Behind(v, d, r1)).value)
  {
    var first := Behind(v, d, r1);
    var second := Ahead(v, d, r2);
    if IsInBounds(s, first) && IsInBounds(s, second) then
      var a := Read(g, s, first);
      var b := Read(g, s, second);
      if a.Ok? && b.Ok? then Ok(Abs(a.value - b.value)) else Err(IndexError)
    else
      Ok(-1.0)
  }

  /** calculate_L: I(v - r1·d) - 2·I(v) + I(v + r2·d), or FMIN when any of the three
      points fails the bounds test. */
  function CalculateL(g: Grid, s: Shape, v: Point, d: Point, r1: int, r2: int): (l: Result<real>)
    requires Shaped(g, s)
    ensures !(IsInBounds(s, Behind(v, d, r1)) && IsInBounds(s, v) && IsInBounds(s, Ahead(v, d, r2))) ==>
              l == Ok(FMIN)
    ensures l.Err? <==>
              && IsInBounds(s, Behind(v, d, r1)) && IsInBounds(s, v) && IsInBounds(s, Ahead(v, d, r2))
              && !(ValidPoint(s, Behind(v, d, r1)) && ValidPoint(s, v) && ValidPoint(s, Ahead(v, d, r2)))
  {
    var first := Behind(v, d, r1);
    var third := Ahead(v, d, r2);
    if IsInBounds(s, first) && IsInBounds(s, v) && IsInBounds(s, third) then
      var a := Read(g, s, first);
      var b := Read(g, s, v);
      var c := Read(g, s, third);
      if a.Ok? && b.Ok? && c.Ok? then Ok(a.value - 2.0 * b.value + c.value) else Err(IndexError)
    else
      Ok(FMIN)
  }

  /** When all three points can be read, L is the second difference
      I(v - r1·d) - 2·I(v) + I(v + r2·d) (not I(v - r1·d) - 2·(I(v) + I(v + r2·d))). */
  lemma LIsSecondDifference(g: Grid, s: Shape, v: Point, d: Point, r1: int, r2: int)
    requires Shaped(g, s)
    requires IsInBounds(s, Behind(v, d, r1)) && IsInBounds(s, v) && IsInBounds(s, Ahead(v, d, r2))
    requires ValidPoint(s, Behind(v, d, r1)) && ValidPoint(s, v) && ValidPoint(s, Ahead(v, d, r2))
    ensures CalculateL(g, s, v, d, r1, r2) ==
            Ok(Read(g, s, Behind(v, d, r1)).value - 2.0 * Read(g, s, v).value + Read(g, s, Ahead(v, d, r2)).value)
  {
  }

  /** Along the zero offset all three points are v itself: L = 0 and P = 0. */
  lemma ZeroOffsetTerms(g: Grid, s: Shape, v: Point, r1: int, r2: int)
    requires Shaped(g, s) && Inside(s, v)
    ensures CalculateL(g, s, v, Point(0, 0, 0), r1, r2) == Ok(0.0)
    ensures CalculateP(g, s, v, Point(0, 0, 0), r1, r2) == Ok(0.0)
  {
    assert Behind(v, Point(0, 0, 0), r1) == v;
    assert Ahead(v, Point(0, 0, 0), r2) == v;
  }

  // ---------------------------------------------------------------------------
  // The running maximum over ordered radius pairs
  // ---------------------------------------------------------------------------

  /** The guard of the update: `p_term >= 0.0 and l_term > sys.float_info.min`. */
  predicate Qualifies(l: real, p: real) {
    p >= 0.0 && l > FMIN
  }

  /** calculate_L or calculate_P raises for this radius pair. */
  predicate PairFails(g: Grid, s: Shape, v: Point, d: Point, r1: int, r2: int)
    requires Shaped(g, s)
  {
    CalculateL(g, s, v, d, r1, r2).Err? || CalculateP(g, s, v, d, r1, r2).Err?
  }

  /** The pair can be evaluated and passes the guard of the update. */
  predicate Qualifying(g: Grid, s: Shape, v: Point, d: Point, r1: int, r2: int)
    requires Shaped(g, s)
  {
    var l := CalculateL(g, s, v, d, r1, r2);
    var p := CalculateP(g, s, v, d, r1, r2);
    l.Ok? && p.Ok? && Qualifies(l.value, p.value)
  }

  /** L - P of a pair that can be evaluated. */
  function Difference(g: Grid, s: Shape, v: Point, d: Point, r1: int, r2: int): real
    requires Shaped(g, s) && !PairFails(g, s, v, d, r1, r2)
  {
    CalculateL(g, s, v, d, r1, r2).value - CalculateP(g, s, v, d, r1, r2).value
  }

  /** One iteration of the loop over r_2: the running maximum after it, or the
      IndexError raised by calculate_L or calculate_P. */
  function PairStep(g: Grid, s: Shape, v: Point, d: Point, r1: int, r2: int, best: real): Result<real>
    requires Shaped(g, s)
  {
    if PairFails(g, s, v, d, r1, r2) then Err(IndexError)
    else if Qualifying(g, s, v, d, r1, r2) && Difference(g, s, v, d, r1, r2) > best then
      Ok(Difference(g, s, v, d, r1, r2))
    else Ok(best)
  }

  /** The loop over r_2 ∈ radii[b..] for a fixed r_1, from running maximum `best`. */
  function InnerFrom(g: Grid, s: Shape, v: Point, d: Point, r1: int, radii: seq<int>, b: nat, best: real): Result<real>
    requires Shaped(g, s) && b <= |radii|
    decreases |radii| - b
  {
    if b == |radii| then Ok(best)
    else
      match PairStep(g, s, v, d, r1, radii[b], best)
      case Err(e) => Err(e)
      case Ok(next) => InnerFrom(g, s, v, d, r1, radii, b + 1, next)
  }

  /** The loop over r_1 ∈ radii[a..], each followed by the loop over all r_2. */
  function OuterFrom(g: Grid, s: Shape, v: Point, d: Point, radii: seq<int>, a: nat, best: real): Result<real>
    requires Shaped(g, s) && a <= |radii|
    decreases |radii| - a
  {
    if a == |radii| then Ok(best)
    else
      match InnerFrom(g, s, v, d, radii[a], radii, 0, best)
      case Err(e) => Err(e)
      case Ok(next) => OuterFrom(g, s, v, d, radii, a + 1, next)
  }

  /** `max_difference_p_l` for offset d after both radius loops. */
  function DirectionMax(g: Grid, s: Shape, v: Point, d: Point, radii: seq<int>): Result<real>
    requires Shaped(g, s)
  {
    OuterFrom(g, s, v, d, radii, 0, FMIN)
  }

  /** m is the largest of `lo` and the differences of the qualifying pairs in rs1 × rs2. */
  ghost predicate IsMaxFrom(g: Grid, s: Shape, v: Point, d: Point, rs1: seq<int>, rs2: seq<int>, lo: real, m: real)
    requires Shaped(g, s)
  {
    && m >= lo
    && (forall r1, r2 | r1 in rs1 && r2 in rs2 && Qualifying(g, s, v, d, r1, r2) ::
          m >= Difference(g, s, v, d, r1, r2))
    && (m == lo || exists r1, r2 | r1 in rs1 && r2 in rs2 && Qualifying(g, s, v, d, r1, r2) ::
          m == Difference(g, s, v, d, r1, r2))
  }

  lemma {:induction false} InnerFromIsMax(g: Grid, s: Shape, v: Point, d: Point, r1: int, radii: seq<int>, b: nat, best: real)
    requires Shaped(g, s) && b <= |radii|
    requires InnerFrom(g, s, v, d, r1, radii, b, best).Ok?
    ensures IsMaxFrom(g, s, v, d, [r1], radii[b..], best, InnerFrom(g, s, v, d, r1, radii, b, best).value)
    decreases |radii| - b
  {
    if b < |radii| {
      var r2 := radii[b];
      var next := PairStep(g, s, v, d, r1, r2, best).value;
      InnerFromIsMax(g, s, v, d, r1, radii, b + 1, next);
      assert radii[b..] == [r2] + radii[b + 1..];
      assert next >= best;
      assert Qualifying(g, s, v, d, r1, r2) ==> next >= Difference(g, s, v, d, r1, r2);
      assert next == best || (Qualifying(g, s, v, d, r1, r2) && next == Difference(g, s, v, d, r1, r2));
    }
  }

  /** The maximum over rs1[0] followed by the maximum over the rest of rs1,
      started from the first, is the maximum over rs1. */
  lemma IsMaxFromCombine(g: Grid, s: Shape, v: Point, d: Point, rs1: seq<int>, rs2: seq<int>, lo: real, mid: real, m: real)
    requires Shaped(g, s) && |rs1| > 0
    requires IsMaxFrom(g, s, v, d, [rs1[0]], rs2, lo, mid)
    requires IsMaxFrom(g, s, v, d, rs1[1..], rs2, mid, m)
    ensures IsMaxFrom(g, s, v, d, rs1, rs2, lo, m)
  {
    assert rs1 == [rs1[0]] + rs1[1..];
    forall x, y | x in rs1 && y in rs2 && Qualifying(g, s, v, d, x, y)
      ensures m >= Difference(g, s, v, d, x, y)
    {
      if x !in rs1[1..] {
        assert x in [rs1[0]];
      }
    }
    if m != lo {
      if m == mid {
        var x, y :| x in [rs1[0]] && y in rs2 && Qualifying(g, s, v, d, x, y) && mid == Difference(g, s, v, d, x, y);
        assert x in rs1;
      } else {
        var x, y :| x in rs1[1..] && y in rs2 && Qualifying(g, s, v, d, x, y) && m == Difference(g, s, v, d, x, y);
        assert x in rs1;
      }
    }
  }

  /** One turn of the loop over r_1 is the maximum over that r_1 and all r_2. */
  lemma InnerIsMax(g: Grid, s: Shape, v: Point, d: Point, r1: int, radii: seq<int>, best: real)
    requires Shaped(g, s)
    requires InnerFrom(g, s, v, d, r1, radii, 0, best).Ok?
    ensures IsMaxFrom(g, s, v, d, [r1], radii, best, InnerFrom(g, s, v, d, r1, radii, 0, best).value)
  {
    InnerFromIsMax(g, s, v, d, r1, radii, 0, best);
    assert radii[0..] == radii;
  }

  /** One turn of the loop over r_1. */
  lemma OuterFromStep(g: Grid, s: Shape, v: Point, d: Point, radii: seq<int>, a: nat, best: real)
    requires Shaped(g, s) && a < |radii|
    requires OuterFrom(g, s, v, d, radii, a, best).Ok?
    ensures InnerFrom(g, s, v, d, radii[a], radii, 0, best).Ok?
    ensures OuterFrom(g, s, v, d, radii, a, best)
            == OuterFrom(g, s, v, d, radii, a + 1, InnerFrom(g, s, v, d, radii[a], radii, 0, best).value)
  {
  }

  lemma {:induction false} OuterFromIsMax(g: Grid, s: Shape, v: Point, d: Point, radii: seq<int>, a: nat, best: real)
    requires Shaped(g, s) && a <= |radii|
    requires OuterFrom(g, s, v, d, radii, a, best).Ok?
    ensures IsMaxFrom(g, s, v, d, radii[a..], radii, best, OuterFrom(g, s, v, d, radii, a, best).value)
    decreases |radii| - a
  {
    if a < |radii| {
      OuterFromStep(g, s, v, d, radii, a, best);
      var next := InnerFrom(g, s, v, d, radii[a], radii, 0, best).value;
      var m := OuterFrom(g, s, v, d, radii, a + 1, next).value;
      InnerIsMax(g, s, v, d, radii[a], radii, best);
      OuterFromIsMax(g, s, v, d, radii, a + 1, next);
      assert radii[a..][0] == radii[a] && radii[a..][1..] == radii[a + 1..];
      IsMaxFromCombine(g, s, v, d, radii[a..], radii, best, next, m);
    }
  }

  /** The per-offset maximum is max(FMIN, max of L - P over the qualifying ordered
      pairs of radii), so it is never below FMIN. */
  lemma DirectionMaxIsMaximum(g: Grid, s: Shape, v: Point, d: Point, radii: seq<int>)
    requires Shaped(g, s)
    requires DirectionMax(g, s, v, d, radii).Ok?
    ensures IsMaxFrom(g, s, v, d, radii, radii, FMIN, DirectionMax(g, s, v, d, radii).value)
  {
    OuterFromIsMax(g, s, v, d, radii, 0, FMIN);
    assert radii[0..] == radii;
  }

  lemma {:induction false} InnerFromFails(g: Grid, s: Shape, v: Point, d: Point, r1: int, radii: seq<int>, b: nat, best: real)
    requires Shaped(g, s) && b <= |radii|
    ensures InnerFrom(g, s, v, d, r1, radii, b, best).Err? <==>
            exists k :: b <= k < |radii| && PairFails(g, s, v, d, r1, radii[k])
    decreases |radii| - b
  {
    if b < |radii| {
      if !PairFails(g, s, v, d, r1, radii[b]) {
        var next := PairStep(g, s, v, d, r1, radii[b], best).value;
        InnerFromFails(g, s, v, d, r1, radii, b + 1, next);
      }
    }
  }

  lemma {:induction false} OuterFromFails(g: Grid, s: Shape, v: Point, d: Point, radii: seq<int>, a: nat, best: real)
    requires Shaped(g, s) && a <= |radii|
    ensures OuterFrom(g, s, v, d, radii, a, best).Err? <==>
            exists k, m :: a <= k < |radii| && 0 <= m < |radii| && PairFails(g, s, v, d, radii[k], radii[m])
    decreases |radii| - a
  {
    if a < |radii| {
      InnerFromFails(g, s, v, d, radii[a], radii, 0, best);
      if InnerFrom(g, s, v, d, radii[a], radii, 0, best).Ok? {
        var next := InnerFrom(g, s, v, d, radii[a], radii, 0, best).value;
        OuterFromFails(g, s, v, d, radii, a + 1, next);
      }
    }
  }

  /** The radius loops raise exactly when some ordered pair of radii makes
      calculate_L or calculate_P raise. */
  lemma DirectionMaxFails(g: Grid, s: Shape, v: Point, d: Point, radii: seq<int>)
    requires Shaped(g, s)
    ensures DirectionMax(g, s, v, d, radii).Err? <==>
            exists r1, r2 :: r1 in radii && r2 in radii && PairFails(g, s, v, d, r1, r2)
  {
    OuterFromFails(g, s, v, d, radii, 0, FMIN);
    if exists r1, r2 :: r1 in radii && r2 in radii && PairFails(g, s, v, d, r1, r2) {
      var r1, r2 :| r1 in radii && r2 in radii && PairFails(g, s, v, d, r1, r2);
      var k :| 0 <= k < |radii| && radii[k] == r1;
      var m :| 0 <= m < |radii| && radii[m] == r2;
      assert PairFails(g, s, v, d, radii[k], radii[m]);
    }
  }

  /** The zero offset never passes the guard (L = 0 is not above FMIN), so its
      maximum is exactly FMIN, whatever the radii. */
  lemma ZeroDirectionGivesFMIN(g: Grid, s: Shape, v: Point, radii: seq<int>)
    requires Shaped(g, s) && Inside(s, v)
    ensures DirectionMax(g, s, v, Point(0, 0, 0), radii) == Ok(FMIN)
  {
    var d := Point(0, 0, 0);
    forall r1, r2 ensures !PairFails(g, s, v, d, r1, r2) && !Qualifying(g, s, v, d, r1, r2) {
      ZeroOffsetTerms(g, s, v, r1, r2);
    }
    DirectionMaxFails(g, s, v, d, radii);
    DirectionMaxIsMaximum(g, s, v, d, radii);
  }

  // ---------------------------------------------------------------------------
  // The 27 offsets and the sum of their maxima
  // ---------------------------------------------------------------------------

  /** The n-th offset visited by the loops `for i in [-1, 0, 1]: for j ...: for k ...`. */
  function DirectionAt(n: int): Point
    requires 0 <= n < 27
  {
    Point(n / 9 - 1, n / 3 % 3 - 1, n % 3 - 1)
  }

  /** All offsets in loop order; the zero vector is among them. */
  function Directions(): seq<Point> {
    seq(27, n requires 0 <= n < 27 => DirectionAt(n))
  }

  lemma DirectionIndex(i: int, j: int, k: int, n: int)
    requires -1 <= i <= 1 && -1 <= j <= 1 && -1 <= k <= 1
    requires n == 9 * (i + 1) + 3 * (j + 1) + (k + 1)
    ensures 0 <= n < 27 && DirectionAt(n) == Point(i, j, k)
  {
  }

  lemma DirectionAtInverse(n: int)
    requires 0 <= n < 27
    ensures var p := DirectionAt(n);
            && -1 <= p.x <= 1 && -1 <= p.y <= 1 && -1 <= p.z <= 1
            && 9 * (p.x + 1) + 3 * (p.y + 1) + (p.z + 1) == n
  {
  }

  /** The loops visit each vector of {-1, 0, 1}³ exactly once: 27 offsets, not 26. */
  lemma DirectionsAreTheCube()
    ensures |Directions()| == 27
    ensures forall m, n :: 0 <= m < n < 27 ==> Directions()[m] != Directions()[n]
    ensures forall p: Point ::
              p in Directions() <==> -1 <= p.x <= 1 && -1 <= p.y <= 1 && -1 <= p.z <= 1
    ensures Directions()[13] == Point(0, 0, 0)
  {
    forall m, n | 0 <= m < n < 27 ensures Directions()[m] != Directions()[n] {
      DirectionAtInverse(m);
      DirectionAtInverse(n);
    }
    forall p: Point | p in Directions()
      ensures -1 <= p.x <= 1 && -1 <= p.y <= 1 && -1 <= p.z <= 1
    {
      var n :| 0 <= n < 27 && Directions()[n] == p;
      DirectionAtInverse(n);
    }
    forall p: Point | -1 <= p.x <= 1 && -1 <= p.y <= 1 && -1 <= p.z <= 1
      ensures p in Directions()
    {
      var n := 9 * (p.x + 1) + 3 * (p.y + 1) + (p.z + 1);
      DirectionIndex(p.x, p.y, p.z, n);
      assert Directions()[n] == p;
    }
  }

  /** The offset loops from offset n on, with the maxima collected so far in acc. */
  function MaximaFrom(g: Grid, s: Shape, v: Point, radii: seq<int>, n: nat, acc: seq<real>): Result<seq<real>>
    requires Shaped(g, s) && n <= 27
    decreases 27 - n
  {
    if n == 27 then Ok(acc)
    else
      match DirectionMax(g, s, v, DirectionAt(n), radii)
      case Err(e) => Err(e)
      case Ok(m) => MaximaFrom(g, s, v, radii, n + 1, acc + [m])
  }

  /** One turn of the offset loops, whose offset has maximum m: a failing
      offset fails the collection, a succeeding one appends its maximum. */
  lemma MaximaFromStep(g: Grid, s: Shape, v: Point, radii: seq<int>, n: nat, acc: seq<real>, m: Result<real>)
    requires Shaped(g, s) && n < 27
    requires m == DirectionMax(g, s, v, DirectionAt(n), radii)
    ensures m.Err? ==> MaximaFrom(g, s, v, radii, n, acc) == Err(m.error)
    ensures m.Ok? ==> MaximaFrom(g, s, v, radii, n, acc) == MaximaFrom(g, s, v, radii, n + 1, acc + [m.value])
  {
  }

  /** `max_differences` of voxel v. */
  function DirectionMaxima(g: Grid, s: Shape, v: Point, radii: seq<int>): Result<seq<real>>
    requires Shaped(g, s)
  {
    MaximaFrom(g, s, v, radii, 0, [])
  }

  /** The new value of voxel v: `sum(max_differences)`. */
  function Enhance(g: Grid, s: Shape, v: Point, radii: seq<int>): Result<real>
    requires Shaped(g, s)
  {
    match DirectionMaxima(g, s, v, radii)
    case Err(e) => Err(e)
    case Ok(ms) => Ok(Sum(ms))
  }

  lemma {:induction false} MaximaFromOk(g: Grid, s: Shape, v: Point, radii: seq<int>, n: nat, acc: seq<real>)
    requires Shaped(g, s) && n <= 27
    ensures MaximaFrom(g, s, v, radii, n, acc).Ok? <==>
            forall k :: n <= k < 27 ==> DirectionMax(g, s, v, DirectionAt(k), radii).Ok?
    decreases 27 - n
  {
    if n < 27 {
      var m := DirectionMax(g, s, v, DirectionAt(n), radii);
      MaximaFromStep(g, s, v, radii, n, acc, m);
      if m.Ok? {
        MaximaFromOk(g, s, v, radii, n + 1, acc + [m.value]);
        if forall k :: n + 1 <= k < 27 ==> DirectionMax(g, s, v, DirectionAt(k), radii).Ok? {
          forall k | n <= k < 27 ensures DirectionMax(g, s, v, DirectionAt(k), radii).Ok? {
            if k != n {
              assert n + 1 <= k;
            }
          }
        }
      } else {
        assert !(forall k :: n <= k < 27 ==> DirectionMax(g, s, v, DirectionAt(k), radii).Ok?);
      }
    }
  }

  lemma {:induction false} MaximaFromValues(g: Grid, s: Shape, v: Point, radii: seq<int>, n: nat, acc: seq<real>)
    requires Shaped(g, s) && n <= 27
    requires MaximaFrom(g, s, v, radii, n, acc).Ok?
    ensures |MaximaFrom(g, s, v, radii, n, acc).value| == |acc| + 27 - n
    ensures MaximaFrom(g, s, v, radii, n, acc).value[..|acc|] == acc
    ensures forall k :: n <= k < 27 ==>
              DirectionMax(g, s, v, DirectionAt(k), radii) == Ok(MaximaFrom(g, s, v, radii, n, acc).value[|acc| + k - n])
    decreases 27 - n
  {
    if n < 27 {
      MaximaFromStep(g, s, v, radii, n, acc, DirectionMax(g, s, v, DirectionAt(n), radii));
      var m := DirectionMax(g, s, v, DirectionAt(n), radii).value;
      MaximaFromValues(g, s, v, radii, n + 1, acc + [m]);
      var ms := MaximaFrom(g, s, v, radii, n + 1, acc + [m]).value;
      assert ms == MaximaFrom(g, s, v, radii, n, acc).value;
      assert ms[..|acc| + 1] == acc + [m];
      assert ms[..|acc| + 1][..|acc|] == ms[..|acc|];
      assert ms[|acc|] == (acc + [m])[|acc|] == m;
    }
  }

  /** A voxel's new value is computed exactly when all 27 per-offset maxima are. */
  lemma EnhanceOk(g: Grid, s: Shape, v: Point, radii: seq<int>)
    requires Shaped(g, s)
    ensures Enhance(g, s, v, radii).Ok? <==>
            forall k :: 0 <= k < 27 ==> DirectionMax(g, s, v, Directions()[k], radii).Ok?
  {
    MaximaFromOk(g, s, v, radii, 0, []);
    assert forall k | 0 <= k < 27 :: Directions()[k] == DirectionAt(k);
  }

  /** `max_differences` holds the 27 per-offset maxima in loop order. */
  lemma DirectionMaximaValues(g: Grid, s: Shape, v: Point, radii: seq<int>)
    requires Shaped(g, s)
    requires DirectionMaxima(g, s, v, radii).Ok?
    ensures |DirectionMaxima(g, s, v, radii).value| == 27
    ensures forall k :: 0 <= k < 27 ==>
              DirectionMax(g, s, v, DirectionAt(k), radii) == Ok(DirectionMaxima(g, s, v, radii).value[k])
  {
    MaximaFromValues(g, s, v, radii, 0, []);
  }

  /** A voxel's new value is the sum of exactly 27 per-offset maxima, the k-th
      belonging to the k-th offset of the loops, and so it is at least 27·FMIN. */
  lemma EnhanceSumsTheMaxima(g: Grid, s: Shape, v: Point, radii: seq<int>)
    requires Shaped(g, s)
    requires Enhance(g, s, v, radii).Ok?
    ensures var ms := DirectionMaxima(g, s, v, radii).value;
            && |ms| == 27
            && (forall k :: 0 <= k < 27 ==> DirectionMax(g, s, v, Directions()[k], radii) == Ok(ms[k]))
            && Enhance(g, s, v, radii).value == Sum(ms)
            && Enhance(g, s, v, radii).value >= 27.0 * FMIN
  {
    DirectionMaximaValues(g, s, v, radii);
    var ms := DirectionMaxima(g, s, v, radii).value;
    forall k | 0 <= k < 27 ensures DirectionMax(g, s, v, Directions()[k], radii) == Ok(ms[k]) {
      assert Directions()[k] == DirectionAt(k);
    }
    assert Enhance(g, s, v, radii).value == Sum(ms);
    forall k | 0 <= k < 27 ensures ms[k] >= FMIN {
      DirectionMaxIsMaximum(g, s, v, DirectionAt(k), radii);
    }
    SumAtLeast(ms, FMIN);
  }

  /** With no radii every offset keeps FMIN, so the voxel becomes 27·FMIN. */
  lemma EmptyRadiiEnhance(g: Grid, s: Shape, v: Point)
    requires Shaped(g, s)
    ensures Enhance(g, s, v, []) == Ok(27.0 * FMIN)
  {
    MaximaFromOk(g, s, v, [], 0, []);
    DirectionMaximaValues(g, s, v, []);
    var ms := DirectionMaxima(g, s, v, []).value;
    forall k | 0 <= k < 27 ensures ms[k] == FMIN {
      assert DirectionMax(g, s, v, DirectionAt(k), []) == Ok(FMIN);
    }
    SumConstant(ms, FMIN);
  }

  // ---------------------------------------------------------------------------
  // The in-place raster scan
  // ---------------------------------------------------------------------------

  /** The voxels the filter overwrites: the last index of every axis is skipped. */
  predicate Visited(s: Shape, x: int, y: int, z: int) {
    0 <= x < s.cols - 1 && 0 <= y < s.rows - 1 && 0 <= z < s.planes - 1
  }

  /** (x, y, z) comes at or after (c, r, p) in the order of the three voxel loops. */
  predicate AtOrAfter(x: int, y: int, z: int, c: int, r: int, p: int) {
    x > c || (x == c && (y > r || (y == r && z >= p)))
  }

  /** `volume[x, y, z] = val` on the contents of the volume. */
  function Put(g: Grid, s: Shape, x: nat, y: nat, z: nat, val: real): (h: Grid)
    requires Shaped(g, s) && x < s.cols && y < s.rows && z < s.planes
    ensures Shaped(h, s)
    ensures forall i, j, k | Inside(s, Point(i, j, k)) ::
              h[i][j][k] == if i == x && j == y && k == z then val else g[i][j][k]
  {
    g[x := g[x][y := g[x][y][z := val]]]
  }

  /** The voxel loops from voxel (c, r, p) on. Each voxel is computed from the grid
      as it stands, with the voxels before it already overwritten, and is written
      back before the next one is computed. */
  function ScanFrom(g: Grid, s: Shape, radii: seq<int>, c: nat, r: nat, p: nat): (h: Result<Grid>)
    requires Shaped(g, s)
    ensures h.Ok? ==> Shaped(h.value, s)
    ensures h.Ok? ==>
              forall x, y, z | Inside(s, Point(x, y, z)) && !(Visited(s, x, y, z) && AtOrAfter(x, y, z, c, r, p)) ::
                h.value[x][y][z] == g[x][y][z]
    decreases s.cols - c, s.rows - r, s.planes - p
  {
    if c + 1 >= s.cols then Ok(g)
    else if r + 1 >= s.rows then ScanFrom(g, s, radii, c + 1, 0, 0)
    else if p + 1 >= s.planes then ScanFrom(g, s, radii, c, r + 1, 0)
    else
      match Enhance(g, s, Point(c, r, p), radii)
      case Err(e) => Err(e)
      case Ok(val) => ScanFrom(Put(g, s, c, r, p, val), s, radii, c, r, p + 1)
  }

  /** cavity_enhancement_filter on the contents of the Hessian volume. */
  function CavityEnhancement(g: Grid, s: Shape, radii: seq<int>): Result<Grid>
    requires Shaped(g, s)
  {
    ScanFrom(g, s, radii, 0, 0, 0)
  }

  /** The filter keeps the shape, and every voxel on the last index of some axis
      keeps its input value. */
  lemma FilterKeepsLastIndices(g: Grid, s: Shape, radii: seq<int>)
    requires Shaped(g, s)
    requires CavityEnhancement(g, s, radii).Ok?
    ensures Shaped(CavityEnhancement(g, s, radii).value, s)
    ensures forall x, y, z | Inside(s, Point(x, y, z)) && (x == s.cols - 1 || y == s.rows - 1 || z == s.planes - 1) ::
              CavityEnhancement(g, s, radii).value[x][y][z] == g[x][y][z]
  {
  }

  /** The first voxel of a scan is computed from the grid it is given. */
  lemma ScanWritesEnhanceFirst(g: Grid, s: Shape, radii: seq<int>, c: nat, r: nat, p: nat)
    requires Shaped(g, s) && Visited(s, c, r, p)
    requires ScanFrom(g, s, radii, c, r, p).Ok?
    ensures Enhance(g, s, Point(c, r, p), radii).Ok?
    ensures ScanFrom(g, s, radii, c, r, p).value[c][r][p] == Enhance(g, s, Point(c, r, p), radii).value
  {
  }

  /** EmptyRadiiScan at a voxel that is overwritten: 27·FMIN is written there
      and the scan goes on from the next plane. */
  lemma {:induction false} EmptyRadiiScanStep(g: Grid, s: Shape, c: nat, r: nat, p: nat)
    requires Shaped(g, s) && Visited(s, c, r, p)
    ensures ScanFrom(g, s, [], c, r, p).Ok?
    ensures forall x, y, z | Visited(s, x, y, z) && AtOrAfter(x, y, z, c, r, p) ::
              ScanFrom(g, s, [], c, r, p).value[x][y][z] == 27.0 * FMIN
    decreases s.cols - c, s.rows - r, s.planes - p, 0
  {
    EmptyRadiiEnhance(g, s, Point(c, r, p));
    var h := Put(g, s, c, r, p, 27.0 * FMIN);
    EmptyRadiiScan(h, s, c, r, p + 1);
    var out := ScanFrom(h, s, [], c, r, p + 1).value;
    assert ScanFrom(g, s, [], c, r, p) == Ok(out);
    assert out[c][r][p] == h[c][r][p] by {
      assert Inside(s, Point(c, r, p)) && !AtOrAfter(c, r, p, c, r, p + 1);
    }
    forall x, y, z | Visited(s, x, y, z) && AtOrAfter(x, y, z, c, r, p)
      ensures out[x][y][z] == 27.0 * FMIN
    {
      if !(x == c && y == r && z == p) {
        assert AtOrAfter(x, y, z, c, r, p + 1);
      }
    }
  }

  /** EmptyRadiiScan past the last visited row of column c: the scan goes on
      from column c + 1. */
  lemma {:induction false} EmptyRadiiNextColumn(g: Grid, s: Shape, c: nat, r: nat, p: nat)
    requires Shaped(g, s) && c + 1 < s.cols && r + 1 >= s.rows
    ensures ScanFrom(g, s, [], c, r, p).Ok?
    ensures forall x, y, z | Visited(s, x, y, z) && AtOrAfter(x, y, z, c, r, p) ::
              ScanFrom(g, s, [], c, r, p).value[x][y][z] == 27.0 * FMIN
    decreases s.cols - c, s.rows - r, s.planes - p, 0
  {
    EmptyRadiiScan(g, s, c + 1, 0, 0);
    assert ScanFrom(g, s, [], c, r, p) == ScanFrom(g, s, [], c + 1, 0, 0);
    forall x, y, z | Visited(s, x, y, z) && AtOrAfter(x, y, z, c, r, p)
      ensures AtOrAfter(x, y, z, c + 1, 0, 0)
    {
    }
  }

  /** EmptyRadiiScan past the last visited plane of row r: the scan goes on
      from row r + 1. */
  lemma {:induction false} EmptyRadiiNextRow(g: Grid, s: Shape, c: nat, r: nat, p: nat)
    requires Shaped(g, s) && c + 1 < s.cols && r + 1 < s.rows && p + 1 >= s.planes
    ensures ScanFrom(g, s, [], c, r, p).Ok?
    ensures forall x, y, z | Visited(s, x, y, z) && AtOrAfter(x, y, z, c, r, p) ::
              ScanFrom(g, s, [], c, r, p).value[x][y][z] == 27.0 * FMIN
    decreases s.cols - c, s.rows - r, s.planes - p, 0
  {
    EmptyRadiiScan(g, s, c, r + 1, 0);
    assert ScanFrom(g, s, [], c, r, p) == ScanFrom(g, s, [], c, r + 1, 0);
    forall x, y, z | Visited(s, x, y, z) && AtOrAfter(x, y, z, c, r, p)
      ensures AtOrAfter(x, y, z, c, r + 1, 0)
    {
    }
  }

  /** The last visited column is followed by no visited voxel. */
  lemma EmptyRadiiDone(g: Grid, s: Shape, c: nat, r: nat, p: nat)
    requires Shaped(g, s) && c + 1 >= s.cols
    ensures ScanFrom(g, s, [], c, r, p) == Ok(g)
    ensures forall x, y, z | Visited(s, x, y, z) :: !AtOrAfter(x, y, z, c, r, p)
  {
  }

  /** With an empty radius list the scan from (c, r, p) succeeds and writes
      27·FMIN on every voxel it visits. */
  lemma {:induction false} EmptyRadiiScan(g: Grid, s: Shape, c: nat, r: nat, p: nat)
    requires Shaped(g, s)
    ensures ScanFrom(g, s, [], c, r, p).Ok?
    ensures forall x, y, z | Visited(s, x, y, z) && AtOrAfter(x, y, z, c, r, p) ::
              ScanFrom(g, s, [], c, r, p).value[x][y][z] == 27.0 * FMIN
    decreases s.cols - c, s.rows - r, s.planes - p, 1
  {
    if c + 1 >= s.cols {
      EmptyRadiiDone(g, s, c, r, p);
    } else if r + 1 >= s.rows {
      EmptyRadiiNextColumn(g, s, c, r, p);
    } else if p + 1 >= s.planes {
      EmptyRadiiNextRow(g, s, c, r, p);
    } else {
      EmptyRadiiScanStep(g, s, c, r, p);
    }
  }

  /** With an empty radius list every overwritten voxel becomes 27·FMIN and every
      other voxel keeps its value. */
  lemma EmptyRadiiFilter(g: Grid, s: Shape)
    requires Shaped(g, s)
    ensures CavityEnhancement(g, s, []).Ok?
    ensures forall x, y, z | Inside(s, Point(x, y, z)) ::
              CavityEnhancement(g, s, []).value[x][y][z] ==
              if Visited(s, x, y, z) then 27.0 * FMIN else g[x][y][z]
  {
    EmptyRadiiScan(g, s, 0, 0, 0);
  }

  // ---------------------------------------------------------------------------
  // The imperative filter over the Hessian volume
  // ---------------------------------------------------------------------------

  function ShapeOf(a: array3<real>): Shape {
    Shape(a.Length0, a.Length1, a.Length2)
  }

  /** The current contents of a 3-D array. */
  function Contents(a: array3<real>): (g: Grid)
    reads a
    ensures Shaped(g, ShapeOf(a))
    ensures forall x, y, z | Inside(ShapeOf(a), Point(x, y, z)) :: g[x][y][z] == a[x, y, z]
  {
    seq(a.Length0, x reads a requires 0 <= x < a.Length0 =>
      seq(a.Length1, y reads a requires 0 <= y < a.Length1 =>
        seq(a.Length2, z reads a requires 0 <= z < a.Length2 => a[x, y, z])))
  }

  /** Two grids of one shape that agree on every voxel are equal. */
  lemma GridsEqual(g: Grid, h: Grid, s: Shape)
    requires Shaped(g, s) && Shaped(h, s)
    requires forall x, y, z | Inside(s, Point(x, y, z)) :: g[x][y][z] == h[x][y][z]
    ensures g == h
  {
    forall x | 0 <= x < s.cols ensures g[x] == h[x] {
      forall y | 0 <= y < s.rows ensures g[x][y] == h[x][y] {
        assert forall z | 0 <= z < s.planes :: g[x][y][z] == h[x][y][z] by {
          forall z | 0 <= z < s.planes ensures g[x][y][z] == h[x][y][z] {
            assert Inside(s, Point(x, y, z));
          }
        }
      }
    }
  }

  /** The loops over r_1 and r_2 for one offset: the running maximum of L - P. */
  method MaxDifference(g: Grid, s: Shape, v: Point, d: Point, radii: seq<int>) returns (m: Result<real>)
    requires Shaped(g, s)
    ensures m == DirectionMax(g, s, v, d, radii)
  {
    var best := FMIN;
    var a := 0;
    while a < |radii|
      invariant 0 <= a <= |radii|
      invariant DirectionMax(g, s, v, d, radii) == OuterFrom(g, s, v, d, radii, a, best)
    {
      ghost var start := best;
      var b := 0;
      while b < |radii|
        invariant 0 <= b <= |radii|
        invariant InnerFrom(g, s, v, d, radii[a], radii, 0, start) == InnerFrom(g, s, v, d, radii[a], radii, b, best)
      {
        var l := CalculateL(g, s, v, d, radii[a], radii[b]);
        if l.Err? {
          return Err(l.error);
        }
        var p := CalculateP(g, s, v, d, radii[a], radii[b]);
        if p.Err? {
          return Err(p.error);
        }
        if p.value >= 0.0 && l.value > FMIN {
          var difference := l.value - p.value;
          if difference > best {
            best := difference;
          }
        }
        b := b + 1;
      }
      a := a + 1;
    }
    m := Ok(best);
  }

  /** The loops over the 27 offsets for voxel v, collecting `max_differences` and
      returning their sum. */
  method VoxelScore(g: Grid, s: Shape, v: Point, radii: seq<int>) returns (score: Result<real>)
    requires Shaped(g, s)
    ensures score == Enhance(g, s, v, radii)
  {
    var maxDifferences: seq<real> := [];
    ghost var n := 0;
    var i := -1;
    while i <= 1
      invariant -1 <= i <= 2 && n == 9 * (i + 1)
      invariant DirectionMaxima(g, s, v, radii) == MaximaFrom(g, s, v, radii, n, maxDifferences)
    {
      var j := -1;
      while j <= 1
        invariant -1 <= j <= 2 && n == 9 * (i + 1) + 3 * (j + 1)
        invariant DirectionMaxima(g, s, v, radii) == MaximaFrom(g, s, v, radii, n, maxDifferences)
      {
        var k := -1;
        while k <= 1
          invariant -1 <= k <= 2 && n == 9 * (i + 1) + 3 * (j + 1) + (k + 1)
          invariant DirectionMaxima(g, s, v, radii) == MaximaFrom(g, s, v, radii, n, maxDifferences)
        {
          DirectionIndex(i, j, k, n);
          var m := MaxDifference(g, s, v, Point(i, j, k), radii);
          MaximaFromStep(g, s, v, radii, n, maxDifferences, m);
          if m.Err? {
            assert DirectionMaxima(g, s, v, radii) == Err(m.error);
            return Err(m.error);
          }
          maxDifferences := maxDifferences + [m.value];
          n := n + 1;
          k := k + 1;
        }
        j := j + 1;
      }
      i := i + 1;
    }
    assert DirectionMaxima(g, s, v, radii) == Ok(maxDifferences);
    score := Ok(Sum(maxDifferences));
  }

  /** At a voxel the loops visit, the scan fails when the voxel's new value
      fails, and otherwise writes it and goes on from the next plane. */
  lemma ScanFromVisit(g: Grid, s: Shape, radii: seq<int>, c: nat, r: nat, p: nat)
    requires Shaped(g, s) && Visited(s, c, r, p)
    ensures Enhance(g, s, Point(c, r, p), radii).Err? ==> ScanFrom(g, s, radii, c, r, p).Err?
    ensures Enhance(g, s, Point(c, r, p), radii).Ok? ==>
              ScanFrom(g, s, radii, c, r, p)
              == ScanFrom(Put(g, s, c, r, p, Enhance(g, s, Point(c, r, p), radii).value), s, radii, c, r, p + 1)
  {
  }

  /** One pass of the innermost loop body: `volume[x, y, z] = sum(max_differences)`,
      computed from the volume as it stands. ok is false when the score raised. */
  method FilterVoxel(a: array3<real>, radii: seq<int>, c: nat, r: nat, p: nat) returns (ok: bool)
    requires Visited(ShapeOf(a), c, r, p)
    modifies a
    ensures ok <==> Enhance(old(Contents(a)), ShapeOf(a), Point(c, r, p), radii).Ok?
    ensures ok ==> Contents(a) == Put(old(Contents(a)), ShapeOf(a), c, r, p,
                                      Enhance(old(Contents(a)), ShapeOf(a), Point(c, r, p), radii).value)
    ensures !ok ==> Contents(a) == old(Contents(a))
  {
    var s := ShapeOf(a);
    var g := Contents(a);
    var score := VoxelScore(g, s, Point(c, r, p), radii);
    if score.Err? {
      return false;
    }
    a[c, r, p] := score.value;
    GridsEqual(Contents(a), Put(g, s, c, r, p, score.value), s);
    ok := true;
  }

  /** cavity_enhancement_filter: overwrites the voxels of the Hessian volume in
      raster order, in place, and returns the same array. ok is false when numpy
      raised IndexError part-way. */
  method CavityEnhancementFilter(a: array3<real>, radii: seq<int>) returns (ok: bool, out: array3<real>)
    modifies a
    ensures out == a
    ensures ok <==> CavityEnhancement(old(Contents(a)), ShapeOf(a), radii).Ok?
    ensures ok ==> Contents(a) == CavityEnhancement(old(Contents(a)), ShapeOf(a), radii).value
  {
    out := a;
    var s := ShapeOf(a);
    ghost var spec := CavityEnhancement(Contents(a), s, radii);
    var c: nat := 0;
    while c < s.cols - 1
      invariant spec == ScanFrom(Contents(a), s, radii, c, 0, 0)
    {
      var r: nat := 0;
      while r < s.rows - 1
        invariant spec == ScanFrom(Contents(a), s, radii, c, r, 0)
      {
        var p: nat := 0;
        while p < s.planes - 1
          invariant spec == ScanFrom(Contents(a), s, radii, c, r, p)
        {
          ScanFromVisit(Contents(a), s, radii, c, r, p);
          var voxelOk := FilterVoxel(a, radii, c, r, p);
          if !voxelOk {
            ok := false;
            return;
          }
          p := p + 1;
        }
        r := r + 1;
      }
      c := c + 1;
    }
    ok := true;
  }
}
