/**
 * The geometry and the bookkeeping of `LesionVolume` (individual_lesion_volume.py):
 * the orientation test, the intersection test of two contours, the list of
 * overlapping contours carried from slice to slice, and the per-lesion volumes.
 *
 * The contours of every slice, their areas and their centres (computed by
 * OpenCV from image moments) are inputs.
 */
module IndividualLesionVolume {
  import opened Wrappers
  import opened Sorting

  /** A contour point `[x, y]` as OpenCV returns it. */
  datatype Point2 = Point2(x: int, y: int)

  /** A contour of a slice with what find_lesions computes of it: its points,
      `cv.contourArea` and the integer centre from its moments. */
  datatype Contour = Contour(points: seq<Point2>, area: real, cx: int, cy: int)

  /** A key of `overlapping_contours`: a centre and the slice it lies in. */
  datatype Center = Center(x: int, y: int, z: int)

  /** An element of `overlapping_contours`. */
  datatype Entry = Entry(center: Center, area: real)

  // ---------------------------------------------------------------------------
  // ccw and contours_intersect
  // ---------------------------------------------------------------------------

  /** ccw: a strict comparison, so a collinear triple is never counter-clockwise. */
  predicate Ccw(a: Point2, b: Point2, c: Point2) {
    (c.y - a.y) * (b.x - a.x) > (b.y - a.y) * (c.x - a.x)
  }

  /** Twice the signed area of the triangle a, b, c. */
  function Cross(a: Point2, b: Point2, c: Point2): int {
    (b.x - a.x) * (c.y - a.y) - (b.y - a.y) * (c.x - a.x)
  }

  /** ccw is the sign of the signed area, which does not change when the three
      points are rotated; exchanging two points reverses it, and collinear
      points are never counter-clockwise. */
  lemma CcwIsOrientation(a: Point2, b: Point2, c: Point2)
    ensures Ccw(a, b, c) <==> Cross(a, b, c) > 0
    ensures Ccw(a, b, c) <==> Ccw(b, c, a)
    ensures Ccw(a, b, c) ==> !Ccw(a, c, b)
    ensures Cross(a, b, c) == 0 ==> !Ccw(a, b, c)
  {
    assert Cross(b, c, a) == Cross(a, b, c) by {
      assert (c.x - b.x) * (a.y - b.y) - (c.y - b.y) * (a.x - b.x)
          == c.x * a.y - c.x * b.y - b.x * a.y - c.y * a.x + c.y * b.x + b.y * a.x;
      assert (b.x - a.x) * (c.y - a.y) - (b.y - a.y) * (c.x - a.x)
          == b.x * c.y - b.x * a.y - a.x * c.y - b.y * c.x + b.y * a.x + a.y * c.x;
    }
    assert Cross(a, c, b) == -Cross(a, b, c) by {
      assert (c.x - a.x) * (b.y - a.y) - (c.y - a.y) * (b.x - a.x)
          == -((b.x - a.x) * (c.y - a.y) - (b.y - a.y) * (c.x - a.x));
    }
  }

  /** The test of contours_intersect for segment AB against segment CD. */
  predicate Straddles(a: Point2, b: Point2, c: Point2, d: Point2) {
    Ccw(a, c, d) != Ccw(b, c, d) && Ccw(a, b, c) != Ccw(a, b, d)
  }

  /** The straddle test does not depend on which segment comes first. */
  lemma StraddlesSymmetric(a: Point2, b: Point2, c: Point2, d: Point2)
    ensures Straddles(a, b, c, d) <==> Straddles(c, d, a, b)
  {
    CcwIsOrientation(c, a, b);
    CcwIsOrientation(d, a, b);
    CcwIsOrientation(a, c, d);
    CcwIsOrientation(b, c, d);
  }

  /** Segment k of contour p joins points k and k + 1 and segment j of q joins
      points j and j + 1, and the two straddle each other. There is no closing
      segment from the last point back to the first. */
  predicate SegmentsCross(p: seq<Point2>, k: int, q: seq<Point2>, j: int) {
    && 0 <= k < |p| - 1 && 0 <= j < |q| - 1
    && Straddles(p[k], p[k + 1], q[j], q[j + 1])
  }

  /** The inner loop of contours_intersect, from query segment j on. */
  function QueryFrom(p: seq<Point2>, k: int, q: seq<Point2>, j: nat): (r: bool)
    requires 0 <= k < |p| - 1
    ensures r <==> exists j' :: j <= j' && SegmentsCross(p, k, q, j')
    decreases |q| - j
  {
    if j + 1 >= |q| then false
    else if Straddles(p[k], p[k + 1], q[j], q[j + 1]) then
      assert SegmentsCross(p, k, q, j);
      true
    else QueryFrom(p, k, q, j + 1)
  }

  /** The outer loop of contours_intersect, from reference segment k on. */
  function ReferenceFrom(p: seq<Point2>, q: seq<Point2>, k: nat): (r: bool)
    ensures r <==> exists k', j :: k <= k' && SegmentsCross(p, k', q, j)
    decreases |p| - k
  {
    if k + 1 >= |p| then false
    else if QueryFrom(p, k, q, 0) then true
    else ReferenceFrom(p, q, k + 1)
  }

  /** contours_intersect: True as soon as a segment of the reference contour
      straddles a segment of the query contour; otherwise the function falls
      off its end and returns None. */
  function ContoursIntersect(cntRef: seq<Point2>, cntQuery: seq<Point2>): (r: Option<bool>)
    ensures r == Some(true) <==> exists k, j :: SegmentsCross(cntRef, k, cntQuery, j)
    ensures r != Some(false)
  {
    if ReferenceFrom(cntRef, cntQuery, 0) then Some(true) else None
  }

  /** Python's truthiness of the value contours_intersect returns. */
  predicate Intersect(cntRef: seq<Point2>, cntQuery: seq<Point2>) {
    ContoursIntersect(cntRef, cntQuery) == Some(true)
  }

  /** Whether two contours intersect does not depend on their order. */
  lemma ContoursIntersectSymmetric(p: seq<Point2>, q: seq<Point2>)
    ensures ContoursIntersect(p, q) == ContoursIntersect(q, p)
  {
    if ContoursIntersect(p, q) == Some(true) {
      var k, j :| SegmentsCross(p, k, q, j);
      StraddlesSymmetric(p[k], p[k + 1], q[j], q[j + 1]);
      assert SegmentsCross(q, j, p, k);
    }
    if ContoursIntersect(q, p) == Some(true) {
      var j, k :| SegmentsCross(q, j, p, k);
      StraddlesSymmetric(q[j], q[j + 1], p[k], p[k + 1]);
      assert SegmentsCross(p, k, q, j);
    }
  }

  /** A contour of fewer than two points has no segment and meets nothing. */
  lemma ShortContoursNeverIntersect(p: seq<Point2>, q: seq<Point2>)
    requires |p| < 2 || |q| < 2
    ensures ContoursIntersect(p, q) == None
  {
  }

  // ---------------------------------------------------------------------------
  // The bookkeeping of find_lesions
  // ---------------------------------------------------------------------------

  /** The sum of the areas of the entries. */
  function TotalArea(entries: seq<Entry>): real {
    if entries == [] then 0.0 else entries[0].area + TotalArea(entries[1..])
  }

  lemma {:induction false} TotalAreaAppend(entries: seq<Entry>, e: Entry)
    ensures TotalArea(entries + [e]) == TotalArea(entries) + e.area
  {
    if entries != [] {
      assert (entries + [e])[1..] == entries[1..] + [e];
      TotalAreaAppend(entries[1..], e);
    }
  }

  /** `dict(overlapping_contours).get(key)`: the dictionary keeps the last
      entry of each key. */
  function Lookup(entries: seq<Entry>, key: Center): (r: Option<real>)
    ensures r.None? <==> forall k :: 0 <= k < |entries| ==> entries[k].center != key
    ensures r.Some? ==> exists k :: 0 <= k < |entries| && entries[k] == Entry(key, r.value)
                          && forall j :: k < j < |entries| ==> entries[j].center != key
  {
    if entries == [] then None
    else if entries[|entries| - 1].center == key then Some(entries[|entries| - 1].area)
    else Lookup(entries[..|entries| - 1], key)
  }

  /** A key that is found is found with an entry of the list. */
  lemma LookupFound(entries: seq<Entry>, key: Center)
    requires Lookup(entries, key).Some?
    ensures Entry(key, Lookup(entries, key).value) in entries
  {
    var k :| 0 <= k < |entries| && entries[k] == Entry(key, Lookup(entries, key).value);
  }

  /** The position of the first element equal to e. */
  function FirstIndex(entries: seq<Entry>, e: Entry): (k: nat)
    requires e in entries
    ensures k < |entries| && entries[k] == e && e !in entries[..k]
  {
    if entries[0] == e then 0
    else
      assert entries == [entries[0]] + entries[1..];
      var k := FirstIndex(entries[1..], e);
      assert entries[..k + 1] == [entries[0]] + entries[1..][..k];
      k + 1
  }

  /** `list.remove`: the first element equal to e goes; the caller only removes
      an element that is there (Python raises ValueError otherwise). */
  function RemoveFirst(entries: seq<Entry>, e: Entry): (r: seq<Entry>)
    requires e in entries
    ensures |r| == |entries| - 1
    ensures multiset(r) == multiset(entries) - multiset{e}
    ensures TotalArea(r) == TotalArea(entries) - e.area
    ensures forall x :: x in r ==> x in entries
  {
    if entries[0] == e then
      assert entries == [e] + entries[1..];
      entries[1..]
    else
      var rest := RemoveFirst(entries[1..], e);
      assert entries == [entries[0]] + entries[1..];
      [entries[0]] + rest
  }

  /** Past an element that differs from e, `list.remove` keeps it and goes on. */
  lemma RemoveFirstCons(entries: seq<Entry>, e: Entry)
    requires e in entries && entries[0] != e
    ensures e in entries[1..]
    ensures RemoveFirst(entries, e) == [entries[0]] + RemoveFirst(entries[1..], e)
  {
    assert entries == [entries[0]] + entries[1..];
  }

  /** A first occurrence at k > 0 is a first occurrence at k - 1 of the tail. */
  lemma FirstOccurrenceInTail(entries: seq<Entry>, e: Entry, k: nat)
    requires 0 < k < |entries| && entries[k] == e && e !in entries[..k]
    ensures entries[0] != e
    ensures entries[1..][k - 1] == e && e !in entries[1..][..k - 1]
  {
    assert entries[0] in entries[..k];
    assert entries[1..][..k - 1] == entries[1..k];
  }

  /** Splicing out position k + 1 is splicing out position k of the tail and
      putting the head back. */
  lemma SpliceCons(xs: seq<Entry>, k: nat)
    requires k + 1 < |xs|
    ensures [xs[0]] + (xs[1..][..k] + xs[1..][k + 1..]) == xs[..k + 1] + xs[k + 2..]
  {
    assert [xs[0]] + xs[1..][..k] == xs[..k + 1];
    assert xs[1..][k + 1..] == xs[k + 2..];
  }

  /** Removing the first e, found at position k, splices out position k. */
  lemma {:induction false} RemoveFirstAt(entries: seq<Entry>, e: Entry, k: nat)
    requires k < |entries| && entries[k] == e && e !in entries[..k]
    ensures RemoveFirst(entries, e) == entries[..k] + entries[k + 1..]
  {
    if k > 0 {
      FirstOccurrenceInTail(entries, e, k);
      RemoveFirstCons(entries, e);
      RemoveFirstAt(entries[1..], e, k - 1);
      SpliceCons(entries, k - 1);
    }
  }

  /** It is the first occurrence of e that goes, and the other elements keep
      their order. */
  lemma RemoveFirstSplice(entries: seq<Entry>, e: Entry)
    requires e in entries
    ensures RemoveFirst(entries, e) == entries[..FirstIndex(entries, e)] + entries[FirstIndex(entries, e) + 1..]
  {
    RemoveFirstAt(entries, e, FirstIndex(entries, e));
  }

  /** One overlap of contour `curr` (centre currCenter, area currArea) with a
      contour of the next slice (centre nCenter). When the dictionary holds a
      nonzero area for currCenter, that entry is replaced by one keyed by
      nCenter carrying the sum of the two areas; otherwise, and in particular
      when the stored area is 0, an entry keyed by nCenter with currArea is
      appended. The total area grows by currArea either way. */
  function RecordOverlap(entries: seq<Entry>, currCenter: Center, nCenter: Center, currArea: real): seq<Entry> {
    var prior := Lookup(entries, currCenter);
    if prior.Some? && prior.value != 0.0 then
      RemoveFirst(entries, Entry(currCenter, prior.value)) + [Entry(nCenter, prior.value + currArea)]
    else
      entries + [Entry(nCenter, currArea)]
  }

  /** Either way the total area grows by curr's area, and every entry is an
      old one or keyed by nCenter. */
  lemma RecordOverlapTotal(entries: seq<Entry>, currCenter: Center, nCenter: Center, currArea: real)
    ensures TotalArea(RecordOverlap(entries, currCenter, nCenter, currArea)) == TotalArea(entries) + currArea
    ensures forall x :: x in RecordOverlap(entries, currCenter, nCenter, currArea) ==> x in entries || x.center == nCenter
  {
    var prior := Lookup(entries, currCenter);
    if prior.Some? && prior.value != 0.0 {
      var e := Entry(currCenter, prior.value);
      LookupFound(entries, currCenter);
      var rest := RemoveFirst(entries, e);
      assert RecordOverlap(entries, currCenter, nCenter, currArea) == rest + [Entry(nCenter, prior.value + currArea)];
      TotalAreaAppend(rest, Entry(nCenter, prior.value + currArea));
    } else {
      TotalAreaAppend(entries, Entry(nCenter, currArea));
    }
  }

  /** A nonzero area stored for currCenter is replaced: the entry goes, and an
      entry keyed by nCenter carrying the summed area comes last. */
  lemma RecordOverlapReplaces(entries: seq<Entry>, currCenter: Center, nCenter: Center, currArea: real)
    requires Lookup(entries, currCenter).Some? && Lookup(entries, currCenter).value != 0.0
    ensures var r := RecordOverlap(entries, currCenter, nCenter, currArea);
            var stored := Lookup(entries, currCenter).value;
            && |r| == |entries|
            && r[|r| - 1] == Entry(nCenter, stored + currArea)
            && multiset(r) == multiset(entries) - multiset{Entry(currCenter, stored)}
                              + multiset{Entry(nCenter, stored + currArea)}
  {
    var stored := Lookup(entries, currCenter).value;
    var e := Entry(currCenter, stored);
    LookupFound(entries, currCenter);
    var rest := RemoveFirst(entries, e);
    var x := Entry(nCenter, stored + currArea);
    var r := rest + [x];
    assert RecordOverlap(entries, currCenter, nCenter, currArea) == r;
    assert |r| == |entries| && r[|r| - 1] == x;
    assert multiset(r) == multiset(rest) + multiset{x};
  }

  /** The replaced entry is the first one with currCenter and the stored area;
      the entries before and after it keep their order, and the entry keyed by
      nCenter comes last. */
  lemma RecordOverlapKeepsOrder(entries: seq<Entry>, currCenter: Center, nCenter: Center, currArea: real)
    requires Lookup(entries, currCenter).Some? && Lookup(entries, currCenter).value != 0.0
    ensures Entry(currCenter, Lookup(entries, currCenter).value) in entries
    ensures RecordOverlap(entries, currCenter, nCenter, currArea)
            == entries[..FirstIndex(entries, Entry(currCenter, Lookup(entries, currCenter).value))]
               + entries[FirstIndex(entries, Entry(currCenter, Lookup(entries, currCenter).value)) + 1..]
               + [Entry(nCenter, Lookup(entries, currCenter).value + currArea)]
  {
    LookupFound(entries, currCenter);
    RemoveFirstSplice(entries, Entry(currCenter, Lookup(entries, currCenter).value));
  }

  /** Without a nonzero area stored for currCenter, and in particular with a
      stored 0, an entry keyed by nCenter with curr's area is appended. */
  lemma RecordOverlapAppends(entries: seq<Entry>, currCenter: Center, nCenter: Center, currArea: real)
    requires Lookup(entries, currCenter).None? || Lookup(entries, currCenter).value == 0.0
    ensures RecordOverlap(entries, currCenter, nCenter, currArea) == entries + [Entry(nCenter, currArea)]
  {
  }

  /** curr's area, once for every contour of `next` it intersects. */
  function OverlapArea(curr: Contour, next: seq<Contour>): real {
    if next == [] then 0.0
    else OverlapArea(curr, next[..|next| - 1]) + (if Intersect(curr.points, next[|next| - 1].points) then curr.area else 0.0)
  }

  /** The innermost loop of find_lesions: contour curr of slice i against the
      contours of slice i + 1. Every entry it adds is keyed in slice i + 1, and
      it adds curr's area once per contour it overlaps. */
  function MatchNext(entries: seq<Entry>, curr: Contour, i: int, next: seq<Contour>): (r: seq<Entry>)
    ensures TotalArea(r) == TotalArea(entries) + OverlapArea(curr, next)
    ensures forall x :: x in r ==> x in entries || x.center.z == i + 1
  {
    if next == [] then entries
    else
      var e := MatchNext(entries, curr, i, next[..|next| - 1]);
      var n := next[|next| - 1];
      if Intersect(curr.points, n.points) then
        RecordOverlapTotal(e, Center(curr.cx, curr.cy, i), Center(n.cx, n.cy, i + 1), curr.area);
        RecordOverlap(e, Center(curr.cx, curr.cy, i), Center(n.cx, n.cy, i + 1), curr.area)
      else e
  }

  /** One turn of the innermost loop: the m-th contour of `next`. */
  lemma MatchNextStep(entries: seq<Entry>, curr: Contour, i: int, next: seq<Contour>, m: nat)
    requires m < |next|
    ensures MatchNext(entries, curr, i, next[..m + 1])
            == if Intersect(curr.points, next[m].points)
               then RecordOverlap(MatchNext(entries, curr, i, next[..m]), Center(curr.cx, curr.cy, i),
                                  Center(next[m].cx, next[m].cy, i + 1), curr.area)
               else MatchNext(entries, curr, i, next[..m])
  {
    assert next[..m + 1][..m] == next[..m];
  }

  /** The area the contours of `current` add against the contours of `next`. */
  function SliceArea(current: seq<Contour>, next: seq<Contour>): real {
    if current == [] then 0.0
    else SliceArea(current[..|current| - 1], next)
         + OverlapArea(current[|current| - 1], next)
  }

  /** The loop over the contours of slice i. */
  function MatchSlice(entries: seq<Entry>, current: seq<Contour>, i: int, next: seq<Contour>): (r: seq<Entry>)
    ensures TotalArea(r) == TotalArea(entries) + SliceArea(current, next)
    ensures forall x :: x in r ==> x in entries || x.center.z == i + 1
  {
    if current == [] then entries
    else
      var e := MatchSlice(entries, current[..|current| - 1], i, next);
      MatchNext(e, current[|current| - 1], i, next)
  }

  /** One turn of the loop over the contours of slice i: the c-th contour. */
  lemma MatchSliceStep(entries: seq<Entry>, current: seq<Contour>, i: int, next: seq<Contour>, c: nat)
    requires c < |current|
    ensures MatchSlice(entries, current[..c + 1], i, next)
            == MatchNext(MatchSlice(entries, current[..c], i, next), current[c], i, next)
  {
    assert current[..c + 1][..c] == current[..c];
  }

  /** The area over the slice pairs (i, i + 1) for 1 <= i < hi. */
  function PairsArea(slices: seq<seq<Contour>>, hi: nat): real
    requires hi < |slices|
  {
    if hi <= 1 then 0.0 else PairsArea(slices, hi - 1) + SliceArea(slices[hi - 1], slices[hi])
  }

  /** `overlapping_contours` once the slices i with 1 <= i < hi have been
      compared with slice i + 1. Slice 0 is never the current slice, so every
      entry is keyed in a slice from 2 to hi. */
  function MatchSlices(slices: seq<seq<Contour>>, hi: nat): (r: seq<Entry>)
    requires hi < |slices|
    ensures TotalArea(r) == PairsArea(slices, hi)
    ensures forall x :: x in r ==> 2 <= x.center.z <= hi
  {
    if hi <= 1 then []
    else
      var e := MatchSlices(slices, hi - 1);
      MatchSlice(e, slices[hi - 1], hi - 1, slices[hi])
  }

  /** One turn of the slice loop: slice i against slice i + 1. */
  lemma MatchSlicesStep(slices: seq<seq<Contour>>, i: nat)
    requires 1 <= i && i + 1 < |slices|
    ensures MatchSlices(slices, i + 1) == MatchSlice(MatchSlices(slices, i), slices[i], i, slices[i + 1])
  {
  }

  /** `overlapping_contours` at the end of the slice loop of find_lesions, which
      runs i over 1 .. len(slices) - 2. */
  function OverlappingContours(slices: seq<seq<Contour>>): seq<Entry> {
    if |slices| <= 1 then [] else MatchSlices(slices, |slices| - 1)
  }

  /** The total area of the entries is the area of every contour of a slice
      from 1 to len - 2, counted once per contour of the following slice it
      intersects; every entry is keyed in a slice from 2 to len - 1. */
  lemma OverlappingContoursArea(slices: seq<seq<Contour>>)
    ensures TotalArea(OverlappingContours(slices)) == (if |slices| <= 1 then 0.0 else PairsArea(slices, |slices| - 1))
    ensures forall e :: e in OverlappingContours(slices) ==> 2 <= e.center.z <= |slices| - 1
  {
  }

  // ---------------------------------------------------------------------------
  // Lesion volumes
  // ---------------------------------------------------------------------------

  /** The volume find_lesions computes for one entry: the area scaled by the
      in-plane spacings, plus the slice index scaled by the slice spacing,
      divided by 1000. */
  function LesionVolumeOf(e: Entry, mmX: real, mmY: real, mmZ: real): real {
    (e.area * mmX * mmY + e.center.z as real * mmZ) / 1000.0
  }

  function VolumesOf(entries: seq<Entry>, mmX: real, mmY: real, mmZ: real): (vs: seq<real>)
    ensures |vs| == |entries|
    ensures forall k :: 0 <= k < |entries| ==> vs[k] == LesionVolumeOf(entries[k], mmX, mmY, mmZ)
  {
    seq(|entries|, k requires 0 <= k < |entries| => LesionVolumeOf(entries[k], mmX, mmY, mmZ))
  }

  /** find_lesions, with the contours of every slice given: the list of
      lesion volumes it builds, one per entry of `overlapping_contours`,
      largest first. */
  method FindLesions(slices: seq<seq<Contour>>, mmX: real, mmY: real, mmZ: real) returns (lesionVolumes: seq<real>)
    ensures NonIncreasing(lesionVolumes)
    ensures multiset(lesionVolumes) == multiset(VolumesOf(OverlappingContours(slices), mmX, mmY, mmZ))
  {
    var overlappingContours: seq<Entry> := [];
    var i := 1;
    while i < |slices| - 1
      invariant 1 <= i && (|slices| > 1 ==> i <= |slices| - 1)
      invariant overlappingContours == (if |slices| <= 1 then [] else MatchSlices(slices, i))
    {
      MatchSlicesStep(slices, i);
      overlappingContours := ScanSlice(overlappingContours, slices[i], i, slices[i + 1]);
      i := i + 1;
    }
    assert overlappingContours == OverlappingContours(slices);
    lesionVolumes := ComputeLesionVolumes(overlappingContours, mmX, mmY, mmZ);
  }

  /** The loop of find_lesions over the contours of slice i (`current`), each
      compared with the contours of slice i + 1 (`next`). */
  method ScanSlice(entries: seq<Entry>, current: seq<Contour>, i: int, next: seq<Contour>) returns (overlappingContours: seq<Entry>)
    ensures overlappingContours == MatchSlice(entries, current, i, next)
  {
    overlappingContours := entries;
    for c := 0 to |current|
      invariant overlappingContours == MatchSlice(entries, current[..c], i, next)
    {
      MatchSliceStep(entries, current, i, next, c);
      overlappingContours := ScanNext(overlappingContours, current[c], i, next);
    }
    assert current[..|current|] == current;
  }

  /** The innermost loop of find_lesions: contour curr of slice i against the
      contours of slice i + 1, recording each overlap. */
  method ScanNext(entries: seq<Entry>, curr: Contour, i: int, next: seq<Contour>) returns (overlappingContours: seq<Entry>)
    ensures overlappingContours == MatchNext(entries, curr, i, next)
  {
    overlappingContours := entries;
    var currCenter := Center(curr.cx, curr.cy, i);
    for m := 0 to |next|
      invariant overlappingContours == MatchNext(entries, curr, i, next[..m])
    {
      MatchNextStep(entries, curr, i, next, m);
      var n := next[m];
      if ContoursIntersect(curr.points, n.points) == Some(true) {
        var nCenter := Center(n.cx, n.cy, i + 1);
        overlappingContours := RecordOverlap(overlappingContours, currCenter, nCenter, curr.area);
      }
    }
    assert next[..|next|] == next;
  }

  /** The last loop of find_lesions and the sort that follows it: one volume
      per entry, largest first. */
  method ComputeLesionVolumes(overlappingContours: seq<Entry>, mmX: real, mmY: real, mmZ: real) returns (lesionVolumes: seq<real>)
    ensures NonIncreasing(lesionVolumes)
    ensures multiset(lesionVolumes) == multiset(VolumesOf(overlappingContours, mmX, mmY, mmZ))
  {
    var volumes: seq<real> := [];
    for k := 0 to |overlappingContours|
      invariant volumes == VolumesOf(overlappingContours[..k], mmX, mmY, mmZ)
    {
      var e := overlappingContours[k];
      var volume := e.area * mmX * mmY;
      volume := volume + e.center.z as real * mmZ;
      volumes := volumes + [volume / 1000.0];
      assert volume / 1000.0 == LesionVolumeOf(e, mmX, mmY, mmZ);
      assert overlappingContours[..k + 1] == overlappingContours[..k] + [e];
    }
    assert overlappingContours[..|overlappingContours|] == overlappingContours;
    lesionVolumes := SortDescending(volumes);
  }
}
