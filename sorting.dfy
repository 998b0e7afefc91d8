/** Python's list sort on reals, in both directions. */
module Sorting {

  predicate NonIncreasing(xs: seq<real>) {
    forall i, j :: 0 <= i < j < |xs| ==> xs[i] >= xs[j]
  }

  function Insert(x: real, ys: seq<real>): (r: seq<real>)
    requires NonIncreasing(ys)
    ensures NonIncreasing(r)
    ensures multiset(r) == multiset(ys) + multiset{x} && |r| == |ys| + 1
    ensures |r| > 0 && (r[0] == x || (|ys| > 0 && r[0] == ys[0]))
  {
    if ys == [] || x >= ys[0] then [x] + ys
    else
      var rest := Insert(x, ys[1..]);
      assert ys == [ys[0]] + ys[1..];
      [ys[0]] + rest
  }

  /** `list.sort(reverse=True)` on reals: the same values, largest first. */
  function SortDescending(xs: seq<real>): (r: seq<real>)
    ensures NonIncreasing(r)
    ensures multiset(r) == multiset(xs) && |r| == |xs|
  {
    if xs == [] then []
    else
      assert xs == [xs[0]] + xs[1..];
      Insert(xs[0], SortDescending(xs[1..]))
  }

  function Reverse(xs: seq<real>): (r: seq<real>)
    ensures |r| == |xs| && forall k :: 0 <= k < |xs| ==> r[k] == xs[|xs| - 1 - k]
    ensures multiset(r) == multiset(xs)
  {
    if xs == [] then []
    else
      assert xs == [xs[0]] + xs[1..];
      Reverse(xs[1..]) + [xs[0]]
  }

  predicate NonDecreasing(xs: seq<real>) {
    forall i, j :: 0 <= i < j < |xs| ==> xs[i] <= xs[j]
  }

  /** `list.sort()` on reals: the same values, smallest first. */
  function SortAscending(xs: seq<real>): (r: seq<real>)
    ensures NonDecreasing(r)
    ensures multiset(r) == multiset(xs) && |r| == |xs|
  {
    Reverse(SortDescending(xs))
  }
}
