/**
 * Volumes and the sums over them shared by the modules of the model: a 3-D
 * numpy array as nested sequences with its shape, and Python's `sum`.
 */
module Volumes {

  /** The contents of a volume: g[x][y][z] is the voxel in column x, row y, plane z. */
  type Grid = seq<seq<seq<real>>>

  /** The `shape` of a 3-D numpy array. */
  datatype Shape = Shape(cols: nat, rows: nat, planes: nat)

  predicate Shaped(g: Grid, s: Shape) {
    && |g| == s.cols
    && forall x :: 0 <= x < |g| ==>
         && |g[x]| == s.rows
         && forall y :: 0 <= y < |g[x]| ==> |g[x][y]| == s.planes
  }

  /** Python's `sum` over a list of reals. */
  function Sum(xs: seq<real>): real {
    if xs == [] then 0.0 else Sum(xs[..|xs| - 1]) + xs[|xs| - 1]
  }

  lemma {:induction false} SumAtLeast(xs: seq<real>, lo: real)
    requires forall k :: 0 <= k < |xs| ==> xs[k] >= lo
    ensures Sum(xs) >= |xs| as real * lo
  {
    if xs != [] {
      SumAtLeast(xs[..|xs| - 1], lo);
    }
  }

  lemma {:induction false} SumConstant(xs: seq<real>, c: real)
    requires forall k :: 0 <= k < |xs| ==> xs[k] == c
    ensures Sum(xs) == |xs| as real * c
  {
    if xs != [] {
      SumConstant(xs[..|xs| - 1], c);
    }
  }

  // ---------------------------------------------------------------------------
  // np.count_nonzero
  // ---------------------------------------------------------------------------

  /** The sum of f over the elements of xs. */
  function SumBy<T>(xs: seq<T>, f: T -> nat): nat {
    if xs == [] then 0 else f(xs[0]) + SumBy(xs[1..], f)
  }

  lemma {:induction false} SumByAppend<T>(xs: seq<T>, ys: seq<T>, f: T -> nat)
    ensures SumBy(xs + ys, f) == SumBy(xs, f) + SumBy(ys, f)
  {
    if xs == [] {
      assert xs + ys == ys;
    } else {
      assert (xs + ys)[0] == xs[0] && (xs + ys)[1..] == xs[1..] + ys;
      SumByAppend(xs[1..], ys, f);
    }
  }

  /** Two sequences whose elements match one for one have the same sum. */
  lemma {:induction false} SumByPointwise<T, U>(xs: seq<T>, f: T -> nat, ys: seq<U>, g: U -> nat)
    requires |xs| == |ys|
    requires forall i :: 0 <= i < |xs| ==> f(xs[i]) == g(ys[i])
    ensures SumBy(xs, f) == SumBy(ys, g)
  {
    if xs != [] {
      SumByPointwise(xs[1..], f, ys[1..], g);
    }
  }

  /** Removing the element at position j of ys takes one copy of it out of ys's multiset. */
  lemma MultisetRemoveAt<T>(ys: seq<T>, j: int)
    requires 0 <= j < |ys|
    ensures multiset(ys[..j] + ys[j + 1..]) == multiset(ys) - multiset{ys[j]}
  {
    assert ys == ys[..j] + [ys[j]] + ys[j + 1..];
  }

  /** The sum over ys is the term at position j plus the sum over the rest. */
  lemma SumByRemoveAt<T>(ys: seq<T>, j: int, f: T -> nat)
    requires 0 <= j < |ys|
    ensures SumBy(ys, f) == f(ys[j]) + SumBy(ys[..j] + ys[j + 1..], f)
  {
    assert ys == ys[..j] + [ys[j]] + ys[j + 1..];
    SumByAppend(ys[..j] + [ys[j]], ys[j + 1..], f);
    SumByAppend(ys[..j], [ys[j]], f);
    SumByAppend(ys[..j], ys[j + 1..], f);
    assert SumBy([ys[j]], f) == f(ys[j]);
  }

  /** A sum does not depend on the order of its terms. */
  lemma {:induction false} SumByPermutation<T>(xs: seq<T>, ys: seq<T>, f: T -> nat)
    requires multiset(xs) == multiset(ys)
    ensures SumBy(xs, f) == SumBy(ys, f)
    decreases |xs|
  {
    if xs == [] {
      assert |ys| == |multiset(ys)| == 0;
    } else {
      assert xs[0] in multiset(ys);
      var j :| 0 <= j < |ys| && ys[j] == xs[0];
      assert xs == [xs[0]] + xs[1..];
      assert multiset(xs[1..]) == multiset(xs) - multiset{xs[0]};
      MultisetRemoveAt(ys, j);
      SumByPermutation(xs[1..], ys[..j] + ys[j + 1..], f);
      SumByRemoveAt(ys, j, f);
    }
  }

  lemma {:induction false} SumByZero<T>(xs: seq<T>, f: T -> nat)
    requires forall i :: 0 <= i < |xs| ==> f(xs[i]) == 0
    ensures SumBy(xs, f) == 0
  {
    if xs != [] {
      SumByZero(xs[1..], f);
    }
  }

  function NonzeroCell(v: real): nat {
    if v != 0.0 then 1 else 0
  }

  /** np.count_nonzero of a row of cells. */
  function CountNonzero1(xs: seq<real>): nat {
    SumBy(xs, NonzeroCell)
  }

  /** np.count_nonzero of a 2-D array. */
  function CountNonzero2(rows: seq<seq<real>>): nat {
    SumBy(rows, CountNonzero1)
  }

  /** np.count_nonzero of a 3-D array. */
  function CountNonzero3(g: Grid): nat {
    SumBy(g, CountNonzero2)
  }
}
