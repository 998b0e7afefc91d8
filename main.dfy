/**
 * The file-name bookkeeping of the command-line driver (main.py): splitting the
 * names of the input volumes into the images and the ground-truth masks.
 */
module Driver {

  /** Python's `sub in s` on strings: `sub` occurs as a contiguous piece of `s`. */
  predicate Contains(s: string, sub: string)
    decreases |s|
  {
    |sub| <= |s| && (s[..|sub|] == sub || Contains(s[1..], sub))
  }

  /** `sub` starts at position `i` of `s`. */
  predicate OccursAt(s: string, sub: string, i: int) {
    0 <= i <= |s| - |sub| && s[i..i + |sub|] == sub
  }

  /** `Contains` finds exactly the positions where `sub` starts. */
  lemma {:induction false} ContainsIffOccurs(s: string, sub: string)
    ensures Contains(s, sub) <==> exists i :: OccursAt(s, sub, i)
    decreases |s|
  {
    if |sub| <= |s| && s[..|sub|] != sub {
      ContainsIffOccurs(s[1..], sub);
      if exists i :: OccursAt(s, sub, i) {
        var i :| OccursAt(s, sub, i);
        assert i != 0;
        assert s[1..][i - 1..i - 1 + |sub|] == sub;
        assert OccursAt(s[1..], sub, i - 1);
      }
      if Contains(s[1..], sub) {
        var j :| OccursAt(s[1..], sub, j);
        assert s[j + 1..j + 1 + |sub|] == sub;
        assert OccursAt(s, sub, j + 1);
      }
    } else if |sub| <= |s| {
      assert OccursAt(s, sub, 0);
    }
  }

  /** A name goes to the ground truth exactly when it contains "mask". */
  predicate IsMask(name: string) {
    Contains(name, "mask")
  }

  /** The names, in order, that are ground-truth masks. */
  function Masks(names: seq<string>): (r: seq<string>)
    ensures |r| <= |names|
  {
    if names == [] then []
    else if IsMask(names[0]) then [names[0]] + Masks(names[1..])
    else Masks(names[1..])
  }

  /** The names, in order, that are images. */
  function Images(names: seq<string>): (r: seq<string>)
    ensures |r| <= |names|
  {
    if names == [] then []
    else if IsMask(names[0]) then Images(names[1..])
    else [names[0]] + Images(names[1..])
  }

  /** A name is in the ground truth exactly when it is one of the names and
      contains "mask", and in the images exactly when it is one of the names
      and does not. */
  lemma {:induction false} SeparationMembership(names: seq<string>)
    ensures forall f :: f in Masks(names) <==> f in names && IsMask(f)
    ensures forall f :: f in Images(names) <==> f in names && !IsMask(f)
  {
    if names != [] {
      SeparationMembership(names[1..]);
      assert names == [names[0]] + names[1..];
    }
  }

  /** separate_ground_truth: walks the names once, appending each to
      `ground_truth` when it contains "mask" and to `images` otherwise. */
  method SeparateGroundTruth(filenames: seq<string>) returns (images: seq<string>, groundTruth: seq<string>)
    ensures images == Images(filenames)
    ensures groundTruth == Masks(filenames)
  {
    groundTruth := [];
    images := [];
    for i := 0 to |filenames|
      invariant images + Images(filenames[i..]) == Images(filenames)
      invariant groundTruth + Masks(filenames[i..]) == Masks(filenames)
    {
      var f := filenames[i];
      assert filenames[i..] == [f] + filenames[i + 1..];
      assert filenames[i..][1..] == filenames[i + 1..];
      if IsMask(f) {
        assert Masks(filenames[i..]) == [f] + Masks(filenames[i + 1..]);
        assert Images(filenames[i..]) == Images(filenames[i + 1..]);
        groundTruth := groundTruth + [f];
      } else {
        assert Masks(filenames[i..]) == Masks(filenames[i + 1..]);
        assert Images(filenames[i..]) == [f] + Images(filenames[i + 1..]);
        images := images + [f];
      }
    }
  }

  /** The two lists split the input: together they hold every name exactly as
      often as the input does, so their lengths add up to the input's. */
  lemma {:induction false} SeparationIsAPartition(names: seq<string>)
    ensures multiset(Images(names)) + multiset(Masks(names)) == multiset(names)
    ensures |Images(names)| + |Masks(names)| == |names|
  {
    if names != [] {
      SeparationIsAPartition(names[1..]);
      assert names == [names[0]] + names[1..];
    }
  }

  /** Splitting a concatenation splits each part in turn; in particular the
      images keep the relative order the names had in the input. */
  lemma {:induction false} ImagesKeepOrder(xs: seq<string>, ys: seq<string>)
    ensures Images(xs + ys) == Images(xs) + Images(ys)
  {
    if xs != [] {
      ImagesKeepOrder(xs[1..], ys);
      assert (xs + ys)[1..] == xs[1..] + ys;
    } else {
      assert xs + ys == ys;
    }
  }

  /** The same for the ground truth. */
  lemma {:induction false} MasksKeepOrder(xs: seq<string>, ys: seq<string>)
    ensures Masks(xs + ys) == Masks(xs) + Masks(ys)
  {
    if xs != [] {
      MasksKeepOrder(xs[1..], ys);
      assert (xs + ys)[1..] == xs[1..] + ys;
    } else {
      assert xs + ys == ys;
    }
  }

  /** A list of names with no mask among them is returned whole as the images,
      and the ground truth is empty. */
  lemma {:induction false} NoMasksAllImages(names: seq<string>)
    requires forall f :: f in names ==> !IsMask(f)
    ensures Images(names) == names
    ensures Masks(names) == []
  {
    if names != [] {
      assert names[0] in names;
      NoMasksAllImages(names[1..]);
      assert names == [names[0]] + names[1..];
    }
  }
}
