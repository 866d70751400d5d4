/** Ordering facts the envelope steps rely on: `std::sort` as an in-place sort proved against a
    functional reference sort, the uniqueness of a sorted permutation, and the sentinel-bounded
    running minimum and maximum of the BJ scripts. */
module Order {

  predicate Sorted(s: seq<real>) {
    forall i, j :: 0 <= i < j < |s| ==> s[i] <= s[j]
  }

  /** Inserts `x` into a sorted sequence. */
  function Insert(x: real, s: seq<real>): (r: seq<real>)
    requires Sorted(s)
    ensures |r| == |s| + 1
    ensures Sorted(r)
    ensures multiset(r) == multiset(s) + multiset{x}
    ensures r[0] == if s == [] || x <= s[0] then x else s[0]
  {
    if s == [] then [x]
    else if x <= s[0] then [x] + s
    else
      assert s == [s[0]] + s[1..];
      [s[0]] + Insert(x, s[1..])
  }

  /** The reference sort: ascending, a permutation of its input. */
  function SortedSeq(s: seq<real>): (r: seq<real>)
    ensures |r| == |s|
    ensures Sorted(r)
    ensures multiset(r) == multiset(s)
  {
    if s == [] then []
    else
      assert s == [s[0]] + s[1..];
      Insert(s[0], SortedSeq(s[1..]))
  }

  lemma SortedHeadIsLeast(s: seq<real>, x: real)
    requires Sorted(s) && x in multiset(s)
    ensures s[0] <= x
  {
    var i :| 0 <= i < |s| && s[i] == x;
  }

  /** Two sorted permutations of the same values are equal, so the order statistics of a sort
      depend only on the multiset being sorted. */
  lemma {:induction false} SortedUnique(a: seq<real>, b: seq<real>)
    requires Sorted(a) && Sorted(b)
    requires multiset(a) == multiset(b)
    ensures a == b
  {
    if a != [] {
      assert |b| == |a| by { assert |multiset(a)| == |a| && |multiset(b)| == |b|; }
      assert a[0] in multiset(b);
      assert b[0] in multiset(a);
      SortedHeadIsLeast(b, a[0]);
      SortedHeadIsLeast(a, b[0]);
      assert a == [a[0]] + a[1..];
      assert b == [b[0]] + b[1..];
      assert a[0] == b[0];
      assert multiset(a) == multiset{a[0]} + multiset(a[1..]);
      assert multiset(b) == multiset{b[0]} + multiset(b[1..]);
      assert multiset(a[1..]) == multiset(b[1..]) by {
        assert multiset(a[1..]) == multiset(a) - multiset{a[0]};
        assert multiset(b[1..]) == multiset(b) - multiset{b[0]};
      }
      SortedUnique(a[1..], b[1..]);
    }
  }

  /** A sequence already in ascending order is its own sort. */
  lemma SortedSeqOfSorted(s: seq<real>)
    requires Sorted(s)
    ensures SortedSeq(s) == s
  {
    SortedUnique(SortedSeq(s), s);
  }

  /** `std::sort` on a whole array, modelled by insertion sort. */
  method SortInPlace(a: array<real>)
    modifies a
    ensures Sorted(a[..])
    ensures multiset(a[..]) == old(multiset(a[..]))
    ensures a[..] == SortedSeq(old(a[..]))
  {
    var i := 0;
    while i < a.Length
      invariant 0 <= i <= a.Length
      invariant Sorted(a[..i])
      invariant multiset(a[..]) == old(multiset(a[..]))
    {
      InsertLast(a, i);
      i := i + 1;
    }
    assert a[..a.Length] == a[..];
    SortedUnique(a[..], SortedSeq(old(a[..])));
  }

  /** One insertion-sort pass: moves `a[i]` left into the sorted prefix `a[..i]`. */
  method InsertLast(a: array<real>, i: nat)
    requires i < a.Length
    requires Sorted(a[..i])
    modifies a
    ensures Sorted(a[..i + 1])
    ensures multiset(a[..]) == old(multiset(a[..]))
    ensures a[i + 1..] == old(a[i + 1..])
  {
    var j := i;
    while j > 0 && a[j - 1] > a[j]
      invariant 0 <= j <= i
      invariant multiset(a[..]) == old(multiset(a[..]))
      invariant a[i + 1..] == old(a[i + 1..])
      invariant forall p, q :: 0 <= p < q <= i && p != j && q != j ==> a[p] <= a[q]
      invariant forall q :: j < q <= i ==> a[j] < a[q]
      invariant 0 < j < i ==> a[j - 1] <= a[j + 1]
    {
      SwapAdjacent(a, j);
      j := j - 1;
    }
  }

  /** Exchanges `a[j - 1]` and `a[j]`. */
  method SwapAdjacent(a: array<real>, j: nat)
    requires 0 < j < a.Length
    modifies a
    ensures a[..] == old(a[..])[j - 1 := old(a[j])][j := old(a[j - 1])]
    ensures multiset(a[..]) == old(multiset(a[..]))
  {
    a[j - 1], a[j] := a[j], a[j - 1];
  }

  /** `y` is the minimum of `sentinel` and all of `vals` (the running `y_min` started at `sentinel`). */
  predicate IsBoundedMin(y: real, sentinel: real, vals: seq<real>) {
    && y <= sentinel
    && (forall i :: 0 <= i < |vals| ==> y <= vals[i])
    && (y == sentinel || y in vals)
  }

  /** `y` is the maximum of `sentinel` and all of `vals` (the running `y_max` started at `sentinel`). */
  predicate IsBoundedMax(y: real, sentinel: real, vals: seq<real>) {
    && y >= sentinel
    && (forall i :: 0 <= i < |vals| ==> y >= vals[i])
    && (y == sentinel || y in vals)
  }

  /** The bounded minimum and maximum are unique. */
  lemma BoundedMinMaxUnique(y1: real, y2: real, z1: real, z2: real, lo: real, hi: real, vals: seq<real>)
    requires IsBoundedMin(y1, lo, vals) && IsBoundedMin(y2, lo, vals)
    requires IsBoundedMax(z1, hi, vals) && IsBoundedMax(z2, hi, vals)
    ensures y1 == y2 && z1 == z2
  {
  }

  /** One step of the running minimum and maximum. */
  lemma BoundedStep(yMin: real, yMax: real, lo: real, hi: real, vals: seq<real>, v: real)
    requires IsBoundedMin(yMin, lo, vals) && IsBoundedMax(yMax, hi, vals)
    ensures IsBoundedMin(if v < yMin then v else yMin, lo, vals + [v])
    ensures IsBoundedMax(if v > yMax then v else yMax, hi, vals + [v])
  {
    assert forall i :: 0 <= i < |vals| ==> (vals + [v])[i] == vals[i];
    assert (vals + [v])[|vals|] == v;
  }
}
