/**
 * Pair detection (`collisions` and `_identify_overlapping`).
 *
 * The library evaluates the overlap test for every pair (i, j) into a
 * boolean matrix, clears the lower triangle of that matrix in place when
 * only one box set is given, and returns the indices of the remaining true
 * cells in row-major order. The method `Collisions` does the same on an
 * `array2<bool>`; `CollisionList` is the specification it is proved against.
 */
module Collisions {
  import opened Boxes
  import opened Wrappers

  /** A row index into the first set and a column index into the second. */
  type IndexPair = (nat, nat)

  /** Row-major order: by row, then by column. */
  predicate Before(p: IndexPair, q: IndexPair) {
    p.0 < q.0 || (p.0 == q.0 && p.1 < q.1)
  }

  /** Strictly increasing in row-major order, hence also free of duplicates. */
  predicate RowMajor(ps: seq<IndexPair>) {
    forall k, l :: 0 <= k < l < |ps| ==> Before(ps[k], ps[l])
  }

  /**
   * Whether the pair (i, j) is reported: box i of `a` overlaps box j of `b`,
   * and, in single-set mode, (i, j) lies strictly above the diagonal.
   */
  predicate Reported(a: seq<Box>, b: seq<Box>, single: bool, i: nat, j: nat) {
    i < |a| && j < |b| && Overlaps(a[i], b[j]) && (single ==> i < j)
  }

  /** The reported pairs of row i among the first n columns, by column. */
  function RowHits(a: seq<Box>, b: seq<Box>, single: bool, i: nat, n: nat): seq<IndexPair>
    requires n <= |b|
  {
    if n == 0 then []
    else RowHits(a, b, single, i, n - 1) + (if Reported(a, b, single, i, n - 1) then [(i, n - 1)] else [])
  }

  /** The reported pairs of the first k rows, in row-major order. */
  function HitsUpTo(a: seq<Box>, b: seq<Box>, single: bool, k: nat): seq<IndexPair>
    requires k <= |a|
  {
    if k == 0 then [] else HitsUpTo(a, b, single, k - 1) + RowHits(a, b, single, k - 1, |b|)
  }

  /**
   * What `collisions` returns: with `single`, the result of
   * `collisions(a)` (then `b` is `a`); otherwise that of `collisions(a, b)`.
   */
  function CollisionList(a: seq<Box>, b: seq<Box>, single: bool): seq<IndexPair> {
    HitsUpTo(a, b, single, |a|)
  }

  // ---------------------------------------------------------------------
  // Properties of the specification

  lemma RowMajorConcat(xs: seq<IndexPair>, ys: seq<IndexPair>)
    requires RowMajor(xs) && RowMajor(ys)
    requires forall k, l :: 0 <= k < |xs| && 0 <= l < |ys| ==> Before(xs[k], ys[l])
    ensures RowMajor(xs + ys)
  {
    var zs := xs + ys;
    forall k, l | 0 <= k < l < |zs| ensures Before(zs[k], zs[l]) {
      if l < |xs| {
      } else if k < |xs| {
        assert zs[l] == ys[l - |xs|];
      } else {
        assert zs[k] == ys[k - |xs|] && zs[l] == ys[l - |xs|];
      }
    }
  }

  lemma {:induction false} RowHitsSpec(a: seq<Box>, b: seq<Box>, single: bool, i: nat, n: nat)
    requires n <= |b|
    ensures forall p :: p in RowHits(a, b, single, i, n) <==> p.0 == i && p.1 < n && Reported(a, b, single, p.0, p.1)
    ensures RowMajor(RowHits(a, b, single, i, n))
  {
    if n > 0 {
      RowHitsSpec(a, b, single, i, n - 1);
      var prev := RowHits(a, b, single, i, n - 1);
      var last: seq<IndexPair> := if Reported(a, b, single, i, n - 1) then [(i, n - 1)] else [];
      forall k, l | 0 <= k < |prev| && 0 <= l < |last| ensures Before(prev[k], last[l]) {
        assert prev[k] in prev;
      }
      RowMajorConcat(prev, last);
    }
  }

  lemma {:induction false} HitsUpToSpec(a: seq<Box>, b: seq<Box>, single: bool, k: nat)
    requires k <= |a|
    ensures forall p :: p in HitsUpTo(a, b, single, k) <==> p.0 < k && Reported(a, b, single, p.0, p.1)
    ensures RowMajor(HitsUpTo(a, b, single, k))
  {
    if k > 0 {
      HitsUpToSpec(a, b, single, k - 1);
      RowHitsSpec(a, b, single, k - 1, |b|);
      var prev := HitsUpTo(a, b, single, k - 1);
      var row := RowHits(a, b, single, k - 1, |b|);
      forall m, l | 0 <= m < |prev| && 0 <= l < |row| ensures Before(prev[m], row[l]) {
        assert prev[m] in prev && row[l] in row;
      }
      RowMajorConcat(prev, row);
    }
  }

  /** The list holds exactly the reported pairs, in row-major order. */
  lemma CollisionListSpec(a: seq<Box>, b: seq<Box>, single: bool)
    ensures forall p :: p in CollisionList(a, b, single) <==> Reported(a, b, single, p.0, p.1)
    ensures RowMajor(CollisionList(a, b, single))
  {
    HitsUpToSpec(a, b, single, |a|);
  }

  /**
   * A row-major list is determined by its elements: two such lists that
   * hold the same pairs are equal.
   */
  lemma {:induction false} RowMajorUnique(xs: seq<IndexPair>, ys: seq<IndexPair>)
    requires RowMajor(xs) && RowMajor(ys)
    requires forall p :: p in xs <==> p in ys
    ensures xs == ys
  {
    if xs != [] {
      assert xs[0] in ys;
    }
    if ys != [] {
      assert ys[0] in xs;
    }
    if xs != [] {
      FirstIsLeast(xs, ys[0]);
      FirstIsLeast(ys, xs[0]);
      assert xs[0] == ys[0];
      forall p ensures p in xs[1..] <==> p in ys[1..] {
        if p in xs[1..] {
          var k :| 1 <= k < |xs| && xs[k] == p;
          assert Before(xs[0], p);
          FirstIsLeast(ys, p);
        }
        if p in ys[1..] {
          var l :| 1 <= l < |ys| && ys[l] == p;
          assert Before(ys[0], p);
          FirstIsLeast(xs, p);
        }
      }
      RowMajorUnique(xs[1..], ys[1..]);
      assert xs == [xs[0]] + xs[1..] && ys == [ys[0]] + ys[1..];
    }
  }

  /** The head of a row-major list comes before each of its other elements. */
  lemma FirstIsLeast(xs: seq<IndexPair>, p: IndexPair)
    requires RowMajor(xs) && p in xs
    ensures p == xs[0] || Before(xs[0], p)
  {
  }

  /**
   * Single-set mode reports no pair of a box with itself and no pair twice
   * in mirrored form.
   */
  lemma SingleSetUpperTriangle(a: seq<Box>)
    ensures forall p :: p in CollisionList(a, a, true) ==> p.0 < p.1 && (p.1, p.0) !in CollisionList(a, a, true)
  {
    CollisionListSpec(a, a, true);
  }

  /**
   * Clearing the lower triangle loses no colliding pair: every two distinct
   * overlapping boxes are reported once, as (smaller index, larger index).
   */
  lemma SingleSetMissesNoPair(a: seq<Box>, i: nat, j: nat)
    requires i < |a| && j < |a| && i != j
    requires Overlaps(a[i], a[j])
    ensures (if i < j then (i, j) else (j, i)) in CollisionList(a, a, true)
  {
    CollisionListSpec(a, a, true);
    OverlapsSymmetric(a[i], a[j]);
  }

  /** `collisions(b, a)` holds exactly the index-swapped pairs of `collisions(a, b)`. */
  lemma TwoSetMirror(a: seq<Box>, b: seq<Box>, i: nat, j: nat)
    ensures (i, j) in CollisionList(a, b, false) <==> (j, i) in CollisionList(b, a, false)
  {
    CollisionListSpec(a, b, false);
    CollisionListSpec(b, a, false);
    if i < |a| && j < |b| {
      OverlapsSymmetric(a[i], b[j]);
    }
  }

  // ---------------------------------------------------------------------
  // The imperative algorithm

  /** `_identify_overlapping(set1[:, newaxis], set2[newaxis])`: the full matrix of overlap tests. */
  method IdentifyOverlapping(set1: seq<Box>, set2: seq<Box>) returns (m: array2<bool>)
    ensures fresh(m) && m.Length0 == |set1| && m.Length1 == |set2|
    ensures forall i, j :: 0 <= i < |set1| && 0 <= j < |set2| ==> m[i, j] == Overlaps(set1[i], set2[j])
  {
    m := new bool[|set1|, |set2|];
    for i := 0 to |set1|
      invariant forall i', j :: 0 <= i' < i && 0 <= j < |set2| ==> m[i', j] == Overlaps(set1[i'], set2[j])
    {
      for j := 0 to |set2|
        invariant forall i', j' :: 0 <= i' < i && 0 <= j' < |set2| ==> m[i', j'] == Overlaps(set1[i'], set2[j'])
        invariant forall j' :: 0 <= j' < j ==> m[i, j'] == Overlaps(set1[i], set2[j'])
      {
        m[i, j] := Overlaps(set1[i], set2[j]);
      }
    }
  }

  /** `m[tril_indices(n)] = False`: clears the diagonal and every cell below it. */
  method ClearLowerTriangle(m: array2<bool>)
    modifies m
    ensures forall i, j :: 0 <= i < m.Length0 && 0 <= j < m.Length1 ==> m[i, j] == (old(m[i, j]) && i < j)
  {
    for i := 0 to m.Length0
      invariant forall i', j :: 0 <= i' < i && 0 <= j < m.Length1 ==> m[i', j] == (old(m[i', j]) && i' < j)
      invariant forall i', j :: i <= i' < m.Length0 && 0 <= j < m.Length1 ==> m[i', j] == old(m[i', j])
    {
      var n := if i + 1 < m.Length1 then i + 1 else m.Length1;
      for j := 0 to n
        invariant forall i', j' :: 0 <= i' < i && 0 <= j' < m.Length1 ==> m[i', j'] == (old(m[i', j']) && i' < j')
        invariant forall i', j' :: i < i' < m.Length0 && 0 <= j' < m.Length1 ==> m[i', j'] == old(m[i', j'])
        invariant forall j' :: 0 <= j' < j ==> !m[i, j']
        invariant forall j' :: j <= j' < m.Length1 ==> m[i, j'] == old(m[i, j'])
      {
        m[i, j] := false;
      }
    }
  }

  /** `transpose(nonzero(m))`: the indices of the true cells, in row-major order. */
  method NonZero(m: array2<bool>) returns (cells: seq<IndexPair>)
    ensures forall p :: p in cells <==> p.0 < m.Length0 && p.1 < m.Length1 && m[p.0, p.1]
    ensures RowMajor(cells)
  {
    cells := [];
    for i := 0 to m.Length0
      invariant forall p :: p in cells <==> p.0 < i && p.1 < m.Length1 && m[p.0, p.1]
      invariant RowMajor(cells)
      invariant forall k :: 0 <= k < |cells| ==> cells[k].0 < i
    {
      for j := 0 to m.Length1
        invariant forall p :: p in cells <==> (p.0 < i || (p.0 == i && p.1 < j)) && p.1 < m.Length1 && m[p.0, p.1]
        invariant RowMajor(cells)
        invariant forall k :: 0 <= k < |cells| ==> Before(cells[k], (i, j))
      {
        if m[i, j] {
          cells := cells + [(i, j)];
        }
      }
    }
  }

  /**
   * `collisions(boxes1)` when `boxes2` is `None`, `collisions(boxes1, boxes2)`
   * otherwise.
   */
  method Collisions(boxes1: seq<Box>, boxes2: Option<seq<Box>>) returns (colls: seq<IndexPair>)
    ensures forall p :: p in colls <==> Reported(boxes1, boxes2.GetOr(boxes1), boxes2.None?, p.0, p.1)
    ensures RowMajor(colls)
    ensures colls == CollisionList(boxes1, boxes2.GetOr(boxes1), boxes2.None?)
  {
    var other := if boxes2.None? then boxes1 else boxes2.value;
    var colliding := IdentifyOverlapping(boxes1, other);
    if boxes2.None? {
      ClearLowerTriangle(colliding);
    }
    colls := NonZero(colliding);
    CollisionListSpec(boxes1, other, boxes2.None?);
    RowMajorUnique(colls, CollisionList(boxes1, other, boxes2.None?));
  }

  // ---------------------------------------------------------------------
  // The library's own examples

  /**
   * Four boxes: 0 and 1 overlap, 1 and 2 overlap, 0 and 2 only touch along
   * x = 1, and 3 is apart from all of them.
   */
  lemma SingleSetExample()
    ensures CollisionList(ExampleBoxes(), ExampleBoxes(), true) == [(0, 1), (1, 2)]
  {
    var a := ExampleBoxes();
    assert RowHits(a, a, true, 0, 4) == [(0, 1)];
    assert RowHits(a, a, true, 1, 4) == [(1, 2)];
    assert RowHits(a, a, true, 2, 4) == [];
    assert RowHits(a, a, true, 3, 4) == [];
  }

  function ExampleBoxes(): seq<Box> {
    [Box(0.0, 0.0, 1.0, 1.0), Box(0.5, 0.5, 1.5, 1.5), Box(1.0, 0.0, 2.0, 1.0), Box(3.0, 3.0, 4.0, 4.0)]
  }

  /**
   * Two sets: only box 1 of the first set overlaps a box of the second, its
   * box 0; swapping the sets mirrors the pair.
   */
  lemma TwoSetExample()
    ensures CollisionList(FirstGroup(), SecondGroup(), false) == [(1, 0)]
    ensures CollisionList(SecondGroup(), FirstGroup(), false) == [(0, 1)]
  {
    var a, b := FirstGroup(), SecondGroup();
    assert RowHits(a, b, false, 0, 3) == [];
    assert RowHits(a, b, false, 1, 3) == [(1, 0)];
    assert RowHits(b, a, false, 0, 2) == [(0, 1)];
    assert RowHits(b, a, false, 1, 2) == [];
    assert RowHits(b, a, false, 2, 2) == [];
  }

  function FirstGroup(): seq<Box> {
    [Box(0.0, 0.0, 1.0, 1.0), Box(0.5, 0.5, 1.5, 1.5)]
  }

  function SecondGroup(): seq<Box> {
    [Box(1.0, 0.0, 2.0, 1.0), Box(6.0, 4.0, 7.0, 8.0), Box(3.0, 3.0, 4.0, 4.0)]
  }
}
