/**
 * Axis-aligned bounding boxes in the plane and the overlap test of the
 * library. A box is stored as its lower-left corner (x1, y1) and its
 * upper-right corner (x2, y2); the library indexes these as
 * X1 = (0, 0), Y1 = (0, 1), X2 = (1, 0), Y2 = (1, 1) of a 2 x 2 array.
 */
module Boxes {

  datatype Box = Box(x1: real, y1: real, x2: real, y2: real)

  function Width(b: Box): real { b.x2 - b.x1 }

  function Height(b: Box): real { b.y2 - b.y1 }

  /** `box + [[dx, dy]]`: the same offset added to both corners. */
  function Translate(b: Box, dx: real, dy: real): (r: Box)
    ensures Width(r) == Width(b) && Height(r) == Height(b)
    ensures r.x1 - b.x1 == dx && r.y1 - b.y1 == dy
  {
    Box(b.x1 + dx, b.y1 + dy, b.x2 + dx, b.y2 + dy)
  }

  /**
   * The overlap test of `_identify_overlapping`, for one pair of boxes:
   * lower-left of `a` strictly below-left of the upper-right of `b`, and
   * upper-right of `a` strictly above-right of the lower-left of `b`.
   * The comparisons are strict, so boxes that only share an edge or a
   * corner do not overlap.
   */
  predicate Overlaps(a: Box, b: Box) {
    a.x1 < b.x2 && a.y1 < b.y2 && a.x2 > b.x1 && a.y2 > b.y1
  }

  /** The test does not depend on the order of its arguments. */
  lemma OverlapsSymmetric(a: Box, b: Box)
    ensures Overlaps(a, b) <==> Overlaps(b, a)
  {
  }

  /** Boxes that meet along a vertical or a horizontal line do not overlap. */
  lemma TouchingDoesNotOverlap(a: Box, b: Box)
    requires a.x2 == b.x1 || a.x1 == b.x2 || a.y2 == b.y1 || a.y1 == b.y2
    ensures !Overlaps(a, b) && !Overlaps(b, a)
  {
  }

  /** The point (x, y) lies in the open interior of `b`. */
  predicate Inside(b: Box, x: real, y: real) {
    b.x1 < x < b.x2 && b.y1 < y < b.y2
  }

  /**
   * Two boxes of positive width and height overlap exactly when their open
   * interiors share a point: the strict test is the intersection test of
   * open rectangles.
   */
  lemma OverlapsIffCommonInteriorPoint(a: Box, b: Box)
    requires a.x1 < a.x2 && a.y1 < a.y2 && b.x1 < b.x2 && b.y1 < b.y2
    ensures Overlaps(a, b) <==>
      exists x: real, y: real :: Inside(a, x, y) && Inside(b, x, y)
  {
    if Overlaps(a, b) {
      var x := (Max(a.x1, b.x1) + Min(a.x2, b.x2)) / 2.0;
      var y := (Max(a.y1, b.y1) + Min(a.y2, b.y2)) / 2.0;
      assert Inside(a, x, y) && Inside(b, x, y);
    }
  }

  function Max(a: real, b: real): real { if a < b then b else a }

  function Min(a: real, b: real): real { if a < b then a else b }
}
