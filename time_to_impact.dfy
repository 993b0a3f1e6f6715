/**
 * Time-of-impact ranking (`time_to_collisions`): for each colliding pair,
 * with the relative velocity of its first box, the smaller of the two
 * per-axis intersection times, so that the caller can decide which
 * collision to resolve first.
 *
 * As the library computes it, the y-axis time divides the y overlap by the
 * HORIZONTAL component of the velocity; the vertical component only picks
 * which y edges face each other. The model keeps this.
 */
module TimeToImpact {
  import opened Boxes
  import opened Slide
  import opened Collisions

  /**
   * The time of one pair: `moving` travels with velocity `v` towards
   * `obstacle`; the result is the smaller (more negative: longer ago) of the
   * x and y intersection times, both taken against `v.0`. In closed form:
   * moving right, the time is the smaller directional overlap over `v.0`;
   * moving left, the larger one over `v.0`; with `v.0` zero, 0 if both
   * overlaps are 0 and the sentinel -HUGE otherwise.
   */
  function PairTime(moving: Box, obstacle: Box, v: (real, real)): (t: real)
    ensures var o := OverlapInDirection(moving, obstacle, v.0, v.1);
            (v.0 > 0.0 ==> t * v.0 == (if o.0 < o.1 then o.0 else o.1)) &&
            (v.0 < 0.0 ==> t * v.0 == (if o.0 < o.1 then o.1 else o.0)) &&
            (v.0 == 0.0 ==> t == (if o.0 == 0.0 && o.1 == 0.0 then 0.0 else -HUGE))
  {
    var o := OverlapInDirection(moving, obstacle, v.0, v.1);
    var tx := IntersectionTime(o.0, v.0);
    var ty := IntersectionTime(o.1, v.0);
    DivisionMonotone(o.0, o.1, v.0);
    if tx < ty then tx else ty
  }

  /** Dividing by a positive number keeps the order of two numbers, dividing by a negative one reverses it. */
  lemma DivisionMonotone(a: real, b: real, c: real)
    ensures c > 0.0 ==> (a / c < b / c <==> a < b)
    ensures c < 0.0 ==> (a / c < b / c <==> b < a)
  {
    if c != 0.0 {
      assert a / c * c == a && b / c * c == b;
    }
  }

  /**
   * `time_to_collisions(boxes, collisions, relative_velocities)`: walks the
   * pairs and the velocities in lockstep, stopping at the end of the shorter
   * list, and appends the time of each pair.
   */
  method TimeToCollisions(boxes: seq<Box>, collisions: seq<IndexPair>, velocities: seq<(real, real)>)
    returns (out: seq<real>)
    requires forall k :: 0 <= k < |collisions| && k < |velocities| ==>
      collisions[k].0 < |boxes| && collisions[k].1 < |boxes|
    ensures |out| == if |collisions| < |velocities| then |collisions| else |velocities|
    ensures forall k :: 0 <= k < |out| ==>
      out[k] == PairTime(boxes[collisions[k].0], boxes[collisions[k].1], velocities[k])
  {
    var n := if |collisions| < |velocities| then |collisions| else |velocities|;
    out := [];
    for k := 0 to n
      invariant |out| == k
      invariant forall l :: 0 <= l < k ==>
        out[l] == PairTime(boxes[collisions[l].0], boxes[collisions[l].1], velocities[l])
    {
      var coll, velocity := collisions[k], velocities[k];
      var box1, box2 := boxes[coll.0], boxes[coll.1];
      var o := OverlapInDirection(box1, box2, velocity.0, velocity.1);
      var timeSinceX := IntersectionTime(o.0, velocity.0);
      var timeSinceY := IntersectionTime(o.1, velocity.0);
      out := out + [if timeSinceX < timeSinceY then timeSinceX else timeSinceY];
    }
  }

  /**
   * The vertical speed matters only through its sign: two velocities with
   * the same horizontal component whose vertical components are both
   * positive, or both not positive, give every pair the same time.
   */
  lemma PairTimeIgnoresVerticalSpeed(moving: Box, obstacle: Box, vx: real, vy: real, vy': real)
    requires (vy > 0.0) == (vy' > 0.0)
    ensures PairTime(moving, obstacle, (vx, vy)) == PairTime(moving, obstacle, (vx, vy'))
  {
  }

  // ---------------------------------------------------------------------
  // The library's own example

  /**
   * A box moving right with relative velocity (1, 0) against a zero-width
   * wall at x = 1.1 and against a box starting at x = 1.5: it crossed them
   * 0.5 and 0.1 time units ago.
   */
  lemma TimeToCollisionsExample()
    ensures PairTime(Box(0.6, 0.0, 1.6, 1.0), Box(1.1, 0.0, 1.1, 2.0), (1.0, 0.0)) == -0.5
    ensures PairTime(Box(0.6, 0.0, 1.6, 1.0), Box(1.5, 0.0, 2.0, 1.0), (1.0, 0.0)) == -0.1
  {
  }

  /** In the first pair of that example the box is 0.5 past the wall along x and 2 short of its top along y. */
  lemma ExampleOverlaps()
    ensures OverlapInDirection(Box(0.6, 0.0, 1.6, 1.0), Box(1.1, 0.0, 1.1, 2.0), 1.0, 0.0) == (-0.5, 2.0)
  {
  }

  /**
   * The example's -0.5 depends on the y time being taken against the
   * horizontal speed: the y overlap 2 gives time 2 against the horizontal
   * component 1, above the x time -0.5, but against the vertical component
   * 0 it would give the sentinel -HUGE, which would then be the minimum.
   */
  lemma ExampleUsesHorizontalSpeedForY()
    ensures IntersectionTime(-0.5, 1.0) == -0.5
    ensures IntersectionTime(2.0, 1.0) == 2.0 && IntersectionTime(2.0, 0.0) == -HUGE
  {
  }
}
