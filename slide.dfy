/**
 * Slide resolution (`slide` and its helpers `_find_overlap_in_direction_of_movement`,
 * `_find_intersection_time` and `_pop_out_minimum_direction`).
 *
 * A moving box that has run into a static box (the obstacle) is put back
 * against the obstacle along one axis, and the velocity component along
 * that axis is set to zero while the other is kept: the box slides along
 * the obstacle's surface. With no velocity at all the box is pushed out
 * along the axis that needs the shorter move.
 */
module Slide {
  import opened Boxes

  /** The "time since intersection" given to an axis along which the box does not move. */
  const HUGE: real := 1e90

  /** The corrected box and velocity, `(box1, vx, vy)` in the library. */
  datatype Resolution = Resolution(box: Box, vx: real, vy: real)

  function Abs(x: real): real { if x < 0.0 then -x else x }

  /**
   * Along x, travelling with horizontal velocity `vx`, the leading edge of
   * `moving` lies on the facing edge of `obstacle`: the right edge on the
   * obstacle's left edge when moving right, otherwise (also when `vx` is 0)
   * the left edge on the obstacle's right edge.
   */
  predicate FlushX(moving: Box, obstacle: Box, vx: real) {
    if vx > 0.0 then moving.x2 == obstacle.x1 else moving.x1 == obstacle.x2
  }

  /** The same along y, with vertical velocity `vy`. */
  predicate FlushY(moving: Box, obstacle: Box, vy: real) {
    if vy > 0.0 then moving.y2 == obstacle.y1 else moving.y1 == obstacle.y2
  }

  /**
   * `_find_overlap_in_direction_of_movement`: the signed shift along each
   * axis that puts the leading edge of `moving` on the facing edge of
   * `obstacle`.
   */
  function OverlapInDirection(moving: Box, obstacle: Box, vx: real, vy: real): (o: (real, real))
    ensures FlushX(Translate(moving, o.0, 0.0), obstacle, vx)
    ensures FlushY(Translate(moving, 0.0, o.1), obstacle, vy)
  {
    var ox := if vx > 0.0 then obstacle.x1 - moving.x2 else obstacle.x2 - moving.x1;
    var oy := if vy > 0.0 then obstacle.y1 - moving.y2 else obstacle.y2 - moving.y1;
    (ox, oy)
  }

  /** No other shift along an axis makes the box flush on that axis. */
  lemma OverlapIsTheOnlyFlushingShift(moving: Box, obstacle: Box, vx: real, vy: real, dx: real, dy: real)
    ensures var o := OverlapInDirection(moving, obstacle, vx, vy);
            (FlushX(Translate(moving, dx, 0.0), obstacle, vx) <==> dx == o.0) &&
            (FlushY(Translate(moving, 0.0, dy), obstacle, vy) <==> dy == o.1)
  {
  }

  /**
   * `_find_intersection_time`: how long ago, in units of the velocity, the
   * leading edge crossed the facing edge (negative: in the past), so that
   * `t * velocity == overlap`. An overlap of 0 gives 0, and an axis with
   * no velocity but a nonzero overlap gives -HUGE, so it cannot be taken
   * for the blocking axis.
   */
  function IntersectionTime(overlap: real, velocity: real): (t: real)
    ensures velocity != 0.0 ==> t * velocity == overlap
    ensures overlap == 0.0 ==> t == 0.0
    ensures overlap != 0.0 && velocity == 0.0 ==> t == -HUGE
  {
    if overlap == 0.0 then 0.0
    else if velocity == 0.0 then -HUGE
    else overlap / velocity
  }

  /**
   * For an axis with nonzero velocity, moving along its path for the
   * intersection time of that axis brings the box to the moment its leading
   * edge lies on the obstacle's facing edge. On an axis with zero velocity
   * and a nonzero overlap the time is the sentinel -HUGE and nothing is
   * claimed.
   */
  lemma IntersectionTimeIsContactTime(moving: Box, obstacle: Box, vx: real, vy: real)
    ensures var o := OverlapInDirection(moving, obstacle, vx, vy);
            var tx := IntersectionTime(o.0, vx);
            var ty := IntersectionTime(o.1, vy);
            (vx != 0.0 ==> FlushX(Translate(moving, tx * vx, tx * vy), obstacle, vx)) &&
            (vy != 0.0 ==> FlushY(Translate(moving, ty * vx, ty * vy), obstacle, vy))
  {
    var o := OverlapInDirection(moving, obstacle, vx, vy);
    assert FlushX(Translate(moving, o.0, 0.0), obstacle, vx);
    assert FlushY(Translate(moving, 0.0, o.1), obstacle, vy);
  }

  /**
   * `_pop_out_minimum_direction`: per axis, take the candidate shift of
   * smaller magnitude (the second one on a tie), then shift along x only if
   * its candidate is strictly smaller than that of y, else along y. The
   * velocity becomes zero. One edge of the box always ends on the line
   * through the facing side of the obstacle, even when the box did not
   * overlap the obstacle to begin with.
   */
  function PopOutMinimumDirection(moving: Box, obstacle: Box): (r: Resolution)
    ensures r.vx == 0.0 && r.vy == 0.0
    ensures r.box == Translate(moving, r.box.x1 - moving.x1, 0.0) || r.box == Translate(moving, 0.0, r.box.y1 - moving.y1)
    ensures (r.box.y1 == moving.y1 && (r.box.x2 == obstacle.x1 || r.box.x1 == obstacle.x2)) ||
            (r.box.x1 == moving.x1 && (r.box.y2 == obstacle.y1 || r.box.y1 == obstacle.y2))
    ensures !Overlaps(r.box, obstacle)
    ensures var shift := Abs(r.box.x1 - moving.x1) + Abs(r.box.y1 - moving.y1);
            shift <= Abs(obstacle.x1 - moving.x2) && shift <= Abs(obstacle.x2 - moving.x1) &&
            shift <= Abs(obstacle.y1 - moving.y2) && shift <= Abs(obstacle.y2 - moving.y1)
  {
    var ox1, ox2 := obstacle.x1 - moving.x2, obstacle.x2 - moving.x1;
    var ox := if Abs(ox1) < Abs(ox2) then ox1 else ox2;
    var oy1, oy2 := obstacle.y1 - moving.y2, obstacle.y2 - moving.y1;
    var oy := if Abs(oy1) < Abs(oy2) then oy1 else oy2;
    if Abs(ox) < Abs(oy) then Resolution(Translate(moving, ox, 0.0), 0.0, 0.0)
    else Resolution(Translate(moving, 0.0, oy), 0.0, 0.0)
  }

  /**
   * Of all moves along one axis that leave an overlapping box clear of the
   * obstacle, the pop-out makes one of the shortest.
   */
  lemma PopOutIsShortest(moving: Box, obstacle: Box, dx: real, dy: real)
    requires Overlaps(moving, obstacle)
    requires dx == 0.0 || dy == 0.0
    requires !Overlaps(Translate(moving, dx, dy), obstacle)
    ensures var r := PopOutMinimumDirection(moving, obstacle);
            Abs(r.box.x1 - moving.x1) + Abs(r.box.y1 - moving.y1) <= Abs(dx) + Abs(dy)
  {
  }

  /**
   * The pop-out's tie-breaks. Between the two x candidates (and the two y
   * candidates) of equal magnitude it takes the second, pushing the box past
   * the obstacle's right (top) edge. Between the axes it moves along y
   * unless the x move is strictly shorter, so equal moves go along y.
   */
  lemma PopOutTieBreaks(moving: Box, obstacle: Box)
    ensures var r := PopOutMinimumDirection(moving, obstacle);
            var ox1, ox2 := obstacle.x1 - moving.x2, obstacle.x2 - moving.x1;
            var oy1, oy2 := obstacle.y1 - moving.y2, obstacle.y2 - moving.y1;
            var mx := if Abs(ox1) < Abs(ox2) then Abs(ox1) else Abs(ox2);
            var my := if Abs(oy1) < Abs(oy2) then Abs(oy1) else Abs(oy2);
            (mx == my ==> r.box.x1 == moving.x1) &&
            (mx < my ==> r.box.y1 == moving.y1) &&
            (Abs(ox1) == Abs(ox2) && mx < my ==> r.box.x1 == obstacle.x2) &&
            (Abs(oy1) == Abs(oy2) && my <= mx ==> r.box.y1 == obstacle.y2)
  {
  }

  /**
   * The pop-out does not check that the boxes overlap: a box clear of the
   * obstacle is moved all the same. The unit box at the origin, against the
   * unit box at (5, 5), is moved up by 4 so that its top is level with the
   * obstacle's bottom; it stays 4 to the left and still does not touch it.
   */
  lemma PopOutPullsSeparatedBox()
    ensures !Overlaps(Box(0.0, 0.0, 1.0, 1.0), Box(5.0, 5.0, 6.0, 6.0))
    ensures PopOutMinimumDirection(Box(0.0, 0.0, 1.0, 1.0), Box(5.0, 5.0, 6.0, 6.0))
            == Resolution(Box(0.0, 4.0, 1.0, 5.0), 0.0, 0.0)
  {
  }

  /** After that move the box's top is level with the obstacle's bottom, but a gap of 4 remains along x. */
  lemma SeparatedBoxStaysApart()
    ensures var r := PopOutMinimumDirection(Box(0.0, 0.0, 1.0, 1.0), Box(5.0, 5.0, 6.0, 6.0));
            r.box.y2 == 5.0 && 5.0 - r.box.x2 == 4.0
  {
    PopOutPullsSeparatedBox();
  }

  /**
   * `slide`: resolve the collision of `moving`, travelling with velocity
   * (vx, vy), with `obstacle`.
   */
  function Slide(moving: Box, obstacle: Box, vx: real, vy: real): (r: Resolution)
    ensures vx == 0.0 && vy == 0.0 ==> r == PopOutMinimumDirection(moving, obstacle)
    ensures !(vx == 0.0 && vy == 0.0) ==>
      (r.vx == vx && r.vy == 0.0 && r.box == Translate(moving, 0.0, r.box.y1 - moving.y1) && FlushY(r.box, obstacle, vy)) ||
      (r.vx == 0.0 && r.vy == vy && r.box == Translate(moving, r.box.x1 - moving.x1, 0.0) && FlushX(r.box, obstacle, vx))
    ensures Width(r.box) == Width(moving) && Height(r.box) == Height(moving)
    ensures !Overlaps(r.box, obstacle)
  {
    if vx == 0.0 && vy == 0.0 then
      PopOutMinimumDirection(moving, obstacle)
    else
      var o := OverlapInDirection(moving, obstacle, vx, vy);
      var tx := IntersectionTime(o.0, vx);
      var ty := IntersectionTime(o.1, vy);
      if tx < ty then Resolution(Translate(moving, 0.0, o.1), vx, 0.0)
      else Resolution(Translate(moving, o.0, 0.0), 0.0, vy)
  }

  /**
   * Which axis is corrected: y when the x time is strictly smaller, that is,
   * when the x edge was crossed longer ago than the y edge, so the y
   * crossing is the more recent one; x otherwise, ties included.
   */
  lemma SlideAxisChoice(moving: Box, obstacle: Box, vx: real, vy: real)
    requires !(vx == 0.0 && vy == 0.0)
    ensures var o := OverlapInDirection(moving, obstacle, vx, vy);
            var tx := IntersectionTime(o.0, vx);
            var ty := IntersectionTime(o.1, vy);
            var r := Slide(moving, obstacle, vx, vy);
            (tx < ty ==> r.vx == vx && r.vy == 0.0 && r.box.x1 == moving.x1 && FlushY(r.box, obstacle, vy)) &&
            (ty <= tx ==> r.vx == 0.0 && r.vy == vy && r.box.y1 == moving.y1 && FlushX(r.box, obstacle, vx))
  {
  }

  /**
   * A box moving along one axis only is stopped on that axis: its velocity
   * becomes zero and it is put flush against the obstacle in its direction
   * of travel, provided it is not already flush across the other axis and
   * its crossing time is above the sentinel.
   */
  lemma SlideOneAxisMotion(moving: Box, obstacle: Box, vx: real, vy: real)
    ensures var o := OverlapInDirection(moving, obstacle, vx, vy);
            var r := Slide(moving, obstacle, vx, vy);
            (vx != 0.0 && vy == 0.0 && o.1 != 0.0 && IntersectionTime(o.0, vx) > -HUGE ==>
              r.vx == 0.0 && r.vy == 0.0 && r.box.y1 == moving.y1 && FlushX(r.box, obstacle, vx)) &&
            (vx == 0.0 && vy != 0.0 && o.0 != 0.0 && IntersectionTime(o.1, vy) > -HUGE ==>
              r.vx == 0.0 && r.vy == 0.0 && r.box.x1 == moving.x1 && FlushY(r.box, obstacle, vy))
  {
  }

  // ---------------------------------------------------------------------
  // The library's own examples

  /** A box resting on another and moving down stays where it is, and stops. */
  lemma SlideRestingExample()
    ensures Slide(Box(0.0, 1.0, 1.0, 2.0), Box(0.0, 0.0, 1.0, 1.0), 0.0, -1.0)
            == Resolution(Box(0.0, 1.0, 1.0, 2.0), 0.0, 0.0)
  {
    var m, ob := Box(0.0, 1.0, 1.0, 2.0), Box(0.0, 0.0, 1.0, 1.0);
    assert IntersectionTime(1.0, 0.0) < IntersectionTime(0.0, -1.0) by {
      assert IntersectionTime(1.0, 0.0) == -HUGE;
      assert IntersectionTime(0.0, -1.0) == 0.0;
    }
    assert OverlapInDirection(m, ob, 0.0, -1.0) == (1.0, 0.0);
    assert Translate(m, 0.0, 0.0) == m;
  }

  /** Without velocity, the box is pushed out sideways, to the left here ... */
  lemma SlidePopOutLeftExample()
    ensures Slide(Box(0.0, 0.0, 1.0, 1.0), Box(0.6, 0.5, 1.6, 1.5), 0.0, 0.0)
            == Resolution(Box(-0.4, 0.0, 0.6, 1.0), 0.0, 0.0)
  {
    assert Abs(0.6 - 1.0) == 0.4 && Abs(1.6 - 0.0) == 1.6;
    assert Abs(0.5 - 1.0) == 0.5 && Abs(1.5 - 0.0) == 1.5;
  }

  /** ... and to the right when the two boxes swap roles. */
  lemma SlidePopOutRightExample()
    ensures Slide(Box(0.6, 0.5, 1.6, 1.5), Box(0.0, 0.0, 1.0, 1.0), 0.0, 0.0)
            == Resolution(Box(1.0, 0.5, 2.0, 1.5), 0.0, 0.0)
  {
  }

  /** Moving up and right under a ledge: the box slides along x, its y motion stopped. */
  lemma SlideInYExample()
    ensures Slide(Box(1.0, 0.25, 2.0, 1.25), Box(0.5, 1.1, 1.5, 2.6), 1.0, 0.25)
            == Resolution(Box(1.0, 0.1, 2.0, 1.1), 1.0, 0.0)
  {
  }

  /** Moving up and right into a wall: the box slides along y, its x motion stopped. */
  lemma SlideInXExample()
    ensures Slide(Box(1.0, 0.25, 2.0, 1.25), Box(1.5, 0.5, 2.5, 1.5), 1.0, 0.25)
            == Resolution(Box(0.5, 0.25, 1.5, 1.25), 0.0, 0.25)
  {
  }

  /** Moving down and left into a wall. */
  lemma SlideNegativeXExample()
    ensures Slide(Box(0.5, 0.25, 1.5, 1.25), Box(0.0, 0.0, 1.0, 1.0), -1.0, -0.25)
            == Resolution(Box(1.0, 0.25, 2.0, 1.25), 0.0, -0.25)
  {
  }
}
