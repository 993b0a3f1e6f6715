# pyaabb in Dafny

A model of pyaabb, a small library of collision utilities for 2D
axis-aligned bounding boxes. It has three parts.

- **Pair detection** (`collisions`). It finds every pair of boxes that
  overlap, either within one list of boxes or between two lists. The
  library fills a boolean matrix with the overlap test for all pairs. With
  one list, it clears the diagonal and everything below it, in place. It
  returns the indices of the true cells in row-major order. The method
  `Collisions.Collisions` does the same on an `array2<bool>`. It is proved
  equal to the specification `Collisions.CollisionList`, and the lemmas
  about that specification state membership, order, the upper-triangle
  property and the mirror property.
- **Slide resolution** (`slide`). A box that has moved into a static box
  (called `obstacle` here, since `static` is a Dafny keyword) is put back
  flush against it along one axis. Its velocity along that axis is set to
  zero, so it slides along the surface. With zero velocity it is popped out
  along the axis that needs the shorter move. These are pure functions.
- **Time-of-impact ranking** (`time_to_collisions`). For each colliding
  pair it gives the smaller of the two per-axis intersection times. It is a
  method with a loop over the pairs and velocities in lockstep.

Coordinates and velocities are `real`. `HUGE` is the real `1e90`. The
library's corner constants `X1, Y1, X2, Y2` (pyaabb/__init__.py:49) become
the fields `x1, y1, x2, y2` of `Boxes.Box`.

Points where the model follows the code rather than a description of it:

- The overlap test is strict on all four sides (pyaabb/__init__.py:43-44).
  Boxes that only share an edge or a corner are not reported. The
  docstring of `collisions` (pyaabb/__init__.py:8) speaks of boxes "in
  contact", which touching boxes are; the code does not report them. The
  library's own example relies on the strict test: boxes 0 and 2
  of tests/test_collides.py:7-12 touch at x = 1 and are not reported.
- `time_to_collisions` divides the y overlap by the horizontal velocity
  component `velocity[0]` (pyaabb/__init__.py:91). The model keeps this.
  `TimeToImpact.ExampleUsesHorizontalSpeedForY` shows that the library's
  expected value -0.5 depends on it: against the vertical component the y
  time would be -HUGE.
- `slide` with a nonzero velocity zeroes one velocity component and keeps
  the other. When the kept one was already zero, both come back zero. For
  example, a box moving straight down onto another box stops
  (`Slide.SlideRestingExample`, `Slide.SlideOneAxisMotion`).
- `_pop_out_minimum_direction` promises to move the box the minimum needed
  to stop overlapping (pyaabb/__init__.py:121), but it never checks for an
  overlap. It always lines up one edge of the box with the line through
  the facing side of the obstacle, along one axis, and keeps the other
  coordinate. A box clear of the obstacle is moved even though nothing had
  to be resolved, and it can still end up not touching the obstacle
  (`Slide.PopOutPullsSeparatedBox`). For overlapping boxes the move is a
  shortest one (`Slide.PopOutIsShortest`).

## Model

| member | source | states |
|---|---|---|
| `Boxes.Translate` | pyaabb/__init__.py:79-80 | Adding one offset to both corners keeps width and height, and moves the lower-left corner by exactly that offset. |
| `Boxes.Overlaps` | pyaabb/__init__.py:43-46 | The per-pair test: lower-left of the first box strictly below and left of the upper-right of the second, and upper-right of the first strictly above and right of the lower-left of the second. |
| `Boxes.OverlapsSymmetric` | pyaabb/__init__.py:43-46 | The strict overlap test gives the same answer with its arguments swapped. |
| `Boxes.TouchingDoesNotOverlap` | pyaabb/__init__.py:43-44 | Boxes that meet along a vertical or horizontal line do not overlap, in either order. |
| `Boxes.OverlapsIffCommonInteriorPoint` | pyaabb/__init__.py:43-46 | For boxes of positive size, the test holds exactly when their open interiors share a point. |
| `Collisions.IdentifyOverlapping` | pyaabb/__init__.py:36-46 | Cell (i, j) of the new matrix is the overlap test of box i of the first set against box j of the second. |
| `Collisions.ClearLowerTriangle` | pyaabb/__init__.py:30-31 | In place, every cell on or below the diagonal becomes false and every cell above it keeps its value. |
| `Collisions.NonZero` | pyaabb/__init__.py:32 | The result holds exactly the indices of the true cells, strictly increasing in row-major order. |
| `Collisions.Collisions` | pyaabb/__init__.py:5-33 | The result holds exactly the reported pairs, in row-major order, and equals `CollisionList`. A pair is reported when its boxes overlap and, with one set, i < j. |
| `Collisions.CollisionListSpec` | pyaabb/__init__.py:24-33 | The specification list contains a pair if and only if it is reported, and it is strictly row-major. |
| `Collisions.RowMajorUnique` | pyaabb/__init__.py:32-33 | Two strictly row-major lists with the same pairs are equal, so the output order is fully determined. |
| `Collisions.SingleSetUpperTriangle` | pyaabb/__init__.py:30-31 | With one set, there are no self-pairs and no pair also appears mirrored. |
| `Collisions.SingleSetMissesNoPair` | pyaabb/__init__.py:29-31 | With one set, every two distinct overlapping boxes are reported as (smaller index, larger index). |
| `Collisions.TwoSetMirror` | pyaabb/__init__.py:25-29 | (i, j) is reported for sets (A, B) if and only if (j, i) is reported for (B, A). |
| `Collisions.SingleSetExample` | tests/test_collides.py:5-16 | On the library's four-box example, the result is exactly [(0, 1), (1, 2)]. |
| `Collisions.TwoSetExample` | tests/test_collides.py:19-34 | On the library's two-group example, the result is [(1, 0)], and [(0, 1)] with the groups swapped. |
| `Slide.OverlapInDirection` | pyaabb/__init__.py:108-117 | Shifting the box by either component along its axis puts its leading edge on the obstacle's facing edge. A velocity of 0 counts as moving in the negative direction. |
| `Slide.OverlapIsTheOnlyFlushingShift` | pyaabb/__init__.py:108-117 | A shift along one axis makes the box flush on that axis if and only if it equals that axis's overlap. |
| `Slide.IntersectionTime` | pyaabb/__init__.py:95-105 | With a nonzero velocity, time times velocity equals the overlap. A zero overlap gives 0. A nonzero overlap with zero velocity gives -HUGE. |
| `Slide.IntersectionTimeIsContactTime` | pyaabb/__init__.py:98-117 | For an axis with nonzero velocity, moving the box along its velocity for that axis's intersection time puts it flush with the obstacle on that axis. (With zero velocity on an axis and a nonzero overlap, the time is -HUGE and nothing is promised.) |
| `Slide.PopOutMinimumDirection` | pyaabb/__init__.py:120-137 | The velocity is zero. The box moves along one axis only and ends with one edge on the line through the facing side of the obstacle, so not overlapping it. It moves no further than any of the four candidate shifts. |
| `Slide.PopOutIsShortest` | pyaabb/__init__.py:120-137 | For an overlapping box, no move along a single axis that clears the obstacle is shorter than the pop-out. |
| `Slide.PopOutTieBreaks` | pyaabb/__init__.py:124-137 | When the smaller x and y moves have equal magnitude, the box moves along y; a strictly smaller x move moves it along x. Equal x candidates pick the obstacle's right edge, and equal y candidates its top edge. |
| `Slide.PopOutPullsSeparatedBox` | pyaabb/__init__.py:120-137 | A unit box at the origin, clear of the unit box at (5, 5), is still moved: up by 4, so that its top lies level with the obstacle's bottom. It stays 4 units to the obstacle's left and does not touch it (`Slide.SeparatedBoxStaysApart`). |
| `Slide.SeparatedBoxStaysApart` | pyaabb/__init__.py:120-137 | After that move the box's top is level with the obstacle's bottom, and a gap of 4 remains along x. |
| `Slide.Slide` | pyaabb/__init__.py:52-80 | Zero velocity gives the pop-out. Otherwise one component is zeroed and the other kept, and the box moves only along the zeroed axis until flush in the direction of travel. Size is kept and the result never overlaps the obstacle. |
| `Slide.SlideAxisChoice` | pyaabb/__init__.py:73-80 | If the x time is strictly below the y time, y is corrected and vx kept. Otherwise, ties included, x is corrected and vy kept. |
| `Slide.SlideOneAxisMotion` | pyaabb/__init__.py:75-80 | A box moving along one axis only, whose overlap on the still axis is nonzero and whose crossing time on the moving axis is above -HUGE, is stopped flush on the moving axis with velocity (0, 0). This is because the still axis gets the -HUGE sentinel. Without those conditions it can keep its velocity, e.g. when it rests flush on a floor and moves sideways. |
| `Slide.SlideRestingExample` | tests/test_slides.py:36-44 | A box resting on another and moving down stays put, with velocity (0, 0). |
| `Slide.SlidePopOutLeftExample` | tests/test_slides.py:47-60 | With zero velocity, the library's example box is pushed left to [[-0.4, 0], [0.6, 1]]. |
| `Slide.SlidePopOutRightExample` | tests/test_slides.py:62-63 | With the roles swapped, the box is pushed right to [[1, 0.5], [2, 1.5]]. |
| `Slide.SlideInYExample` | tests/test_slides.py:66-80 | Under a ledge, the result is [[1, 0.1], [2, 1.1]] with velocity (1, 0). |
| `Slide.SlideInXExample` | tests/test_slides.py:83-98 | Against a wall, the result is [[0.5, 0.25], [1.5, 1.25]] with velocity (0, 0.25). |
| `Slide.SlideNegativeXExample` | tests/test_slides.py:100-115 | Moving left, the result is [[1, 0.25], [2, 1.25]] with velocity (0, -0.25). |
| `TimeToImpact.PairTime` | pyaabb/__init__.py:86-92 | In closed form over the two directional overlaps: moving right, the time times vx is the smaller overlap; moving left, the larger one; with vx = 0, the time is 0 if both overlaps are 0 and -HUGE otherwise. The y overlap is divided by the horizontal component vx too. |
| `TimeToImpact.TimeToCollisions` | pyaabb/__init__.py:83-93 | The output length is the shorter of the two input lengths. Element k is the time of pair k with velocity k. |
| `TimeToImpact.PairTimeIgnoresVerticalSpeed` | pyaabb/__init__.py:88-91 | The vertical component affects the time only through its sign. |
| `TimeToImpact.TimeToCollisionsExample` | tests/test_collides.py:36-50 | For the library's example pairs (0, 1) and (0, 2) with velocity (1, 0), the times are -0.5 and -0.1. |
| `TimeToImpact.ExampleOverlaps` | pyaabb/__init__.py:108-117 | In the first example pair, the directional overlaps are -0.5 along x and 2 along y. |
| `TimeToImpact.ExampleUsesHorizontalSpeedForY` | pyaabb/__init__.py:91 | In that example the y time is 2 against the horizontal component, and would be -HUGE against the vertical one. |

## Left out

- Floating-point rounding and the tolerance of `np.allclose`: all arithmetic is exact over `real`.
- NumPy array shapes, broadcasting and fancy indexing: boxes are a datatype, lists are sequences, and pairs are `(nat, nat)`. Malformed shapes, and the errors NumPy raises for them, are not modelled.
- `TimeToImpact.TimeToCollisions`: requires every index of the paired prefix to be in range. Python would raise `IndexError`, or wrap a negative index, instead.
- Box well-formedness (`x1 <= x2`, `y1 <= y2`) is never checked by the library. The model accepts any box, and only `Boxes.OverlapsIffCommonInteriorPoint` asks for positive size.
- The plotting helper and image output of tests/test_slides.py: visualisation only.
- tests/test_collides.py:43-47 passes arrays of boxes where index pairs are expected. Its arguments `boxes[[0, 0]]` and `boxes[[1, 2]]` set box 0 as the moving box against boxes 1 and 2; the example lemma states those two pairs, (0, 1) and (0, 2), directly.
- tests/test_collides.py:53-57 passes single 2 x 2 arrays instead of lists of boxes; that call shape is not modelled.
- setup.py: packaging metadata.
