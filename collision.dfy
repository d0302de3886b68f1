/** The axis-by-axis resolution of a moving hitbox against the static collision
    geometry, as the `collision(direction)` methods of Enemy and Tiger perform it
    (code/sprites.py). The loops themselves live in the classes of module Sprites;
    this module states, as functions, what one pass of such a loop computes, and
    proves what the passes guarantee. */
module Collision {
  import opened Geometry

  /** The component of a heading along `axis`. */
  function Along(d: Vec, axis: Axis): int {
    match axis
    case Horizontal => d.x
    case Vertical => d.y
  }

  /** The coordinate of a box's corner along `axis`. */
  function Coord(r: Rect, axis: Axis): int {
    match axis
    case Horizontal => r.x
    case Vertical => r.y
  }

  /** One iteration for one obstacle: if `wall` overlaps `box`, the edge of `box`
      that leads in the direction of travel is put against the facing edge of `wall`.
      A zero component on the axis moves nothing. */
  function Clamp(box: Rect, dir: Vec, wall: Rect, axis: Axis): Rect {
    if !wall.Overlaps(box) then box
    else
      match axis
      case Horizontal =>
        if dir.x > 0 then box.WithRight(wall.Left())
        else if dir.x < 0 then box.WithLeft(wall.Right())
        else box
      case Vertical =>
        if dir.y < 0 then box.WithTop(wall.Bottom())
        else if dir.y > 0 then box.WithBottom(wall.Top())
        else box
  }

  /** The Enemy's pass: every obstacle in turn, each tested against the box as the
      earlier obstacles left it. */
  function ClampAll(box: Rect, dir: Vec, walls: seq<Rect>, axis: Axis): Rect
    decreases |walls|
  {
    if walls == [] then box
    else Clamp(ClampAll(box, dir, walls[..|walls| - 1], axis), dir, walls[|walls| - 1], axis)
  }

  /** The Tiger's iteration for one obstacle: the same clamp, and on contact the
      heading's component on `axis` is negated, whatever its sign (zero stays zero). */
  function Bounce(box: Rect, dir: Vec, wall: Rect, axis: Axis): (Rect, Vec) {
    if wall.Overlaps(box) then (Clamp(box, dir, wall, axis), FlipOn(dir, axis))
    else (box, dir)
  }

  /** The Tiger's pass: later obstacles see the box and the heading as the earlier
      ones left them, so a second contact clamps by the reversed heading. */
  function BounceAll(box: Rect, dir: Vec, walls: seq<Rect>, axis: Axis): (Rect, Vec)
    decreases |walls|
  {
    if walls == [] then (box, dir)
    else
      var (b, d) := BounceAll(box, dir, walls[..|walls| - 1], axis);
      Bounce(b, d, walls[|walls| - 1], axis)
  }

  /** How many obstacles the Tiger's pass found overlapping at their turn. */
  function Contacts(box: Rect, dir: Vec, walls: seq<Rect>, axis: Axis): nat
    decreases |walls|
  {
    if walls == [] then 0
    else
      var prefix := walls[..|walls| - 1];
      Contacts(box, dir, prefix, axis) + (if walls[|walls| - 1].Overlaps(BounceAll(box, dir, prefix, axis).0) then 1 else 0)
  }

  /** A pass changes only the coordinate of the axis it processes: size and the
      other coordinate are kept. */
  lemma {:induction false} ClampAllKeepsShape(box: Rect, dir: Vec, walls: seq<Rect>, axis: Axis)
    ensures ClampAll(box, dir, walls, axis).w == box.w
    ensures ClampAll(box, dir, walls, axis).h == box.h
    ensures axis == Horizontal ==> ClampAll(box, dir, walls, axis).y == box.y
    ensures axis == Vertical ==> ClampAll(box, dir, walls, axis).x == box.x
    decreases |walls|
  {
    if walls != [] {
      ClampAllKeepsShape(box, dir, walls[..|walls| - 1], axis);
    }
  }

  /** With no motion on the processed axis the pass leaves the box where it is,
      even when it overlaps obstacles. */
  lemma {:induction false} ClampAllStill(box: Rect, dir: Vec, walls: seq<Rect>, axis: Axis)
    requires Along(dir, axis) == 0
    ensures ClampAll(box, dir, walls, axis) == box
    decreases |walls|
  {
    if walls != [] {
      ClampAllStill(box, dir, walls[..|walls| - 1], axis);
    }
  }

  /** Resolution only ever pushes the box back against its motion: a box moving
      towards larger coordinates ends no further along, one moving towards smaller
      coordinates no further back. */
  lemma {:induction false} ClampAllPushesBack(box: Rect, dir: Vec, walls: seq<Rect>, axis: Axis)
    ensures Along(dir, axis) > 0 ==> Coord(ClampAll(box, dir, walls, axis), axis) <= Coord(box, axis)
    ensures Along(dir, axis) < 0 ==> Coord(ClampAll(box, dir, walls, axis), axis) >= Coord(box, axis)
    decreases |walls|
  {
    if walls != [] {
      ClampAllPushesBack(box, dir, walls[..|walls| - 1], axis);
      ClampAllKeepsShape(box, dir, walls[..|walls| - 1], axis);
    }
  }

  /** A box that overlaps no obstacle is not moved by the pass. */
  lemma {:induction false} ClampAllNoContact(box: Rect, dir: Vec, walls: seq<Rect>, axis: Axis)
    requires forall k :: 0 <= k < |walls| ==> !walls[k].Overlaps(box)
    ensures ClampAll(box, dir, walls, axis) == box
    decreases |walls|
  {
    if walls != [] {
      ClampAllNoContact(box, dir, walls[..|walls| - 1], axis);
    }
  }

  /** Against one obstacle it overlaps, the box's leading edge ends exactly on the
      obstacle's facing edge: no overlap is left and no gap is introduced. */
  lemma ClampMeetsEdge(box: Rect, dir: Vec, wall: Rect, axis: Axis)
    requires wall.Overlaps(box)
    ensures axis == Horizontal && dir.x > 0 ==> ClampAll(box, dir, [wall], axis).Right() == wall.Left()
    ensures axis == Horizontal && dir.x < 0 ==> ClampAll(box, dir, [wall], axis).Left() == wall.Right()
    ensures axis == Vertical && dir.y < 0 ==> ClampAll(box, dir, [wall], axis).Top() == wall.Bottom()
    ensures axis == Vertical && dir.y > 0 ==> ClampAll(box, dir, [wall], axis).Bottom() == wall.Top()
    ensures Along(dir, axis) != 0 ==> !wall.Overlaps(ClampAll(box, dir, [wall], axis))
    ensures Along(dir, axis) == 0 ==> ClampAll(box, dir, [wall], axis) == box
  {
    assert [wall][..0] == [];
  }

  /** The Tiger's heading after a pass: its component on the axis is negated once
      per contact, so it is reversed after an odd number of contacts and restored
      after an even number; the other component is never touched. */
  lemma {:induction false} BounceAllFlips(box: Rect, dir: Vec, walls: seq<Rect>, axis: Axis)
    ensures BounceAll(box, dir, walls, axis).1
         == if Contacts(box, dir, walls, axis) % 2 == 0 then dir else FlipOn(dir, axis)
    decreases |walls|
  {
    if walls != [] {
      BounceAllFlips(box, dir, walls[..|walls| - 1], axis);
    }
  }

  /** The Tiger's pass moves its box exactly as the Enemy's pass would as long as
      at most one obstacle is met; only a second contact, made with the reversed
      heading, can clamp differently. */
  lemma {:induction false} BounceAllMatchesClamp(box: Rect, dir: Vec, walls: seq<Rect>, axis: Axis)
    requires Contacts(box, dir, walls, axis) <= 1
    ensures BounceAll(box, dir, walls, axis).0 == ClampAll(box, dir, walls, axis)
    decreases |walls|
  {
    if walls != [] {
      var prefix := walls[..|walls| - 1];
      var last := walls[|walls| - 1];
      BounceAllMatchesClamp(box, dir, prefix, axis);
      BounceAllFlips(box, dir, prefix, axis);
      var (b, d) := BounceAll(box, dir, prefix, axis);
      if last.Overlaps(b) {
        assert Contacts(box, dir, prefix, axis) == 0;
        assert d == dir;
      }
    }
  }

  /** A box that overlaps no obstacle keeps both its place and its heading. */
  lemma {:induction false} BounceAllNoContact(box: Rect, dir: Vec, walls: seq<Rect>, axis: Axis)
    requires forall k :: 0 <= k < |walls| ==> !walls[k].Overlaps(box)
    ensures BounceAll(box, dir, walls, axis) == (box, dir)
    ensures Contacts(box, dir, walls, axis) == 0
    decreases |walls|
  {
    if walls != [] {
      BounceAllNoContact(box, dir, walls[..|walls| - 1], axis);
    }
  }

  /** One obstacle met head-on: the Tiger's box ends against it exactly as the
      Enemy's would, and the component of its heading on that axis changes sign. */
  lemma BounceOffWall(box: Rect, dir: Vec, wall: Rect, axis: Axis)
    requires wall.Overlaps(box)
    ensures BounceAll(box, dir, [wall], axis).0 == ClampAll(box, dir, [wall], axis)
    ensures Along(BounceAll(box, dir, [wall], axis).1, axis) == -Along(dir, axis)
    ensures Contacts(box, dir, [wall], axis) == 1
  {
    assert [wall][..0] == [];
  }
}
