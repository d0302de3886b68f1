/** Integer stand-ins for pygame's Vector2 and FRect.

    Units. A heading (a unit vector in the game) is stored scaled by
    `HeadingScale`; durations are whole milliseconds. A position is counted in
    `PixelUnits` per pixel, chosen so that `heading * speed * dt`, with `speed`
    in pixels per second and `dt` in milliseconds, is exactly the displacement
    in position units: (h / HeadingScale) * speed * (dt / 1000) pixels is
    h * speed * dt units. Sizes and distances the game gives in pixels are
    converted with `Px`. */
module Geometry {

  /** The scale of a stored heading: a unit vector has length `HeadingScale`. */
  const HeadingScale := 1000
  /** Position units per pixel: one pixel per second over one millisecond, per unit of heading. */
  const PixelUnits := 1000 * HeadingScale

  /** `n` pixels in position units. */
  function Px(n: nat): nat { n * PixelUnits }

  /** A 2-D vector: a position, a displacement or a heading. */
  datatype Vec = Vec(x: int, y: int) {
    function Plus(o: Vec): Vec { Vec(x + o.x, y + o.y) }
    function Minus(o: Vec): Vec { Vec(x - o.x, y - o.y) }
    function Scale(k: int): Vec { Vec(x * k, y * k) }
  }

  const Zero: Vec := Vec(0, 0)

  /** The displacement of `px` pixels along the stored heading `d`. */
  function Ahead(d: Vec, px: nat): Vec { d.Scale(px * (PixelUnits / HeadingScale)) }

  function Sign(n: int): int { if n > 0 then 1 else if n < 0 then -1 else 0 }

  /** `u` points into the same quadrant as `v`, component by component, as the
      normalization of `v` does; for a non-zero `v` it is therefore non-zero. */
  predicate PointsAlong(u: Vec, v: Vec) {
    Sign(u.x) == Sign(v.x) && Sign(u.y) == Sign(v.y)
  }

  /** The two passes of every `collision(direction)` call: 'horizontal' and the other one. */
  datatype Axis = Horizontal | Vertical

  /** Negates the component of `d` that belongs to `axis` (the tiger's bounce). */
  function FlipOn(d: Vec, axis: Axis): Vec {
    match axis
    case Horizontal => Vec(-d.x, d.y)
    case Vertical => Vec(d.x, -d.y)
  }

  /** An axis-aligned box given by its top-left corner and its size, as pygame's FRect. */
  datatype Rect = Rect(x: int, y: int, w: nat, h: nat) {
    function Left(): int { x }
    function Right(): int { x + w }
    function Top(): int { y }
    function Bottom(): int { y + h }
    function Center(): Vec { Vec(x + w / 2, y + h / 2) }

    /** Assigning `rect.right = v`: the box moves, its size stays. */
    function WithRight(v: int): Rect { Rect(v - w, y, w, h) }
    /** Assigning `rect.left = v`. */
    function WithLeft(v: int): Rect { Rect(v, y, w, h) }
    /** Assigning `rect.top = v`. */
    function WithTop(v: int): Rect { Rect(x, v, w, h) }
    /** Assigning `rect.bottom = v`. */
    function WithBottom(v: int): Rect { Rect(x, v - h, w, h) }

    /** `rect.x += dx; rect.y += dy`. */
    function Shift(d: Vec): Rect { Rect(x + d.x, y + d.y, w, h) }

    /** pygame's `colliderect`: a box of zero width or height touches nothing,
        and boxes that only share an edge do not overlap. */
    predicate Overlaps(o: Rect) {
      && w > 0 && h > 0 && o.w > 0 && o.h > 0
      && x < o.x + o.w && o.x < x + w
      && y < o.y + o.h && o.y < y + h
    }

    /** `inflate(dw, dh)` for even `dw` and `dh`: grows by half of each on either side,
        keeping the centre. */
    function Inflate(dw: nat, dh: nat): Rect {
      Rect(x - dw / 2, y - dh / 2, w + dw, h + dh)
    }
  }

  /** `surf.get_frect(center = c)` for a box of size w x h (in position units; exact for even sizes). */
  function CenteredAt(c: Vec, w: nat, h: nat): Rect {
    Rect(c.x - w / 2, c.y - h / 2, w, h)
  }
}
