/**
 * The browser facts the game rules consume: the canvas size and the numeric
 * functions of `Math` that the rules call. Trigonometry and square roots are
 * left abstract (they are fields of `Host`), so nothing here claims anything
 * about floating-point results; only the arithmetic the game itself does
 * around them is written out.
 */
module Geometry {

  /** Canvas size in pixels and the `Math` functions the game calls. */
  datatype Host = Host(
    width: real,
    height: real,
    cos: real -> real,
    sin: real -> real,
    sqrt: real -> real,
    atan2: (real, real) -> real)

  /** `Math.PI`, as the decimal JavaScript prints for it. */
  const Pi: real := 3.141592653589793

  function Min(a: real, b: real): real {
    if a <= b then a else b
  }

  /** `canvasScaleFactor()`: the smaller canvas side divided by 200. */
  function ScaleFactor(h: Host): (k: real)
    ensures k * 200.0 == h.width || k * 200.0 == h.height
    ensures k * 200.0 <= h.width && k * 200.0 <= h.height
  {
    Min(h.width, h.height) / 200.0
  }

  /** `updatePosition(x, y, rotation, speed)`: one constant-velocity step. */
  function UpdatePosition(h: Host, x: real, y: real, rotation: real, speed: real): (real, real) {
    (x + h.cos(rotation) * speed * ScaleFactor(h),
     y + h.sin(rotation) * speed * ScaleFactor(h))
  }

  /** A step at speed zero leaves the position where it was, whatever the heading. */
  lemma ZeroSpeedStaysPut(h: Host, x: real, y: real, rotation: real)
    ensures UpdatePosition(h, x, y, rotation, 0.0) == (x, y)
  {
  }

  /** The test `x < 0 || y < 0 || x > canvas.width || y > canvas.height` of `Plane.update`. */
  predicate OutsideCanvas(h: Host, x: real, y: real) {
    x < 0.0 || y < 0.0 || x > h.width || y > h.height
  }

  /** `{x, y, dx, dy}` rectangles, as `Plane.hitbox` returns them. */
  datatype Box = Box(x: real, y: real, dx: real, dy: real)

  /** `hitTest`: strict on all four sides, so the box's border is outside it. */
  predicate StrictlyInside(b: Box, px: real, py: real) {
    b.x < px && b.y < py && px < b.x + b.dx && py < b.y + b.dy
  }

  function Abs(a: real): real {
    if a < 0.0 then -a else a
  }

  /** The square of side `side` centred on `(cx, cy)`. */
  function CentredSquare(cx: real, cy: real, side: real): (b: Box)
    ensures b.dx == side && b.dy == side
    ensures b.x + side / 2.0 == cx && b.y + side / 2.0 == cy
  {
    Box(cx - side / 2.0, cy - side / 2.0, side, side)
  }

  /**
   * A point is strictly inside the centred square exactly when it is closer
   * than half a side to the centre on both axes.
   */
  lemma CentredSquareInside(cx: real, cy: real, side: real, px: real, py: real)
    ensures StrictlyInside(CentredSquare(cx, cy, side), px, py)
        <==> Abs(px - cx) < side / 2.0 && Abs(py - cy) < side / 2.0
  {
  }
}
