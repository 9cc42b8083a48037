// Axis-aligned rectangles, the inclusive overlap test and the fixed hitbox
// that the engine derives from an entity's or a tile's origin.

module Geometry {

  /** A position on the canvas; every position in this game is integral. */
  datatype Point = Point(x: int, y: int)

  /** An axis-aligned box as the engine's `Rectangle` object holds it. */
  datatype Rect = Rect(left: int, top: int, right: int, bottom: int, width: int, height: int)

  /** The relation between the fields that the `Rectangle` constructor sets up. */
  predicate WellFormed(r: Rect)
  {
    r.right == r.left + r.width && r.bottom == r.top + r.height
  }

  /** The `Rectangle(left, top, width, height)` constructor: right and bottom are derived. */
  function MakeRect(left: int, top: int, width: int, height: int): (r: Rect)
    ensures WellFormed(r)
    ensures r.left == left && r.top == top && r.width == width && r.height == height
  {
    Rect(left, top, left + width, top + height, width, height)
  }

  /** The box has a non-negative size on both axes (as every hitbox has). */
  predicate NonNegative(r: Rect)
  {
    r.left <= r.right && r.top <= r.bottom
  }

  /** Point `p` lies in `r`, edges included. */
  predicate Contains(r: Rect, p: Point)
  {
    r.left <= p.x <= r.right && r.top <= p.y <= r.bottom
  }

  function Max(a: int, b: int): int
  {
    if a < b then b else a
  }

  function Min(a: int, b: int): int
  {
    if a < b then a else b
  }

  /**
   * `doRectanglesIntersect`: not intersecting iff `r2` lies strictly beyond an
   * edge of `r1`. For boxes of non-negative size this is the same as their
   * common part (from the larger left and top edges to the smaller right and
   * bottom edges) being non-empty.
   */
  predicate Intersects(r1: Rect, r2: Rect)
    ensures NonNegative(r1) && NonNegative(r2) ==>
            (Intersects(r1, r2) <==>
             Max(r1.left, r2.left) <= Min(r1.right, r2.right) && Max(r1.top, r2.top) <= Min(r1.bottom, r2.bottom))
  {
    !(r2.left > r1.right || r2.right < r1.left || r2.top > r1.bottom || r2.bottom < r1.top)
  }

  // The hitbox every collidable thing gets: an inset box around the sprite's feet.
  const HitboxLeft := 28
  const HitboxTop := 124
  const HitboxWidth := 44
  const HitboxHeight := 47

  /** The collision rectangle of an entity or tile drawn at `p`. */
  function Hitbox(p: Point): (r: Rect)
    ensures WellFormed(r) && NonNegative(r)
    ensures r.left == p.x + 28 && r.top == p.y + 124 && r.right == p.x + 72 && r.bottom == p.y + 171
  {
    MakeRect(p.x + HitboxLeft, p.y + HitboxTop, HitboxWidth, HitboxHeight)
  }

  /** The overlap test does not depend on the order of its arguments. */
  lemma IntersectsSymmetric(a: Rect, b: Rect)
    ensures Intersects(a, b) == Intersects(b, a)
  {
  }

  /** Bounds are inclusive: a shared edge is an overlap, a strict gap on either axis is not. */
  lemma InclusiveBounds(a: Rect, b: Rect)
    requires NonNegative(a) && NonNegative(b)
    ensures a.right == b.left && a.top <= b.bottom && b.top <= a.bottom ==> Intersects(a, b)
    ensures a.bottom == b.top && a.left <= b.right && b.left <= a.right ==> Intersects(a, b)
    ensures a.right < b.left || b.right < a.left || a.bottom < b.top || b.bottom < a.top
            ==> !Intersects(a, b)
  {
  }

  /** A rectangle built with a non-negative size overlaps itself. */
  lemma SelfIntersects(left: int, top: int, width: int, height: int)
    requires width >= 0 && height >= 0
    ensures Intersects(MakeRect(left, top, width, height), MakeRect(left, top, width, height))
  {
  }

  /**
   * For rectangles of non-negative size, the exclusion test agrees with the
   * geometric meaning of overlap: the two share at least one point.
   */
  lemma IntersectsIffCommonPoint(a: Rect, b: Rect)
    requires NonNegative(a) && NonNegative(b)
    ensures Intersects(a, b) <==> exists p :: Contains(a, p) && Contains(b, p)
  {
    if Intersects(a, b) {
      var p := Point(Max(a.left, b.left), Max(a.top, b.top));
      assert Contains(a, p) && Contains(b, p);
    }
  }

  /** Two hitboxes overlap iff their origins are at most 44 apart across and 47 apart down. */
  lemma HitboxesIntersect(p: Point, q: Point)
    ensures Intersects(Hitbox(p), Hitbox(q)) <==>
            -HitboxWidth <= p.x - q.x <= HitboxWidth && -HitboxHeight <= p.y - q.y <= HitboxHeight
  {
  }

  /** A player and a rock both at (0, 90) collide. */
  lemma SameOriginCollides()
    ensures Hitbox(Point(0, 90)) == Rect(28, 214, 72, 261, 44, 47)
    ensures Intersects(Hitbox(Point(0, 90)), Hitbox(Point(0, 90)))
  {
  }
}
