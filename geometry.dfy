/** The part of pygame's integer rectangle that the game relies on. */
module Geometry {

  /** An axis-aligned box with its top-left corner at (x, y); y grows downwards. */
  datatype Rect = Rect(x: int, y: int, width: int, height: int) {

    /** The `bottom` attribute: the first row below the box. */
    function Bottom(): int { y + height }

    /** The `right` attribute: the first column right of the box. */
    function Right(): int { x + width }

    /** Assigning `bottom` moves the box vertically and keeps its size. */
    function WithBottom(b: int): (r: Rect)
      ensures r.Bottom() == b
      ensures r.x == x && r.width == width && r.height == height
    {
      this.(y := b - height)
    }

    /** The pixel (px, py) lies inside the box (left and top edges included, right and bottom excluded). */
    predicate Contains(px: int, py: int) {
      x <= px < x + width && y <= py < y + height
    }

    /** `colliderect`: the two boxes overlap strictly on both axes. */
    predicate CollidesWith(other: Rect) {
      x < other.x + other.width && other.x < x + width &&
      y < other.y + other.height && other.y < y + height
    }
  }

  /** Two non-empty boxes collide exactly when some pixel lies in both. */
  lemma CollidesIffSharedPixel(a: Rect, b: Rect)
    requires a.width > 0 && a.height > 0 && b.width > 0 && b.height > 0
    ensures a.CollidesWith(b) <==> exists px, py :: a.Contains(px, py) && b.Contains(px, py)
  {
    if a.CollidesWith(b) {
      var px := if a.x < b.x then b.x else a.x;
      var py := if a.y < b.y then b.y else a.y;
      assert a.Contains(px, py) && b.Contains(px, py);
    }
    if exists px, py :: a.Contains(px, py) && b.Contains(px, py) {
      var px, py :| a.Contains(px, py) && b.Contains(px, py);
      assert a.CollidesWith(b);
    }
  }

  /** Collision does not depend on which box asks. */
  lemma CollidesSymmetric(a: Rect, b: Rect)
    ensures a.CollidesWith(b) <==> b.CollidesWith(a)
  {
  }

  /** Boxes that only share an edge do not collide. */
  lemma TouchingDoesNotCollide(a: Rect, b: Rect)
    requires a.Right() == b.x || b.Right() == a.x || a.Bottom() == b.y || b.Bottom() == a.y
    ensures !a.CollidesWith(b) && !b.CollidesWith(a)
  {
    CollidesSymmetric(a, b);
  }
}
