/** Axis-aligned bounding-box (AABB) collision between two rectangles. */
module Collision {

  /** A rectangle given by its top-left corner and its size. */
  datatype Rect = Rect(x: real, y: real, width: real, height: real)

  /** Strict overlap of the two rectangles on both axes: rectangles that only
      touch along an edge do not collide. */
  predicate Collides(a: Rect, b: Rect)
  {
    a.x < b.x + b.width &&
    a.x + a.width > b.x &&
    a.y < b.y + b.height &&
    a.y + a.height > b.y
  }

  /** The point (px, py) lies in the open interior of r. */
  ghost predicate Inside(r: Rect, px: real, py: real)
  {
    r.x < px < r.x + r.width && r.y < py < r.y + r.height
  }

  /** Reference definition of overlap: some point lies inside both rectangles. */
  ghost predicate ShareInterior(a: Rect, b: Rect)
  {
    exists px: real, py: real :: Inside(a, px, py) && Inside(b, px, py)
  }

  ghost function Max(u: real, v: real): real { if u < v then v else u }
  ghost function Min(u: real, v: real): real { if u < v then u else v }

  /** For rectangles of positive size, the test agrees with the reference
      definition: they collide exactly when their interiors meet. */
  lemma CollidesIffShareInterior(a: Rect, b: Rect)
    requires a.width > 0.0 && a.height > 0.0
    requires b.width > 0.0 && b.height > 0.0
    ensures Collides(a, b) <==> ShareInterior(a, b)
  {
    if Collides(a, b) {
      var px := (Max(a.x, b.x) + Min(a.x + a.width, b.x + b.width)) / 2.0;
      var py := (Max(a.y, b.y) + Min(a.y + a.height, b.y + b.height)) / 2.0;
      assert Inside(a, px, py) && Inside(b, px, py);
    }
    if ShareInterior(a, b) {
      var px, py :| Inside(a, px, py) && Inside(b, px, py);
      assert Collides(a, b);
    }
  }

  /** The test does not depend on the order of its arguments. */
  lemma CollidesSymmetric(a: Rect, b: Rect)
    ensures Collides(a, b) <==> Collides(b, a)
  {
  }
}
