/**
 * The geometric value types of the transformer (Point2D, Vector2D, Triangle) and the
 * exact predicates the queries need: midpoints, affine application and a
 * boundary-inclusive point-in-triangle test.
 */
module Geometry {

  /** A point in one map's coordinate space. Equality is exact, component by component. */
  datatype Point2D = Point2D(x: real, y: real)

  /** Sizes and scales share the representation of points. */
  type Vector2D = Point2D

  /** A triangle as three indices into the index-aligned correspondence lists. */
  datatype Triangle = Triangle(i0: nat, i1: nat, i2: nat)

  /** A triangle given by its three corner points, as the triangulator reports it. */
  datatype PointTriangle = PointTriangle(p0: Point2D, p1: Point2D, p2: Point2D)

  /** A 2x3 affine matrix [a00 a01 a02; a10 a11 a12], as solved for one triangle pair. */
  datatype Affine = Affine(a00: real, a01: real, a02: real, a10: real, a11: real, a12: real)

  /** Apply an affine matrix to a point (homogeneous coordinate 1). */
  function Apply(m: Affine, p: Point2D): Point2D
  {
    Point2D(m.a00 * p.x + m.a01 * p.y + m.a02, m.a10 * p.x + m.a11 * p.y + m.a12)
  }

  /** The point halfway from `a` to `b`, computed as `a + (b - a) / 2`. */
  function Midpoint(a: Point2D, b: Point2D): (m: Point2D)
    ensures m == Point2D((a.x + b.x) / 2.0, (a.y + b.y) / 2.0)
  {
    Point2D(a.x + (b.x - a.x) / 2.0, a.y + (b.y - a.y) / 2.0)
  }

  /** The midpoint does not depend on which map is treated as primary. */
  lemma MidpointSymmetric(a: Point2D, b: Point2D)
    ensures Midpoint(a, b) == Midpoint(b, a)
    ensures Midpoint(a, a) == a
  {
  }

  /** Twice the signed area of the triangle (a, b, p); positive when p lies left of a->b. */
  function Cross(a: Point2D, b: Point2D, p: Point2D): real
  {
    (b.x - a.x) * (p.y - a.y) - (b.y - a.y) * (p.x - a.x)
  }

  /**
   * Boundary-inclusive containment: `p` is on the same side of (or on) all three edges.
   * A point on an edge or at a corner counts as contained.
   */
  predicate InTriangle(t: PointTriangle, p: Point2D)
  {
    var d0 := Cross(t.p0, t.p1, p);
    var d1 := Cross(t.p1, t.p2, p);
    var d2 := Cross(t.p2, t.p0, p);
    (d0 >= 0.0 && d1 >= 0.0 && d2 >= 0.0) || (d0 <= 0.0 && d1 <= 0.0 && d2 <= 0.0)
  }

  /** Every corner of a triangle is contained in it (the boundary counts). */
  lemma CornersInTriangle(t: PointTriangle)
    ensures InTriangle(t, t.p0) && InTriangle(t, t.p1) && InTriangle(t, t.p2)
  {
  }

  /** Containment depends only on the triangle's corners, not on their order or orientation. */
  lemma InTriangleIgnoresOrder(t: PointTriangle, p: Point2D)
    ensures InTriangle(t, p) == InTriangle(PointTriangle(t.p1, t.p2, t.p0), p)
    ensures InTriangle(t, p) == InTriangle(PointTriangle(t.p0, t.p2, t.p1), p)
  {
  }
}
