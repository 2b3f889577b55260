/**
 * The triangulation support of the transformer: exact first-match lookup of points,
 * the midpoint set, recovery of triangle indices from the triangulator's output, the
 * containment search over triangles and the per-triangle transform tables.
 */
module Triangulation {
  import opened Wrappers
  import opened Geometry

  /** `i` is the first position of `p` in `points`. */
  predicate IsFirstMatch(points: seq<Point2D>, i: int, p: Point2D)
  {
    0 <= i < |points| && points[i] == p && forall j :: 0 <= j < i ==> points[j] != p
  }

  /** Exact first-match lookup: the first index holding `p`, or -1 when there is none. */
  function FindIndex(points: seq<Point2D>, p: Point2D): (r: int)
    ensures -1 <= r < |points|
    ensures r >= 0 ==> IsFirstMatch(points, r, p)
    ensures r == -1 <==> p !in points
  {
    if points == [] then -1
    else if points[0] == p then 0
    else
      var k := FindIndex(points[1..], p);
      assert p in points[1..] ==> p in points;
      if k < 0 then -1 else k + 1
  }

  /**
   * Looking up a correspondence point yields an index no later than its own whose entry is
   * the same point; for pairwise distinct points it is the point's own index.
   */
  lemma FindIndexOfMember(points: seq<Point2D>, i: nat)
    requires i < |points|
    ensures 0 <= FindIndex(points, points[i]) <= i
    ensures points[FindIndex(points, points[i])] == points[i]
    ensures (forall j, k :: 0 <= j < k < |points| ==> points[j] != points[k]) ==> FindIndex(points, points[i]) == i
  {
  }

  /** The midpoint of every correspondence pair, index by index. */
  function Midpoints(refPoints: seq<Point2D>, robotPoints: seq<Point2D>): seq<Point2D>
    requires |refPoints| == |robotPoints|
  {
    seq(|refPoints|, i requires 0 <= i < |refPoints| => Midpoint(refPoints[i], robotPoints[i]))
  }

  /** The triangle's indices are valid positions in a list of length `n`. */
  predicate IndicesIn(t: Triangle, n: int)
  {
    t.i0 < n && t.i1 < n && t.i2 < n
  }

  predicate AllIndicesIn(triangles: seq<Triangle>, n: int)
  {
    forall k :: 0 <= k < |triangles| ==> IndicesIn(triangles[k], n)
  }

  /**
   * Index recovery of one triangulator triangle: each corner is looked up in the midpoint
   * set, first match wins; a corner that is no midpoint makes the recovery fail.
   */
  function RecoverTriangle(t: PointTriangle, midpoints: seq<Point2D>): (r: Option<Triangle>)
    ensures r.Some? <==> t.p0 in midpoints && t.p1 in midpoints && t.p2 in midpoints
    ensures r.Some? ==>
      IsFirstMatch(midpoints, r.value.i0, t.p0) &&
      IsFirstMatch(midpoints, r.value.i1, t.p1) &&
      IsFirstMatch(midpoints, r.value.i2, t.p2)
  {
    var i0 := FindIndex(midpoints, t.p0);
    var i1 := FindIndex(midpoints, t.p1);
    var i2 := FindIndex(midpoints, t.p2);
    if i0 < 0 || i1 < 0 || i2 < 0 then None else Some(Triangle(i0, i1, i2))
  }

  /** The triangles recovered, and whether every triangulator triangle was recovered. */
  datatype Recovery = Recovery(triangles: seq<Triangle>, complete: bool)

  /** The recovery facts that determine the result of index recovery over `raw`. */
  predicate RecoveryOf(raw: seq<PointTriangle>, midpoints: seq<Point2D>, rec: Recovery)
  {
    && |rec.triangles| <= |raw|
    && (rec.complete <==> |rec.triangles| == |raw|)
    && (forall k :: 0 <= k < |rec.triangles| ==> RecoverTriangle(raw[k], midpoints) == Some(rec.triangles[k]))
    && (!rec.complete ==> RecoverTriangle(raw[|rec.triangles|], midpoints).None?)
  }

  /**
   * Index recovery over the triangulator's list, in order, stopping at the first triangle
   * with a corner that is no midpoint: the result holds the triangles recovered before it.
   */
  function IndexTriangles(raw: seq<PointTriangle>, midpoints: seq<Point2D>): (r: Recovery)
    ensures RecoveryOf(raw, midpoints, r)
  {
    if raw == [] then Recovery([], true)
    else match RecoverTriangle(raw[0], midpoints)
      case None => Recovery([], false)
      case Some(t) =>
        var rest := IndexTriangles(raw[1..], midpoints);
        Recovery([t] + rest.triangles, rest.complete)
  }

  /** The recovery facts determine the recovery: the prefix stops exactly at the first failure. */
  lemma RecoveryOfUnique(raw: seq<PointTriangle>, midpoints: seq<Point2D>, rec: Recovery)
    requires RecoveryOf(raw, midpoints, rec)
    ensures IndexTriangles(raw, midpoints) == rec
  {
    var r := IndexTriangles(raw, midpoints);
    assert |r.triangles| == |rec.triangles|;
    assert r.triangles == rec.triangles;
  }

  /**
   * Recovery succeeds exactly when every corner of every triangulator triangle is a midpoint;
   * then every index is a valid midpoint index whose midpoint is that corner.
   */
  lemma IndexTrianglesComplete(raw: seq<PointTriangle>, midpoints: seq<Point2D>)
    ensures var r := IndexTriangles(raw, midpoints);
      r.complete <==> forall k :: 0 <= k < |raw| ==> raw[k].p0 in midpoints && raw[k].p1 in midpoints && raw[k].p2 in midpoints
    ensures var r := IndexTriangles(raw, midpoints);
      AllIndicesIn(r.triangles, |midpoints|) &&
      forall k :: 0 <= k < |r.triangles| ==>
        midpoints[r.triangles[k].i0] == raw[k].p0 &&
        midpoints[r.triangles[k].i1] == raw[k].p1 &&
        midpoints[r.triangles[k].i2] == raw[k].p2
  {
    var r := IndexTriangles(raw, midpoints);
    if !r.complete {
      assert RecoverTriangle(raw[|r.triangles|], midpoints).None?;
    }
    forall k | 0 <= k < |r.triangles|
      ensures IndicesIn(r.triangles[k], |midpoints|)
    {
      assert RecoverTriangle(raw[k], midpoints) == Some(r.triangles[k]);
    }
  }

  /** The triangle's corners, taken from one correspondence list. */
  function TrianglePoints(t: Triangle, points: seq<Point2D>): (r: PointTriangle)
    requires IndicesIn(t, |points|)
    ensures r.p0 in points && r.p1 in points && r.p2 in points
    // the points the triangle indexes lie in the triangle they span
    ensures InTriangle(r, points[t.i0]) && InTriangle(r, points[t.i1]) && InTriangle(r, points[t.i2])
  {
    PointTriangle(points[t.i0], points[t.i1], points[t.i2])
  }

  predicate Contains(t: Triangle, points: seq<Point2D>, p: Point2D)
    requires IndicesIn(t, |points|)
  {
    InTriangle(TrianglePoints(t, points), p)
  }

  /** The lowest index of a triangle whose corners in `points` contain `p`, or -1. */
  function FirstContaining(triangles: seq<Triangle>, points: seq<Point2D>, p: Point2D): (r: int)
    requires AllIndicesIn(triangles, |points|)
    ensures -1 <= r < |triangles|
    ensures r >= 0 ==>
      (Contains(triangles[r], points, p) && forall j :: 0 <= j < r ==> !Contains(triangles[j], points, p))
    ensures r == -1 <==> forall j :: 0 <= j < |triangles| ==> !Contains(triangles[j], points, p)
  {
    if triangles == [] then -1
    else if Contains(triangles[0], points, p) then 0
    else
      var k := FirstContaining(triangles[1..], points, p);
      if k < 0 then -1 else k + 1
  }

  /** The containment search: scan the triangles in order and stop at the first that contains `p`. */
  method FindContainingTriangle(triangles: seq<Triangle>, points: seq<Point2D>, p: Point2D) returns (index: int)
    requires AllIndicesIn(triangles, |points|)
    ensures index == FirstContaining(triangles, points, p)
  {
    var ii := 0;
    while ii < |triangles|
      invariant 0 <= ii <= |triangles|
      invariant forall j :: 0 <= j < ii ==> !Contains(triangles[j], points, p)
    {
      var triangle := TrianglePoints(triangles[ii], points);
      if InTriangle(triangle, p) {
        return ii;
      }
      ii := ii + 1;
    }
    return -1;
  }

  /**
   * One transform per triangle, in triangle order: the solver's transform from the
   * triangle's corners in `source` to its corners in `target`.
   */
  function TransformTable(triangles: seq<Triangle>, source: seq<Point2D>, target: seq<Point2D>,
                          solve: (PointTriangle, PointTriangle) -> Affine): (table: seq<Affine>)
    requires AllIndicesIn(triangles, |source|) && AllIndicesIn(triangles, |target|)
  {
    seq(|triangles|, k requires 0 <= k < |triangles| =>
      solve(TrianglePoints(triangles[k], source), TrianglePoints(triangles[k], target)))
  }
}
