/**
 * The global map transform relating the robot map to the reference map (scale, rotation,
 * translation), used for points outside every triangle.
 */
module GlobalTransform {
  import opened Geometry

  datatype MapTransform = MapTransform(scale: Vector2D, rotation: real, translation: Point2D)

  /** The trigonometric functions the rotation branch calls; supplied by the caller. */
  datatype Trig = Trig(cos: real -> real, sin: real -> real)

  /** Rotation of `p` by `angle` about the origin, counter-clockwise for positive angles. */
  function Rotate(trig: Trig, angle: real, p: Point2D): Point2D
  {
    Point2D(trig.cos(angle) * p.x - trig.sin(angle) * p.y, trig.sin(angle) * p.x + trig.cos(angle) * p.y)
  }

  /** Robot map to reference map: scale each component, rotate (unless the rotation is 0), translate. */
  function ToRefByMapTransform(m: MapTransform, trig: Trig, p: Point2D): (r: Point2D)
    // the robot map's origin lands on the translation, whatever the rotation
    ensures p == Point2D(0.0, 0.0) ==> r == m.translation
    // without rotation, un-translating and un-scaling the result gives the point back
    ensures m.rotation == 0.0 && m.scale.x != 0.0 && m.scale.y != 0.0 ==>
      Point2D((r.x - m.translation.x) / m.scale.x, (r.y - m.translation.y) / m.scale.y) == p
  {
    var scaled := Point2D(p.x * m.scale.x, p.y * m.scale.y);
    var rotated := if m.rotation != 0.0 then Rotate(trig, m.rotation, scaled) else scaled;
    Point2D(rotated.x + m.translation.x, rotated.y + m.translation.y)
  }

  /**
   * Reference map to robot map, as the transformer computes it: divide by the scale,
   * rotate by the negated angle (unless the rotation is 0), then subtract the translation.
   */
  function FromRefByMapTransform(m: MapTransform, trig: Trig, p: Point2D): (r: Point2D)
    requires m.scale.x != 0.0 && m.scale.y != 0.0
    // the reference map's origin lands on the negated translation, whatever the rotation
    ensures p == Point2D(0.0, 0.0) ==> r == Point2D(-m.translation.x, -m.translation.y)
    // without rotation, adding the translation back and re-scaling gives the point back
    ensures m.rotation == 0.0 ==>
      Point2D((r.x + m.translation.x) * m.scale.x, (r.y + m.translation.y) * m.scale.y) == p
  {
    var scaled := Point2D(p.x / m.scale.x, p.y / m.scale.y);
    var rotated := if m.rotation != 0.0 then Rotate(trig, -m.rotation, scaled) else scaled;
    Point2D(rotated.x - m.translation.x, rotated.y - m.translation.y)
  }

  /** Without rotation the fallback is `p * scale + t` towards the reference map and `p / scale - t` back. */
  lemma UnrotatedMapTransform(m: MapTransform, trig: Trig, p: Point2D)
    requires m.rotation == 0.0 && m.scale.x != 0.0 && m.scale.y != 0.0
    ensures ToRefByMapTransform(m, trig, p) ==
      Point2D(p.x * m.scale.x + m.translation.x, p.y * m.scale.y + m.translation.y)
    ensures FromRefByMapTransform(m, trig, p) ==
      Point2D(p.x / m.scale.x - m.translation.x, p.y / m.scale.y - m.translation.y)
  {
  }

  /** With unit scale and no rotation the two directions are inverse to each other. */
  lemma UnitScaleRoundTrip(m: MapTransform, trig: Trig, p: Point2D)
    requires m.rotation == 0.0 && m.scale == Point2D(1.0, 1.0)
    ensures FromRefByMapTransform(m, trig, ToRefByMapTransform(m, trig, p)) == p
    ensures ToRefByMapTransform(m, trig, FromRefByMapTransform(m, trig, p)) == p
  {
  }

  /**
   * Without rotation a round trip through both directions moves a point by `t / scale - t`:
   * the directions are inverse only when the scale is 1 or the translation is 0.
   */
  lemma UnrotatedRoundTripDrift(m: MapTransform, trig: Trig, p: Point2D)
    requires m.rotation == 0.0 && m.scale.x != 0.0 && m.scale.y != 0.0
    ensures FromRefByMapTransform(m, trig, ToRefByMapTransform(m, trig, p)) ==
      Point2D(p.x + m.translation.x / m.scale.x - m.translation.x,
              p.y + m.translation.y / m.scale.y - m.translation.y)
  {
  }

  /** Scale 2 and translation (10, 0): the origin maps to (10, 0), which maps back to (-5, 0). */
  lemma ScaledRoundTripCounterexample(trig: Trig)
    ensures var m := MapTransform(Point2D(2.0, 2.0), 0.0, Point2D(10.0, 0.0));
      ToRefByMapTransform(m, trig, Point2D(0.0, 0.0)) == Point2D(10.0, 0.0) &&
      FromRefByMapTransform(m, trig, Point2D(10.0, 0.0)) == Point2D(-5.0, 0.0)
  {
  }

  /**
   * With unit scale, no translation and cosine/sine that are even/odd and satisfy
   * cos^2 + sin^2 = 1 at the angle, the rotated directions are inverse to each other.
   */
  lemma RotatedRoundTrip(m: MapTransform, trig: Trig, p: Point2D)
    requires m.scale == Point2D(1.0, 1.0) && m.translation == Point2D(0.0, 0.0)
    requires trig.cos(-m.rotation) == trig.cos(m.rotation) && trig.sin(-m.rotation) == -trig.sin(m.rotation)
    requires trig.cos(m.rotation) * trig.cos(m.rotation) + trig.sin(m.rotation) * trig.sin(m.rotation) == 1.0
    ensures FromRefByMapTransform(m, trig, ToRefByMapTransform(m, trig, p)) == p
  {
  }

  /** The offset-maps document, translation (30, 20): points outside the reference map still map. */
  lemma OffsetMapExamples(trig: Trig)
    ensures var m := MapTransform(Point2D(1.0, 1.0), 0.0, Point2D(30.0, 20.0));
      ToRefByMapTransform(m, trig, Point2D(79.0, 109.0)) == Point2D(109.0, 129.0) &&
      ToRefByMapTransform(m, trig, Point2D(69.0, 0.0)) == Point2D(99.0, 20.0) &&
      FromRefByMapTransform(m, trig, Point2D(109.0, 60.0)) == Point2D(79.0, 40.0) &&
      FromRefByMapTransform(m, trig, Point2D(0.0, 0.0)) == Point2D(-30.0, -20.0)
  {
  }
}
