/**
 * The Transformer: loads map information once, precomputes a triangulation of the
 * correspondence midpoints with one affine transform per triangle in each direction, and
 * maps points between the reference map and the robot map.
 */
module MapTransformer {
  import opened Wrappers
  import opened Geometry
  import opened MapInfo
  import opened Triangulation
  import opened GlobalTransform

  /** The triangulator: the far corner of the subdivision rectangle (from 0,0) and the points to insert. */
  type Triangulator = (Point2D, seq<Point2D>) -> seq<PointTriangle>

  /** The affine solver: the transform taking the first triangle's corners to the second's. */
  type AffineSolver = (PointTriangle, PointTriangle) -> Affine

  /** The index recovery of the triangulation that loading the map data d computes. */
  function LoadRecovery(d: MapData, triangulate: Triangulator): Recovery
    requires |d.refCorrPoints| == |d.robotCorrPoints|
  {
    var midpoints := Midpoints(d.refCorrPoints, d.robotCorrPoints);
    var corner := BoundingBoxOf(d.refMapSize, d.robotMapSize, d.robotMapTranslation).bottomRight;
    IndexTriangles(triangulate(corner, midpoints), midpoints)
  }

  /** What loading doc into an empty transformer reports: a validation error, a lost triangle or success. */
  function LoadOutcome(doc: Document, probe: string -> ImageProbe, triangulate: Triangulator): Outcome<Error>
  {
    var d := Parse(doc);
    var validation := Validate(d, probe);
    if validation.Fail? then validation
    else if LoadRecovery(d, triangulate).complete then Pass
    else Fail(TrianglePointNotFound)
  }

  /**
   * Loading succeeds exactly when the document is structurally valid, both named images match
   * their declared sizes, and every corner the triangulator returns is one of the midpoints;
   * a failure is never the not-empty error.
   */
  lemma {:induction false} LoadSucceedsIff(doc: Document, probe: string -> ImageProbe, triangulate: Triangulator)
    ensures var d := Parse(doc);
      LoadOutcome(doc, probe, triangulate) == Pass <==>
        StructurallyValid(d) &&
        ImageMatches(d.refMapImageFile, d.refMapSize, probe) &&
        ImageMatches(d.robotMapImageFile, d.robotMapSize, probe) &&
        var midpoints := Midpoints(d.refCorrPoints, d.robotCorrPoints);
        var raw := triangulate(BoundingBoxOf(d.refMapSize, d.robotMapSize, d.robotMapTranslation).bottomRight, midpoints);
        forall k :: 0 <= k < |raw| ==> raw[k].p0 in midpoints && raw[k].p1 in midpoints && raw[k].p2 in midpoints
    ensures LoadOutcome(doc, probe, triangulate) != Fail(NotEmpty)
  {
    var d := Parse(doc);
    if StructurallyValid(d) {
      var midpoints := Midpoints(d.refCorrPoints, d.robotCorrPoints);
      var raw := triangulate(BoundingBoxOf(d.refMapSize, d.robotMapSize, d.robotMapTranslation).bottomRight, midpoints);
      IndexTrianglesComplete(raw, midpoints);
    }
  }

  class Transformer {
    // What a load stores
    var refMapName: string
    var refMapImageFile: string
    var refMapSize: Vector2D
    var robotMapName: string
    var robotMapImageFile: string
    var robotMapSize: Vector2D
    var robotMapScale: Vector2D
    var robotMapRotation: real
    var robotMapTranslation: Point2D
    var refCorrPoints: seq<Point2D>
    var robotCorrPoints: seq<Point2D>

    // Computed once per load: the triangles and one affine transform per triangle and direction
    var triangles: seq<Triangle>
    var toRefTransforms: seq<Affine>
    var toRobotTransforms: seq<Affine>

    /** The loaded data as one value. */
    function Data(): MapData
      reads this
    {
      MapData(refMapName, refMapImageFile, refMapSize, robotMapName, robotMapImageFile, robotMapSize,
              robotMapScale, robotMapRotation, robotMapTranslation, refCorrPoints, robotCorrPoints)
    }

    function MapTransformOf(): MapTransform
      reads this
    {
      MapTransform(robotMapScale, robotMapRotation, robotMapTranslation)
    }

    /** No map information is loaded: every field holds its reset value and there are no triangles. */
    predicate Empty()
      reads this
    {
      refMapName == "" &&
      refMapImageFile == "" &&
      refMapSize == Point2D(0.0, 0.0) &&
      robotMapName == "" &&
      robotMapImageFile == "" &&
      robotMapSize == Point2D(0.0, 0.0) &&
      robotMapScale == Point2D(1.0, 1.0) &&
      robotMapRotation == 0.0 &&
      robotMapTranslation == Point2D(0.0, 0.0) &&
      refCorrPoints == [] &&
      robotCorrPoints == [] &&
      triangles == []
    }

    /**
     * The object invariant: either empty, or holding validated structure; every triangle
     * indexes both (equally long) correspondence lists.
     */
    ghost predicate Valid()
      reads this
    {
      (Empty() || StructurallyValid(Data())) &&
      |refCorrPoints| == |robotCorrPoints| &&
      AllIndicesIn(triangles, |refCorrPoints|)
    }

    /** Both transform tables have an entry for every triangle. */
    predicate TablesCover()
      reads this
    {
      |triangles| <= |toRefTransforms| && |triangles| <= |toRobotTransforms|
    }

    /** The index recovery of the triangulation of the loaded midpoints. */
    ghost function RecoveryFor(triangulate: Triangulator): Recovery
      reads this
      requires |refCorrPoints| == |robotCorrPoints|
    {
      LoadRecovery(Data(), triangulate)
    }

    /** A new transformer is empty. */
    constructor()
      ensures Empty() && Valid() && TablesCover()
      ensures toRefTransforms == [] && toRobotTransforms == []
    {
      refMapName, refMapImageFile, refMapSize := "", "", Point2D(0.0, 0.0);
      robotMapName, robotMapImageFile, robotMapSize := "", "", Point2D(0.0, 0.0);
      robotMapScale, robotMapRotation, robotMapTranslation := Point2D(1.0, 1.0), 0.0, Point2D(0.0, 0.0);
      refCorrPoints, robotCorrPoints, triangles := [], [], [];
      toRefTransforms, toRobotTransforms := [], [];
    }

    /**
     * Load map information from a parsed document into an empty transformer. The staged copy
     * is validated before it is committed; index recovery runs after the commit.
     */
    method Load(doc: Document, probe: string -> ImageProbe, triangulate: Triangulator, solve: AffineSolver)
      returns (r: Outcome<Error>)
      requires Valid()
      modifies this
      ensures Valid()
      ensures !old(Empty()) ==> r == Fail(NotEmpty) && unchanged(this)
      ensures old(Empty()) ==> r == LoadOutcome(doc, probe, triangulate)
      ensures old(Empty()) && Validate(Parse(doc), probe).Fail? ==>
        r == Validate(Parse(doc), probe) && unchanged(this)
      ensures old(Empty()) && Validate(Parse(doc), probe) == Pass ==>
        Data() == Parse(doc) && !Empty() &&
        var recovery := LoadRecovery(Parse(doc), triangulate);
        triangles == recovery.triangles &&
        (recovery.complete ==>
          r == Pass && TablesCover() &&
          toRefTransforms == TransformTable(triangles, robotCorrPoints, refCorrPoints, solve) &&
          toRobotTransforms == TransformTable(triangles, refCorrPoints, robotCorrPoints, solve)) &&
        (!recovery.complete ==>
          r == Fail(TrianglePointNotFound) && toRefTransforms == [] && toRobotTransforms == [])
    {
      if !Empty() {
        return Fail(NotEmpty);
      }
      var loaded := Parse(doc);
      var validation := Validate(loaded, probe);
      if validation.Fail? {
        return validation;
      }
      // Validation passed: take over the staged copy
      r := Commit(loaded, triangulate, solve);
    }

    /** Claim a validated staged copy, then run the precalculation on it. */
    method Commit(loaded: MapData, triangulate: Triangulator, solve: AffineSolver) returns (r: Outcome<Error>)
      requires StructurallyValid(loaded)
      modifies this
      ensures Valid() && Data() == loaded && !Empty()
      ensures var recovery := LoadRecovery(loaded, triangulate);
        triangles == recovery.triangles &&
        (recovery.complete ==>
          r == Pass && TablesCover() &&
          toRefTransforms == TransformTable(triangles, robotCorrPoints, refCorrPoints, solve) &&
          toRobotTransforms == TransformTable(triangles, refCorrPoints, robotCorrPoints, solve)) &&
        (!recovery.complete ==>
          r == Fail(TrianglePointNotFound) && toRefTransforms == [] && toRobotTransforms == [])
    {
      Assign(loaded);
      assert Data() == loaded;
      r := Precalculate(triangulate, solve);
    }

    /** Whole-object assignment from a staged copy: its fields, and its empty tables. */
    method Assign(loaded: MapData)
      modifies this
      ensures refMapName == loaded.refMapName && refMapImageFile == loaded.refMapImageFile && refMapSize == loaded.refMapSize
      ensures robotMapName == loaded.robotMapName && robotMapImageFile == loaded.robotMapImageFile && robotMapSize == loaded.robotMapSize
      ensures robotMapScale == loaded.robotMapScale && robotMapRotation == loaded.robotMapRotation
      ensures robotMapTranslation == loaded.robotMapTranslation
      ensures refCorrPoints == loaded.refCorrPoints && robotCorrPoints == loaded.robotCorrPoints
      ensures triangles == [] && toRefTransforms == [] && toRobotTransforms == []
    {
      AssignMaps(loaded);
      AssignTransformAndPoints(loaded);
      triangles, toRefTransforms, toRobotTransforms := [], [], [];
    }

    /** The part of the assignment that copies both maps' names, image paths and sizes. */
    method AssignMaps(loaded: MapData)
      modifies this`refMapName, this`refMapImageFile, this`refMapSize
      modifies this`robotMapName, this`robotMapImageFile, this`robotMapSize
      ensures refMapName == loaded.refMapName && refMapImageFile == loaded.refMapImageFile && refMapSize == loaded.refMapSize
      ensures robotMapName == loaded.robotMapName && robotMapImageFile == loaded.robotMapImageFile && robotMapSize == loaded.robotMapSize
    {
      refMapName, refMapImageFile, refMapSize := loaded.refMapName, loaded.refMapImageFile, loaded.refMapSize;
      robotMapName, robotMapImageFile, robotMapSize := loaded.robotMapName, loaded.robotMapImageFile, loaded.robotMapSize;
    }

    /** The part of the assignment that copies the map transform and both correspondence lists. */
    method AssignTransformAndPoints(loaded: MapData)
      modifies this`robotMapScale, this`robotMapRotation, this`robotMapTranslation
      modifies this`refCorrPoints, this`robotCorrPoints
      ensures robotMapScale == loaded.robotMapScale && robotMapRotation == loaded.robotMapRotation
      ensures robotMapTranslation == loaded.robotMapTranslation
      ensures refCorrPoints == loaded.refCorrPoints && robotCorrPoints == loaded.robotCorrPoints
    {
      robotMapScale, robotMapRotation, robotMapTranslation := loaded.robotMapScale, loaded.robotMapRotation, loaded.robotMapTranslation;
      refCorrPoints, robotCorrPoints := loaded.refCorrPoints, loaded.robotCorrPoints;
    }

    /** Return to the empty state; the transform tables keep whatever they held. */
    method Reset()
      modifies this
      ensures Empty() && Valid() && TablesCover()
      ensures toRefTransforms == old(toRefTransforms) && toRobotTransforms == old(toRobotTransforms)
    {
      AssignMaps(Cleared);
      AssignTransformAndPoints(Cleared);
      triangles := [];
    }

    function RefMapName(): (r: Result<string, Error>)
      reads this
      ensures r.Failure? <==> Empty()
      ensures r.Failure? ==> r.error == IsEmpty
      ensures r.Success? ==> r.value == refMapName
    {
      if Empty() then Failure(IsEmpty) else Success(refMapName)
    }

    /** The reference map's image path; the empty string when none was given. */
    function RefMapImageFile(): (r: Result<string, Error>)
      reads this
      ensures r.Failure? <==> Empty()
      ensures r.Failure? ==> r.error == IsEmpty
      ensures r.Success? ==> r.value == refMapImageFile
    {
      if Empty() then Failure(IsEmpty) else Success(refMapImageFile)
    }

    function RefMapSize(): (r: Result<Vector2D, Error>)
      reads this
      ensures r.Failure? <==> Empty()
      ensures r.Failure? ==> r.error == IsEmpty
      ensures r.Success? ==> r.value == refMapSize
    {
      if Empty() then Failure(IsEmpty) else Success(refMapSize)
    }

    function RobotMapName(): (r: Result<string, Error>)
      reads this
      ensures r.Failure? <==> Empty()
      ensures r.Failure? ==> r.error == IsEmpty
      ensures r.Success? ==> r.value == robotMapName
    {
      if Empty() then Failure(IsEmpty) else Success(robotMapName)
    }

    /** The robot map's image path; the empty string when none was given. */
    function RobotMapImageFile(): (r: Result<string, Error>)
      reads this
      ensures r.Failure? <==> Empty()
      ensures r.Failure? ==> r.error == IsEmpty
      ensures r.Success? ==> r.value == robotMapImageFile
    {
      if Empty() then Failure(IsEmpty) else Success(robotMapImageFile)
    }

    function RobotMapSize(): (r: Result<Vector2D, Error>)
      reads this
      ensures r.Failure? <==> Empty()
      ensures r.Failure? ==> r.error == IsEmpty
      ensures r.Success? ==> r.value == robotMapSize
    {
      if Empty() then Failure(IsEmpty) else Success(robotMapSize)
    }

    function RobotMapScale(): (r: Result<Vector2D, Error>)
      reads this
      ensures r.Failure? <==> Empty()
      ensures r.Failure? ==> r.error == IsEmpty
      ensures r.Success? ==> r.value == robotMapScale
    {
      if Empty() then Failure(IsEmpty) else Success(robotMapScale)
    }

    function RobotMapRotation(): (r: Result<real, Error>)
      reads this
      ensures r.Failure? <==> Empty()
      ensures r.Failure? ==> r.error == IsEmpty
      ensures r.Success? ==> r.value == robotMapRotation
    {
      if Empty() then Failure(IsEmpty) else Success(robotMapRotation)
    }

    function RobotMapTranslation(): (r: Result<Point2D, Error>)
      reads this
      ensures r.Failure? <==> Empty()
      ensures r.Failure? ==> r.error == IsEmpty
      ensures r.Success? ==> r.value == robotMapTranslation
    {
      if Empty() then Failure(IsEmpty) else Success(robotMapTranslation)
    }

    /** The reference correspondence points; entry i matches entry i of the robot list. */
    function RefMapCorrPoints(): (r: Result<seq<Point2D>, Error>)
      reads this
      requires Valid()
      ensures r.Failure? <==> Empty()
      ensures r.Failure? ==> r.error == IsEmpty
      ensures r.Success? ==> r.value == refCorrPoints && |r.value| == |robotCorrPoints| > 0
    {
      if Empty() then Failure(IsEmpty) else Success(refCorrPoints)
    }

    /** The robot correspondence points; entry i matches entry i of the reference list. */
    function RobotMapCorrPoints(): (r: Result<seq<Point2D>, Error>)
      reads this
      requires Valid()
      ensures r.Failure? <==> Empty()
      ensures r.Failure? ==> r.error == IsEmpty
      ensures r.Success? ==> r.value == robotCorrPoints && |r.value| == |refCorrPoints| > 0
    {
      if Empty() then Failure(IsEmpty) else Success(robotCorrPoints)
    }

    /** The triangles, as indices valid in both correspondence lists. */
    function TriangleIndices(): (r: Result<seq<Triangle>, Error>)
      reads this
      requires Valid()
      ensures r.Failure? <==> Empty()
      ensures r.Failure? ==> r.error == IsEmpty
      ensures r.Success? ==>
        r.value == triangles &&
        AllIndicesIn(r.value, |refCorrPoints|) && AllIndicesIn(r.value, |robotCorrPoints|)
    {
      if Empty() then Failure(IsEmpty) else Success(triangles)
    }

    /** The box holding both maps. */
    function BoundingBox(): (r: Result<Box, Error>)
      reads this
      ensures r.Failure? <==> Empty()
      ensures r.Failure? ==> r.error == IsEmpty
      ensures r.Success? ==> r.value == BoundingBoxOf(refMapSize, robotMapSize, robotMapTranslation)
    {
      if Empty() then Failure(IsEmpty) else Success(BoundingBoxOf(refMapSize, robotMapSize, robotMapTranslation))
    }

    /** Robot map to reference map: correspondence shortcut, then containment, then the map transform. */
    method ToRef(point: Point2D, trig: Trig) returns (r: Result<Point2D, Error>)
      requires Valid()
      requires FindIndex(robotCorrPoints, point) >= 0 || FirstContaining(triangles, robotCorrPoints, point) < |toRefTransforms|
      ensures Empty() <==> r == Failure(IsEmpty)
      ensures !Empty() ==> r.Success?
      ensures !Empty() && FindIndex(robotCorrPoints, point) >= 0 ==>
        r.value == refCorrPoints[FindIndex(robotCorrPoints, point)]
      ensures !Empty() && FindIndex(robotCorrPoints, point) < 0 && FirstContaining(triangles, robotCorrPoints, point) >= 0 ==>
        r.value == Apply(toRefTransforms[FirstContaining(triangles, robotCorrPoints, point)], point)
      ensures !Empty() && FindIndex(robotCorrPoints, point) < 0 && FirstContaining(triangles, robotCorrPoints, point) < 0 ==>
        r.value == ToRefByMapTransform(MapTransformOf(), trig, point)
    {
      if Empty() {
        return Failure(IsEmpty);
      }
      // A correspondence point maps straight to its partner.
      var corrPointIndex := FindIndex(robotCorrPoints, point);
      if corrPointIndex >= 0 {
        return Success(refCorrPoints[corrPointIndex]);
      }
      var containingTriangle := FindContainingTriangleInRobot(point);
      if containingTriangle < 0 {
        // Outside every triangle: fall back to the global map transform
        return Success(ToRefByMapTransform(MapTransformOf(), trig, point));
      }
      var transform := toRefTransforms[containingTriangle];
      return Success(Apply(transform, point));
    }

    /** Reference map to robot map: correspondence shortcut, then containment, then the map transform. */
    method ToRobot(point: Point2D, trig: Trig) returns (r: Result<Point2D, Error>)
      requires Valid()
      requires FindIndex(refCorrPoints, point) >= 0 || FirstContaining(triangles, refCorrPoints, point) < |toRobotTransforms|
      ensures Empty() <==> r == Failure(IsEmpty)
      ensures !Empty() ==> r.Success?
      ensures !Empty() && FindIndex(refCorrPoints, point) >= 0 ==>
        r.value == robotCorrPoints[FindIndex(refCorrPoints, point)]
      ensures !Empty() && FindIndex(refCorrPoints, point) < 0 && FirstContaining(triangles, refCorrPoints, point) >= 0 ==>
        r.value == Apply(toRobotTransforms[FirstContaining(triangles, refCorrPoints, point)], point)
      ensures !Empty() && FindIndex(refCorrPoints, point) < 0 && FirstContaining(triangles, refCorrPoints, point) < 0 ==>
        r.value == FromRefByMapTransform(MapTransformOf(), trig, point)
    {
      if Empty() {
        return Failure(IsEmpty);
      }
      // A correspondence point maps straight to its partner.
      var corrPointIndex := FindIndex(refCorrPoints, point);
      if corrPointIndex >= 0 {
        return Success(robotCorrPoints[corrPointIndex]);
      }
      var containingTriangle := FindContainingTriangleInRef(point);
      if containingTriangle < 0 {
        // Outside every triangle: fall back to the global map transform
        return Success(FromRefByMapTransform(MapTransformOf(), trig, point));
      }
      var transform := toRobotTransforms[containingTriangle];
      return Success(Apply(transform, point));
    }

    /** The lowest-index triangle whose reference-map corners contain the point, or -1. */
    method FindContainingTriangleInRef(point: Point2D) returns (index: int)
      requires Valid()
      ensures index == FirstContaining(triangles, refCorrPoints, point)
    {
      index := FindContainingTriangle(triangles, refCorrPoints, point);
    }

    /** The lowest-index triangle whose robot-map corners contain the point, or -1. */
    method FindContainingTriangleInRobot(point: Point2D) returns (index: int)
      requires Valid()
      ensures index == FirstContaining(triangles, robotCorrPoints, point)
    {
      index := FindContainingTriangle(triangles, robotCorrPoints, point);
    }

    /** The midpoint of each correspondence pair, in list order. */
    method CalculateCorrespondenceMidpoints() returns (midpoints: seq<Point2D>)
      requires Valid()
      ensures |midpoints| == |refCorrPoints|
      ensures forall i :: 0 <= i < |midpoints| ==> midpoints[i] == Midpoint(refCorrPoints[i], robotCorrPoints[i])
      ensures midpoints == Midpoints(refCorrPoints, robotCorrPoints)
    {
      midpoints := [];
      var ii := 0;
      while ii < |refCorrPoints|
        invariant 0 <= ii <= |refCorrPoints|
        invariant |midpoints| == ii
        invariant forall k :: 0 <= k < ii ==> midpoints[k] == Midpoint(refCorrPoints[k], robotCorrPoints[k])
      {
        var x := refCorrPoints[ii].x + (robotCorrPoints[ii].x - refCorrPoints[ii].x) / 2.0;
        var y := refCorrPoints[ii].y + (robotCorrPoints[ii].y - refCorrPoints[ii].y) / 2.0;
        midpoints := midpoints + [Point2D(x, y)];
        ii := ii + 1;
      }
    }

    /** Triangulation, index recovery, then the per-triangle transforms. */
    method Precalculate(triangulate: Triangulator, solve: AffineSolver) returns (r: Outcome<Error>)
      requires Valid() && !Empty()
      modifies this`triangles, this`toRefTransforms, this`toRobotTransforms
      ensures Valid()
      ensures var recovery := RecoveryFor(triangulate);
        triangles == old(triangles) + recovery.triangles &&
        (recovery.complete ==>
          r == Pass &&
          toRefTransforms == old(toRefTransforms) + TransformTable(triangles, robotCorrPoints, refCorrPoints, solve) &&
          toRobotTransforms == old(toRobotTransforms) + TransformTable(triangles, refCorrPoints, robotCorrPoints, solve)) &&
        (!recovery.complete ==>
          r == Fail(TrianglePointNotFound) &&
          toRefTransforms == old(toRefTransforms) && toRobotTransforms == old(toRobotTransforms))
    {
      r := SubdivideAndIndexTriangles(triangulate);
      if r.Pass? {
        PrecalculateTriangleTransforms(solve);
      }
    }

    /**
     * Triangulate the midpoints and append each triangulator triangle as midpoint indices,
     * in order; stop with an error at the first corner that is no midpoint.
     */
    method SubdivideAndIndexTriangles(triangulate: Triangulator) returns (r: Outcome<Error>)
      requires Valid() && !Empty()
      modifies this`triangles
      ensures Valid()
      ensures var recovery := RecoveryFor(triangulate);
        triangles == old(triangles) + recovery.triangles &&
        (r == Pass <==> recovery.complete) &&
        (r.Fail? ==> r.error == TrianglePointNotFound)
    {
      var midpoints := CalculateCorrespondenceMidpoints();
      // The state is loaded here, so the bounding box exists.
      var bb := BoundingBoxOf(refMapSize, robotMapSize, robotMapTranslation);
      var raw := triangulate(bb.bottomRight, midpoints);
      assert RecoveryFor(triangulate) == IndexTriangles(raw, midpoints);
      var recovered, complete := IndexTrianglesLoop(raw, midpoints);
      IndexTrianglesComplete(raw, midpoints);
      triangles := triangles + recovered;
      if !complete {
        return Fail(TrianglePointNotFound);
      }
      return Pass;
    }

    /**
     * Index recovery over the triangulator's list, in order: the triangles recovered before the
     * first triangle with a corner that is no midpoint, and whether there was no such triangle.
     */
    static method IndexTrianglesLoop(raw: seq<PointTriangle>, midpoints: seq<Point2D>)
      returns (recovered: seq<Triangle>, complete: bool)
      ensures Recovery(recovered, complete) == IndexTriangles(raw, midpoints)
    {
      recovered := [];
      var k := 0;
      while k < |raw|
        invariant 0 <= k <= |raw| && |recovered| == k
        invariant forall j :: 0 <= j < k ==> RecoverTriangle(raw[j], midpoints) == Some(recovered[j])
      {
        var triangle := RecoverTriangleScan(raw[k], midpoints);
        if triangle.None? {
          RecoveryOfUnique(raw, midpoints, Recovery(recovered, false));
          return recovered, false;
        }
        recovered := recovered + [triangle.value];
        k := k + 1;
      }
      RecoveryOfUnique(raw, midpoints, Recovery(recovered, true));
      return recovered, true;
    }

    /** Look up the three corners of one triangulator triangle among the midpoints, stopping at the first miss. */
    static method RecoverTriangleScan(t: PointTriangle, midpoints: seq<Point2D>) returns (triangle: Option<Triangle>)
      ensures triangle == RecoverTriangle(t, midpoints)
    {
      var i0 := FindIndex(midpoints, t.p0);
      if i0 < 0 {
        return None;
      }
      var i1 := FindIndex(midpoints, t.p1);
      if i1 < 0 {
        return None;
      }
      var i2 := FindIndex(midpoints, t.p2);
      if i2 < 0 {
        return None;
      }
      return Some(Triangle(i0, i1, i2));
    }

    /** Append one to-reference and one to-robot transform per triangle, in triangle order. */
    method PrecalculateTriangleTransforms(solve: AffineSolver)
      requires Valid()
      modifies this`toRefTransforms, this`toRobotTransforms
      ensures toRefTransforms == old(toRefTransforms) + TransformTable(triangles, robotCorrPoints, refCorrPoints, solve)
      ensures toRobotTransforms == old(toRobotTransforms) + TransformTable(triangles, refCorrPoints, robotCorrPoints, solve)
    {
      ghost var toRef0, toRobot0 := toRefTransforms, toRobotTransforms;
      var k := 0;
      while k < |triangles|
        invariant 0 <= k <= |triangles|
        invariant toRefTransforms == toRef0 + TransformTable(triangles[..k], robotCorrPoints, refCorrPoints, solve)
        invariant toRobotTransforms == toRobot0 + TransformTable(triangles[..k], refCorrPoints, robotCorrPoints, solve)
      {
        var t := triangles[k];
        var tRef := TrianglePoints(t, refCorrPoints);
        var tRobot := TrianglePoints(t, robotCorrPoints);
        assert triangles[..k + 1] == triangles[..k] + [t];
        toRefTransforms := toRefTransforms + [solve(tRobot, tRef)];
        toRobotTransforms := toRobotTransforms + [solve(tRef, tRobot)];
        k := k + 1;
      }
      assert triangles[..k] == triangles;
    }
  }

  /**
   * The constructor that loads a document: a new, empty transformer followed by Load. When the
   * load fails the source's constructor throws, so the object is then never handed out.
   */
  method FromDocument(doc: Document, probe: string -> ImageProbe, triangulate: Triangulator, solve: AffineSolver)
    returns (t: Transformer, r: Outcome<Error>)
    ensures fresh(t) && t.Valid()
    ensures r == LoadOutcome(doc, probe, triangulate)
    ensures r == Pass ==> t.Data() == Parse(doc) && !t.Empty() && t.TablesCover()
  {
    t := new Transformer();
    r := t.Load(doc, probe, triangulate, solve);
  }

  /**
   * Load, load again, reset, load again: the second load fails with a logic error and changes
   * nothing, and loading the same document after reset ends exactly as the first load did.
   */
  method ReloadAfterReset(doc: Document, probe: string -> ImageProbe, triangulate: Triangulator, solve: AffineSolver)
    returns (first: Outcome<Error>, again: Outcome<Error>, reloaded: Outcome<Error>)
    ensures first == LoadOutcome(doc, probe, triangulate) && first != Fail(NotEmpty)
    ensures first == Pass || first == Fail(TrianglePointNotFound) ==> again == Fail(NotEmpty)
    ensures first != Pass && first != Fail(TrianglePointNotFound) ==> again == first
    ensures reloaded == first
  {
    var t := new Transformer();
    first := t.Load(doc, probe, triangulate, solve);
    again := t.Load(doc, probe, triangulate, solve);
    t.Reset();
    reloaded := t.Load(doc, probe, triangulate, solve);
  }

  /**
   * Transforming the robot correspondence point at index i yields the reference point at the
   * first index holding the same robot point; for distinct points that is the partner at i.
   */
  method CorrespondencePointToRef(t: Transformer, i: nat, trig: Trig) returns (r: Result<Point2D, Error>)
    requires t.Valid() && !t.Empty() && i < |t.robotCorrPoints|
    ensures exists k :: (0 <= k <= i && t.robotCorrPoints[k] == t.robotCorrPoints[i] &&
      (forall j :: 0 <= j < k ==> t.robotCorrPoints[j] != t.robotCorrPoints[i]) && r == Success(t.refCorrPoints[k]))
    ensures (forall j, k :: 0 <= j < k < |t.robotCorrPoints| ==> t.robotCorrPoints[j] != t.robotCorrPoints[k]) ==>
      r == Success(t.refCorrPoints[i])
  {
    FindIndexOfMember(t.robotCorrPoints, i);
    r := t.ToRef(t.robotCorrPoints[i], trig);
  }

  /** The symmetric statement for reference correspondence points and ToRobot. */
  method CorrespondencePointToRobot(t: Transformer, i: nat, trig: Trig) returns (r: Result<Point2D, Error>)
    requires t.Valid() && !t.Empty() && i < |t.refCorrPoints|
    ensures exists k :: (0 <= k <= i && t.refCorrPoints[k] == t.refCorrPoints[i] &&
      (forall j :: 0 <= j < k ==> t.refCorrPoints[j] != t.refCorrPoints[i]) && r == Success(t.robotCorrPoints[k]))
    ensures (forall j, k :: 0 <= j < k < |t.refCorrPoints| ==> t.refCorrPoints[j] != t.refCorrPoints[k]) ==>
      r == Success(t.robotCorrPoints[i])
  {
    FindIndexOfMember(t.refCorrPoints, i);
    r := t.ToRobot(t.refCorrPoints[i], trig);
  }

  /** After reset, both point queries fail with the not-loaded logic error, whatever was loaded before. */
  method QueriesAfterReset(t: Transformer, point: Point2D, trig: Trig)
    returns (toRef: Result<Point2D, Error>, toRobot: Result<Point2D, Error>)
    modifies t
    ensures toRef == Failure(IsEmpty) && toRobot == Failure(IsEmpty)
    ensures t.Empty() && t.Valid()
  {
    t.Reset();
    toRef := t.ToRef(point, trig);
    toRobot := t.ToRobot(point, trig);
  }

  /** An empty transformer refuses every accessor and query with the same logic error. */
  lemma EmptyRefusesAccessors(t: Transformer)
    requires t.Valid() && t.Empty()
    ensures t.RefMapName() == Failure(IsEmpty) && t.RefMapImageFile() == Failure(IsEmpty)
    ensures t.RefMapSize() == Failure(IsEmpty) && t.RobotMapName() == Failure(IsEmpty)
    ensures t.RobotMapImageFile() == Failure(IsEmpty) && t.RobotMapSize() == Failure(IsEmpty)
    ensures t.RobotMapScale() == Failure(IsEmpty) && t.RobotMapRotation() == Failure(IsEmpty)
    ensures t.RobotMapTranslation() == Failure(IsEmpty) && t.RefMapCorrPoints() == Failure(IsEmpty)
    ensures t.RobotMapCorrPoints() == Failure(IsEmpty) && t.TriangleIndices() == Failure(IsEmpty)
    ensures t.BoundingBox() == Failure(IsEmpty)
  {
  }

  /**
   * A transformer loaded from a document reports the document's values; a missing image file
   * reads as the empty path and a missing transform block as scale (1,1), rotation 0 and
   * translation (0,0).
   */
  lemma LoadedAccessorsReportDocument(t: Transformer, doc: Document)
    requires t.Valid() && !t.Empty() && t.Data() == Parse(doc)
    ensures t.RefMapName() == Success(doc.refMap.name) && t.RobotMapName() == Success(doc.robotMap.name)
    ensures t.RefMapImageFile() == Success(if doc.refMap.imageFile.Some? then doc.refMap.imageFile.value else "")
    ensures t.RobotMapImageFile() == Success(if doc.robotMap.imageFile.Some? then doc.robotMap.imageFile.value else "")
    ensures t.RefMapSize() == Success(Point2D(doc.refMap.size.x as real, doc.refMap.size.y as real))
    ensures t.RobotMapSize() == Success(Point2D(doc.robotMap.size.x as real, doc.robotMap.size.y as real))
    ensures doc.transform.None? ==>
      t.RobotMapScale() == Success(Point2D(1.0, 1.0)) && t.RobotMapRotation() == Success(0.0) &&
      t.RobotMapTranslation() == Success(Point2D(0.0, 0.0))
    ensures doc.transform.Some? ==>
      var tr := doc.transform.value;
      t.RobotMapScale() == Success(Point2D(tr.scale.x as real, tr.scale.y as real)) &&
      t.RobotMapRotation() == Success(tr.rotation) &&
      t.RobotMapTranslation() == Success(Point2D(tr.translation.x as real, tr.translation.y as real))
    ensures t.RefMapCorrPoints().Success? && |t.RefMapCorrPoints().value| == |doc.refMap.corrPoints|
    ensures forall i :: 0 <= i < |doc.refMap.corrPoints| ==>
      t.RefMapCorrPoints().value[i] == Point2D(doc.refMap.corrPoints[i].x as real, doc.refMap.corrPoints[i].y as real)
    ensures t.RobotMapCorrPoints().Success? && |t.RobotMapCorrPoints().value| == |doc.robotMap.corrPoints|
    ensures forall i :: 0 <= i < |doc.robotMap.corrPoints| ==>
      t.RobotMapCorrPoints().value[i] == Point2D(doc.robotMap.corrPoints[i].x as real, doc.robotMap.corrPoints[i].y as real)
  {
  }

  /** Emptiness is exactly the reset state: every field holds its cleared value and there are no triangles. */
  lemma EmptyIsCleared(t: Transformer)
    ensures t.Empty() <==> t.Data() == Cleared && t.triangles == []
  {
  }
}
