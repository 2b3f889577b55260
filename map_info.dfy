/**
 * The loaded map information of a transformer: the parsed map-description record, the
 * staged copy built from it, its ordered validation, and the bounding box of both maps.
 */
module MapInfo {
  import opened Wrappers
  import opened Geometry

  /** A two-element numeric sequence of the document, read as integers. */
  datatype DocPair = DocPair(x: int, y: int)

  /** One `ref_map` or `robot_map` section of an already-parsed map-description document. */
  datatype MapSection = MapSection(
    name: string,
    imageFile: Option<string>,
    size: DocPair,
    corrPoints: seq<DocPair>)

  /** The optional `transform` block of the robot map section. */
  datatype TransformSection = TransformSection(scale: DocPair, rotation: real, translation: DocPair)

  datatype Document = Document(refMap: MapSection, robotMap: MapSection, transform: Option<TransformSection>)

  /** Every loaded field of a transformer; the staged copy that load validates before committing. */
  datatype MapData = MapData(
    refMapName: string,
    refMapImageFile: string,
    refMapSize: Vector2D,
    robotMapName: string,
    robotMapImageFile: string,
    robotMapSize: Vector2D,
    robotMapScale: Vector2D,
    robotMapRotation: real,
    robotMapTranslation: Point2D,
    refCorrPoints: seq<Point2D>,
    robotCorrPoints: seq<Point2D>)

  /** The field values of an empty transformer, as reset assigns them. */
  const Cleared := MapData("", "", Point2D(0.0, 0.0), "", "", Point2D(0.0, 0.0),
                           Point2D(1.0, 1.0), 0.0, Point2D(0.0, 0.0), [], [])

  /**
   * What the transformer reports. NotEmpty and IsEmpty are the logic errors of the
   * lifecycle; the others are the runtime errors of loading.
   */
  datatype Error =
    | NotEmpty
    | IsEmpty
    | NoRefCorrPoints
    | NoRobotCorrPoints
    | CorrPointCountMismatch
    | MapsDoNotOverlap
    | ZeroScale
    | RefImageInaccessible
    | RobotImageInaccessible
    | RefImageSizeMismatch
    | RobotImageSizeMismatch
    | TrianglePointNotFound
  {
    predicate IsLogicError() { this == NotEmpty || this == IsEmpty }
  }

  /** Pixel dimensions of a decoded image. */
  datatype ImageSize = ImageSize(cols: int, rows: int)

  /**
   * What probing an image path yields: whether it names an existing regular file, and the
   * image's dimensions if it could be decoded.
   */
  datatype ImageProbe = ImageProbe(isRegularFile: bool, decoded: Option<ImageSize>)

  function ToPoint(p: DocPair): Point2D
  {
    Point2D(p.x as real, p.y as real)
  }

  function ToPoints(ps: seq<DocPair>): (r: seq<Point2D>)
    ensures |r| == |ps| && forall i :: 0 <= i < |ps| ==> r[i] == ToPoint(ps[i])
  {
    seq(|ps|, i requires 0 <= i < |ps| => ToPoint(ps[i]))
  }

  /**
   * The staged copy built from a document: an absent image file leaves the empty path,
   * an absent transform block leaves scale (1,1), rotation 0 and translation (0,0).
   */
  function Parse(doc: Document): (d: MapData)
    ensures doc.refMap.imageFile.None? ==> d.refMapImageFile == ""
    ensures doc.robotMap.imageFile.None? ==> d.robotMapImageFile == ""
    ensures doc.transform.None? ==>
      d.robotMapScale == Point2D(1.0, 1.0) && d.robotMapRotation == 0.0 &&
      d.robotMapTranslation == Point2D(0.0, 0.0)
    ensures |d.refCorrPoints| == |doc.refMap.corrPoints|
    ensures |d.robotCorrPoints| == |doc.robotMap.corrPoints|
    ensures forall i :: 0 <= i < |d.refCorrPoints| ==>
      d.refCorrPoints[i] == Point2D(doc.refMap.corrPoints[i].x as real, doc.refMap.corrPoints[i].y as real)
    ensures forall i :: 0 <= i < |d.robotCorrPoints| ==>
      d.robotCorrPoints[i] == Point2D(doc.robotMap.corrPoints[i].x as real, doc.robotMap.corrPoints[i].y as real)
  {
    var (scale, rotation, translation) :=
      if doc.transform.Some? then
        (ToPoint(doc.transform.value.scale), doc.transform.value.rotation, ToPoint(doc.transform.value.translation))
      else
        (Cleared.robotMapScale, Cleared.robotMapRotation, Cleared.robotMapTranslation);
    MapData(
      doc.refMap.name,
      if doc.refMap.imageFile.Some? then doc.refMap.imageFile.value else "",
      ToPoint(doc.refMap.size),
      doc.robotMap.name,
      if doc.robotMap.imageFile.Some? then doc.robotMap.imageFile.value else "",
      ToPoint(doc.robotMap.size),
      scale, rotation, translation,
      ToPoints(doc.refMap.corrPoints),
      ToPoints(doc.robotMap.corrPoints))
  }

  /**
   * The overlap test of validation: the robot map, shifted by the translation, is not
   * strictly right of, below, left of or above the reference map. Touching counts as overlap.
   */
  predicate MapsOverlap(refSize: Vector2D, robotSize: Vector2D, translation: Point2D)
    // rejected maps share no point, whatever their sizes
    ensures !MapsOverlap(refSize, robotSize, translation) ==>
      forall p :: !(InRect(p, Point2D(0.0, 0.0), refSize) && InRect(p, translation, robotSize))
  {
    !(translation.x > refSize.x || translation.y > refSize.y ||
      translation.x + robotSize.x < 0.0 || translation.y + robotSize.y < 0.0)
  }

  /** The closed axis-aligned rectangle from `origin` spanning `size`. */
  predicate InRect(p: Point2D, origin: Point2D, size: Vector2D)
  {
    origin.x <= p.x <= origin.x + size.x && origin.y <= p.y <= origin.y + size.y
  }

  /**
   * For maps of non-negative size the overlap test holds exactly when the reference map and
   * the translated robot map share at least one point.
   */
  lemma MapsOverlapIffSharedPoint(refSize: Vector2D, robotSize: Vector2D, translation: Point2D)
    requires refSize.x >= 0.0 && refSize.y >= 0.0 && robotSize.x >= 0.0 && robotSize.y >= 0.0
    ensures MapsOverlap(refSize, robotSize, translation) <==>
      exists p :: InRect(p, Point2D(0.0, 0.0), refSize) && InRect(p, translation, robotSize)
  {
    if MapsOverlap(refSize, robotSize, translation) {
      var w := Point2D(Max(0.0, translation.x), Max(0.0, translation.y));
      assert InRect(w, Point2D(0.0, 0.0), refSize) && InRect(w, translation, robotSize);
    }
  }

  /** The structural checks of validation, all passed. */
  predicate StructurallyValid(d: MapData)
  {
    && |d.refCorrPoints| > 0
    && |d.robotCorrPoints| == |d.refCorrPoints|
    && MapsOverlap(d.refMapSize, d.robotMapSize, d.robotMapTranslation)
    && d.robotMapScale.x != 0.0 && d.robotMapScale.y != 0.0
  }

  /** A map's image is acceptable: none is given, or it is a readable file of the declared size. */
  predicate ImageMatches(file: string, size: Vector2D, probe: string -> ImageProbe)
  {
    file == "" ||
    (probe(file).isRegularFile && probe(file).decoded.Some? &&
     probe(file).decoded.value.cols as real == size.x && probe(file).decoded.value.rows as real == size.y)
  }

  /** Decoding and size check of one image, after both existence checks have passed. */
  function CheckImageSize(file: string, size: Vector2D, probe: string -> ImageProbe,
                          inaccessible: Error, mismatch: Error): Outcome<Error>
  {
    if file == "" then Pass
    else match probe(file).decoded
      case None => Fail(inaccessible)
      case Some(image) =>
        if image.cols as real != size.x || image.rows as real != size.y then Fail(mismatch) else Pass
  }

  /**
   * Validation of a staged copy. It reports the first failing check, in the order: empty
   * reference list, empty robot list, unequal lengths, no overlap, zero scale, then the image
   * checks (both existence checks before either decode).
   */
  function Validate(d: MapData, probe: string -> ImageProbe): (r: Outcome<Error>)
    ensures r == Fail(NoRefCorrPoints) <==> d.refCorrPoints == []
    ensures r == Fail(NoRobotCorrPoints) <==> d.refCorrPoints != [] && d.robotCorrPoints == []
    ensures r == Fail(CorrPointCountMismatch) <==>
      d.refCorrPoints != [] && d.robotCorrPoints != [] && |d.refCorrPoints| != |d.robotCorrPoints|
    ensures r == Fail(MapsDoNotOverlap) <==>
      d.refCorrPoints != [] && |d.robotCorrPoints| == |d.refCorrPoints| &&
      !MapsOverlap(d.refMapSize, d.robotMapSize, d.robotMapTranslation)
    ensures r == Fail(ZeroScale) <==>
      d.refCorrPoints != [] && |d.robotCorrPoints| == |d.refCorrPoints| &&
      MapsOverlap(d.refMapSize, d.robotMapSize, d.robotMapTranslation) &&
      (d.robotMapScale.x == 0.0 || d.robotMapScale.y == 0.0)
    ensures r.Fail? ==> !r.error.IsLogicError() && r.error != TrianglePointNotFound
    ensures r == Fail(RefImageSizeMismatch) || r == Fail(RobotImageSizeMismatch) ==>
      StructurallyValid(d) &&
      (d.refMapImageFile == "" || probe(d.refMapImageFile).isRegularFile) &&
      (d.robotMapImageFile == "" || probe(d.robotMapImageFile).isRegularFile)
    ensures r == Fail(RobotImageSizeMismatch) ==> ImageMatches(d.refMapImageFile, d.refMapSize, probe)
    ensures r == Pass <==>
      StructurallyValid(d) &&
      ImageMatches(d.refMapImageFile, d.refMapSize, probe) &&
      ImageMatches(d.robotMapImageFile, d.robotMapSize, probe)
  {
    if d.refCorrPoints == [] then Fail(NoRefCorrPoints)
    else if d.robotCorrPoints == [] then Fail(NoRobotCorrPoints)
    else if |d.refCorrPoints| != |d.robotCorrPoints| then Fail(CorrPointCountMismatch)
    else if !MapsOverlap(d.refMapSize, d.robotMapSize, d.robotMapTranslation) then Fail(MapsDoNotOverlap)
    else if d.robotMapScale.x == 0.0 || d.robotMapScale.y == 0.0 then Fail(ZeroScale)
    else if d.refMapImageFile != "" && !probe(d.refMapImageFile).isRegularFile then Fail(RefImageInaccessible)
    else if d.robotMapImageFile != "" && !probe(d.robotMapImageFile).isRegularFile then Fail(RobotImageInaccessible)
    else
      match CheckImageSize(d.refMapImageFile, d.refMapSize, probe, RefImageInaccessible, RefImageSizeMismatch)
      case Fail(e) => Fail(e)
      case Pass => CheckImageSize(d.robotMapImageFile, d.robotMapSize, probe, RobotImageInaccessible, RobotImageSizeMismatch)
  }

  /** Touching maps pass the overlap test; maps one unit apart fail it. */
  lemma TouchingMapsOverlap()
    ensures MapsOverlap(Point2D(100.0, 100.0), Point2D(80.0, 110.0), Point2D(100.0, 100.0))
    ensures MapsOverlap(Point2D(100.0, 100.0), Point2D(80.0, 110.0), Point2D(-80.0, -110.0))
    ensures !MapsOverlap(Point2D(100.0, 100.0), Point2D(80.0, 110.0), Point2D(101.0, 0.0))
    ensures !MapsOverlap(Point2D(100.0, 100.0), Point2D(80.0, 110.0), Point2D(0.0, -111.0))
  {
  }

  function Min(a: real, b: real): real { if a <= b then a else b }
  function Max(a: real, b: real): real { if a >= b then a else b }

  /** An axis-aligned box given by its top-left and bottom-right corners. */
  datatype Box = Box(topLeft: Point2D, bottomRight: Point2D)

  /**
   * The box holding both maps: it reaches from the smaller of the origin and the robot map's
   * translated origin to the larger of the two maps' far corners.
   */
  function BoundingBoxOf(refSize: Vector2D, robotSize: Vector2D, translation: Point2D): (b: Box)
    ensures b.topLeft.x <= 0.0 && b.topLeft.x <= translation.x
    ensures b.topLeft.y <= 0.0 && b.topLeft.y <= translation.y
    ensures b.topLeft.x == 0.0 || b.topLeft.x == translation.x
    ensures b.topLeft.y == 0.0 || b.topLeft.y == translation.y
    ensures b.bottomRight.x >= refSize.x && b.bottomRight.x >= robotSize.x + translation.x
    ensures b.bottomRight.y >= refSize.y && b.bottomRight.y >= robotSize.y + translation.y
    ensures b.bottomRight.x == refSize.x || b.bottomRight.x == robotSize.x + translation.x
    ensures b.bottomRight.y == refSize.y || b.bottomRight.y == robotSize.y + translation.y
  {
    Box(Point2D(Min(0.0, translation.x), Min(0.0, translation.y)),
        Point2D(Max(refSize.x, robotSize.x + translation.x), Max(refSize.y, robotSize.y + translation.y)))
  }

  /** Every point of the reference map and of the translated robot map lies in the bounding box. */
  lemma BoundingBoxHoldsBothMaps(refSize: Vector2D, robotSize: Vector2D, translation: Point2D, p: Point2D)
    requires InRect(p, Point2D(0.0, 0.0), refSize) || InRect(p, translation, robotSize)
    ensures var b := BoundingBoxOf(refSize, robotSize, translation);
      b.topLeft.x <= p.x <= b.bottomRight.x && b.topLeft.y <= p.y <= b.bottomRight.y
  {
  }

  /**
   * With no translation and maps of equal size the box is the map itself;
   * a negative translation moves the top-left corner below zero.
   */
  lemma BoundingBoxCorners(size: Vector2D, translation: Point2D)
    ensures BoundingBoxOf(size, size, Point2D(0.0, 0.0)) == Box(Point2D(0.0, 0.0), size)
    ensures translation.x < 0.0 ==> BoundingBoxOf(size, size, translation).topLeft.x == translation.x < 0.0
    ensures translation.y < 0.0 ==> BoundingBoxOf(size, size, translation).topLeft.y == translation.y < 0.0
  {
  }

  /** The boxes of the aligned-maps and offset-maps documents. */
  lemma BoundingBoxExamples()
    ensures BoundingBoxOf(Point2D(694.0, 386.0), Point2D(694.0, 386.0), Point2D(0.0, 0.0))
      == Box(Point2D(0.0, 0.0), Point2D(694.0, 386.0))
    ensures BoundingBoxOf(Point2D(100.0, 100.0), Point2D(80.0, 110.0), Point2D(30.0, 20.0))
      == Box(Point2D(0.0, 0.0), Point2D(110.0, 130.0))
  {
  }
}
