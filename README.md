# map_transformer: the Transformer, modelled in Dafny

The `Transformer` relates a robot's map to a reference map through pairs of corresponding
points. It does three things:

- **Load** a document once. The document gives map names, optional image paths, sizes, an
  optional global transform (scale, rotation, translation) and the two index-aligned
  correspondence lists. Load stages a copy, validates it, commits it, and then precomputes
  a triangulation of the correspondence midpoints, with one affine transform per triangle
  in each direction.
- **Answer queries** about what is loaded: names, image paths, sizes, the transform, the
  point lists, the triangles and the bounding box of both maps.
- **Transform points** in either direction:
  1. a correspondence point maps straight to its partner;
  2. otherwise a point inside a triangle goes through that triangle's affine transform;
  3. any other point goes through the global map transform.

An empty transformer refuses every query with a logic error. Loading into a non-empty one is
a logic error too. `reset` clears it.

The model has six modules:

| module | what it models |
|---|---|
| `Wrappers` | `Option`, `Result`, `Outcome` |
| `Geometry` | `Point2D`, `Vector2D`, `Triangle`, affine matrices, midpoints, a boundary-inclusive point-in-triangle test |
| `MapInfo` | the parsed document, the staged copy (`MapData`), `Parse`, `Validate`, the overlap test, the bounding box |
| `Triangulation` | first-match lookup, index recovery of the triangulator's triangles, the containment search, the per-triangle transform tables |
| `GlobalTransform` | the scale, rotate and translate fallback in both directions |
| `MapTransformer` | the `Transformer` class with the source's fields; construction, load, reset, the accessors, bounding box, `ToRef`/`ToRobot` and the precalculation steps |

The code calls foreign components. The model takes each of them as a parameter:

| foreign component | parameter in the model |
|---|---|
| file-system and image probe | `probe: string -> ImageProbe` (regular file? decoded size?) |
| Delaunay triangulator | `Triangulator` (rectangle corner and points to the triangle list) |
| affine solver | `AffineSolver` (two triangles to a 2x3 matrix) |
| cosine and sine | a `Trig` value |

Coordinates are exact `real`s. The document's integer readings (`as<int>`) are kept as `int`
in the `Document` value and converted by `Parse`.

Where the code behaves differently from what its documentation suggests or a reader would expect,
the model follows the code:

- The reference-to-robot fallback (src/transformer.cpp:494-511) undoes the to-reference
  transform in the wrong order. It divides by the scale, rotates by the negated angle and
  only then subtracts the translation. Without rotation the two fallbacks are inverse
  exactly when, on each axis, the scale is 1 or the translation is 0
  (`UnrotatedRoundTripDrift` gives the drift t/scale − t; `UnitScaleRoundTrip` is the
  unit-scale case and `ScaledRoundTripCounterexample` a concrete failure). With rotation,
  the model proves the round trip only for scale (1,1) with no translation
  (`RotatedRoundTrip`).
- The header describes the bounding box as having one corner at 0,0. The code takes
  `min(0, translation)`, so a negative translation gives a negative top-left corner
  (`BoundingBoxCorners`).
- Validation never checks that map sizes are positive, only that the maps overlap.
  Touching counts as overlap (`TouchingMapsOverlap`).
- Loading commits the staged copy before triangulating. A triangulator corner that is not a
  midpoint fails the load, but it leaves the transformer non-empty. It then holds the
  triangles recovered so far and empty transform tables. `reset` does not clear the
  transform tables; the whole-object assignment in `load` does (`Assign`).

## Model

| member | source | states |
|---|---|---|
| Geometry.Midpoint | src/transformer.cpp:360-370 | the midpoint computed as a + (b − a)/2 is the average of the two points |
| Geometry.MidpointSymmetric | src/transformer.cpp:360-370 | the midpoint of a pair is the same whichever map is primary, and a point paired with itself is its own midpoint |
| Geometry.CornersInTriangle | src/transformer.cpp:442-469 | the containment test is boundary-inclusive: every corner of a triangle is contained in it |
| Geometry.InTriangleIgnoresOrder | src/transformer.cpp:442-469 | containment depends only on a triangle's corners, not on their order or orientation |
| MapInfo.ToPoints | src/transformer.cpp:71-76 | each document point is read as one coordinate pair, in order, keeping the list's length |
| MapInfo.Parse | src/transformer.cpp:44-76 | staging a document: an absent image file leaves the empty path; an absent transform leaves scale (1,1), rotation 0 and translation (0,0); the point lists keep their lengths and order |
| MapInfo.MapsOverlap | src/transformer.cpp:305-311 | the overlap check rejects a translated robot map lying strictly right of, below, left of or above the reference map; a rejected pair of maps shares no point whatever their sizes (the converse, for non-negative sizes, is `MapsOverlapIffSharedPoint`) |
| MapInfo.MapsOverlapIffSharedPoint | src/transformer.cpp:305-312 | for non-negative sizes the overlap test holds exactly when the two map rectangles share a point |
| MapInfo.Validate | src/transformer.cpp:290-351 | each structural error is reported exactly when its check is the first to fail; validation errors are never logic errors; it passes exactly when the data is structurally valid and each named image is a regular file of the declared size; a size mismatch is reported only after both existence checks have passed, and a robot size mismatch only after the reference image matched |
| MapInfo.TouchingMapsOverlap | src/transformer.cpp:305-312 | maps that only touch pass the overlap test; maps one unit apart fail it |
| MapInfo.BoundingBoxOf | src/transformer.cpp:197-213 | the top-left corner is the least of the origin and the translation; the bottom-right corner is the greatest of the two maps' far corners; both bounds are attained |
| MapInfo.BoundingBoxHoldsBothMaps | include/map_transformer/transformer.hpp:195-205 | every point of either map lies within the bounding box |
| MapInfo.BoundingBoxCorners | src/transformer.cpp:197-213 | with no translation, maps of equal size give the map itself; a negative translation gives a top-left corner below zero |
| MapInfo.BoundingBoxExamples | test/test_transforms.cpp:593-604 | the aligned document's box is (0,0)-(694,386); the offset document's box is (0,0)-(110,130) |
| Triangulation.FindIndex | src/transformer.cpp:430-439 | the result is the first index holding the point, or −1 exactly when the point is absent |
| Triangulation.FindIndexOfMember | src/transformer.cpp:430-439 | looking up a list's own entry yields an index no later than the entry's, holding the same point; for distinct points it is the entry's own index |
| Triangulation.RecoverTriangle | src/transformer.cpp:384-402 | one triangle is recovered exactly when all three corners are midpoints, each as its first matching index |
| Triangulation.IndexTriangles | src/transformer.cpp:381-404 | recovery runs in order and stops at the first triangle with a corner that is no midpoint; it is complete exactly when it recovers every triangle |
| Triangulation.RecoveryOfUnique | src/transformer.cpp:381-404 | the recovery facts determine the recovered prefix and the completion flag |
| Triangulation.IndexTrianglesComplete | src/transformer.cpp:373-404 | recovery is complete exactly when every corner of every triangle is a midpoint; recovered indices are valid and name the triangle's own corners |
| Triangulation.TrianglePoints | src/transformer.cpp:514-533 | the triangle's corners are taken from one correspondence list by the triangle's indices, and the indexed points lie in the triangle they span (`Contains` and `FirstContaining` build the containment search on it) |
| Triangulation.FirstContaining | src/transformer.cpp:442-469 | the result is the lowest-index triangle containing the point, or −1 exactly when no triangle contains it |
| Triangulation.FindContainingTriangle | src/transformer.cpp:442-454 | the scan with early return finds the first containing triangle |
| GlobalTransform.ToRefByMapTransform | src/transformer.cpp:473-490 | scales, rotates (unless the rotation is 0) and translates a robot point; the robot origin lands on the translation, and without rotation un-translating and un-scaling recovers the point (see `UnrotatedMapTransform` and the round-trip lemmas below) |
| GlobalTransform.FromRefByMapTransform | src/transformer.cpp:494-511 | divides by the scale, rotates back (unless the rotation is 0) and only then subtracts the translation; the reference origin lands on the negated translation, and without rotation adding the translation back and re-scaling recovers the point (see `UnrotatedMapTransform`, `UnrotatedRoundTripDrift` and `RotatedRoundTrip`) |
| GlobalTransform.UnrotatedMapTransform | src/transformer.cpp:473-511 | without rotation the fallbacks are p·scale + t towards the reference map and p/scale − t back |
| GlobalTransform.UnitScaleRoundTrip | src/transformer.cpp:473-511 | with unit scale and no rotation either fallback undoes the other |
| GlobalTransform.UnrotatedRoundTripDrift | src/transformer.cpp:494-511 | without rotation a round trip moves a point by t/scale − t, so the fallbacks are not inverse when scale ≠ 1 and t ≠ 0 |
| GlobalTransform.ScaledRoundTripCounterexample | src/transformer.cpp:494-511 | scale 2 and translation (10,0): the origin maps to (10,0), which maps back to (−5,0) |
| GlobalTransform.RotatedRoundTrip | src/transformer.cpp:473-511 | with unit scale, no translation and a cosine and sine meeting the usual identities at the angle, the rotated fallbacks are inverse |
| GlobalTransform.OffsetMapExamples | test/test_transforms.cpp:541-591 | translation (30,20): (69,0)→(99,20) and (79,109)→(109,129) towards the reference map; (109,60)→(79,40) back |
| MapTransformer.LoadSucceedsIff | src/transformer.cpp:38-83 | loading succeeds exactly when the data is structurally valid, both images match, and every triangulator corner is a midpoint; a load into an empty instance never reports not-empty |
| MapTransformer.Transformer.constructor | src/transformer.cpp:29-31 | a new transformer is empty, satisfies the object invariant, and has empty transform tables |
| MapTransformer.Transformer.Empty | src/transformer.cpp:275-288 | holds when all twelve fields are at their reset values: empty names and image paths, zero sizes, unit scale, zero rotation and translation, no correspondence points and no triangles; the transform tables are not consulted (`EmptyIsCleared` states it as equality with the cleared state) |
| MapTransformer.Transformer.Load | src/transformer.cpp:38-83 | a non-empty instance refuses with the logic error and is unchanged; a validation failure reports that error and changes nothing; otherwise the staged data is committed, the recovered triangles are stored, and either both tables are filled or the lost-triangle error is reported with empty tables |
| MapTransformer.Transformer.Assign | src/transformer.cpp:81 | the whole-object assignment copies every staged field and empties the triangles and both tables |
| MapTransformer.Transformer.AssignMaps | src/transformer.cpp:81 | copies both maps' names, image paths and sizes and changes no other field |
| MapTransformer.Transformer.AssignTransformAndPoints | src/transformer.cpp:81 | copies the map transform and both correspondence lists and changes no other field |
| MapTransformer.Transformer.Commit | src/transformer.cpp:79-82 | after claiming a validated copy the instance holds exactly that data, is non-empty and keeps its invariant; its triangles are the recovered ones, and either both tables are filled or the lost-triangle error is reported with empty tables |
| MapTransformer.Transformer.Reset | src/transformer.cpp:86-99 | after reset the instance is empty and keeps its invariant; the transform tables are untouched |
| MapTransformer.Transformer.RefMapName | src/transformer.cpp:101-107 | fails with the not-loaded error exactly when empty; otherwise the loaded name |
| MapTransformer.Transformer.RefMapImageFile | src/transformer.cpp:109-115 | fails with the not-loaded error exactly when empty; otherwise the loaded path |
| MapTransformer.Transformer.RefMapSize | src/transformer.cpp:117-123 | fails with the not-loaded error exactly when empty; otherwise the loaded size |
| MapTransformer.Transformer.RobotMapName | src/transformer.cpp:125-131 | fails with the not-loaded error exactly when empty; otherwise the loaded name |
| MapTransformer.Transformer.RobotMapImageFile | src/transformer.cpp:133-139 | fails with the not-loaded error exactly when empty; otherwise the loaded path |
| MapTransformer.Transformer.RobotMapSize | src/transformer.cpp:141-147 | fails with the not-loaded error exactly when empty; otherwise the loaded size |
| MapTransformer.Transformer.RobotMapScale | src/transformer.cpp:149-155 | fails with the not-loaded error exactly when empty; otherwise the loaded scale |
| MapTransformer.Transformer.RobotMapRotation | src/transformer.cpp:157-163 | fails with the not-loaded error exactly when empty; otherwise the loaded rotation |
| MapTransformer.Transformer.RobotMapTranslation | src/transformer.cpp:165-171 | fails with the not-loaded error exactly when empty; otherwise the loaded translation |
| MapTransformer.Transformer.RefMapCorrPoints | src/transformer.cpp:173-179 | fails with the not-loaded error exactly when empty; otherwise a non-empty list as long as the robot list |
| MapTransformer.Transformer.RobotMapCorrPoints | src/transformer.cpp:181-187 | fails with the not-loaded error exactly when empty; otherwise a non-empty list as long as the reference list |
| MapTransformer.Transformer.TriangleIndices | src/transformer.cpp:189-195 | fails with the not-loaded error exactly when empty; otherwise triangles whose indices are valid in both lists |
| MapTransformer.Transformer.BoundingBox | src/transformer.cpp:197-213 | fails with the not-loaded error exactly when empty; otherwise the box of both maps |
| MapTransformer.Transformer.ToRef | src/transformer.cpp:215-243 | fails exactly when empty; a robot correspondence point yields its first partner; otherwise the first containing triangle's to-reference transform applied to the point; otherwise the forward map transform |
| MapTransformer.Transformer.ToRobot | src/transformer.cpp:245-273 | fails exactly when empty; a reference correspondence point yields its first partner; otherwise the first containing triangle's to-robot transform applied to the point; otherwise the backward map transform |
| MapTransformer.Transformer.FindContainingTriangleInRef | src/transformer.cpp:442-454 | the first triangle whose reference corners contain the point, or −1 |
| MapTransformer.Transformer.FindContainingTriangleInRobot | src/transformer.cpp:457-469 | the first triangle whose robot corners contain the point, or −1 |
| MapTransformer.Transformer.CalculateCorrespondenceMidpoints | src/transformer.cpp:360-370 | one midpoint per correspondence pair, index by index |
| MapTransformer.Transformer.Precalculate | src/transformer.cpp:354-357 | the recovered triangles are appended; the tables are extended only when recovery is complete, otherwise the lost-triangle error leaves them unchanged |
| MapTransformer.Transformer.SubdivideAndIndexTriangles | src/transformer.cpp:373-404 | the triangles recovered from the triangulation of the midpoints over the bounding rectangle are appended; success exactly when recovery is complete |
| MapTransformer.Transformer.IndexTrianglesLoop | src/transformer.cpp:381-404 | the loop recovers the same prefix and completion flag as the recovery function |
| MapTransformer.Transformer.RecoverTriangleScan | src/transformer.cpp:384-402 | the three lookups with early exit agree with one-triangle recovery |
| MapTransformer.Transformer.PrecalculateTriangleTransforms | src/transformer.cpp:407-428 | each table is extended by one solved transform per triangle, in triangle order: robot-to-reference in one table and reference-to-robot in the other |
| MapTransformer.FromDocument | src/transformer.cpp:33-36 | constructing from a document yields a fresh transformer whose outcome is the load outcome of that document |
| MapTransformer.ReloadAfterReset | test/test_loading.cpp:733-744 | a second load fails with the not-empty error once the first has committed; loading the same document after reset ends exactly as the first load did |
| MapTransformer.CorrespondencePointToRef | test/test_transforms.cpp:226-233 | a robot correspondence point maps to the partner of its first occurrence; with distinct points, to its own partner |
| MapTransformer.CorrespondencePointToRobot | test/test_transforms.cpp:235-242 | a reference correspondence point maps to the partner of its first occurrence; with distinct points, to its own partner |
| MapTransformer.QueriesAfterReset | test/test_loading.cpp:746-768 | after reset both point queries fail with the not-loaded error |
| MapTransformer.EmptyRefusesAccessors | test/test_loading.cpp:870-889 | an empty transformer refuses every accessor and the bounding box with the not-loaded error |
| MapTransformer.LoadedAccessorsReportDocument | test/test_loading.cpp:726-731 | once a document is committed, every accessor reports the document's value; a missing image reads as the empty path and a missing transform as its defaults |
| MapTransformer.EmptyIsCleared | src/transformer.cpp:275-288 | emptiness is exactly the reset state: every field holds its cleared value and there are no triangles |

## Left out

- YAML parsing: the model starts from a parsed `Document`. Malformed YAML and missing mandatory keys (names, sizes, transform entries), which make yaml-cpp throw, are not modelled. A missing correspondence-point list is read as an empty list, which validation rejects; the model covers that case (`corrPoints == []`).
- The file-system and image I/O of validation is a `probe` parameter. The model does not capture that the file system can change between the existence check and the decode.
- The triangulator (OpenCV's `Subdiv2D`) is a parameter. Its Delaunay property, its virtual outer triangles and its float rounding of inserted points are not modelled. The model captures only how the transformer uses its output. The model's `Triangulator` cannot fail. `Subdiv2D::insert` rejects a point outside the subdivision rectangle (for example a midpoint on both maps' far edge), and it does so after the commit. `LoadSucceedsIff` holds only relative to a triangulator that accepts every midpoint.
- `getAffineTransform` is a parameter. Its behaviour on degenerate (collinear) triangles is not modelled, and neither is the fact that each table entry maps the triangle's corners onto each other.
- `pointPolygonTest` is replaced by an exact, boundary-inclusive cross-product test. On degenerate triangles the two part ways: a triangle whose three corners coincide contains the whole plane, and one with collinear corners contains the whole line through them. Such a triangle arises when, say, three reference correspondence points coincide while their robot partners differ: the midpoints are distinct, so the triangulator may connect them. The model's `ToRobot` then applies that triangle's transform to every later query it reaches, where OpenCV's test reports the point outside and the source falls back to the map transform.
- Coordinates are exact reals, not 32-bit floats. The float rounding of midpoints and transforms is not modelled, nor the `int` truncation of the subdivision rectangle in `cv::Rect`.
- `std::cos` and `std::sin` are the caller's `Trig` functions.
- The per-element `push_back` calls on triangles and tables are modelled as sequence appends.
- MapTransformer.Transformer.ToRef: requires that a point that is not a robot correspondence point has its first containing triangle, if any, inside the to-reference table. After a load that lost a triangle, the tables are empty but the recovered triangles remain. A query landing in one of those triangles then reads past the end of the table, which is undefined behaviour. The shortcut and the fallback stay inside the contract.
- MapTransformer.Transformer.ToRobot: has the same requirement with the reference list and the to-robot table, for the same reason as ToRef.
- The visualiser, the documentation configuration, the symbol-visibility header and the pair test are outside the transformer and are not part of this model.
