# Cable tool geometry, modelled in Dafny

This project models the discrete core of a small Unity cable tool. It has two components:

- `CableCreator` is placed on an anchor object. It holds a list of connections (`CablePoint`) to other anchors. Each connection has a target and two lists of tangent offsets. Pairing the offsets index by index gives one cubic Bezier strand per pair.
- `CableGeoCreator` samples every strand, concatenates the samples, and wraps one tube mesh round the resulting point sequence.

The model covers:

- the authoring data;
- the Bezier evaluator;
- the line schedule of the debug preview;
- the strand sampler with its nested interpolations;
- the concatenated sample buffer;
- the integer topology of the tube mesh: buffer sizes, quad and triangle indices, and the seam;
- the faults the code runs into on degenerate input.

Scalars are `real` and vectors are real triples (`Vectors`). All the exact-endpoint results below hold under this abstraction, not under IEEE single-precision rounding. The engine's transforms are uninterpreted total functions held in a `Scene` value:

- an anchor's world position;
- its local-to-world point map;
- its world-to-local point map.

`Vectors.Lerp` is Unity's `Vector3.Lerp`, so it clamps its parameter to [0, 1].

Modules and files:

- `faults.dfy` (`Faults`): the faults of the original code, and `Result`.
- `vectors.dfy` (`Vectors`): vectors, clamped and unclamped interpolation.
- `bezier.dfy` (`Bezier`): `CalculateBezierPoint`, its weights, and de Casteljau's construction as an independent reference.
- `cable_path.dfy` (`CablePath`): anchors, scene, `CablePoint`, `CableCreator`, the constructors, `AddNewCablePoint`, and the strand rule (min of the two list lengths).
- `blocks.dfy` (`Blocks`): concatenation of equal-length blocks and its index arithmetic.
- `debug_draw.dfy` (`DebugDraw`): `GetPointAt` and the line schedule of `DrawBezierToNextPoint` and `OnDrawGizmos`.
- `sampler.dfy` (`Sampler`): `GetBezierPoints` and the sample at parameter t.
- `point_buffer.dfy` (`PointBuffer`): the two collecting loops of `UpdateCableGeometry`, and their flat reference.
- `tube_mesh.dfy` (`TubeMesh`): the sizes, faults and triangle indices of `CreateCylinderMesh`. The triangle loop is an imperative method over the index array, held as a sequence written one slot at a time.
- `geometry.dfy` (`CableGeometry`): one rebuild of the geometry, end to end.

Where the code and its design description disagree, the model follows the code:

- Strands are not separate tubes. The mesh loop joins every pair of consecutive buffer points, so the last sample of a strand (its target) is joined to the first sample of the next strand (the source anchor). See `CableGeometry.StrandsAreStitched`.
- The sampler does not evaluate the plain Bezier curve between the anchors and the offsets. It first interpolates the start point towards the target's end control point twice, with the same parameter. The model keeps that construction (`Sampler.SamplePoint`).
- Neither `resolution` nor `radialSegments` is clamped. Zero, one and negative values reach the array allocations and the divisions, and the model reports the resulting faults.
- The texture coordinate array is allocated but never written, so every entry is the zero vector.

## Model

| member | source | states |
|---|---|---|
| Bezier.CalculateBezierPoint | CableCreator.cs:92-106 | At t = 0 the curve point is exactly p0 and at t = 1 exactly p3. Four equal control points give that point for every t. |
| Bezier.PartitionOfUnity | CableCreator.cs:94-103 | The four weights uuu, 3uut, 3utt and ttt sum to one for every t. |
| Bezier.MatchesDeCasteljau | CableCreator.cs:92-106 | For every t the evaluator agrees with de Casteljau's construction on the same control points, so it computes the cubic Bezier curve. |
| Bezier.TranslationInvariant | CableCreator.cs:92-106 | Moving all four control points by a vector d moves the curve point by d. |
| CablePath.EmptyCablePoint | CableCreator.cs:14-19 | The parameterless connection has no target and two empty offset lists. |
| CablePath.NewCablePoint | CableCreator.cs:21-26 | The connection made for a creator targets that creator, and each offset list holds exactly one zero vector. |
| CablePath.AddNewCablePoint | CableCreator.cs:29-33 | The list grows by one. The new last entry is a parameterless connection, the earlier entries are unchanged, and the anchor and resolution stay the same. |
| CablePath.CurveCount | CableCreator.cs:60 | A connection yields as many curves as its shorter offset list: at most either length, and equal to one of them. |
| CablePath.Strands | CableGeoCreator.cs:31-40 | A connection without a target yields no strand. Otherwise strand i pairs the offsets at index i, for every i below the curve count. |
| CablePath.AllStrandsCount | CableGeoCreator.cs:31-40 | The strands of all connections number the sum of the curve counts of the connections that have a target. |
| CablePath.DefaultConnectionStrands | CableCreator.cs:14-26 | A parameterless connection yields no strand. A connection made for an anchor yields exactly one, with both offsets zero. |
| CablePath.AddNewCablePointKeepsStrands | CableCreator.cs:29-33 | Appending a parameterless connection leaves the strand list and the strand count unchanged. |
| DebugDraw.GetPointAt | CableCreator.cs:82-90 | The preview curve starts at the source anchor's position (t = 0) and ends at the target's position (t = 1). |
| DebugDraw.StrandLinesPolyline | CableCreator.cs:70-78 | From pass i on, the drawn lines are the uniform polyline through the curve points at i-1, i, ... resolution over resolution. |
| DebugDraw.StrandSchedule | CableCreator.cs:70-78 | One strand draws `resolution` lines, or none when the resolution is negative. Line m joins the knots at m / resolution and (m + 1) / resolution. The first line starts at the source position and the last ends at the target position. |
| DebugDraw.CurveLinesFlatten | CableCreator.cs:60-79 | When the loop bound is the curve count, the guard that skips an index past either list never fires: every pass appends its strand's lines. |
| DebugDraw.DrawSchedule | CableCreator.cs:56-80 | A connection draws curve count × resolution lines (none for a negative resolution). Line m of strand k is at position k × resolution + m. |
| DebugDraw.DrawEndpoints | CableCreator.cs:70-78 | The lines of every strand start at the source position and end at the target position. |
| DebugDraw.GizmoLines | CableCreator.cs:44-52 | The whole preview draws resolution × (sum of the curve counts of targeted connections) lines, and none when the resolution is negative. |
| Sampler.SampleParameter | CableGeoCreator.cs:61 | The parameter i / (resolution - 1) lies in [0, 1]. It is 0 exactly for the first sample and 1 exactly for the last. |
| Sampler.SamplePoint | CableGeoCreator.cs:63-82 | The nested-interpolation sample is the source position at t = 0 and the target position at t = 1. |
| Sampler.StrandSamples | CableGeoCreator.cs:58-84 | The filled array has `resolution` entries, entry i being the sample at i / (resolution - 1). |
| Sampler.GetBezierPoints | CableGeoCreator.cs:56-86 | It fails exactly for a negative resolution (allocation) or a resolution of one (0 / 0). Otherwise it returns exactly `resolution` points, the first at the source position and the last at the target position. |
| Sampler.StraightStrand | CableGeoCreator.cs:63-82 | A strand with zero offsets is straight, given that the target's transform maps the local origin to its position (which `TransformPoint` does for every transform). Every sample for t in [0, 1] lies on the segment from source to target. |
| PointBuffer.AppendConnectionsMeaning | CableGeoCreator.cs:29-41 | The nested collecting loops equal the concatenation of every strand's samples, or the sampler's fault as soon as one strand is sampled. |
| PointBuffer.CollectPoints | CableGeoCreator.cs:29-41 | Collecting fails exactly when some targeted connection has a curve and the resolution is negative or one, with that fault. |
| PointBuffer.BufferLayout | CableGeoCreator.cs:29-41 | The buffer has resolution × (strand count) points. Sample i of strand j sits at j × resolution + i, in connection, strand, sample order. |
| PointBuffer.BufferEndpoints | CableGeoCreator.cs:29-41 | Each strand's block starts at the source position and ends at the strand's target position. |
| PointBuffer.BufferSeam | CableGeoCreator.cs:29-41 | Where strand j ends and strand j + 1 begins, the buffer jumps from strand j's target back to the source position. |
| PointBuffer.AddNewCablePointKeepsBuffer | CableCreator.cs:29-33 | Appending a parameterless connection leaves the collected buffer unchanged. |
| TubeMesh.CreateCylinderMesh | CableGeoCreator.cs:89-150 | The mesh is built exactly when there are at least two points and a non-negative radial count, or no point and a non-positive one. A single point with a non-negative radial count faults on the read at index -1; every other failure, including a single point with a negative radial count, is a negative array size. A built mesh has points × radialCount vertices, one ring centred on each point, all texture coordinates zero, and (points - 1) × radialCount × 6 triangle indices. |
| TubeMesh.FillTriangles | CableGeoCreator.cs:125-143 | The nested loop over a zero-filled array produces the reference array: every slot holds the corner of the quad its index divides into, or zero when there is no quad. |
| TubeMesh.SizeSign | CableGeoCreator.cs:95 | A non-negative triangle array size with at least two points forces a non-negative radial count. |
| TubeMesh.DecodeSlot | CableGeoCreator.cs:134 | Dividing the slot (i × R + j) × 6 + k by 6 and then by R gives back quad (i, j) and corner k. |
| TubeMesh.SlotsTile | CableGeoCreator.cs:134-141 | The six slots of each visited quad are distinct, lie inside the array, and together cover it. So each slot is written exactly once. |
| TubeMesh.TriangleBounds | CableGeoCreator.cs:125-143 | For at least two points and one radial segment, every triangle index lies in [0, points × radialCount). |
| TubeMesh.QuadShape | CableGeoCreator.cs:129-141 | Quad (i, j) uses only rings i and i + 1, and positions j and the next position round the ring. Its triangles share the diagonal from currentSegment to nextVertNextSegment. |
| TubeMesh.RingJoins | CableGeoCreator.cs:127-141 | Every quad of ring i has each corner on ring i or ring i + 1, in the order the two triangles list them. |
| TubeMesh.SeamWrap | CableGeoCreator.cs:131 | At j = R - 1 the neighbour wraps to the first vertex of the same ring and of the next ring. |
| TubeMesh.DistinctCorners | CableGeoCreator.cs:129-141 | Each triangle has three distinct corners exactly when there are at least two radial segments. With one, every triangle is degenerate. |
| TubeMesh.EveryVertexUsed | CableGeoCreator.cs:125-143 | Every vertex is a corner of some triangle. |
| TubeMesh.BuiltMeshIsTube | CableGeoCreator.cs:89-150 | A mesh on at least two points with at least one radial segment is built. Its indices name existing vertices only, and every vertex is used. |
| CableGeometry.UpdateCableGeometry | CableGeoCreator.cs:24-54 | The rebuild is skipped exactly when there is no creator or it has no connection. A built mesh has at least two rings, or is the empty mesh of a non-positive radial count. |
| CableGeometry.RebuildOutcome | CableGeoCreator.cs:24-54 | With at least one radial segment, a creator with connections gets a mesh exactly when some targeted connection has a curve and the resolution is at least two. The mesh then has resolution × strands rings. Otherwise the rebuild faults. For resolution one the model reports `NotANumber`, where the original goes on with NaN points and then builds a mesh with NaN ring centres (two or more strands) or reads index -1 (one strand). Every other case is a negative array size. |
| CableGeometry.DefaultCable | CableCreator.cs:37 | With the default resolution of 20 and the default 8 radial segments (CableGeoCreator.cs:11), a cable with one fresh connection builds a mesh of 160 vertices, 20 rings and 912 triangle indices. |
| CableGeometry.RingCentres | CableGeoCreator.cs:43-49 | Ring k of a built mesh is centred on buffer point k, carried into the anchor's local space. |
| CableGeometry.StrandsAreStitched | CableGeoCreator.cs:125-143 | In the ring centres and triangle array a built mesh holds, the quads of the ring that ends strand j join it to the ring that starts strand j + 1. The first ring is centred on strand j's target, the second on the source anchor. |
| CableGeometry.AddNewCablePointKeepsGeometry | CableCreator.cs:29-33 | For a creator that already has connections, appending a parameterless connection leaves the rebuild unchanged. |
| CableGeometry.FirstConnectionFaults | CableGeoCreator.cs:26-27 | An empty creator is skipped. After its first parameterless connection is appended, the buffer is empty and the rebuild faults on a negative triangle array size. |

## Left out

- Unity lifecycle and component plumbing are not modelled, because they are engine I/O with no logic to state. This covers `Awake`, `OnDrawGizmos` as a callback, `GetComponent`, `MeshFilter` and `MeshRenderer`, and the material assignment. The creator found on the same object is a parameter that may be absent.
- The `Gizmos.DrawLine` and `Gizmos.DrawSphere` calls are not modelled. Only the list of segments the preview would draw is modelled.
- Vertex positions round each ring are not modelled: `Quaternion.LookRotation`, `Mathf.Cos`/`Sin`, and the degree-to-radian conversion are floating-point trigonometry with opaque library semantics. A mesh records only the point each ring is centred on. This also leaves out `cableDiameter` and the unused per-ring parameter t.
- `TransformPoint`, `InverseTransformPoint` and `transform.position` are uninterpreted functions with no property assumed.
- `RecalculateNormals` and `RecalculateBounds` are not modelled; they are engine calls.
- IEEE single-precision rounding is not modelled. Every exact endpoint and straightness result holds for real arithmetic only.
- Null references are not modelled: null `nextPoints`, null list entries and null offset lists. The constructors never produce them, and the engine's serializer fills lists. An unset target is modelled (`None`).
- 32-bit integer overflow of pointCount × radialCount × 6 and of the index formulas is not modelled. Integers are unbounded.
- Unity's 16-bit index limit (65535 vertices) for meshes is not modelled.
- Sampler.GetBezierPoints: for a resolution of one, the original computes 0 / 0 as NaN and keeps going with NaN coordinates. The model stops there with the `NotANumber` fault, because reals cannot carry NaN. Downstream, such a buffer would meet the mesh routine with NaN positions, or fault at index -1 when it has a single point. The model reports NaN in both cases.
- PointBuffer.CollectPoints: for a resolution of one with at least one strand, the model returns the `NotANumber` fault. The original collects one NaN point per strand without any error (0/0 clamped to [0, 1] stays NaN); the model's reals have no NaN to carry.
- CableGeometry.RebuildOutcome: for a resolution of one with at least one strand, the model states `Faulted(NotANumber)`. The original builds a mesh whose ring centres are NaN when there are two or more strands, and throws on the read at index -1 when there is one strand.
- TubeMesh.CreateCylinderMesh: C# throws an overflow exception for a negative array length. The fault is named `NegativeArraySize` after its cause.

