/** The integer part of `CableGeoCreator.CreateCylinderMesh`: the buffer
    sizes, the quad and triangle index formulas with the wrap-around at the
    ring seam, and the conditions under which the routine faults. Vertex
    positions are left out. */
module TubeMesh {
  import opened Vectors
  import opened Faults

  /** The length of the triangle index array, (pointCount - 1) * radialCount * 6. */
  function TriangleSize(pointCount: int, radialCount: int): int {
    (pointCount - 1) * radialCount * 6
  }

  /** The index of vertex `position` of ring `ring`. */
  function Vertex(radialCount: int, ring: int, position: int): int {
    ring * radialCount + position
  }

  /** Corner k (0 to 5) of the quad between ring i and ring i + 1 at ring
      position j, as the loop body computes it: triangles
      (current, nextSegment, nextVertNextSegment) and
      (current, nextVertNextSegment, nextVert). */
  function Corner(radialCount: int, i: int, j: int, k: int): int
    requires radialCount >= 1 && 0 <= k < 6
  {
    var currentSegment := i * radialCount + j;
    var nextSegment := currentSegment + radialCount;
    var nextVert := (j + 1) % radialCount + i * radialCount;
    var nextVertNextSegment := nextVert + radialCount;
    if k == 0 || k == 3 then currentSegment
    else if k == 1 then nextSegment
    else if k == 2 || k == 4 then nextVertNextSegment
    else nextVert
  }

  /** The array slot of corner k of quad (i, j), (i * radialCount + j) * 6 + k. */
  function Slot(radialCount: int, i: int, j: int, k: int): int {
    (i * radialCount + j) * 6 + k
  }

  /** The quad a slot belongs to and its corner: (ring, position, corner). */
  datatype SlotOwner = SlotOwner(ring: int, position: int, corner: int)

  function Owner(radialCount: int, s: int): SlotOwner
    requires radialCount >= 1
  {
    var q := s / 6;
    SlotOwner(q / radialCount, q % radialCount, s % 6)
  }

  /** The independent description of the triangle array: each slot holds
      the corner it belongs to, found by dividing its index; when the loops
      have no quad to visit the array keeps its zero default. */
  function TriangleIndices(pointCount: int, radialCount: int): (r: seq<int>)
    requires TriangleSize(pointCount, radialCount) >= 0
    ensures |r| == TriangleSize(pointCount, radialCount)
  {
    var size := TriangleSize(pointCount, radialCount);
    seq(size, s requires 0 <= s < size =>
      if pointCount >= 2 && radialCount >= 1 then
        var o := Owner(radialCount, s);
        Corner(radialCount, o.ring, o.position, o.corner)
      else 0)
  }

  lemma MulSign(d: int, m: int)
    requires d > 0
    ensures m >= 1 ==> d * m >= d
    ensures m <= -1 ==> d * m <= -d
  {
  }

  lemma ProductSign(a: int, b: int)
    ensures a > 0 && b > 0 ==> a * b > 0
    ensures a > 0 && b < 0 ==> a * b < 0
    ensures a < 0 && b > 0 ==> a * b < 0
    ensures a < 0 && b < 0 ==> a * b > 0
  {
  }

  /** Euclidean division is unique. */
  lemma DivModUnique(x: int, d: int, q: int, r: int)
    requires d > 0 && 0 <= r < d && x == d * q + r
    ensures x / d == q && x % d == r
  {
    var q', r' := x / d, x % d;
    assert x == d * q' + r';
    assert d * (q - q') == r' - r;
    MulSign(d, q - q');
  }

  /** Dividing a slot index recovers its quad and corner. */
  lemma DecodeSlot(radialCount: int, i: int, j: int, k: int)
    requires radialCount >= 1 && 0 <= j < radialCount && 0 <= k < 6
    ensures Owner(radialCount, Slot(radialCount, i, j, k)) == SlotOwner(i, j, k)
  {
    var q := i * radialCount + j;
    DivModUnique(Slot(radialCount, i, j, k), 6, q, k);
    DivModUnique(q, radialCount, i, j);
  }

  /** Every slot index below the array size is the slot of a quad that the
      loops visit. */
  lemma EncodeSlot(pointCount: int, radialCount: int, s: int)
    requires pointCount >= 2 && radialCount >= 1 && 0 <= s < TriangleSize(pointCount, radialCount)
    ensures var o := Owner(radialCount, s);
      && 0 <= o.ring < pointCount - 1 && 0 <= o.position < radialCount && 0 <= o.corner < 6
      && Slot(radialCount, o.ring, o.position, o.corner) == s
  {
    var q := s / 6;
    assert s == 6 * q + s % 6;
    DivBelow(s, 6, (pointCount - 1) * radialCount);
    DivBelow(q, radialCount, pointCount - 1);
    assert q == radialCount * (q / radialCount) + q % radialCount;
  }

  /** A quotient of a non-negative number below m * d lies in [0, m). */
  lemma DivBelow(x: int, d: int, m: int)
    requires d > 0 && 0 <= x < m * d
    ensures 0 <= x / d < m
  {
    var q, r := x / d, x % d;
    assert x == d * q + r && 0 <= r < d;
    MulSign(d, q);
    MulSign(d, q - m + 1);
    assert d * (q - m + 1) == d * q - m * d + d;
  }

  /** The slots of the visited quads lie inside the array. */
  lemma SlotInside(pointCount: int, radialCount: int, i: int, j: int, k: int)
    requires radialCount >= 1 && 0 <= i < pointCount - 1 && 0 <= j < radialCount && 0 <= k < 6
    ensures 0 <= Slot(radialCount, i, j, k) < TriangleSize(pointCount, radialCount)
  {
    assert i * radialCount + j < (i + 1) * radialCount;
    assert (i + 1) * radialCount <= (pointCount - 1) * radialCount;
    assert 0 <= i * radialCount;
  }

  /** A non-negative triangle array size with at least one ring of quads
      forces a non-negative radial count. */
  lemma SizeSign(pointCount: int, radialCount: int)
    requires TriangleSize(pointCount, radialCount) >= 0
    ensures pointCount >= 2 ==> radialCount >= 0
  {
    if pointCount >= 2 && radialCount < 0 {
      MulSign(pointCount - 1, radialCount);
    }
  }

  /** The six corners of quad (i, j) in slot order. */
  function QuadCorners(radialCount: int, i: int, j: int): (r: seq<int>)
    requires radialCount >= 1
    ensures |r| == 6
  {
    [Corner(radialCount, i, j, 0), Corner(radialCount, i, j, 1), Corner(radialCount, i, j, 2),
     Corner(radialCount, i, j, 3), Corner(radialCount, i, j, 4), Corner(radialCount, i, j, 5)]
  }

  lemma QuadCornersAre(radialCount: int, i: int, j: int,
                       currentSegment: int, nextSegment: int, nextVert: int, nextVertNextSegment: int)
    requires radialCount >= 1
    requires currentSegment == i * radialCount + j && nextSegment == currentSegment + radialCount
    requires nextVert == (j + 1) % radialCount + i * radialCount && nextVertNextSegment == nextVert + radialCount
    ensures QuadCorners(radialCount, i, j)
      == [currentSegment, nextSegment, nextVertNextSegment, currentSegment, nextVertNextSegment, nextVert]
  {
  }

  /** The reference array holds the corners of each visited quad at its six slots. */
  lemma ReferenceQuad(pointCount: int, radialCount: int, i: int, j: int)
    requires radialCount >= 1 && 0 <= i < pointCount - 1 && 0 <= j < radialCount
    ensures TriangleSize(pointCount, radialCount) >= 0
    ensures var base := Slot(radialCount, i, j, 0);
      && 0 <= base && base + 6 <= TriangleSize(pointCount, radialCount)
      && TriangleIndices(pointCount, radialCount)[base..base + 6] == QuadCorners(radialCount, i, j)
  {
    SlotInside(pointCount, radialCount, i, j, 0);
    SlotInside(pointCount, radialCount, i, j, 5);
    var base := Slot(radialCount, i, j, 0);
    var t := TriangleIndices(pointCount, radialCount);
    forall k | 0 <= k < 6
      ensures t[base..base + 6][k] == QuadCorners(radialCount, i, j)[k]
    {
      assert base + k == Slot(radialCount, i, j, k);
      DecodeSlot(radialCount, i, j, k);
    }
  }

  /** The slots below `bound` hold the reference values and the rest are still zero. */
  ghost predicate FilledBelow(a: seq<int>, expected: seq<int>, bound: int)
    requires |a| == |expected|
  {
    forall s :: 0 <= s < |a| ==> a[s] == (if s < bound then expected[s] else 0)
  }

  /** Writing the reference values of six further slots moves the filled bound by six. */
  lemma FillSix(before: seq<int>, after: seq<int>, expected: seq<int>, base: int)
    requires |before| == |after| == |expected| && 0 <= base && base + 6 <= |after|
    requires FilledBelow(before, expected, base)
    requires after[..base] == before[..base] && after[base + 6..] == before[base + 6..]
    requires after[base..base + 6] == expected[base..base + 6]
    ensures FilledBelow(after, expected, base + 6)
  {
    forall s | 0 <= s < |after|
      ensures after[s] == (if s < base + 6 then expected[s] else 0)
    {
      if s < base {
        assert after[s] == after[..base][s];
      } else if s < base + 6 {
        assert after[s] == after[base..base + 6][s - base];
      } else {
        assert after[s] == after[base + 6..][s - base - 6];
      }
    }
  }

  /** Writing the six corners of a visited quad at its slots, one slot at a
      time, moves the filled bound past that quad. */
  lemma QuadWritten(pointCount: int, radialCount: int, i: int, j: int,
                    before: seq<int>, expected: seq<int>, after: seq<int>)
    requires radialCount >= 1 && 0 <= i < pointCount - 1 && 0 <= j < radialCount
    requires TriangleSize(pointCount, radialCount) >= 0
    requires expected == TriangleIndices(pointCount, radialCount) && |before| == |expected|
    requires FilledBelow(before, expected, Slot(radialCount, i, j, 0))
    requires var b, q := Slot(radialCount, i, j, 0), QuadCorners(radialCount, i, j);
      0 <= b && b + 6 <= |before| &&
      after == before[b := q[0]][b + 1 := q[1]][b + 2 := q[2]][b + 3 := q[3]][b + 4 := q[4]][b + 5 := q[5]]
    ensures |after| == |expected| && FilledBelow(after, expected, Slot(radialCount, i, j, 0) + 6)
  {
    var base := Slot(radialCount, i, j, 0);
    ReferenceQuad(pointCount, radialCount, i, j);
    assert after[base..base + 6] == QuadCorners(radialCount, i, j);
    assert after[..base] == before[..base];
    assert after[base + 6..] == before[base + 6..];
    FillSix(before, after, expected, base);
  }

  /** The last quad of row i ends where row i + 1 starts. */
  lemma RowEnd(radialCount: int, i: int)
    ensures (i * radialCount + radialCount) * 6 == (i + 1) * radialCount * 6
  {
  }

  /** The second nested loop of the mesh routine on a zero-filled array:
      quad (i, j) writes its six corners at slots (i * radialCount + j) * 6
      onwards. The result is the reference array. */
  method FillTriangles(pointCount: int, radialCount: int) returns (triangles: seq<int>)
    requires TriangleSize(pointCount, radialCount) >= 0
    ensures triangles == TriangleIndices(pointCount, radialCount)
  {
    SizeSign(pointCount, radialCount);
    ghost var expected := TriangleIndices(pointCount, radialCount);
    var size := TriangleSize(pointCount, radialCount);
    triangles := seq(size, _ => 0);
    var i := 0;
    while i < pointCount - 1
      invariant 0 <= i && (pointCount >= 1 ==> i <= pointCount - 1)
      invariant |triangles| == size
      invariant FilledBelow(triangles, expected, i * radialCount * 6)
    {
      var j := 0;
      while j < radialCount
        invariant 0 <= j <= radialCount
        invariant |triangles| == size
        invariant FilledBelow(triangles, expected, (i * radialCount + j) * 6)
      {
        var currentSegment := i * radialCount + j;
        var nextSegment := currentSegment + radialCount;
        var nextVert := (j + 1) % radialCount + i * radialCount;
        var nextVertNextSegment := nextVert + radialCount;
        var triangleIndex := (i * radialCount + j) * 6;
        SlotInside(pointCount, radialCount, i, j, 5);
        ghost var before := triangles;
        triangles := triangles[triangleIndex := currentSegment];
        triangles := triangles[triangleIndex + 1 := nextSegment];
        triangles := triangles[triangleIndex + 2 := nextVertNextSegment];
        triangles := triangles[triangleIndex + 3 := currentSegment];
        triangles := triangles[triangleIndex + 4 := nextVertNextSegment];
        triangles := triangles[triangleIndex + 5 := nextVert];
        QuadCornersAre(radialCount, i, j, currentSegment, nextSegment, nextVert, nextVertNextSegment);
        QuadWritten(pointCount, radialCount, i, j, before, expected, triangles);
        j := j + 1;
      }
      RowEnd(radialCount, i);
      i := i + 1;
    }
    FilledAll(pointCount, radialCount, i, triangles, expected);
  }

  /** Once the outer loop is done every slot holds its reference value. */
  lemma FilledAll(pointCount: int, radialCount: int, i: int, triangles: seq<int>, expected: seq<int>)
    requires TriangleSize(pointCount, radialCount) >= 0 && 0 <= i && !(i < pointCount - 1)
    requires pointCount >= 1 ==> i <= pointCount - 1
    requires expected == TriangleIndices(pointCount, radialCount) && |triangles| == |expected|
    requires FilledBelow(triangles, expected, i * radialCount * 6)
    ensures triangles == expected
  {
    if pointCount >= 2 {
      assert i * radialCount * 6 == |expected|;
    } else {
      forall s | 0 <= s < |expected| ensures expected[s] == 0 { }
    }
  }

  /** What the mesh routine hands to the mesh: the vertex count, the path
      point each ring of vertices is centred on (the positions round the
      ring are not modelled), the texture coordinates and the triangle
      indices. */
  datatype Mesh = Mesh(vertexCount: nat, ringCentres: seq<Vec3>, uv: seq<Vec2>, triangles: seq<int>)

  /** The mesh routine on the path points: the vertex and triangle arrays
      are allocated first (a negative size throws), then the vertex loop
      reads the previous point for the last ring, which is out of range
      when there is a single point. The texture coordinates are never
      written, so they keep their zero default. */
  function CreateCylinderMesh(bezierPoints: seq<Vec3>, radialCount: int): (r: Result<Mesh>)
    ensures var pointCount := |bezierPoints|;
      r.Ok? <==> (pointCount >= 2 && radialCount >= 0) || (pointCount == 0 && radialCount <= 0)
    ensures r.Err? ==> (r.fault == IndexOutOfRange <==> |bezierPoints| == 1 && radialCount >= 0)
    ensures r.Err? ==> r.fault != NotANumber
    ensures r.Ok? ==>
      && r.value.vertexCount == |bezierPoints| * radialCount
      && r.value.ringCentres == bezierPoints
      && |r.value.uv| == r.value.vertexCount
      && (forall k :: 0 <= k < |r.value.uv| ==> r.value.uv[k] == Zero2)
      && |r.value.triangles| == (|bezierPoints| - 1) * radialCount * 6
  {
    var pointCount := |bezierPoints|;
    var vertCount := pointCount * radialCount;
    ProductSign(pointCount, radialCount);
    ProductSign(pointCount - 1, radialCount);
    if vertCount < 0 then Err(NegativeArraySize)
    else if TriangleSize(pointCount, radialCount) < 0 then Err(NegativeArraySize)
    else if pointCount == 1 then Err(IndexOutOfRange)
    else Ok(Mesh(vertCount, bezierPoints, seq(vertCount, _ => Zero2), TriangleIndices(pointCount, radialCount)))
  }

  /** Vertex v is a corner of some triangle. */
  ghost predicate Used(triangles: seq<int>, v: int) {
    exists s :: 0 <= s < |triangles| && triangles[s] == v
  }

  /** A successful mesh on at least two points and at least one segment
      round the ring is a closed tube: its triangles index existing vertices
      only, and every vertex is used. */
  lemma BuiltMeshIsTube(bezierPoints: seq<Vec3>, radialCount: int)
    requires |bezierPoints| >= 2 && radialCount >= 1
    ensures CreateCylinderMesh(bezierPoints, radialCount).Ok?
    ensures var m := CreateCylinderMesh(bezierPoints, radialCount).value;
      && (forall s :: 0 <= s < |m.triangles| ==> 0 <= m.triangles[s] < m.vertexCount)
      && (forall v :: 0 <= v < m.vertexCount ==> Used(m.triangles, v))
  {
    var pointCount := |bezierPoints|;
    TriangleBounds(pointCount, radialCount);
    forall v | 0 <= v < pointCount * radialCount
      ensures Used(TriangleIndices(pointCount, radialCount), v)
    {
      EveryVertexUsed(pointCount, radialCount, v);
    }
  }

  /** How far corner k of a quad lies from the quad's first vertex: one ring
      further for corners 1, 2 and 4, one position further round the ring for
      corners 2, 4 and 5. */
  function RingStep(k: int): int {
    if k == 1 || k == 2 || k == 4 then 1 else 0
  }

  function PositionStep(k: int): int {
    if k == 2 || k == 4 || k == 5 then 1 else 0
  }

  lemma MulMonotone(a: int, b: int, c: int)
    requires a >= 0 && b <= c
    ensures a * b <= a * c
  {
    assert a * c - a * b == a * (c - b);
    ProductSign(a, c - b);
  }

  /** A vertex index splits into its ring and ring position, and it is below
      pointCount * radialCount exactly when its ring is below pointCount. */
  lemma RingBound(v: int, radialCount: int, pointCount: int)
    requires radialCount >= 1 && v >= 0
    ensures v == radialCount * (v / radialCount) + v % radialCount
    ensures v < pointCount * radialCount <==> v / radialCount < pointCount
  {
    var ring := v / radialCount;
    if ring < pointCount {
      MulMonotone(radialCount, ring + 1, pointCount);
    } else {
      MulMonotone(radialCount, pointCount, ring);
    }
  }

  /** Corner k of quad (i, j) lies on ring i + RingStep(k) at position
      j + PositionStep(k) taken round the ring. */
  lemma CornerDecode(radialCount: int, i: int, j: int, k: int)
    requires radialCount >= 1 && 0 <= j < radialCount && 0 <= k < 6
    ensures Corner(radialCount, i, j, k) / radialCount == i + RingStep(k)
    ensures Corner(radialCount, i, j, k) % radialCount == (j + PositionStep(k)) % radialCount
  {
    var position := (j + PositionStep(k)) % radialCount;
    assert j % radialCount == j;
    assert radialCount * (i + 1) == radialCount * i + radialCount;
    assert Corner(radialCount, i, j, k) == radialCount * (i + RingStep(k)) + position;
    DivModUnique(Corner(radialCount, i, j, k), radialCount, i + RingStep(k), position);
  }

  /** The reference array holds corner k of a visited quad at its slot. */
  lemma CornerValue(pointCount: int, radialCount: int, i: int, j: int, k: int)
    requires radialCount >= 1 && 0 <= i < pointCount - 1 && 0 <= j < radialCount && 0 <= k < 6
    ensures TriangleSize(pointCount, radialCount) >= 0
    ensures 0 <= Slot(radialCount, i, j, k) < TriangleSize(pointCount, radialCount)
    ensures TriangleIndices(pointCount, radialCount)[Slot(radialCount, i, j, k)] == Corner(radialCount, i, j, k)
  {
    SlotInside(pointCount, radialCount, i, j, k);
    DecodeSlot(radialCount, i, j, k);
  }

  /** Every quad of ring i joins it to ring i + 1. */
  lemma RingJoins(pointCount: int, radialCount: int, i: int)
    requires pointCount >= 2 && radialCount >= 1 && 0 <= i < pointCount - 1
    ensures TriangleSize(pointCount, radialCount) >= 0
    ensures var t := TriangleIndices(pointCount, radialCount);
      forall p, k :: 0 <= p < radialCount && 0 <= k < 6 ==>
        && 0 <= Slot(radialCount, i, p, k) < |t|
        && t[Slot(radialCount, i, p, k)] / radialCount == i + RingStep(k)
  {
    forall p, k | 0 <= p < radialCount && 0 <= k < 6
      ensures 0 <= Slot(radialCount, i, p, k) < TriangleSize(pointCount, radialCount)
      ensures TriangleIndices(pointCount, radialCount)[Slot(radialCount, i, p, k)] / radialCount == i + RingStep(k)
    {
      QuadShape(pointCount, radialCount, i, p);
    }
  }

  /** Quad (i, j) joins ring i to ring i + 1 and position j to the next
      position round the ring, wrapping at the seam; both of its triangles
      share the diagonal from corner 0 to corner 2. */
  lemma QuadShape(pointCount: int, radialCount: int, i: int, j: int)
    requires pointCount >= 2 && radialCount >= 1 && 0 <= i < pointCount - 1 && 0 <= j < radialCount
    ensures TriangleSize(pointCount, radialCount) >= 0
    ensures forall k :: 0 <= k < 6 ==> 0 <= Slot(radialCount, i, j, k) < TriangleSize(pointCount, radialCount)
    ensures forall k :: 0 <= k < 6 ==>
      var v := TriangleIndices(pointCount, radialCount)[Slot(radialCount, i, j, k)];
      && v / radialCount == i + RingStep(k)
      && v % radialCount == (j + PositionStep(k)) % radialCount
    ensures var t := TriangleIndices(pointCount, radialCount);
      && t[Slot(radialCount, i, j, 0)] == t[Slot(radialCount, i, j, 3)]
      && t[Slot(radialCount, i, j, 2)] == t[Slot(radialCount, i, j, 4)]
  {
    forall k | 0 <= k < 6
      ensures 0 <= Slot(radialCount, i, j, k) < TriangleSize(pointCount, radialCount)
      ensures var v := TriangleIndices(pointCount, radialCount)[Slot(radialCount, i, j, k)];
        && v / radialCount == i + RingStep(k)
        && v % radialCount == (j + PositionStep(k)) % radialCount
    {
      CornerValue(pointCount, radialCount, i, j, k);
      CornerDecode(radialCount, i, j, k);
    }
    CornerValue(pointCount, radialCount, i, j, 0);
    CornerValue(pointCount, radialCount, i, j, 3);
    CornerValue(pointCount, radialCount, i, j, 2);
    CornerValue(pointCount, radialCount, i, j, 4);
  }

  lemma SeamCorners(radialCount: int, i: int)
    requires radialCount >= 1
    ensures Corner(radialCount, i, radialCount - 1, 5) == Vertex(radialCount, i, 0)
    ensures Corner(radialCount, i, radialCount - 1, 2) == Vertex(radialCount, i + 1, 0)
  {
    assert (radialCount - 1 + 1) % radialCount == 0;
    assert (i + 1) * radialCount == i * radialCount + radialCount;
  }

  /** At the seam the last quad of a ring closes the ring: its far corners
      are the first vertices of rings i and i + 1. */
  lemma SeamWrap(pointCount: int, radialCount: int, i: int)
    requires pointCount >= 2 && radialCount >= 1 && 0 <= i < pointCount - 1
    ensures TriangleSize(pointCount, radialCount) >= 0
    ensures 0 <= Slot(radialCount, i, radialCount - 1, 2) < TriangleSize(pointCount, radialCount)
    ensures 0 <= Slot(radialCount, i, radialCount - 1, 5) < TriangleSize(pointCount, radialCount)
    ensures var t := TriangleIndices(pointCount, radialCount);
      && t[Slot(radialCount, i, radialCount - 1, 5)] == Vertex(radialCount, i, 0)
      && t[Slot(radialCount, i, radialCount - 1, 2)] == Vertex(radialCount, i + 1, 0)
  {
    CornerValue(pointCount, radialCount, i, radialCount - 1, 5);
    CornerValue(pointCount, radialCount, i, radialCount - 1, 2);
    SeamCorners(radialCount, i);
  }

  /** One step round a ring comes back to the same position only when the
      ring has a single segment. */
  lemma NextPosition(radialCount: int, j: int)
    requires radialCount >= 1 && 0 <= j < radialCount
    ensures (j + 1) % radialCount == j <==> radialCount == 1
  {
    if j + 1 < radialCount {
      assert (j + 1) % radialCount == j + 1;
    } else {
      assert (j + 1) % radialCount == 0;
    }
  }

  /** The three corners of each triangle are distinct vertices exactly when
      there are at least two segments round the ring; with one segment every
      triangle is degenerate. */
  lemma DistinctCorners(pointCount: int, radialCount: int, i: int, j: int)
    requires pointCount >= 2 && radialCount >= 1 && 0 <= i < pointCount - 1 && 0 <= j < radialCount
    ensures TriangleSize(pointCount, radialCount) >= 0
    ensures forall k :: 0 <= k < 6 ==> 0 <= Slot(radialCount, i, j, k) < TriangleSize(pointCount, radialCount)
    ensures var t := TriangleIndices(pointCount, radialCount);
      var c := k => if 0 <= k < 6 then t[Slot(radialCount, i, j, k)] else 0;
      radialCount >= 2 <==>
        && c(0) != c(1) && c(1) != c(2) && c(0) != c(2)
        && c(3) != c(4) && c(4) != c(5) && c(3) != c(5)
  {
    forall k | 0 <= k < 6
      ensures 0 <= Slot(radialCount, i, j, k) < TriangleSize(pointCount, radialCount)
      ensures TriangleIndices(pointCount, radialCount)[Slot(radialCount, i, j, k)] == Corner(radialCount, i, j, k)
    {
      CornerValue(pointCount, radialCount, i, j, k);
    }
    NextPosition(radialCount, j);
  }

  /** Every corner of a visited quad names an existing vertex. */
  lemma CornerInside(pointCount: int, radialCount: int, i: int, j: int, k: int)
    requires radialCount >= 1 && 0 <= i < pointCount - 1 && 0 <= j < radialCount && 0 <= k < 6
    ensures 0 <= Corner(radialCount, i, j, k) < pointCount * radialCount
  {
    MulMonotone(radialCount, i + 2, pointCount);
    assert 0 <= radialCount * i;
    assert radialCount * (i + 2) == radialCount * i + radialCount + radialCount;
  }

  /** Every triangle index names an existing vertex. */
  lemma TriangleBounds(pointCount: int, radialCount: int)
    requires pointCount >= 2 && radialCount >= 1
    ensures TriangleSize(pointCount, radialCount) >= 0
    ensures var t := TriangleIndices(pointCount, radialCount);
      forall s :: 0 <= s < |t| ==> 0 <= t[s] < pointCount * radialCount
  {
    ProductSign(pointCount - 1, radialCount);
    var t := TriangleIndices(pointCount, radialCount);
    forall s | 0 <= s < |t|
      ensures 0 <= t[s] < pointCount * radialCount
    {
      EncodeSlot(pointCount, radialCount, s);
      var o := Owner(radialCount, s);
      CornerValue(pointCount, radialCount, o.ring, o.position, o.corner);
      CornerInside(pointCount, radialCount, o.ring, o.position, o.corner);
    }
  }

  /** The slots of the visited quads tile the triangle array: distinct quads
      and corners have distinct slots, and every slot belongs to one. */
  lemma SlotsTile(pointCount: int, radialCount: int)
    requires pointCount >= 2 && radialCount >= 1
    ensures forall i, j, k :: 0 <= i < pointCount - 1 && 0 <= j < radialCount && 0 <= k < 6 ==>
      && 0 <= Slot(radialCount, i, j, k) < TriangleSize(pointCount, radialCount)
      && Owner(radialCount, Slot(radialCount, i, j, k)) == SlotOwner(i, j, k)
    ensures forall s :: 0 <= s < TriangleSize(pointCount, radialCount) ==>
      var o := Owner(radialCount, s);
      && 0 <= o.ring < pointCount - 1 && 0 <= o.position < radialCount && 0 <= o.corner < 6
      && Slot(radialCount, o.ring, o.position, o.corner) == s
  {
    forall i, j, k | 0 <= i < pointCount - 1 && 0 <= j < radialCount && 0 <= k < 6
      ensures 0 <= Slot(radialCount, i, j, k) < TriangleSize(pointCount, radialCount)
      ensures Owner(radialCount, Slot(radialCount, i, j, k)) == SlotOwner(i, j, k)
    {
      SlotInside(pointCount, radialCount, i, j, k);
      DecodeSlot(radialCount, i, j, k);
    }
    forall s | 0 <= s < TriangleSize(pointCount, radialCount)
      ensures var o := Owner(radialCount, s);
        && 0 <= o.ring < pointCount - 1 && 0 <= o.position < radialCount && 0 <= o.corner < 6
        && Slot(radialCount, o.ring, o.position, o.corner) == s
    {
      EncodeSlot(pointCount, radialCount, s);
    }
  }

  lemma VertexCorners(radialCount: int, ring: int, position: int, v: int)
    requires radialCount >= 1 && 0 <= position < radialCount && v == radialCount * ring + position
    ensures Corner(radialCount, ring, position, 0) == v
    ensures Corner(radialCount, ring - 1, position, 1) == v
  {
    assert (ring - 1) * radialCount + radialCount == radialCount * ring;
  }

  /** Every vertex of the tube is a corner of some triangle: the vertices of
      the last ring through the quads below them, the rest through the quads
      they start. */
  lemma EveryVertexUsed(pointCount: int, radialCount: int, v: int)
    requires pointCount >= 2 && radialCount >= 1 && 0 <= v < pointCount * radialCount
    ensures TriangleSize(pointCount, radialCount) >= 0
    ensures Used(TriangleIndices(pointCount, radialCount), v)
  {
    RingBound(v, radialCount, pointCount);
    var ring, position := v / radialCount, v % radialCount;
    VertexCorners(radialCount, ring, position, v);
    if ring < pointCount - 1 {
      CornerUsed(pointCount, radialCount, ring, position, 0, v);
    } else {
      CornerUsed(pointCount, radialCount, ring - 1, position, 1, v);
    }
  }

  lemma CornerUsed(pointCount: int, radialCount: int, i: int, j: int, k: int, v: int)
    requires radialCount >= 1 && 0 <= i < pointCount - 1 && 0 <= j < radialCount && 0 <= k < 6
    requires v == Corner(radialCount, i, j, k)
    ensures TriangleSize(pointCount, radialCount) >= 0
    ensures Used(TriangleIndices(pointCount, radialCount), v)
  {
    CornerValue(pointCount, radialCount, i, j, k);
    assert TriangleIndices(pointCount, radialCount)[Slot(radialCount, i, j, k)] == v;
  }
}
