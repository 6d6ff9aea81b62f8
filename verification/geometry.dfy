/** `CableGeoCreator.UpdateCableGeometry`: collect the sampled strands of
    the anchor's connections, carry them into the anchor's local space and
    wrap one tube mesh round the whole point sequence. */
module CableGeometry {
  import opened Vectors
  import opened Faults
  import opened CablePath
  import opened Sampler
  import opened PointBuffer
  import opened TubeMesh
  import opened Blocks

  /** The initial value of the `radialSegments` field. */
  const DefaultRadialSegments: int := 8

  /** What one rebuild does: nothing (no creator or no connection), a new
      mesh, or a fault that stops it. */
  datatype Rebuild = Skipped | Built(mesh: Mesh) | Faulted(fault: Fault)

  /** The buffer carried into the local space of `self`, point by point. */
  function LocalPoints(scene: Scene, self: Anchor, points: seq<Vec3>): (r: seq<Vec3>)
    ensures |r| == |points|
  {
    seq(|points|, i requires 0 <= i < |points| => scene.toLocal(self, points[i]))
  }

  /** One rebuild of the cable geometry for the `CableCreator` found on the
      same object (None when there is none). */
  function UpdateCableGeometry(scene: Scene, creator: Option<CableCreator>, radialSegments: int): (r: Rebuild)
    ensures r == Skipped <==> creator == None || creator.value.nextPoints == []
    ensures r.Built? ==> |r.mesh.ringCentres| >= 2 || (r.mesh.ringCentres == [] && radialSegments <= 0)
  {
    if creator == None || |creator.value.nextPoints| == 0 then Skipped
    else
      match CollectPoints(scene, creator.value)
      case Err(f) => Faulted(f)
      case Ok(points) =>
        match CreateCylinderMesh(LocalPoints(scene, creator.value.self, points), radialSegments)
        case Err(f) => Faulted(f)
        case Ok(mesh) => Built(mesh)
  }

  lemma LocalAt(scene: Scene, self: Anchor, points: seq<Vec3>, local: seq<Vec3>, k: int)
    requires local == LocalPoints(scene, self, points) && 0 <= k < |points|
    ensures k < |local| && local[k] == scene.toLocal(self, points[k])
  {
  }

  lemma ProductAtLeastTwo(n: int, total: int)
    requires n >= 2 && total >= 1
    ensures n * total >= 2
  {
    assert n * total == n * (total - 1) + n;
    assert n * (total - 1) >= 0;
  }

  /** With at least one segment round the ring, a rebuild of a creator with
      connections builds a mesh exactly when some connection has a target
      and a curve and the resolution is at least two; the mesh then has one
      ring per sample, centred on the buffer carried into local space.
      Otherwise it faults, on the division 0 / 0 when the resolution is one
      and there is a curve, and on a negative triangle array size in every
      other case. */
  lemma RebuildOutcome(scene: Scene, creator: CableCreator, radialSegments: int)
    requires creator.nextPoints != [] && radialSegments >= 1
    ensures var r, total, n := UpdateCableGeometry(scene, Some(creator), radialSegments),
                               StrandTotal(creator.nextPoints), creator.resolution;
      && (r.Built? <==> total > 0 && n >= 2)
      && (r.Built? ==>
            && r.mesh.vertexCount == n * total * radialSegments
            && r.mesh.ringCentres == LocalPoints(scene, creator.self, CollectPoints(scene, creator).value)
            && |r.mesh.ringCentres| == n * total
            && r.mesh.triangles == TriangleIndices(n * total, radialSegments))
      && (r.Faulted? <==> !(total > 0 && n >= 2))
      && (r.Faulted? ==> r.fault == if total > 0 && n == 1 then NotANumber else NegativeArraySize)
  {
    var total, n := StrandTotal(creator.nextPoints), creator.resolution;
    var collected := CollectPoints(scene, creator);
    if collected.Ok? {
      BufferLayout(scene, creator);
      var pointCount := |collected.value|;
      if total > 0 && n >= 2 {
        ProductAtLeastTwo(n, total);
        assert pointCount == n * total;
      } else {
        assert pointCount == 0;
      }
    }
  }

  /** Ring k of a built mesh is centred on point k of the buffer, carried
      into the anchor's local space. */
  lemma RingCentres(scene: Scene, creator: CableCreator, radialSegments: int)
    requires creator.nextPoints != [] && radialSegments >= 1 && creator.resolution >= 2
    requires StrandTotal(creator.nextPoints) > 0
    ensures CollectPoints(scene, creator).Ok?
    ensures UpdateCableGeometry(scene, Some(creator), radialSegments).Built?
    ensures var centres, buffer := UpdateCableGeometry(scene, Some(creator), radialSegments).mesh.ringCentres,
                                   CollectPoints(scene, creator).value;
      && |centres| == |buffer|
      && forall k :: 0 <= k < |buffer| ==> centres[k] == scene.toLocal(creator.self, buffer[k])
  {
    RebuildOutcome(scene, creator, radialSegments);
  }

  /** The strands are not separate tubes. In the ring centres and the
      triangle array a built mesh holds (see RebuildOutcome), the quads of
      the ring that ends strand j (ring j * resolution + resolution - 1,
      centred on strand j's target) join it to the ring that starts strand
      j + 1 (centred on the source anchor), so the tube runs from each
      target back to the source. */
  lemma StrandsAreStitched(scene: Scene, creator: CableCreator, radialSegments: int, j: nat, ring: int)
    requires creator.nextPoints != [] && radialSegments >= 1 && creator.resolution >= 2
    requires j + 1 < StrandTotal(creator.nextPoints)
    requires ring == j * creator.resolution + (creator.resolution - 1)
    ensures |AllStrands(creator.nextPoints)| == StrandTotal(creator.nextPoints)
    ensures CollectPoints(scene, creator).Ok?
    ensures TriangleSize(creator.resolution * StrandTotal(creator.nextPoints), radialSegments) >= 0
    ensures var centres := LocalPoints(scene, creator.self, CollectPoints(scene, creator).value);
      && 0 <= ring && ring + 1 < |centres|
      && centres[ring] == scene.toLocal(creator.self, scene.position(AllStrands(creator.nextPoints)[j].target))
      && centres[ring + 1] == scene.toLocal(creator.self, scene.position(creator.self))
    ensures var t := TriangleIndices(creator.resolution * StrandTotal(creator.nextPoints), radialSegments);
      forall p, k :: 0 <= p < radialSegments && 0 <= k < 6 ==>
        && 0 <= Slot(radialSegments, ring, p, k) < |t|
        && t[Slot(radialSegments, ring, p, k)] / radialSegments == ring + RingStep(k)
  {
    AllStrandsCount(creator.nextPoints);
    SeamCentres(scene, creator, j, ring);
    BufferLayout(scene, creator);
    RingJoins(creator.resolution * StrandTotal(creator.nextPoints), radialSegments, ring);
  }

  /** The ring centres on either side of the join between strand j and strand j + 1. */
  lemma SeamCentres(scene: Scene, creator: CableCreator, j: nat, ring: int)
    requires creator.nextPoints != [] && creator.resolution >= 2
    requires j + 1 < |AllStrands(creator.nextPoints)|
    requires ring == j * creator.resolution + (creator.resolution - 1)
    ensures CollectPoints(scene, creator).Ok?
    ensures var centres := LocalPoints(scene, creator.self, CollectPoints(scene, creator).value);
      && 0 <= ring && ring + 1 < |centres|
      && centres[ring] == scene.toLocal(creator.self, scene.position(AllStrands(creator.nextPoints)[j].target))
      && centres[ring + 1] == scene.toLocal(creator.self, scene.position(creator.self))
  {
    assert ResolutionFault(creator.resolution) == None;
    BufferSeam(scene, creator, j, ring);
    var buffer := CollectPoints(scene, creator).value;
    var centres := LocalPoints(scene, creator.self, buffer);
    LocalAt(scene, creator.self, buffer, centres, ring);
    LocalAt(scene, creator.self, buffer, centres, ring + 1);
  }

  /** Appending a default connection leaves the rebuild of a creator that
      already has connections unchanged. */
  lemma AddNewCablePointKeepsGeometry(scene: Scene, creator: CableCreator, radialSegments: int)
    requires creator.nextPoints != []
    ensures UpdateCableGeometry(scene, Some(AddNewCablePoint(creator)), radialSegments)
         == UpdateCableGeometry(scene, Some(creator), radialSegments)
  {
    AddNewCablePointKeepsBuffer(scene, creator);
  }

  /** Appending the first connection to an empty creator turns a skipped
      rebuild into a fault: the new connection has no target, the buffer is
      empty, and the triangle array of size (0 - 1) * radialSegments * 6 is
      negative. */
  lemma FirstConnectionFaults(scene: Scene, creator: CableCreator, radialSegments: int)
    requires creator.nextPoints == [] && radialSegments >= 1
    ensures UpdateCableGeometry(scene, Some(creator), radialSegments) == Skipped
    ensures UpdateCableGeometry(scene, Some(AddNewCablePoint(creator)), radialSegments) == Faulted(NegativeArraySize)
  {
    var c' := AddNewCablePoint(creator);
    assert c'.nextPoints == [EmptyCablePoint()];
    RebuildOutcome(scene, c', radialSegments);
    assert StrandTotal(c'.nextPoints) == 0 by {
      AllStrandsCount(c'.nextPoints);
    }
  }

  /** The out-of-the-box cable: a creator with the default resolution and a
      single connection made for another anchor, rebuilt with the default
      radial segment count, gets a tube of 20 rings of 8 vertices (160
      vertices) and 19 * 8 quads of 6 triangle indices (912 indices). */
  lemma DefaultCable(scene: Scene, self: Anchor, target: Anchor)
    ensures var r := UpdateCableGeometry(scene, Some(CableCreator(self, [NewCablePoint(Some(target))], DefaultResolution)),
                                         DefaultRadialSegments);
      && r.Built?
      && r.mesh.vertexCount == 160
      && |r.mesh.ringCentres| == 20
      && |r.mesh.triangles| == 912
  {
    var creator := CableCreator(self, [NewCablePoint(Some(target))], DefaultResolution);
    assert StrandTotal(creator.nextPoints) == 1 by {
      assert creator.nextPoints[1..] == [];
    }
    RebuildOutcome(scene, creator, DefaultRadialSegments);
  }
}
