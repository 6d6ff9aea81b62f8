/** The point buffer of `UpdateCableGeometry`: the samples of every strand
    of every connection with a target, concatenated in connection, then
    strand, then sample order. */
module PointBuffer {
  import opened Vectors
  import opened Faults
  import opened CablePath
  import opened Sampler
  import opened Blocks

  /** The inner loop over the curves of one connection, from curve `i` on,
      appending each strand's `GetBezierPoints` array to `acc`. */
  function AppendCurves(scene: Scene, source: Anchor, c: CablePoint, target: Anchor, resolution: int,
                        i: nat, acc: seq<Vec3>): Result<seq<Vec3>>
    requires i <= CurveCount(c)
    decreases CurveCount(c) - i
  {
    if i == CurveCount(c) then Ok(acc)
    else
      match GetBezierPoints(scene, source, Strand(target, c.startOffsets[i], c.endOffsets[i]), resolution)
      case Err(f) => Err(f)
      case Ok(points) => AppendCurves(scene, source, c, target, resolution, i + 1, acc + points)
  }

  /** The outer loop over the connections, skipping those without a target. */
  function AppendConnections(scene: Scene, source: Anchor, conns: seq<CablePoint>, resolution: int,
                             acc: seq<Vec3>): Result<seq<Vec3>>
    decreases |conns|
  {
    if conns == [] then Ok(acc)
    else if conns[0].target == None then AppendConnections(scene, source, conns[1..], resolution, acc)
    else
      match AppendCurves(scene, source, conns[0], conns[0].target.value, resolution, 0, acc)
      case Err(f) => Err(f)
      case Ok(acc') => AppendConnections(scene, source, conns[1..], resolution, acc')
  }

  /** The sample arrays of a list of strands, one block per strand. */
  function SampleBlocks(scene: Scene, source: Anchor, strands: seq<Strand>, resolution: int): (r: seq<seq<Vec3>>)
    requires ResolutionFault(resolution) == None
    ensures |r| == |strands|
  {
    seq(|strands|, j requires 0 <= j < |strands| => StrandSamples(scene, source, strands[j], resolution))
  }

  /** The reference result of the buffer loops: the fault of the first
      strand when the resolution is unusable and there is a strand,
      otherwise all strands' samples concatenated after `acc`. */
  function Expected(scene: Scene, source: Anchor, strands: seq<Strand>, resolution: int, acc: seq<Vec3>): Result<seq<Vec3>> {
    match ResolutionFault(resolution)
    case Some(f) => if strands == [] then Ok(acc) else Err(f)
    case None => Ok(acc + Flatten(SampleBlocks(scene, source, strands, resolution)))
  }

  lemma ExpectedEmpty(scene: Scene, source: Anchor, resolution: int, acc: seq<Vec3>)
    ensures Expected(scene, source, [], resolution, acc) == Ok(acc)
  {
    if ResolutionFault(resolution) == None {
      assert SampleBlocks(scene, source, [], resolution) == [];
      assert Flatten<Vec3>([]) == [];
      assert acc + [] == acc;
    }
  }

  lemma FlattenSampleBlocksCons(scene: Scene, source: Anchor, strands: seq<Strand>, resolution: int)
    requires ResolutionFault(resolution) == None && strands != []
    ensures Flatten(SampleBlocks(scene, source, strands, resolution))
         == StrandSamples(scene, source, strands[0], resolution) + Flatten(SampleBlocks(scene, source, strands[1..], resolution))
  {
    var blocks := SampleBlocks(scene, source, strands, resolution);
    assert blocks[1..] == SampleBlocks(scene, source, strands[1..], resolution);
  }

  /** One pass of the inner loop when the resolution is usable: the
      strand's samples are appended and the loop moves to the next curve. */
  lemma AppendCurvesStep(scene: Scene, source: Anchor, c: CablePoint, target: Anchor,
                         resolution: int, i: nat, acc: seq<Vec3>)
    requires ResolutionFault(resolution) == None && i < CurveCount(c)
    ensures AppendCurves(scene, source, c, target, resolution, i, acc)
         == AppendCurves(scene, source, c, target, resolution, i + 1,
                         acc + StrandSamples(scene, source, Strand(target, c.startOffsets[i], c.endOffsets[i]), resolution))
  {
  }

  /** The reference, one strand at a time. */
  lemma ExpectedStep(scene: Scene, source: Anchor, strands: seq<Strand>, resolution: int, acc: seq<Vec3>)
    requires ResolutionFault(resolution) == None && strands != []
    ensures Expected(scene, source, strands, resolution, acc)
         == Expected(scene, source, strands[1..], resolution, acc + StrandSamples(scene, source, strands[0], resolution))
  {
    FlattenSampleBlocksCons(scene, source, strands, resolution);
    var points := StrandSamples(scene, source, strands[0], resolution);
    var later := Flatten(SampleBlocks(scene, source, strands[1..], resolution));
    assert acc + points + later == acc + (points + later);
  }

  lemma {:induction false} AppendCurvesMeaning(scene: Scene, source: Anchor, c: CablePoint, target: Anchor,
                                               resolution: int, i: nat, acc: seq<Vec3>)
    requires c.target == Some(target) && i <= CurveCount(c)
    ensures AppendCurves(scene, source, c, target, resolution, i, acc)
         == Expected(scene, source, Strands(c)[i..], resolution, acc)
    decreases CurveCount(c) - i
  {
    var strands := Strands(c);
    if i < CurveCount(c) {
      assert strands[i] == Strand(target, c.startOffsets[i], c.endOffsets[i]);
      assert strands[i..] != [] && strands[i..][0] == strands[i];
      if ResolutionFault(resolution) == None {
        var points := StrandSamples(scene, source, strands[i], resolution);
        AppendCurvesMeaning(scene, source, c, target, resolution, i + 1, acc + points);
        AppendCurvesStep(scene, source, c, target, resolution, i, acc);
        ExpectedStep(scene, source, strands[i..], resolution, acc);
        assert strands[i..][1..] == strands[i + 1..];
      }
    } else {
      assert strands[i..] == [];
      ExpectedEmpty(scene, source, resolution, acc);
    }
  }

  lemma SampleBlocksAppend(scene: Scene, source: Anchor, a: seq<Strand>, b: seq<Strand>, resolution: int)
    requires ResolutionFault(resolution) == None
    ensures SampleBlocks(scene, source, a + b, resolution)
         == SampleBlocks(scene, source, a, resolution) + SampleBlocks(scene, source, b, resolution)
  {}

  /** The buffer loops compute `Expected` for the strands of all connections. */
  lemma {:induction false} AppendConnectionsMeaning(scene: Scene, source: Anchor, conns: seq<CablePoint>,
                                                    resolution: int, acc: seq<Vec3>)
    ensures AppendConnections(scene, source, conns, resolution, acc)
         == Expected(scene, source, AllStrands(conns), resolution, acc)
    decreases |conns|
  {
    if conns == [] {
      ExpectedEmpty(scene, source, resolution, acc);
    } else {
      var c := conns[0];
      var rest := AllStrands(conns[1..]);
      assert AllStrands(conns) == Strands(c) + rest;
      if c.target == None {
        assert Strands(c) == [];
        assert AllStrands(conns) == rest;
        AppendConnectionsMeaning(scene, source, conns[1..], resolution, acc);
      } else {
        AppendCurvesMeaning(scene, source, c, c.target.value, resolution, 0, acc);
        assert Strands(c)[0..] == Strands(c);
        match ResolutionFault(resolution)
        case Some(f) =>
          if Strands(c) == [] {
            AppendConnectionsMeaning(scene, source, conns[1..], resolution, acc);
          }
        case None =>
          var here := Flatten(SampleBlocks(scene, source, Strands(c), resolution));
          AppendConnectionsMeaning(scene, source, conns[1..], resolution, acc + here);
          SampleBlocksAppend(scene, source, Strands(c), rest, resolution);
          FlattenAppend(SampleBlocks(scene, source, Strands(c), resolution), SampleBlocks(scene, source, rest, resolution));
          assert acc + here + Flatten(SampleBlocks(scene, source, rest, resolution))
              == acc + Flatten(SampleBlocks(scene, source, AllStrands(conns), resolution));
      }
    }
  }

  /** The point buffer of `UpdateCableGeometry` before it is carried into
      the anchor's local space. It fails exactly when some connection with
      a target has a curve and the resolution is negative or one. */
  function CollectPoints(scene: Scene, creator: CableCreator): (r: Result<seq<Vec3>>)
    ensures r.Err? <==> StrandTotal(creator.nextPoints) > 0 && ResolutionFault(creator.resolution) != None
    ensures r.Err? ==> Some(r.fault) == ResolutionFault(creator.resolution)
  {
    AppendConnectionsMeaning(scene, creator.self, creator.nextPoints, creator.resolution, []);
    AllStrandsCount(creator.nextPoints);
    AppendConnections(scene, creator.self, creator.nextPoints, creator.resolution, [])
  }

  /** Sample i of strand j sits at j * resolution + i of the buffer. */
  ghost predicate SampledAt(scene: Scene, source: Anchor, strands: seq<Strand>, resolution: int,
                            buffer: seq<Vec3>, j: nat, i: nat)
    requires resolution >= 2 && j < |strands| && i < resolution
  {
    && j * resolution + i < |buffer|
    && buffer[j * resolution + i] == SamplePoint(scene, source, strands[j], SampleParameter(i, resolution))
  }

  /** The concatenated sample blocks put sample i of strand j at
      j * resolution + i. */
  lemma BlocksLayout(scene: Scene, source: Anchor, strands: seq<Strand>, resolution: int, buffer: seq<Vec3>)
    requires resolution >= 2 && buffer == Flatten(SampleBlocks(scene, source, strands, resolution))
    ensures |buffer| == resolution * |strands|
    ensures forall j: nat, i: nat :: j < |strands| && i < resolution ==>
      SampledAt(scene, source, strands, resolution, buffer, j, i)
  {
    var blocks := SampleBlocks(scene, source, strands, resolution);
    assert Uniform(blocks, resolution);
    FlattenUniform(blocks, resolution);
    forall j: nat, i: nat | j < |strands| && i < resolution
      ensures SampledAt(scene, source, strands, resolution, buffer, j, i)
    {
      assert Placed(buffer, blocks, resolution, j, i);
    }
  }

  /** The layout of a successfully collected buffer: `resolution` samples for
      each strand of each connection with a target, strand j occupying
      block j, in connection, strand, sample order. */
  lemma BufferLayout(scene: Scene, creator: CableCreator)
    requires CollectPoints(scene, creator).Ok?
    ensures var buffer, strands, n := CollectPoints(scene, creator).value, AllStrands(creator.nextPoints), creator.resolution;
      && |strands| == StrandTotal(creator.nextPoints)
      && (ResolutionFault(n) == None ==> |buffer| == n * StrandTotal(creator.nextPoints))
      && (n >= 2 ==> forall j: nat, i: nat :: j < |strands| && i < n ==>
            SampledAt(scene, creator.self, strands, n, buffer, j, i))
      && (ResolutionFault(n) != None ==> buffer == [])
  {
    var strands, n := AllStrands(creator.nextPoints), creator.resolution;
    AppendConnectionsMeaning(scene, creator.self, creator.nextPoints, n, []);
    AllStrandsCount(creator.nextPoints);
    if ResolutionFault(n) == None {
      var blocks := SampleBlocks(scene, creator.self, strands, n);
      var buffer := CollectPoints(scene, creator).value;
      assert buffer == Flatten(blocks);
      if n >= 2 {
        BlocksLayout(scene, creator.self, strands, n, buffer);
      } else {
        FlattenLength(blocks, 0);
      }
    }
  }

  /** The first sample of the strand laid out at block j is the source
      position. */
  lemma SampledFirst(scene: Scene, source: Anchor, strands: seq<Strand>, resolution: int, buffer: seq<Vec3>, j: nat)
    requires resolution >= 2 && j < |strands|
    requires SampledAt(scene, source, strands, resolution, buffer, j, 0)
    ensures 0 <= j * resolution < |buffer|
    ensures buffer[j * resolution] == scene.position(source)
  {
    MulBound(j, j + 1, resolution, 0);
    SampleEnds(scene, source, strands[j], resolution);
  }

  /** The last sample of the strand laid out at block j is its target's
      position. */
  lemma SampledLast(scene: Scene, source: Anchor, strands: seq<Strand>, resolution: int, buffer: seq<Vec3>, j: nat)
    requires resolution >= 2 && j < |strands|
    requires SampledAt(scene, source, strands, resolution, buffer, j, resolution - 1)
    ensures 0 <= j * resolution + (resolution - 1) < |buffer|
    ensures buffer[j * resolution + (resolution - 1)] == scene.position(strands[j].target)
  {
    MulBound(j, j + 1, resolution, resolution - 1);
    SampleEnds(scene, source, strands[j], resolution);
  }

  /** The first sample of a strand is the source position and the last is
      the target position. */
  lemma SampleEnds(scene: Scene, source: Anchor, strand: Strand, resolution: int)
    requires resolution >= 2
    ensures SamplePoint(scene, source, strand, SampleParameter(0, resolution)) == scene.position(source)
    ensures SamplePoint(scene, source, strand, SampleParameter(resolution - 1, resolution)) == scene.position(strand.target)
  {
  }

  /** Every strand's block starts at the source anchor's position and ends
      at its target's position; n is the creator's resolution. */
  lemma BufferEndpoints(scene: Scene, creator: CableCreator, buffer: seq<Vec3>, strands: seq<Strand>, n: int, j: nat)
    requires CollectPoints(scene, creator) == Ok(buffer) && strands == AllStrands(creator.nextPoints)
    requires n == creator.resolution && n >= 2 && j < |strands|
    ensures 0 <= j * n && j * n + (n - 1) < |buffer|
    ensures buffer[j * n] == scene.position(creator.self)
    ensures buffer[j * n + (n - 1)] == scene.position(strands[j].target)
  {
    BufferSampled(scene, creator, buffer, strands, n, j, 0);
    BufferSampled(scene, creator, buffer, strands, n, j, n - 1);
    SampledFirst(scene, creator.self, strands, n, buffer, j);
    SampledLast(scene, creator.self, strands, n, buffer, j);
  }

  /** One instance of the buffer layout. */
  lemma BufferSampled(scene: Scene, creator: CableCreator, buffer: seq<Vec3>, strands: seq<Strand>, n: int, j: nat, i: nat)
    requires CollectPoints(scene, creator) == Ok(buffer) && strands == AllStrands(creator.nextPoints)
    requires n == creator.resolution && n >= 2 && j < |strands| && i < n
    ensures SampledAt(scene, creator.self, strands, n, buffer, j, i)
  {
    BufferLayout(scene, creator);
  }

  /** Appending a default connection does not change the buffer. */
  lemma AddNewCablePointKeepsBuffer(scene: Scene, creator: CableCreator)
    ensures CollectPoints(scene, AddNewCablePoint(creator)) == CollectPoints(scene, creator)
  {
    var c' := AddNewCablePoint(creator);
    AddNewCablePointKeepsStrands(creator);
    AppendConnectionsMeaning(scene, creator.self, creator.nextPoints, creator.resolution, []);
    AppendConnectionsMeaning(scene, c'.self, c'.nextPoints, c'.resolution, []);
  }

  lemma StrandFirst(scene: Scene, creator: CableCreator, j: nat, index: int)
    requires CollectPoints(scene, creator).Ok?
    requires creator.resolution >= 2 && j < |AllStrands(creator.nextPoints)|
    requires index == j * creator.resolution
    ensures 0 <= index < |CollectPoints(scene, creator).value|
    ensures CollectPoints(scene, creator).value[index] == scene.position(creator.self)
  {
    var buffer, strands := CollectPoints(scene, creator).value, AllStrands(creator.nextPoints);
    BufferEndpoints(scene, creator, buffer, strands, creator.resolution, j);
  }

  lemma StrandLast(scene: Scene, creator: CableCreator, j: nat, index: int)
    requires CollectPoints(scene, creator).Ok?
    requires creator.resolution >= 2 && j < |AllStrands(creator.nextPoints)|
    requires index == j * creator.resolution + (creator.resolution - 1)
    ensures 0 <= index < |CollectPoints(scene, creator).value|
    ensures CollectPoints(scene, creator).value[index] == scene.position(AllStrands(creator.nextPoints)[j].target)
  {
    var buffer, strands := CollectPoints(scene, creator).value, AllStrands(creator.nextPoints);
    BufferEndpoints(scene, creator, buffer, strands, creator.resolution, j);
  }

  /** Where strand j ends and strand j + 1 begins, the buffer jumps from
      strand j's target back to the source anchor. */
  lemma BufferSeam(scene: Scene, creator: CableCreator, j: nat, ring: int)
    requires CollectPoints(scene, creator).Ok?
    requires creator.resolution >= 2 && j + 1 < |AllStrands(creator.nextPoints)|
    requires ring == j * creator.resolution + (creator.resolution - 1)
    ensures var buffer := CollectPoints(scene, creator).value;
      && 0 <= ring && ring + 1 < |buffer|
      && buffer[ring] == scene.position(AllStrands(creator.nextPoints)[j].target)
      && buffer[ring + 1] == scene.position(creator.self)
  {
    StrandLast(scene, creator, j, ring);
    MulSucc(j, creator.resolution, j * creator.resolution);
    StrandFirst(scene, creator, j + 1, ring + 1);
  }
}
