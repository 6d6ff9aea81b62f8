/** The authoring data of `CableCreator`: the anchor's list of connections
    (`CablePoint`), each with a possibly unset target and two lists of
    tangent offsets, and the strands those lists define. */
module CablePath {
  import opened Vectors

  /** An anchor, identified by reference identity (a `CableCreator`). */
  datatype Anchor = Anchor(id: nat)

  /** The engine's transform system, left uninterpreted: the world position
      of an anchor (`transform.position`), its local-to-world point map
      (`TransformPoint`) and its world-to-local point map
      (`InverseTransformPoint`). */
  datatype Scene = Scene(
    position: Anchor -> Vec3,
    toWorld: (Anchor, Vec3) -> Vec3,
    toLocal: (Anchor, Vec3) -> Vec3)

  /** A reference that may be null. */
  datatype Option<+T> = None | Some(value: T)

  /** One connection (`CableCreator.CablePoint`): the target anchor, unset
      when the reference is null, and the paired offset lists. */
  datatype CablePoint = CablePoint(
    target: Option<Anchor>,
    startOffsets: seq<Vec3>,
    endOffsets: seq<Vec3>)

  /** The `CableCreator` component: its own anchor, its connections and the
      number of samples per strand. */
  datatype CableCreator = CableCreator(
    self: Anchor,
    nextPoints: seq<CablePoint>,
    resolution: int)

  /** The initial value of the `resolution` field. */
  const DefaultResolution: int := 20

  /** The parameterless constructor `CablePoint()`: no target and two empty
      offset lists, so the connection yields no strand. */
  function EmptyCablePoint(): (c: CablePoint)
    ensures c.target == None
    ensures c.startOffsets == [] && c.endOffsets == []
  {
    CablePoint(None, [], [])
  }

  /** The constructor `CablePoint(creator)`: targets `creator` (which may
      itself be null) with one zero offset at each end, a single straight
      default strand. */
  function NewCablePoint(creator: Option<Anchor>): (c: CablePoint)
    ensures c.target == creator
    ensures c.startOffsets == [Zero3] && c.endOffsets == [Zero3]
  {
    CablePoint(creator, [Zero3], [Zero3])
  }

  /** `AddNewCablePoint`: appends one parameterless `CablePoint` to
      `nextPoints` and changes nothing else. */
  function AddNewCablePoint(c: CableCreator): (r: CableCreator)
    ensures |r.nextPoints| == |c.nextPoints| + 1
    ensures r.nextPoints[..|c.nextPoints|] == c.nextPoints
    ensures r.nextPoints[|c.nextPoints|] == EmptyCablePoint()
    ensures r.self == c.self && r.resolution == c.resolution
  {
    c.(nextPoints := c.nextPoints + [EmptyCablePoint()])
  }

  function Min(a: int, b: int): int {
    if a <= b then a else b
  }

  /** The number of curves a connection yields, `Mathf.Min` of the two list
      lengths: the excess entries of the longer list are ignored. */
  function CurveCount(c: CablePoint): (n: nat)
    ensures n <= |c.startOffsets| && n <= |c.endOffsets|
    ensures n == |c.startOffsets| || n == |c.endOffsets|
  {
    Min(|c.startOffsets|, |c.endOffsets|)
  }

  /** One strand: the target anchor and the offset pair at one index. */
  datatype Strand = Strand(target: Anchor, startOffset: Vec3, endOffset: Vec3)

  /** The strands a connection contributes to the geometry: none when the
      target is unset, otherwise one per index below `CurveCount`, pairing
      the offsets at equal indices. */
  function Strands(c: CablePoint): (r: seq<Strand>)
    ensures c.target == None ==> r == []
    ensures c.target != None ==> |r| == CurveCount(c)
    ensures forall i :: 0 <= i < |r| ==>
      r[i] == Strand(c.target.value, c.startOffsets[i], c.endOffsets[i])
  {
    match c.target
    case None => []
    case Some(a) =>
      seq(CurveCount(c), i requires 0 <= i < CurveCount(c) => Strand(a, c.startOffsets[i], c.endOffsets[i]))
  }

  /** The strands of all connections, in connection-then-strand order. */
  function AllStrands(conns: seq<CablePoint>): seq<Strand> {
    if conns == [] then [] else Strands(conns[0]) + AllStrands(conns[1..])
  }

  /** The sum, over the connections with a target, of their curve counts. */
  function StrandTotal(conns: seq<CablePoint>): nat {
    if conns == [] then 0
    else (if conns[0].target == None then 0 else CurveCount(conns[0])) + StrandTotal(conns[1..])
  }

  /** Strands of a concatenation are the concatenation of strands. */
  lemma {:induction false} AllStrandsAppend(a: seq<CablePoint>, b: seq<CablePoint>)
    ensures AllStrands(a + b) == AllStrands(a) + AllStrands(b)
    decreases |a|
  {
    if a == [] {
      assert a + b == b;
    } else {
      assert (a + b)[1..] == a[1..] + b;
      AllStrandsAppend(a[1..], b);
    }
  }

  /** The strand list has one entry per curve of every connection with a
      target. */
  lemma {:induction false} AllStrandsCount(conns: seq<CablePoint>)
    ensures |AllStrands(conns)| == StrandTotal(conns)
    decreases |conns|
  {
    if conns != [] {
      AllStrandsCount(conns[1..]);
    }
  }

  /** A default connection contributes no strand; a connection made for a
      target contributes exactly one, straight from offset zero to offset
      zero. */
  lemma DefaultConnectionStrands(a: Anchor)
    ensures Strands(EmptyCablePoint()) == []
    ensures Strands(NewCablePoint(Some(a))) == [Strand(a, Zero3, Zero3)]
    ensures Strands(NewCablePoint(None)) == []
  {}

  /** Appending a default connection leaves the strand list unchanged. */
  lemma AddNewCablePointKeepsStrands(c: CableCreator)
    ensures AllStrands(AddNewCablePoint(c).nextPoints) == AllStrands(c.nextPoints)
    ensures StrandTotal(AddNewCablePoint(c).nextPoints) == StrandTotal(c.nextPoints)
  {
    AllStrandsAppend(c.nextPoints, [EmptyCablePoint()]);
    assert AllStrands([EmptyCablePoint()]) == [];
    AllStrandsCount(c.nextPoints);
    AllStrandsCount(AddNewCablePoint(c).nextPoints);
  }
}
