/** The authoring preview of `CableCreator`: `GetPointAt` and the line
    schedule of `DrawBezierToNextPoint` and `OnDrawGizmos`. The drawing calls
    themselves are left out; what is modelled is the list of line segments
    they would be handed, in order. */
module DebugDraw {
  import opened Vectors
  import opened Bezier
  import opened CablePath
  import opened Blocks

  /** `GetPointAt`: the Bezier curve from the source anchor to the target,
      with the two inner control points at the offsets carried into world
      space by each end's transform. It starts at the source position and
      ends at the target position. */
  function GetPointAt(scene: Scene, self: Anchor, t: real, target: Anchor, startOffset: Vec3, endOffset: Vec3): (p: Vec3)
    ensures t == 0.0 ==> p == scene.position(self)
    ensures t == 1.0 ==> p == scene.position(target)
  {
    var p0 := scene.position(self);
    var p1 := scene.toWorld(self, startOffset);
    var p2 := scene.toWorld(target, endOffset);
    var p3 := scene.position(target);
    CalculateBezierPoint(t, p0, p1, p2, p3)
  }

  /** One line handed to `Gizmos.DrawLine`. */
  datatype Segment = Segment(from: Vec3, to: Vec3)

  /** The number of passes of a loop `for (i = 1; i <= resolution; i++)`. */
  function Steps(resolution: int): (n: nat)
    ensures resolution >= 0 ==> n == resolution
    ensures resolution < 0 ==> n == 0
  {
    if resolution > 0 then resolution else 0
  }

  /** The inner loop of `DrawBezierToNextPoint` from pass `i` on: each pass
      evaluates the curve at t = i / resolution and draws from the previous
      point to it. */
  function StrandLines(scene: Scene, self: Anchor, target: Anchor, startOffset: Vec3, endOffset: Vec3,
                       resolution: int, previous: Vec3, i: int): seq<Segment>
    requires i >= 1
    decreases resolution - i + 1
  {
    if i > resolution then []
    else
      var t := i as real / resolution as real;
      var point := GetPointAt(scene, self, t, target, startOffset, endOffset);
      [Segment(previous, point)] + StrandLines(scene, self, target, startOffset, endOffset, resolution, point, i + 1)
  }

  /** The curve point at the k-th of `resolution` uniform steps. */
  function Knot(scene: Scene, self: Anchor, target: Anchor, startOffset: Vec3, endOffset: Vec3,
                resolution: int, k: nat): Vec3
    requires resolution >= 1
  {
    GetPointAt(scene, self, k as real / resolution as real, target, startOffset, endOffset)
  }

  /** The first knot is the source position and the last knot the target
      position. */
  lemma KnotEnds(scene: Scene, self: Anchor, target: Anchor, startOffset: Vec3, endOffset: Vec3, resolution: int)
    requires resolution >= 1
    ensures Knot(scene, self, target, startOffset, endOffset, resolution, 0) == scene.position(self)
    ensures Knot(scene, self, target, startOffset, endOffset, resolution, resolution) == scene.position(target)
  {
    assert 0 as real / resolution as real == 0.0;
    assert resolution as real / resolution as real == 1.0;
  }

  /** From pass i on, when the previous point is the knot i - 1, the
      schedule is the uniform polyline through knots i - 1, i, ...,
      resolution. */
  lemma {:induction false} StrandLinesPolyline(scene: Scene, self: Anchor, target: Anchor, s: Vec3, e: Vec3,
                                              resolution: int, i: int)
    requires 1 <= i <= resolution + 1 && resolution >= 1
    ensures var r := StrandLines(scene, self, target, s, e, resolution, Knot(scene, self, target, s, e, resolution, i - 1), i);
      && |r| == resolution - i + 1
      && forall m :: 0 <= m < |r| ==>
           r[m] == Segment(Knot(scene, self, target, s, e, resolution, i - 1 + m),
                           Knot(scene, self, target, s, e, resolution, i + m))
    decreases resolution - i + 1
  {
    if i <= resolution {
      StrandLinesPolyline(scene, self, target, s, e, resolution, i + 1);
    }
  }

  /** The lines of one strand: `resolution` segments that chain from the
      source position through the uniform knots to the target position. */
  lemma StrandSchedule(scene: Scene, self: Anchor, target: Anchor, s: Vec3, e: Vec3, resolution: int)
    ensures var r := StrandLines(scene, self, target, s, e, resolution, scene.position(self), 1);
      && |r| == Steps(resolution)
      && (forall m :: 0 <= m < |r| ==>
            r[m] == Segment(Knot(scene, self, target, s, e, resolution, m),
                            Knot(scene, self, target, s, e, resolution, m + 1)))
      && (|r| > 0 ==> r[0].from == scene.position(self) && r[|r| - 1].to == scene.position(target))
  {
    if resolution >= 1 {
      assert Knot(scene, self, target, s, e, resolution, 0) == scene.position(self);
      StrandLinesPolyline(scene, self, target, s, e, resolution, 1);
      assert resolution as real / resolution as real == 1.0;
    }
  }

  /** The outer loop of `DrawBezierToNextPoint` from `curveIndex` on, up to
      the loop bound `curvesToDraw`, including the in-loop guard that skips
      an index past the end of either offset list. */
  function CurveLines(scene: Scene, self: Anchor, resolution: int, c: CablePoint, target: Anchor,
                      curvesToDraw: int, curveIndex: nat): seq<Segment>
    decreases curvesToDraw - curveIndex
  {
    if curveIndex >= curvesToDraw then []
    else if curveIndex >= |c.startOffsets| || curveIndex >= |c.endOffsets| then
      CurveLines(scene, self, resolution, c, target, curvesToDraw, curveIndex + 1)
    else
      var startOffset := c.startOffsets[curveIndex];
      var endOffset := c.endOffsets[curveIndex];
      StrandLines(scene, self, target, startOffset, endOffset, resolution, scene.position(self), 1)
      + CurveLines(scene, self, resolution, c, target, curvesToDraw, curveIndex + 1)
  }

  /** `DrawBezierToNextPoint` for a connection whose target is set: the
      loop bound is the connection's curve count. */
  function DrawBezierToNextPoint(scene: Scene, self: Anchor, resolution: int, c: CablePoint): seq<Segment>
    requires c.target != None
  {
    CurveLines(scene, self, resolution, c, c.target.value, CurveCount(c), 0)
  }

  /** The line of strand k, step m, of a connection. */
  function StrandSegment(scene: Scene, self: Anchor, resolution: int, c: CablePoint, k: nat, m: nat): Segment
    requires c.target != None && k < CurveCount(c) && resolution >= 1
  {
    var a, b := c.startOffsets[k], c.endOffsets[k];
    Segment(Knot(scene, self, c.target.value, a, b, resolution, m),
            Knot(scene, self, c.target.value, a, b, resolution, m + 1))
  }

  /** The lines of each strand of a connection, strand by strand. */
  function StrandBlocks(scene: Scene, self: Anchor, resolution: int, c: CablePoint): (r: seq<seq<Segment>>)
    requires c.target != None
    ensures |r| == CurveCount(c)
  {
    seq(CurveCount(c), k requires 0 <= k < CurveCount(c) =>
      StrandLines(scene, self, c.target.value, c.startOffsets[k], c.endOffsets[k], resolution, scene.position(self), 1))
  }

  /** When the loop bound is the curve count the guard never fires: from
      `curveIndex` on, every pass appends its strand's lines. */
  lemma {:induction false} CurveLinesFlatten(scene: Scene, self: Anchor, resolution: int, c: CablePoint, curveIndex: nat)
    requires c.target != None && curveIndex <= CurveCount(c)
    ensures CurveLines(scene, self, resolution, c, c.target.value, CurveCount(c), curveIndex)
         == Flatten(StrandBlocks(scene, self, resolution, c)[curveIndex..])
    decreases CurveCount(c) - curveIndex
  {
    var blocks := StrandBlocks(scene, self, resolution, c);
    if curveIndex < CurveCount(c) {
      CurveLinesFlatten(scene, self, resolution, c, curveIndex + 1);
      assert blocks[curveIndex..][1..] == blocks[curveIndex + 1..];
    } else {
      assert blocks[curveIndex..] == [];
    }
  }

  /** `DrawBezierToNextPoint` is the concatenation of the strands' line
      blocks, each `Steps(resolution)` lines long. */
  lemma DrawBlocks(scene: Scene, self: Anchor, resolution: int, c: CablePoint)
    requires c.target != None
    ensures DrawBezierToNextPoint(scene, self, resolution, c) == Flatten(StrandBlocks(scene, self, resolution, c))
    ensures Uniform(StrandBlocks(scene, self, resolution, c), Steps(resolution))
  {
    var blocks := StrandBlocks(scene, self, resolution, c);
    CurveLinesFlatten(scene, self, resolution, c, 0);
    assert blocks[0..] == blocks;
    forall k | 0 <= k < |blocks|
      ensures |blocks[k]| == Steps(resolution)
    {
      StrandSchedule(scene, self, c.target.value, c.startOffsets[k], c.endOffsets[k], resolution);
    }
  }

  /** Line m of strand k of connection c is at position k * resolution + m
      of the drawn lines r. */
  ghost predicate DrawnAt(scene: Scene, self: Anchor, resolution: int, c: CablePoint, r: seq<Segment>, k: nat, m: nat)
    requires c.target != None && k < CurveCount(c) && resolution >= 1
  {
    && k * resolution + m < |r|
    && r[k * resolution + m] == StrandSegment(scene, self, resolution, c, k, m)
  }

  lemma DrawAt(scene: Scene, self: Anchor, resolution: int, c: CablePoint, k: nat, m: nat)
    requires c.target != None && k < CurveCount(c) && 1 <= resolution && m < resolution
    ensures DrawnAt(scene, self, resolution, c, DrawBezierToNextPoint(scene, self, resolution, c), k, m)
  {
    var blocks := StrandBlocks(scene, self, resolution, c);
    DrawBlocks(scene, self, resolution, c);
    FlattenAt(blocks, resolution, k, m, k * resolution + m);
    StrandSchedule(scene, self, c.target.value, c.startOffsets[k], c.endOffsets[k], resolution);
  }

  /** `DrawBezierToNextPoint` draws exactly `resolution` lines for each of
      the `CurveCount` strands (so the in-loop guard never fires), strand k
      occupying block k, each block the polyline through the knots at
      t = m / resolution. */
  lemma DrawSchedule(scene: Scene, self: Anchor, resolution: int, c: CablePoint)
    requires c.target != None
    ensures var r := DrawBezierToNextPoint(scene, self, resolution, c);
      && |r| == CurveCount(c) * Steps(resolution)
      && (resolution >= 1 ==>
            forall k: nat, m: nat :: k < CurveCount(c) && m < resolution ==>
              DrawnAt(scene, self, resolution, c, r, k, m))
  {
    DrawBlocks(scene, self, resolution, c);
    FlattenLength(StrandBlocks(scene, self, resolution, c), Steps(resolution));
    if resolution >= 1 {
      forall k: nat, m: nat | k < CurveCount(c) && m < resolution
        ensures DrawnAt(scene, self, resolution, c, DrawBezierToNextPoint(scene, self, resolution, c), k, m)
      {
        DrawAt(scene, self, resolution, c, k, m);
      }
    }
  }

  /** Every strand's lines start at the source position and end at the
      target position. */
  lemma DrawEndpoints(scene: Scene, self: Anchor, resolution: int, c: CablePoint, k: nat)
    requires c.target != None && k < CurveCount(c) && resolution >= 1
    ensures var r := DrawBezierToNextPoint(scene, self, resolution, c);
      && k * resolution + (resolution - 1) < |r|
      && r[k * resolution].from == scene.position(self)
      && r[k * resolution + (resolution - 1)].to == scene.position(c.target.value)
  {
    var r := DrawBezierToNextPoint(scene, self, resolution, c);
    var target, a, b := c.target.value, c.startOffsets[k], c.endOffsets[k];
    DrawAt(scene, self, resolution, c, k, 0);
    assert r[k * resolution].from == Knot(scene, self, target, a, b, resolution, 0);
    DrawAt(scene, self, resolution, c, k, resolution - 1);
    assert r[k * resolution + (resolution - 1)].to == Knot(scene, self, target, a, b, resolution, resolution);
    KnotEnds(scene, self, target, a, b, resolution);
  }

  lemma SumOfProducts(a: int, b: int, n: int)
    ensures a * n + b * n == (a + b) * n
  {}

  /** `OnDrawGizmos`: the lines of every connection whose target is set, in
      list order. */
  function GizmoLines(scene: Scene, creator: CableCreator): (r: seq<Segment>)
    ensures |r| == StrandTotal(creator.nextPoints) * Steps(creator.resolution)
  {
    ConnectionLines(scene, creator.self, creator.resolution, creator.nextPoints)
  }

  function ConnectionLines(scene: Scene, self: Anchor, resolution: int, conns: seq<CablePoint>): (r: seq<Segment>)
    ensures |r| == StrandTotal(conns) * Steps(resolution)
  {
    if conns == [] then []
    else
      var here := if conns[0].target == None then [] else DrawBezierToNextPoint(scene, self, resolution, conns[0]);
      var count := if conns[0].target == None then 0 else CurveCount(conns[0]);
      assert |here| == count * Steps(resolution) by {
        if conns[0].target != None {
          DrawSchedule(scene, self, resolution, conns[0]);
        }
      }
      SumOfProducts(count, StrandTotal(conns[1..]), Steps(resolution));
      here + ConnectionLines(scene, self, resolution, conns[1..])
  }
}
