/** `CableGeoCreator.GetBezierPoints`: the samples of one strand that the
    tube mesh is built from, including the nested interpolation the code
    applies before evaluating the curve. */
module Sampler {
  import opened Vectors
  import opened Bezier
  import opened Faults
  import opened CablePath

  /** The parameter of sample i, i / (resolution - 1). */
  function SampleParameter(i: nat, resolution: int): (t: real)
    requires resolution >= 2 && i < resolution
    ensures 0.0 <= t <= 1.0
    ensures i == 0 <==> t == 0.0
    ensures i == resolution - 1 <==> t == 1.0
  {
    UnitFraction(i as real, (resolution - 1) as real);
    i as real / (resolution - 1) as real
  }

  /** A fraction x / d with 0 <= x <= d lies in [0, 1]; it is 0 exactly for
      x = 0 and 1 exactly for x = d. */
  lemma UnitFraction(x: real, d: real)
    requires 0.0 <= x <= d && d > 0.0
    ensures 0.0 <= x / d <= 1.0
    ensures x / d == 0.0 <==> x == 0.0
    ensures x / d == 1.0 <==> x == d
  {
    var q := x / d;
    assert q * d == x;
  }

  /** The body of the sampling loop at parameter t: the curve from
      `startPoint`, pulled towards the target's end control point by two
      clamped interpolations in t, to the target position. At t = 0 it is
      the source position and at t = 1 the target position. */
  function SamplePoint(scene: Scene, source: Anchor, strand: Strand, t: real): (p: Vec3)
    ensures t == 0.0 ==> p == scene.position(source)
    ensures t == 1.0 ==> p == scene.position(strand.target)
  {
    var startPoint := scene.position(source);
    var endPoint := scene.toWorld(strand.target, strand.endOffset);
    var interpolatedPoint := Lerp(startPoint, endPoint, t);
    var offset := Lerp(strand.startOffset, strand.endOffset, t);
    var interpolatedStartPoint := Lerp(startPoint, interpolatedPoint, t);
    CalculateBezierPoint(t,
      interpolatedStartPoint,
      Lerp(interpolatedStartPoint, Add(interpolatedStartPoint, offset), 0.5),
      interpolatedPoint,
      scene.position(strand.target))
  }

  /** The samples of one strand when the array can be filled. */
  function StrandSamples(scene: Scene, source: Anchor, strand: Strand, resolution: int): (r: seq<Vec3>)
    requires resolution == 0 || resolution >= 2
    ensures |r| == resolution
    ensures forall i :: 0 <= i < |r| ==> r[i] == SamplePoint(scene, source, strand, SampleParameter(i, resolution))
  {
    if resolution == 0 then
      []
    else
      seq(resolution, i requires 0 <= i < resolution => SamplePoint(scene, source, strand, SampleParameter(i, resolution)))
  }

  /** Whether `GetBezierPoints` with this resolution fails, and how: a
      negative size makes the array allocation throw, and a resolution of
      one divides 0 by 0 for the only sample. */
  function ResolutionFault(resolution: int): Option<Fault> {
    if resolution < 0 then Some(NegativeArraySize)
    else if resolution == 1 then Some(NotANumber)
    else None
  }

  /** `GetBezierPoints`: exactly `resolution` samples, the first at the
      source position and the last at the target position; a negative
      resolution or a resolution of one yields no point array. */
  function GetBezierPoints(scene: Scene, source: Anchor, strand: Strand, resolution: int): (r: Result<seq<Vec3>>)
    ensures r.Err? <==> resolution < 0 || resolution == 1
    ensures r.Err? ==> Some(r.fault) == ResolutionFault(resolution)
    ensures r.Ok? ==> |r.value| == resolution
    ensures r.Ok? && resolution >= 2 ==>
      r.value[0] == scene.position(source) && r.value[resolution - 1] == scene.position(strand.target)
  {
    match ResolutionFault(resolution)
    case Some(f) => Err(f)
    case None => Ok(StrandSamples(scene, source, strand, resolution))
  }

  /** The Bernstein sum of four points of one line is the point of that line
      at the weighted sum of their line parameters. */
  lemma CollinearCombine(w: Weights, a: real, b: real, c0: real, c1: real, c2: real, c3: real)
    requires w.w0 + w.w1 + w.w2 + w.w3 == 1.0
    ensures Combine(w, Lin(a, b, c0), Lin(a, b, c1), Lin(a, b, c2), Lin(a, b, c3))
         == Lin(a, b, Combine(w, c0, c1, c2, c3))
  {
    var d := b - a;
    assert w.w0 * (a + d * c0) == w.w0 * a + (w.w0 * c0) * d;
    assert w.w1 * (a + d * c1) == w.w1 * a + (w.w1 * c1) * d;
    assert w.w2 * (a + d * c2) == w.w2 * a + (w.w2 * c2) * d;
    assert w.w3 * (a + d * c3) == w.w3 * a + (w.w3 * c3) * d;
    assert (w.w0 + w.w1 + w.w2 + w.w3) * a == a;
    assert d * (w.w0 * c0 + w.w1 * c1 + w.w2 * c2 + w.w3 * c3)
        == (w.w0 * c0) * d + (w.w1 * c1) * d + (w.w2 * c2) * d + (w.w3 * c3) * d;
  }

  /** For t in [0, 1] the Bernstein weights are non-negative. */
  lemma WeightsNonNegative(t: real)
    requires 0.0 <= t <= 1.0
    ensures var w := BernsteinWeights(t); w.w0 >= 0.0 && w.w1 >= 0.0 && w.w2 >= 0.0 && w.w3 >= 0.0
  {
    var u := 1.0 - t;
    NonNegativeProduct(u, u);
    NonNegativeProduct(t, t);
    NonNegativeProduct(u * u, u);
    NonNegativeProduct(3.0 * (u * u), t);
    NonNegativeProduct(3.0 * u, t * t);
    NonNegativeProduct(t * t, t);
  }

  lemma NonNegativeProduct(a: real, b: real)
    requires a >= 0.0 && b >= 0.0
    ensures a * b >= 0.0
  {}

  /** A convex combination of parameters in [0, 1] lies in [0, 1]. */
  lemma ConvexParameter(w: Weights, c0: real, c1: real, c2: real, c3: real)
    requires w.w0 >= 0.0 && w.w1 >= 0.0 && w.w2 >= 0.0 && w.w3 >= 0.0
    requires w.w0 + w.w1 + w.w2 + w.w3 == 1.0
    requires 0.0 <= c0 <= 1.0 && 0.0 <= c1 <= 1.0 && 0.0 <= c2 <= 1.0 && 0.0 <= c3 <= 1.0
    ensures 0.0 <= Combine(w, c0, c1, c2, c3) <= 1.0
  {
    var a0, a1, a2, a3 := w.w0 * c0, w.w1 * c1, w.w2 * c2, w.w3 * c3;
    ScaledBelow(w.w0, c0, a0);
    ScaledBelow(w.w1, c1, a1);
    ScaledBelow(w.w2, c2, a2);
    ScaledBelow(w.w3, c3, a3);
  }

  lemma ScaledBelow(w: real, c: real, p: real)
    requires w >= 0.0 && 0.0 <= c <= 1.0 && p == w * c
    ensures 0.0 <= p <= w
  {
    assert w * (1.0 - c) >= 0.0 by { NonNegativeProduct(w, 1.0 - c); }
  }

  /** The sample point of a strand with zero offsets whose end control point
      is the target position (every transform maps its local origin to its
      position): the four control points are the source, the source again, the point at t and
      the point at t squared along the chord, and the target. */
  lemma StraightControlPoints(scene: Scene, source: Anchor, strand: Strand, t: real)
    requires strand.startOffset == Zero3 && strand.endOffset == Zero3
    requires scene.toWorld(strand.target, Zero3) == scene.position(strand.target)
    requires 0.0 <= t <= 1.0
    ensures var a, b := scene.position(source), scene.position(strand.target);
      SamplePoint(scene, source, strand, t)
        == CalculateBezierPoint(t, Mix(a, b, t * t), Mix(a, b, t * t), Mix(a, b, t), Mix(a, b, 1.0))
  {
    var a, b := scene.position(source), scene.position(strand.target);
    var interpolatedPoint := Lerp(a, b, t);
    assert interpolatedPoint == Mix(a, b, t);
    var offset := Lerp(strand.startOffset, strand.endOffset, t);
    assert offset == Zero3;
    var interpolatedStartPoint := Lerp(a, interpolatedPoint, t);
    assert interpolatedStartPoint.x == a.x + (b.x - a.x) * t * t;
    assert interpolatedStartPoint.y == a.y + (b.y - a.y) * t * t;
    assert interpolatedStartPoint.z == a.z + (b.z - a.z) * t * t;
    assert interpolatedStartPoint == Mix(a, b, t * t);
    assert Add(interpolatedStartPoint, offset) == interpolatedStartPoint;
    assert b == Mix(a, b, 1.0);
  }

  /** The chord parameter of the straight strand's sample at t. */
  function StraightParameter(t: real): real {
    Combine(BernsteinWeights(t), t * t, t * t, t, 1.0)
  }

  lemma StraightParameterRange(t: real)
    requires 0.0 <= t <= 1.0
    ensures 0.0 <= StraightParameter(t) <= 1.0
  {
    PartitionOfUnity(t);
    WeightsNonNegative(t);
    assert 0.0 <= t * t <= 1.0;
    ConvexParameter(BernsteinWeights(t), t * t, t * t, t, 1.0);
  }

  /** One coordinate of `BezierAlong`. */
  lemma CombineAlong(w: Weights, a: real, b: real, c0: real, c1: real, c2: real, c3: real,
                     x0: real, x1: real, x2: real, x3: real, r: real)
    requires w.w0 + w.w1 + w.w2 + w.w3 == 1.0
    requires x0 == Lin(a, b, c0) && x1 == Lin(a, b, c1) && x2 == Lin(a, b, c2) && x3 == Lin(a, b, c3)
    requires r == Combine(w, x0, x1, x2, x3)
    ensures r == Lin(a, b, Combine(w, c0, c1, c2, c3))
  {
    CollinearCombine(w, a, b, c0, c1, c2, c3);
  }

  /** The curve through four points of the line from a to b stays on that
      line, at the Bernstein-weighted sum of their line parameters. */
  lemma BezierAlong(t: real, a: Vec3, b: Vec3, c0: real, c1: real, c2: real, c3: real, q: Vec3)
    requires q == CalculateBezierPoint(t, Mix(a, b, c0), Mix(a, b, c1), Mix(a, b, c2), Mix(a, b, c3))
    ensures q == Mix(a, b, Combine(BernsteinWeights(t), c0, c1, c2, c3))
  {
    var w := BernsteinWeights(t);
    PartitionOfUnity(t);
    var p0, p1, p2, p3 := Mix(a, b, c0), Mix(a, b, c1), Mix(a, b, c2), Mix(a, b, c3);
    BezierCoordinates(t, p0, p1, p2, p3);
    MixLin(a, b, c0);
    MixLin(a, b, c1);
    MixLin(a, b, c2);
    MixLin(a, b, c3);
    MixLin(a, b, Combine(w, c0, c1, c2, c3));
    CombineAlong(w, a.x, b.x, c0, c1, c2, c3, p0.x, p1.x, p2.x, p3.x, q.x);
    CombineAlong(w, a.y, b.y, c0, c1, c2, c3, p0.y, p1.y, p2.y, p3.y, q.y);
    CombineAlong(w, a.z, b.z, c0, c1, c2, c3, p0.z, p1.z, p2.z, p3.z, q.z);
  }

  lemma StraightSample(scene: Scene, source: Anchor, strand: Strand, t: real)
    requires strand.startOffset == Zero3 && strand.endOffset == Zero3
    requires scene.toWorld(strand.target, Zero3) == scene.position(strand.target)
    requires 0.0 <= t <= 1.0
    ensures SamplePoint(scene, source, strand, t)
         == Mix(scene.position(source), scene.position(strand.target), StraightParameter(t))
  {
    var a, b := scene.position(source), scene.position(strand.target);
    var s := SamplePoint(scene, source, strand, t);
    StraightControlPoints(scene, source, strand, t);
    BezierAlong(t, a, b, t * t, t * t, t, 1.0, s);
  }

  /** A default strand (zero offsets) is straight, given that the target's
      transform maps its local origin to its position, as every transform
      does: every sample with t in [0, 1] lies on the segment from the source
      position to the target position. */
  lemma StraightStrand(scene: Scene, source: Anchor, strand: Strand, t: real)
    requires strand.startOffset == Zero3 && strand.endOffset == Zero3
    requires scene.toWorld(strand.target, Zero3) == scene.position(strand.target)
    requires 0.0 <= t <= 1.0
    ensures exists c: real ::
      && 0.0 <= c <= 1.0
      && SamplePoint(scene, source, strand, t) == Mix(scene.position(source), scene.position(strand.target), c)
  {
    StraightSample(scene, source, strand, t);
    StraightParameterRange(t);
  }
}
