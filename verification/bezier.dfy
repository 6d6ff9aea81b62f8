/** The cubic Bezier evaluator `CalculateBezierPoint`, in exact real
    arithmetic. */
module Bezier {
  import opened Vectors

  /** The four Bernstein weights the evaluator multiplies the control points
      by: uuu, 3uut, 3utt and ttt with u = 1 - t. */
  datatype Weights = Weights(w0: real, w1: real, w2: real, w3: real)

  function BernsteinWeights(t: real): Weights {
    var u := 1.0 - t;
    Weights((u * u) * u, 3.0 * (u * u) * t, 3.0 * u * (t * t), (t * t) * t)
  }

  /** The weighted sum w0 p0 + w1 p1 + w2 p2 + w3 p3, one coordinate. */
  function Combine(w: Weights, a: real, b: real, c: real, d: real): real {
    w.w0 * a + w.w1 * b + w.w2 * c + w.w3 * d
  }

  /** The accumulation of `CableCreator.CalculateBezierPoint`: uuu p0,
      then 3uut p1, 3utt p2 and ttt p3 added in that order. */
  function Accumulate(t: real, p0: Vec3, p1: Vec3, p2: Vec3, p3: Vec3): Vec3 {
    var u := 1.0 - t;
    var tt := t * t;
    var uu := u * u;
    var uuu := uu * u;
    var ttt := tt * t;
    var p := Scale(uuu, p0);
    var p := Add(p, Scale(3.0 * uu * t, p1));
    var p := Add(p, Scale(3.0 * u * tt, p2));
    Add(p, Scale(ttt, p3))
  }

  /** Each coordinate of the accumulation is the Bernstein sum. */
  lemma AccumulateCoordinates(t: real, p0: Vec3, p1: Vec3, p2: Vec3, p3: Vec3)
    ensures var w, p := BernsteinWeights(t), Accumulate(t, p0, p1, p2, p3);
      && p.x == Combine(w, p0.x, p1.x, p2.x, p3.x)
      && p.y == Combine(w, p0.y, p1.y, p2.y, p3.y)
      && p.z == Combine(w, p0.z, p1.z, p2.z, p3.z)
  {}

  /** At t = 0 all the weight is on p0, at t = 1 all of it is on p3. */
  lemma EndWeights(t: real)
    ensures t == 0.0 ==> BernsteinWeights(t) == Weights(1.0, 0.0, 0.0, 0.0)
    ensures t == 1.0 ==> BernsteinWeights(t) == Weights(0.0, 0.0, 0.0, 1.0)
  {}

  /** `CableCreator.CalculateBezierPoint`. At t = 0 and t = 1 the result is
      exactly the first and the last control point, and four equal control
      points give that point for every t. */
  function CalculateBezierPoint(t: real, p0: Vec3, p1: Vec3, p2: Vec3, p3: Vec3): (p: Vec3)
    ensures t == 0.0 ==> p == p0
    ensures t == 1.0 ==> p == p3
    ensures p0 == p1 == p2 == p3 ==> p == p0
  {
    var p := Accumulate(t, p0, p1, p2, p3);
    AccumulateCoordinates(t, p0, p1, p2, p3);
    EndWeights(t);
    assert p0 == p1 == p2 == p3 ==> p == p0 by {
      if p0 == p1 == p2 == p3 {
        PartitionOfUnity(t);
        ConstantCombine(BernsteinWeights(t), p0.x);
        ConstantCombine(BernsteinWeights(t), p0.y);
        ConstantCombine(BernsteinWeights(t), p0.z);
      }
    }
    p
  }

  /** The Bernstein weights sum to one for every t: they are the terms of
      ((1 - t) + t)^3. */
  lemma {:induction false} PartitionOfUnity(t: real)
    ensures var w := BernsteinWeights(t); w.w0 + w.w1 + w.w2 + w.w3 == 1.0
  {
    var u := 1.0 - t;
    calc {
      u * u * u + 3.0 * u * u * t + 3.0 * u * t * t + t * t * t;
      (u + t) * (u + t) * (u + t);
      1.0;
    }
  }

  /** A weighted sum of four copies of one value is that value. */
  lemma ConstantCombine(w: Weights, a: real)
    requires w.w0 + w.w1 + w.w2 + w.w3 == 1.0
    ensures Combine(w, a, a, a, a) == a
  {
    calc {
      Combine(w, a, a, a, a);
      (w.w0 + w.w1 + w.w2 + w.w3) * a;
    }
  }

  /** De Casteljau's construction: three rounds of unclamped interpolation
      between neighbouring control points. It is the independent geometric
      definition of the same cubic curve. */
  function DeCasteljau(t: real, p0: Vec3, p1: Vec3, p2: Vec3, p3: Vec3): Vec3 {
    var a := Mix(p0, p1, t);
    var b := Mix(p1, p2, t);
    var c := Mix(p2, p3, t);
    Mix(Mix(a, b, t), Mix(b, c, t), t)
  }

  function Lin(a: real, b: real, t: real): real { a + (b - a) * t }

  lemma LinAsWeights(a: real, b: real, t: real)
    ensures Lin(a, b, t) == (1.0 - t) * a + t * b
  {}

  /** Two rounds of interpolation give the quadratic Bernstein sum. */
  lemma QuadraticStep(u: real, t: real, a: real, b: real, c: real, ab: real, bc: real, r: real)
    requires ab == u * a + t * b && bc == u * b + t * c
    requires r == u * ab + t * bc
    ensures r == u * u * a + 2.0 * u * t * b + t * t * c
  {
    assert u * ab == u * u * a + u * t * b;
    assert t * bc == u * t * b + t * t * c;
  }

  /** A third round gives the cubic Bernstein sum. */
  lemma CubicStep(u: real, t: real, a: real, b: real, c: real, d: real, abc: real, bcd: real, r: real)
    requires abc == u * u * a + 2.0 * u * t * b + t * t * c
    requires bcd == u * u * b + 2.0 * u * t * c + t * t * d
    requires r == u * abc + t * bcd
    ensures r == u * u * u * a + 3.0 * u * u * t * b + 3.0 * u * t * t * c + t * t * t * d
  {
    assert u * abc == u * u * u * a + 2.0 * u * u * t * b + u * t * t * c;
    assert t * bcd == u * u * t * b + 2.0 * u * t * t * c + t * t * t * d;
  }

  /** The Bernstein sum written out term by term. */
  lemma CombineExpanded(t: real, a: real, b: real, c: real, d: real, r: real)
    requires var u := 1.0 - t; r == u * u * u * a + 3.0 * u * u * t * b + 3.0 * u * t * t * c + t * t * t * d
    ensures r == Combine(BernsteinWeights(t), a, b, c, d)
  {}

  /** One coordinate of de Casteljau's construction equals the Bernstein sum. */
  lemma {:induction false} DeCasteljauCoordinate(t: real, a: real, b: real, c: real, d: real)
    ensures Lin(Lin(Lin(a, b, t), Lin(b, c, t), t), Lin(Lin(b, c, t), Lin(c, d, t), t), t)
         == Combine(BernsteinWeights(t), a, b, c, d)
  {
    var u := 1.0 - t;
    var ab, bc, cd := Lin(a, b, t), Lin(b, c, t), Lin(c, d, t);
    LinAsWeights(a, b, t);
    LinAsWeights(b, c, t);
    LinAsWeights(c, d, t);
    var abc, bcd := Lin(ab, bc, t), Lin(bc, cd, t);
    LinAsWeights(ab, bc, t);
    LinAsWeights(bc, cd, t);
    QuadraticStep(u, t, a, b, c, ab, bc, abc);
    QuadraticStep(u, t, b, c, d, bc, cd, bcd);
    LinAsWeights(abc, bcd, t);
    CubicStep(u, t, a, b, c, d, abc, bcd, Lin(abc, bcd, t));
    CombineExpanded(t, a, b, c, d, Lin(abc, bcd, t));
  }

  /** Each coordinate of the evaluator's result is the Bernstein sum of the
      control points' coordinates. */
  lemma BezierCoordinates(t: real, p0: Vec3, p1: Vec3, p2: Vec3, p3: Vec3)
    ensures var w, p := BernsteinWeights(t), CalculateBezierPoint(t, p0, p1, p2, p3);
      && p.x == Combine(w, p0.x, p1.x, p2.x, p3.x)
      && p.y == Combine(w, p0.y, p1.y, p2.y, p3.y)
      && p.z == Combine(w, p0.z, p1.z, p2.z, p3.z)
  {}

  /** Each coordinate of de Casteljau's construction is three rounds of
      scalar interpolation. */
  lemma DeCasteljauCoordinates(t: real, p0: Vec3, p1: Vec3, p2: Vec3, p3: Vec3)
    ensures var q := DeCasteljau(t, p0, p1, p2, p3);
      && q.x == Lin(Lin(Lin(p0.x, p1.x, t), Lin(p1.x, p2.x, t), t), Lin(Lin(p1.x, p2.x, t), Lin(p2.x, p3.x, t), t), t)
      && q.y == Lin(Lin(Lin(p0.y, p1.y, t), Lin(p1.y, p2.y, t), t), Lin(Lin(p1.y, p2.y, t), Lin(p2.y, p3.y, t), t), t)
      && q.z == Lin(Lin(Lin(p0.z, p1.z, t), Lin(p1.z, p2.z, t), t), Lin(Lin(p1.z, p2.z, t), Lin(p2.z, p3.z, t), t), t)
  {
    var a, b, c := Mix(p0, p1, t), Mix(p1, p2, t), Mix(p2, p3, t);
    var ab, bc := Mix(a, b, t), Mix(b, c, t);
    MixLin(p0, p1, t);
    MixLin(p1, p2, t);
    MixLin(p2, p3, t);
    MixLin(a, b, t);
    MixLin(b, c, t);
    MixLin(ab, bc, t);
  }

  lemma MixLin(a: Vec3, b: Vec3, t: real)
    ensures Mix(a, b, t) == Vec3(Lin(a.x, b.x, t), Lin(a.y, b.y, t), Lin(a.z, b.z, t))
  {}

  /** The evaluator computes the cubic Bezier curve: for every t it agrees
      with de Casteljau's construction on the same control points. */
  lemma {:induction false} MatchesDeCasteljau(t: real, p0: Vec3, p1: Vec3, p2: Vec3, p3: Vec3)
    ensures CalculateBezierPoint(t, p0, p1, p2, p3) == DeCasteljau(t, p0, p1, p2, p3)
  {
    BezierCoordinates(t, p0, p1, p2, p3);
    DeCasteljauCoordinates(t, p0, p1, p2, p3);
    DeCasteljauCoordinate(t, p0.x, p1.x, p2.x, p3.x);
    DeCasteljauCoordinate(t, p0.y, p1.y, p2.y, p3.y);
    DeCasteljauCoordinate(t, p0.z, p1.z, p2.z, p3.z);
  }

  /** Moving all four control points by d moves the curve point by d. */
  lemma {:induction false} TranslationInvariant(t: real, p0: Vec3, p1: Vec3, p2: Vec3, p3: Vec3, d: Vec3)
    ensures CalculateBezierPoint(t, Add(p0, d), Add(p1, d), Add(p2, d), Add(p3, d))
         == Add(CalculateBezierPoint(t, p0, p1, p2, p3), d)
  {
    var w := BernsteinWeights(t);
    PartitionOfUnity(t);
    BezierCoordinates(t, p0, p1, p2, p3);
    BezierCoordinates(t, Add(p0, d), Add(p1, d), Add(p2, d), Add(p3, d));
    ShiftCombine(w, p0.x, p1.x, p2.x, p3.x, d.x);
    ShiftCombine(w, p0.y, p1.y, p2.y, p3.y, d.y);
    ShiftCombine(w, p0.z, p1.z, p2.z, p3.z, d.z);
  }

  lemma ShiftCombine(w: Weights, a: real, b: real, c: real, d: real, e: real)
    requires w.w0 + w.w1 + w.w2 + w.w3 == 1.0
    ensures Combine(w, a + e, b + e, c + e, d + e) == Combine(w, a, b, c, d) + e
  {
    calc {
      Combine(w, a + e, b + e, c + e, d + e);
      Combine(w, a, b, c, d) + (w.w0 + w.w1 + w.w2 + w.w3) * e;
    }
  }
}
