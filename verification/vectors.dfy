/** Three-component vectors over the reals, standing in for the engine's
    single-precision `Vector3`, and the engine's clamped interpolation. */
module Vectors {

  datatype Vec3 = Vec3(x: real, y: real, z: real)

  /** Texture coordinates (`Vector2`). */
  datatype Vec2 = Vec2(u: real, v: real)

  /** `Vector3.zero` */
  const Zero3: Vec3 := Vec3(0.0, 0.0, 0.0)

  /** The default value of a freshly allocated `Vector2` array element. */
  const Zero2: Vec2 := Vec2(0.0, 0.0)

  function Add(a: Vec3, b: Vec3): Vec3 {
    Vec3(a.x + b.x, a.y + b.y, a.z + b.z)
  }

  function Sub(a: Vec3, b: Vec3): Vec3 {
    Vec3(a.x - b.x, a.y - b.y, a.z - b.z)
  }

  /** Scalar times vector, `k * v`. */
  function Scale(k: real, a: Vec3): Vec3 {
    Vec3(k * a.x, k * a.y, k * a.z)
  }

  /** `Mathf.Clamp01`: the nearest value of [0, 1]. */
  function Clamp01(t: real): (r: real)
    ensures 0.0 <= r <= 1.0
    ensures 0.0 <= t <= 1.0 ==> r == t
    ensures t < 0.0 ==> r == 0.0
    ensures t > 1.0 ==> r == 1.0
  {
    if t < 0.0 then 0.0 else if t > 1.0 then 1.0 else t
  }

  /** Unclamped linear interpolation a + t * (b - a). */
  function Mix(a: Vec3, b: Vec3, t: real): Vec3 {
    Vec3(a.x + (b.x - a.x) * t, a.y + (b.y - a.y) * t, a.z + (b.z - a.z) * t)
  }

  /** `Vector3.Lerp`: the parameter is clamped to [0, 1] first, so the result
      always lies on the segment from a to b and never beyond it. */
  function Lerp(a: Vec3, b: Vec3, t: real): (r: Vec3)
    ensures t <= 0.0 ==> r == a
    ensures t >= 1.0 ==> r == b
    ensures a == b ==> r == a
    ensures r == Mix(a, b, Clamp01(t))
  {
    Mix(a, b, Clamp01(t))
  }
}
