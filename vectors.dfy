/**
 * Three-component vectors over the reals, standing in for GLM's `vec3`
 * (single precision) and `dvec3` (double precision). The model does not
 * distinguish the two precisions.
 */
module Vectors {

  datatype Vec3 = Vec3(x: real, y: real, z: real)

  datatype Vec2 = Vec2(u: real, v: real)

  /** A unit quaternion `glm::quat`, carried but never read by the physics. */
  datatype Quat = Quat(w: real, x: real, y: real, z: real)

  const Zero: Vec3 := Vec3(0.0, 0.0, 0.0)
  const Zero2: Vec2 := Vec2(0.0, 0.0)
  const Identity: Quat := Quat(1.0, 0.0, 0.0, 0.0)

  function Add(a: Vec3, b: Vec3): Vec3 { Vec3(a.x + b.x, a.y + b.y, a.z + b.z) }

  function Sub(a: Vec3, b: Vec3): Vec3 { Vec3(a.x - b.x, a.y - b.y, a.z - b.z) }

  function Neg(a: Vec3): Vec3 { Vec3(-a.x, -a.y, -a.z) }

  function Scale(a: Vec3, k: real): Vec3 { Vec3(a.x * k, a.y * k, a.z * k) }

  /** Real division made total: IEEE infinities and NaNs are not modelled. */
  function Div(a: real, b: real): real { if b == 0.0 then 0.0 else a / b }

  /** Component-wise division of a vector by a scalar (`v / s` in GLM). */
  function VDiv(a: Vec3, k: real): Vec3 { Vec3(Div(a.x, k), Div(a.y, k), Div(a.z, k)) }

  /** Squared Euclidean length, `x*x + y*y + z*z`. */
  function DistSq(a: Vec3): real { a.x * a.x + a.y * a.y + a.z * a.z }

  /**
   * The floating-point operations the model keeps abstract: `glm::normalize`,
   * `glm::length` and the test `glm::any(glm::isnan(v))`. They are parameters
   * so that no property proved here depends on how they are computed.
   */
  datatype Numerics = Numerics(
    normalize: Vec3 -> Vec3,
    length: Vec3 -> real,
    isNaN: Vec3 -> bool)
}
