/** `Vector3`/`float3` and `int3` of the engine, with the component-wise
    operations the chunk code uses. */
module Vectors {

  datatype Vec3 = Vec3(x: real, y: real, z: real)

  datatype Int3 = Int3(x: int, y: int, z: int)

  const Zero: Vec3 := Vec3(0.0, 0.0, 0.0)

  function Add(u: Vec3, v: Vec3): Vec3 {
    Vec3(u.x + v.x, u.y + v.y, u.z + v.z)
  }

  function Scale(v: Vec3, k: real): Vec3 {
    Vec3(v.x * k, v.y * k, v.z * k)
  }

  /** `new int3(n)`: the same value on every axis. */
  function Splat(n: int): Int3 {
    Int3(n, n, n)
  }
}
