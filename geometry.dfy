/** The Unity value types the core passes around, left uninterpreted: only
    the operations the code applies to them are named, and nothing is
    stated about what they compute. */
module Geometry {

  /** `UnityEngine.Quaternion`. */
  type Quaternion(==)

  /** `UnityEngine.Vector3`. */
  type Vector3(==)

  /** The float quotient `numerator / (float)denominator` as the code writes
      it, left unevaluated (a zero denominator gives infinity or NaN in
      floats; here it is just a pair). */
  datatype Ratio = Ratio(numerator: int, denominator: int)

  /** `UnityEngine.Vector2` holding texture coordinates. */
  datatype UV = UV(u: Ratio, v: Ratio)

  /** `default(Vector2)`. */
  const ZeroUV := UV(Ratio(0, 1), Ratio(0, 1))

  /** The vector and quaternion operations of the turtle and the mesh
      builders. */
  datatype Ops = Ops(
    compose: (Quaternion, Quaternion) -> Quaternion,  // q * r
    euler: (real, real, real) -> Quaternion,         // Quaternion.Euler(x, y, z)
    rotate: (Quaternion, Vector3) -> Vector3,        // q * v
    add: (Vector3, Vector3) -> Vector3,              // v + w
    sub: (Vector3, Vector3) -> Vector3,              // v - w
    vector: (real, real, real) -> Vector3,           // new Vector3(x, y, z)
    identity: Quaternion)                            // Quaternion.identity
}
