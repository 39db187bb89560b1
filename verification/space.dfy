/** Three-component vectors: the columns of a patch's point and tangent
    arrays (stress components s11, s22, s12 of the plane-stress yield
    surface). */
module Space {
  import Vectors

  datatype V3 = V3(x: real, y: real, z: real)

  function Add3(a: V3, b: V3): V3
  {
    V3(a.x + b.x, a.y + b.y, a.z + b.z)
  }

  function Sub3(a: V3, b: V3): V3
  {
    V3(a.x - b.x, a.y - b.y, a.z - b.z)
  }

  function Scale3(k: real, a: V3): V3
  {
    V3(k * a.x, k * a.y, k * a.z)
  }

  function Neg3(a: V3): V3
  {
    V3(-a.x, -a.y, -a.z)
  }

  /** np.sum(a*b) */
  function Dot3(a: V3, b: V3): real
  {
    a.x * b.x + a.y * b.y + a.z * b.z
  }

  /** The column as a numpy-style vector of length 3. */
  function AsVec(a: V3): (r: Vectors.Vec)
    ensures |r| == 3 && r[0] == a.x && r[1] == a.y && r[2] == a.z
  {
    [a.x, a.y, a.z]
  }

  const Origin: V3 := V3(0.0, 0.0, 0.0)
}
