/** Positions in the scene and the distance comparisons the controllers make.
    `Vector3.Distance(a, b) < r` is decided on squared distances, which is exact for real
    coordinates; the square root itself is never needed. */
module Geometry {

  datatype Vec3 = Vec3(x: real, y: real, z: real)

  function SqDist(a: Vec3, b: Vec3): (d: real)
    ensures d >= 0.0
    ensures a == b ==> d == 0.0
  {
    (a.x - b.x) * (a.x - b.x) + (a.y - b.y) * (a.y - b.y) + (a.z - b.z) * (a.z - b.z)
  }

  /** `Vector3.Distance(a, b) < range`: a distance is never negative, so a non-positive
      range admits nothing. */
  predicate Within(a: Vec3, b: Vec3, range: real)
  {
    range > 0.0 && SqDist(a, b) < range * range
  }

  /** A wider range admits everything a narrower one does. */
  lemma WithinMonotone(a: Vec3, b: Vec3, r1: real, r2: real)
    requires Within(a, b, r1) && r1 <= r2
    ensures Within(a, b, r2)
  {
    assert r1 * r1 <= r2 * r2 by {
      assert 0.0 < r1;
      assert r1 * r1 <= r1 * r2 <= r2 * r2;
    }
  }
}
