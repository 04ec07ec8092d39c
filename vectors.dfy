/** The part of three.js's Vector3 and MathUtils that the scene's state logic uses,
    over exact reals. */
module Vectors {

  datatype Vec3 = Vec3(x: real, y: real, z: real)

  function Add(a: Vec3, b: Vec3): Vec3 {
    Vec3(a.x + b.x, a.y + b.y, a.z + b.z)
  }

  function Sub(a: Vec3, b: Vec3): Vec3 {
    Vec3(a.x - b.x, a.y - b.y, a.z - b.z)
  }

  function Scale(a: Vec3, k: real): Vec3 {
    Vec3(a.x * k, a.y * k, a.z * k)
  }

  /** Vector3.crossVectors(a, b). */
  function Cross(a: Vec3, b: Vec3): Vec3 {
    Vec3(a.y * b.z - a.z * b.y, a.z * b.x - a.x * b.z, a.x * b.y - a.y * b.x)
  }

  function Dot(a: Vec3, b: Vec3): real {
    a.x * b.x + a.y * b.y + a.z * b.z
  }

  function NormSq(a: Vec3): real {
    a.x * a.x + a.y * a.y + a.z * a.z
  }

  /** MathUtils.lerp(x, y, t) = (1 - t) * x + t * y. */
  function Lerp(x: real, y: real, t: real): real {
    (1.0 - t) * x + t * y
  }

  /** Vector3.lerpVectors(a, b, t): each component a + (b - a) * t. */
  function LerpVec(a: Vec3, b: Vec3, t: real): Vec3 {
    Vec3(a.x + (b.x - a.x) * t, a.y + (b.y - a.y) * t, a.z + (b.z - a.z) * t)
  }

  /** A lerp with weight in [0, 1] stays between its two ends, and hits them at 0 and 1. */
  lemma LerpBetween(x: real, y: real, t: real)
    requires 0.0 <= t <= 1.0
    ensures y <= x ==> y <= Lerp(x, y, t) <= x
    ensures x <= y ==> x <= Lerp(x, y, t) <= y
    ensures t == 0.0 ==> Lerp(x, y, t) == x
    ensures t == 1.0 ==> Lerp(x, y, t) == y
  {
    assert Lerp(x, y, t) - y == (1.0 - t) * (x - y);
    assert Lerp(x, y, t) - x == t * (y - x);
    if y <= x {
      MulNonNegative(1.0 - t, x - y);
      MulNonNegative(t, x - y);
    } else {
      MulNonNegative(1.0 - t, y - x);
      MulNonNegative(t, y - x);
    }
  }

  lemma MulNonNegative(a: real, b: real)
    requires a >= 0.0 && b >= 0.0
    ensures a * b >= 0.0
  {
  }

  /** Scaling a vector by `k` scales its squared length by `k * k`. */
  lemma NormSqScale(a: Vec3, k: real)
    ensures NormSq(Scale(a, k)) == k * k * NormSq(a)
  {
    assert (a.x * k) * (a.x * k) == k * k * (a.x * a.x);
    assert (a.y * k) * (a.y * k) == k * k * (a.y * a.y);
    assert (a.z * k) * (a.z * k) == k * k * (a.z * a.z);
  }

  lemma LerpVecEnds(a: Vec3, b: Vec3)
    ensures LerpVec(a, b, 0.0) == a
    ensures LerpVec(a, b, 1.0) == b
  {
  }
}
