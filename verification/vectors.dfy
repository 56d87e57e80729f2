/**
 * Three-component real vectors, standing in for the `DVec3` type of the
 * `glam` crate that the physics code uses for positions and velocities.
 */
module Vectors {

  import opened RealMath

  datatype Vec3 = Vec3(x: real, y: real, z: real)

  const Zero: Vec3 := Vec3(0.0, 0.0, 0.0)

  function Add(a: Vec3, b: Vec3): Vec3 {
    Vec3(a.x + b.x, a.y + b.y, a.z + b.z)
  }

  function Sub(a: Vec3, b: Vec3): Vec3 {
    Vec3(a.x - b.x, a.y - b.y, a.z - b.z)
  }

  function Neg(a: Vec3): Vec3 {
    Vec3(-a.x, -a.y, -a.z)
  }

  /** `k * v` (glam writes both `f64 * DVec3` and `DVec3 * f64`). */
  function Scale(k: real, v: Vec3): Vec3 {
    Vec3(k * v.x, k * v.y, k * v.z)
  }

  function Dot(a: Vec3, b: Vec3): real {
    a.x * b.x + a.y * b.y + a.z * b.z
  }

  /** `DVec3::length_squared`. */
  function LengthSquared(v: Vec3): (r: real)
    ensures r >= 0.0
    ensures r == 0.0 <==> v == Zero
  {
    SquareFacts(v.x);
    SquareFacts(v.y);
    SquareFacts(v.z);
    v.x * v.x + v.y * v.y + v.z * v.z
  }

  lemma LengthSquaredScale(k: real, v: Vec3)
    ensures LengthSquared(Scale(k, v)) == k * k * LengthSquared(v)
  {
  }

  /** `v` scaled by `k` has squared length k^2 |v|^2 (passed in as `kkl`, with `l` = |v|^2). */
  lemma LengthSquaredOfScaled(k: real, v: Vec3, l: real, kkl: real)
    requires l == LengthSquared(v) && kkl == k * k * l
    ensures LengthSquared(Scale(k, v)) == kkl
  {
    LengthSquaredScale(k, v);
  }

  /** A unit vector scaled by `k` has squared length k^2 (passed in as `kk`). */
  lemma LengthSquaredOfScaledUnit(k: real, u: Vec3, kk: real)
    requires LengthSquared(u) == 1.0 && kk == k * k
    ensures LengthSquared(Scale(k, u)) == kk
  {
    LengthSquaredScale(k, u);
  }

  /** The difference of two vectors is zero exactly when they are equal. */
  lemma SubZeroIff(a: Vec3, b: Vec3)
    ensures Sub(a, b) == Zero <==> a == b
  {
    if Sub(a, b) == Zero {
      assert a.x == b.x && a.y == b.y && a.z == b.z;
    }
  }

  lemma AddZero(v: Vec3)
    ensures Add(v, Zero) == v && Add(Zero, v) == v
  {
  }

  /** Scaling by zero, or scaling the zero vector, gives zero, and nothing else does. */
  lemma ScaleZero(k: real, v: Vec3)
    ensures Scale(k, v) == Zero <==> k == 0.0 || v == Zero
  {
    if Scale(k, v) == Zero && k != 0.0 {
      ZeroProduct(k, v.x);
      ZeroProduct(k, v.y);
      ZeroProduct(k, v.z);
    }
  }

  lemma ScaleScale(a: real, b: real, v: Vec3)
    ensures Scale(a, Scale(b, v)) == Scale(a * b, v)
  {
  }

  /** Equal factors give equal multiples (spelled out for factors that are equal only by arithmetic). */
  lemma ScaleBySame(a: real, b: real, v: Vec3)
    requires a == b
    ensures Scale(a, v) == Scale(b, v)
  {
  }

  /** Adding `a v` and `b v` is adding the factors. */
  lemma AddScales(a: real, b: real, v: Vec3)
    ensures Add(Scale(a, v), Scale(b, v)) == Scale(a + b, v)
  {
  }

  /** `DVec3::normalize`: the vector times the reciprocal of its length. */
  function Normalize(m: RealFns, v: Vec3): Vec3
    requires Lawful(m)
    requires v != Zero
  {
    SqrtPositive(m, LengthSquared(v));
    Scale(1.0 / m.sqrt(LengthSquared(v)), v)
  }

  /** A normalized vector has length 1 and is a positive multiple of the input. */
  lemma NormalizeIsUnit(m: RealFns, v: Vec3)
    requires Lawful(m)
    requires v != Zero
    ensures LengthSquared(Normalize(m, v)) == 1.0
    ensures Normalize(m, v) != Zero
    ensures Normalize(m, Neg(v)) == Neg(Normalize(m, v))
  {
    var l := LengthSquared(v);
    SqrtPositive(m, l);
    var s := m.sqrt(l);
    LengthSquaredScale(1.0 / s, v);
    InverseSquare(s, l, 1.0 / s);
    assert LengthSquared(Neg(v)) == l;
  }

  /** If s^2 = l and k s = 1 then k^2 l = 1. */
  lemma InverseSquare(s: real, l: real, k: real)
    requires s > 0.0 && s * s == l && k == 1.0 / s
    ensures k * k * l == 1.0
  {
    assert k * s == 1.0;
    assert k * k * (s * s) == (k * s) * (k * s);
  }
}
