/**
 * The boost bivector helpers of src/math/bivector.rs: a boost bivector with
 * components iI, iJ, iK, its norm, its exponential (a hyperbolic versor) and
 * the bivector of a velocity given in units of the speed of light.
 */
module Bivectors {

  import opened RealMath

  datatype BivectorBoost = BivectorBoost(iI: real, iJ: real, iK: real)

  datatype BivectorRotation = BivectorRotation(I: real, J: real, K: real)

  datatype ExpBoost = ExpBoost(scalar: real, iI: real, iJ: real, iK: real)

  datatype ExpRotation = ExpRotation(scalar: real, I: real, J: real, K: real)

  datatype VersorBoost = VersorBoost(phi: real, vx: real, vy: real, vz: real)

  datatype VersorRotation = VersorRotation(theta: real, vx: real, vy: real, vz: real)

  /** `f64::mul_add`, read as the exact a * b + c (the single rounding is not modelled). */
  function MulAdd(a: real, b: real, c: real): real {
    a * b + c
  }

  /** The bivector with every component zero. */
  const ZeroBoost: BivectorBoost := BivectorBoost(0.0, 0.0, 0.0)

  /** `norm_squared`: iI^2 + iJ^2 + iK^2, non-negative and zero only for the zero bivector. */
  function NormSquared(b: BivectorBoost): (r: real)
    ensures r >= 0.0
    ensures r == 0.0 <==> b == ZeroBoost
  {
    SquareFacts(b.iI);
    SquareFacts(b.iJ);
    SquareFacts(b.iK);
    MulAdd(b.iI, b.iI, MulAdd(b.iJ, b.iJ, b.iK * b.iK))
  }

  /** `norm`: the square root of `norm_squared`. */
  function Norm(m: RealFns, b: BivectorBoost): (r: real)
    requires Lawful(m)
    ensures r >= 0.0 && r * r == NormSquared(b)
    ensures r == 0.0 <==> b == ZeroBoost
  {
    SqrtZeroIff(m, NormSquared(b));
    m.sqrt(NormSquared(b))
  }

  /** `k` times every component. */
  function Scale(k: real, b: BivectorBoost): BivectorBoost {
    BivectorBoost(k * b.iI, k * b.iJ, k * b.iK)
  }

  /** Scaling every component by `k` scales the squared norm by k^2. */
  lemma NormSquaredScale(b: BivectorBoost, k: real)
    ensures NormSquared(Scale(k, b)) == k * k * NormSquared(b)
  {
    var c := Scale(k, b);
    NormSquaredSum(b);
    NormSquaredSum(c);
    hide NormSquared;
    SumOfScaledSquares(k, b.iI, b.iJ, b.iK);
  }

  /** `norm_squared` is the plain sum of the three squares. */
  lemma NormSquaredSum(b: BivectorBoost)
    ensures NormSquared(b) == b.iI * b.iI + (b.iJ * b.iJ + b.iK * b.iK)
  {
  }

  /** (k x)^2 + (k y)^2 + (k z)^2 = k^2 (x^2 + y^2 + z^2). */
  lemma SumOfScaledSquares(k: real, x: real, y: real, z: real)
    ensures (k * x) * (k * x) + ((k * y) * (k * y) + (k * z) * (k * z))
         == k * k * (x * x + (y * y + z * z))
  {
    var kk := k * k;
    assert (k * x) * (k * x) == kk * (x * x);
    assert (k * y) * (k * y) == kk * (y * y);
    assert (k * z) * (k * z) == kk * (z * z);
  }

  /** Scaling every component by `k` scales the norm by |k|. */
  lemma NormScale(m: RealFns, b: BivectorBoost, k: real)
    requires Lawful(m)
    ensures Norm(m, Scale(k, b)) == Abs(k) * Norm(m, b)
  {
    hide Norm, NormSquared, Scale, Lawful, Abs;
    var c := Scale(k, b);
    var n := Norm(m, b);
    var ak := Abs(k);
    NormSquaredScale(b, k);
    RootOfScaledSquare(Norm(m, c), n, ak, k, NormSquared(b));
  }

  /**
   * `exp`: (1, 0, 0, 0) for the zero bivector; otherwise cosh of the norm phi
   * and every component scaled by sinh(phi) / phi.
   */
  function Exp(m: RealFns, b: BivectorBoost): (r: ExpBoost)
    requires Lawful(m)
    ensures b == ZeroBoost ==> r == ExpBoost(1.0, 0.0, 0.0, 0.0)
    ensures b != ZeroBoost ==> r.scalar == m.cosh(Norm(m, b))
  {
    if Norm(m, b) == 0.0 then ExpBoost(1.0, 0.0, 0.0, 0.0)
    else
      ExpBoost(m.cosh(Norm(m, b)),
               b.iI * (m.sinh(Norm(m, b)) / Norm(m, b)),
               b.iJ * (m.sinh(Norm(m, b)) / Norm(m, b)),
               b.iK * (m.sinh(Norm(m, b)) / Norm(m, b)))
  }

  /** The bivector part of an exponential. */
  function BivectorPart(e: ExpBoost): BivectorBoost {
    BivectorBoost(e.iI, e.iJ, e.iK)
  }

  /**
   * The exponential keeps the bivector's direction: its bivector part is the
   * input scaled by one common factor, so every cross product vanishes.
   */
  lemma ExpKeepsDirection(m: RealFns, b: BivectorBoost)
    requires Lawful(m)
    ensures var e := Exp(m, b);
            e.iI * b.iJ == e.iJ * b.iI && e.iJ * b.iK == e.iK * b.iJ && e.iK * b.iI == e.iI * b.iK
  {
  }

  /** If n2 = s^2 and k s = phi then k^2 n2 = phi^2. */
  lemma ScaledSquareNorm(k: real, n2: real, s: real, phi: real)
    requires n2 == s * s && k * s == phi
    ensures k * k * n2 == phi * phi
  {
    assert k * k * (s * s) == (k * s) * (k * s);
  }

  /** The bivector part of a nonzero bivector's exponential is the bivector scaled by sinh(phi) / phi. */
  lemma ExpBivectorPart(m: RealFns, b: BivectorBoost)
    requires Lawful(m)
    requires b != ZeroBoost
    ensures BivectorPart(Exp(m, b)) == Scale(m.sinh(Norm(m, b)) / Norm(m, b), b)
  {
  }

  /**
   * The exponential is a unit hyperbolic versor: scalar^2 minus the squared
   * norm of its bivector part is 1.
   */
  lemma ExpIsUnit(m: RealFns, b: BivectorBoost)
    requires Lawful(m)
    ensures Exp(m, b).scalar * Exp(m, b).scalar - NormSquared(BivectorPart(Exp(m, b))) == 1.0
  {
    if b != ZeroBoost {
      var phi := Norm(m, b);
      var k := m.sinh(phi) / phi;
      ExpBivectorPart(m, b);
      NormSquaredScale(b, k);
      ScaledSquareNorm(k, NormSquared(b), phi, m.sinh(phi));
      assert m.cosh(phi) * m.cosh(phi) - m.sinh(phi) * m.sinh(phi) == 1.0;
    }
  }

  /** The squared speed vx^2 + vy^2 + vz^2 of a velocity. */
  function SpeedSquared(vx: real, vy: real, vz: real): real {
    vx * vx + vy * vy + vz * vz
  }

  /** The speed |v| = sqrt(vx^2 + vy^2 + vz^2) of a velocity. */
  function Speed(m: RealFns, vx: real, vy: real, vz: real): real {
    m.sqrt(SpeedSquared(vx, vy, vz))
  }

  /**
   * `from_velocity`: each component is atanh(|v|) times the velocity component
   * over |v|. A zero velocity divides zero by zero in the source, so it is
   * excluded.
   */
  function FromVelocity(m: RealFns, vx: real, vy: real, vz: real): (r: BivectorBoost)
    requires Lawful(m)
    requires SpeedSquared(vx, vy, vz) > 0.0
    ensures Speed(m, vx, vy, vz) > 0.0
    ensures r == Scale(m.atanh(Speed(m, vx, vy, vz)) / Speed(m, vx, vy, vz), BivectorBoost(vx, vy, vz))
  {
    SqrtPositive(m, SpeedSquared(vx, vy, vz));
    var s := Speed(m, vx, vy, vz);
    var a := m.atanh(s);
    DivideEach(a, s, vx, vy, vz);
    BivectorBoost(a * vx / s, a * vy / s, a * vz / s)
  }

  /** Dividing each of a vx, a vy, a vz by s is scaling (vx, vy, vz) by a / s. */
  lemma DivideEach(a: real, s: real, vx: real, vy: real, vz: real)
    requires s != 0.0
    ensures BivectorBoost(a * vx / s, a * vy / s, a * vz / s) == Scale(a / s, BivectorBoost(vx, vy, vz))
  {
    DivideLater(a, vx, s);
    DivideLater(a, vy, s);
    DivideLater(a, vz, s);
  }

  /** a x / s = (a / s) x. */
  lemma DivideLater(a: real, x: real, s: real)
    requires s != 0.0
    ensures a * x / s == (a / s) * x
  {
  }

  /** The velocity's bivector has squared norm atanh(|v|)^2. */
  lemma FromVelocityNorm(m: RealFns, vx: real, vy: real, vz: real)
    requires Lawful(m)
    requires SpeedSquared(vx, vy, vz) > 0.0
    ensures NormSquared(FromVelocity(m, vx, vy, vz))
         == m.atanh(Speed(m, vx, vy, vz)) * m.atanh(Speed(m, vx, vy, vz))
  {
    var s := Speed(m, vx, vy, vz);
    var b := BivectorBoost(vx, vy, vz);
    SqrtPositive(m, SpeedSquared(vx, vy, vz));
    var k := m.atanh(s) / s;
    NormSquaredScale(b, k);
    assert NormSquared(b) == SpeedSquared(vx, vy, vz) == s * s;
    ScaledSquareNorm(k, NormSquared(b), s, m.atanh(s));
  }
}
