/**
 * Spacetime four-vectors of src/math/spacetime.rs: a time component `t` and
 * three space components, the Minkowski norm with signature (-+++), the
 * exponential of a boost, the quadratic Lorentz map driven by such an
 * exponential, and the conversions between velocities, rapidities and
 * momenta.
 *
 * The conversions use `length_squared` where a length would be expected, so
 * the "direction" `v / |v|^2` they build is not a unit vector; the model keeps
 * that behaviour and states its consequences.
 */
module SpacetimeAlgebra {

  import opened RealMath
  import V = Vectors

  /** Tolerance of `fuzzy_compare`. */
  const Epsilon: real := 0.0000000001

  /** `fuzzy_compare` on two numbers: they differ by less than 1e-10. */
  function FuzzyCompare(a: real, b: real): (r: bool)
    ensures r <==> -Epsilon < a - b < Epsilon
  {
    Abs(a - b) < Epsilon
  }

  lemma FuzzyCompareReflexiveSymmetric(a: real, b: real)
    ensures FuzzyCompare(a, a)
    ensures FuzzyCompare(a, b) == FuzzyCompare(b, a)
  {
  }

  datatype Spacetime = Spacetime(t: real, x: real, y: real, z: real)

  /** The space part as a vector. */
  function Spatial(s: Spacetime): V.Vec3 {
    V.Vec3(s.x, s.y, s.z)
  }

  // ---------------------------------------------------------------------
  // Constructors and setters
  // ---------------------------------------------------------------------

  function FromT(t: real): (s: Spacetime)
    ensures s.t == t && Spatial(s) == V.Zero
  {
    Spacetime(t, 0.0, 0.0, 0.0)
  }

  function FromVector3(v: V.Vec3): (s: Spacetime)
    ensures s.t == 0.0 && Spatial(s) == v
  {
    Spacetime(0.0, v.x, v.y, v.z)
  }

  /** The four components in index order t, x, y, z. */
  function ToArray(s: Spacetime): (a: seq<real>)
    ensures |a| == 4
  {
    [s.t, s.x, s.y, s.z]
  }

  /** `from_array`: the first four elements; fewer than four panics in the source. */
  function FromArray(a: seq<real>): (s: Spacetime)
    requires |a| >= 4
    ensures ToArray(s) == a[..4]
  {
    Spacetime(a[0], a[1], a[2], a[3])
  }

  /** `from_array_index`: four consecutive elements starting at `index`. */
  function FromArrayIndex(a: seq<real>, index: nat): (s: Spacetime)
    requires |a| >= index + 4
    ensures ToArray(s) == a[index..index + 4]
  {
    Spacetime(a[index], a[index + 1], a[index + 2], a[index + 3])
  }

  /** Reading a four-vector back from its array form gives it back. */
  lemma ArrayRoundTrip(s: Spacetime, prefix: seq<real>, suffix: seq<real>)
    ensures FromArray(ToArray(s) + suffix) == s
    ensures FromArrayIndex(prefix + ToArray(s) + suffix, |prefix|) == s
  {
    var a := prefix + ToArray(s) + suffix;
    assert a[|prefix|..|prefix| + 4] == ToArray(s);
  }

  /** `from_array_index` at `index` is `from_array` of the slice from `index`. */
  lemma FromArrayIndexIsShift(a: seq<real>, index: nat)
    requires |a| >= index + 4
    ensures FromArrayIndex(a, index) == FromArray(a[index..])
  {
  }

  /** `set_values`: every component is overwritten, so the old value plays no part. */
  function SetValues(self: Spacetime, t: real, x: real, y: real, z: real): (r: Spacetime)
    ensures ToArray(r) == [t, x, y, z]
  {
    Spacetime(t, x, y, z)
  }

  /** `set_t_only`: sets `t` and zeroes the space part. */
  function SetTOnly(self: Spacetime, t: real): (r: Spacetime)
    ensures r == FromT(t)
  {
    Spacetime(t, 0.0, 0.0, 0.0)
  }

  /** `set_from_array`: the same four values `from_array` reads. */
  function SetFromArray(self: Spacetime, a: seq<real>): (r: Spacetime)
    requires |a| >= 4
    ensures r == FromArray(a)
  {
    Spacetime(a[0], a[1], a[2], a[3])
  }

  /** `set_from_array_index`: the same four values `from_array_index` reads. */
  function SetFromArrayIndex(self: Spacetime, a: seq<real>, index: nat): (r: Spacetime)
    requires |a| >= index + 4
    ensures r == FromArrayIndex(a, index)
  {
    Spacetime(a[index], a[index + 1], a[index + 2], a[index + 3])
  }

  function Zero(): Spacetime {
    Spacetime(0.0, 0.0, 0.0, 0.0)
  }

  function Identity(): Spacetime {
    Spacetime(1.0, 0.0, 0.0, 0.0)
  }

  // ---------------------------------------------------------------------
  // Indexed access
  // ---------------------------------------------------------------------

  /** `get`: 0, 1, 2, 3 name t, x, y, z; any other index panics in the source. */
  function Get(s: Spacetime, i: nat): (r: real)
    requires i < 4
    ensures r == ToArray(s)[i]
  {
    match i
    case 0 => s.t
    case 1 => s.x
    case 2 => s.y
    case _ => s.z
  }

  /** A write through `get_mut`: component `i` becomes `value`. */
  function SetComponent(s: Spacetime, i: nat, value: real): (r: Spacetime)
    requires i < 4
    ensures Get(r, i) == value
    ensures forall k :: 0 <= k < 4 && k != i ==> Get(r, k) == Get(s, k)
  {
    match i
    case 0 => s.(t := value)
    case 1 => s.(x := value)
    case 2 => s.(y := value)
    case _ => s.(z := value)
  }

  /** Two four-vectors are equal exactly when `get` agrees on every index. */
  lemma GetExtensional(s: Spacetime, u: Spacetime)
    ensures s == u <==> forall k :: 0 <= k < 4 ==> Get(s, k) == Get(u, k)
  {
    if forall k :: 0 <= k < 4 ==> Get(s, k) == Get(u, k) {
      assert Get(s, 0) == Get(u, 0) && Get(s, 1) == Get(u, 1);
      assert Get(s, 2) == Get(u, 2) && Get(s, 3) == Get(u, 3);
    }
  }

  /** `Spacetime::fuzzy_compare`: every component is within the tolerance. */
  function FuzzyCompareSpacetime(self: Spacetime, a: Spacetime): (r: bool)
    ensures r <==> forall k :: 0 <= k < 4 ==> FuzzyCompare(Get(self, k), Get(a, k))
  {
    assert Get(self, 0) == self.t && Get(self, 1) == self.x && Get(self, 2) == self.y && Get(self, 3) == self.z;
    assert Get(a, 0) == a.t && Get(a, 1) == a.x && Get(a, 2) == a.y && Get(a, 3) == a.z;
    FuzzyCompare(self.t, a.t) && FuzzyCompare(self.x, a.x) && FuzzyCompare(self.y, a.y) && FuzzyCompare(self.z, a.z)
  }

  lemma FuzzyCompareSpacetimeReflexiveSymmetric(s: Spacetime, u: Spacetime)
    ensures FuzzyCompareSpacetime(s, s)
    ensures FuzzyCompareSpacetime(s, u) == FuzzyCompareSpacetime(u, s)
  {
  }

  /** Writing back the value just read changes nothing. */
  lemma SetComponentOfGet(s: Spacetime, i: nat)
    requires i < 4
    ensures SetComponent(s, i, Get(s, i)) == s
  {
    GetExtensional(SetComponent(s, i, Get(s, i)), s);
  }

  // ---------------------------------------------------------------------
  // Norm, conjugation, absolute value and argument
  // ---------------------------------------------------------------------

  /**
   * `norm`: the Minkowski square with signature (-+++). A vector with no time
   * part is never timelike, and one with no space part is never spacelike.
   */
  function Norm(s: Spacetime): (r: real)
    ensures s.t == 0.0 ==> r >= 0.0
    ensures Spatial(s) == V.Zero ==> r <= 0.0
  {
    s.x * s.x + s.y * s.y + s.z * s.z - s.t * s.t
  }

  /** The values the repository's tests pin down. */
  lemma NormOfZeroAndIdentity()
    ensures Norm(Zero()) == 0.0
    ensures Norm(Identity()) == -1.0
  {
  }

  /** The norm of the repository's sample vector (1, 2, 3, 4): -1 + 4 + 9 + 16. */
  lemma NormExample()
    ensures Norm(Spacetime(1.0, 2.0, 3.0, 4.0)) == 28.0
  {
  }

  /** `conjugated`: negates the time component only. */
  function Conjugated(s: Spacetime): (r: Spacetime)
    ensures r.t == -s.t && Spatial(r) == Spatial(s)
  {
    Spacetime(-s.t, s.x, s.y, s.z)
  }

  lemma ConjugatedInvolution(s: Spacetime)
    ensures Conjugated(Conjugated(s)) == s
    ensures Norm(Conjugated(s)) == Norm(s)
    ensures Conjugated(Spacetime(1.0, 2.0, 3.0, 4.0)) == Spacetime(-1.0, 2.0, 3.0, 4.0)
  {
  }

  /** `abs`: the square root of the absolute value of the norm. */
  function AbsValue(m: RealFns, s: Spacetime): (r: real)
    requires Lawful(m)
    ensures r >= 0.0 && r * r == Abs(Norm(s))
  {
    m.sqrt(Abs(Norm(s)))
  }

  /** `arg`: atanh of the spatial length over the time component. */
  function Arg(m: RealFns, s: Spacetime): (r: real)
    requires s.t != 0.0
  {
    m.atanh(m.sqrt(V.LengthSquared(Spatial(s))) / s.t)
  }

  /** A vector at rest has argument zero, and the argument only sees the spatial length. */
  lemma ArgOfRest(m: RealFns, s: Spacetime)
    requires Lawful(m)
    requires s.t != 0.0
    ensures Spatial(s) == V.Zero ==> Arg(m, s) == 0.0
  {
    if Spatial(s) == V.Zero {
      assert V.LengthSquared(Spatial(s)) == 0.0;
      SqrtZeroIff(m, 0.0);
      assert 0.0 / s.t == 0.0;
    }
  }

  /** The repository's second sample: (2, 1, 0, 0) has argument atanh(1 / 2). */
  lemma ArgExample(m: RealFns)
    requires Lawful(m)
    ensures Arg(m, Spacetime(2.0, 1.0, 0.0, 0.0)) == m.atanh(0.5)
  {
    SqrtOfSquare(m, 1.0);
    assert V.LengthSquared(V.Vec3(1.0, 0.0, 0.0)) == 1.0 * 1.0;
  }

  /**
   * For a timelike vector (norm < 0) the ratio |x| / t lies in (-1, 1), so
   * `arg` is defined and is the rapidity whose tanh is that ratio.
   */
  lemma ArgOfTimelike(m: RealFns, s: Spacetime)
    requires Lawful(m) && HyperbolicInverse(m)
    requires Norm(s) < 0.0
    ensures s.t != 0.0
    ensures InAtanhDomain(m.sqrt(V.LengthSquared(Spatial(s))) / s.t)
    ensures m.tanh(Arg(m, s)) == m.sqrt(V.LengthSquared(Spatial(s))) / s.t
  {
    hide Lawful, HyperbolicInverse;
    var l := V.LengthSquared(Spatial(s));
    assert Norm(s) == l - s.t * s.t;
    SqrtFacts(m, l);
    var r := m.sqrt(l);
    SpatialRatioInRange(r, l, s.t);
    assert Arg(m, s) == m.atanh(r / s.t);
    TanhOfAtanh(m, r / s.t);
  }

  /** With r >= 0, r^2 = l and l < t^2: -1 < r / t < 1. */
  lemma SpatialRatioInRange(r: real, l: real, t: real)
    requires r >= 0.0 && r * r == l && l < t * t
    ensures t != 0.0
    ensures -1.0 < r / t < 1.0
  {
    var a := if t < 0.0 then -t else t;
    assert a * a == t * t;
    assert r < a;
    QuotientBelowOne(r, a);
    if t < 0.0 {
      assert r / t == -(r / a);
    }
  }

  /** 0 <= r < a gives 0 <= r / a < 1. */
  lemma QuotientBelowOne(r: real, a: real)
    requires 0.0 <= r < a
    ensures 0.0 <= r / a < 1.0
  {
  }

  // ---------------------------------------------------------------------
  // Exponentials
  // ---------------------------------------------------------------------

  /** `exp(a, v)`: cosh a in time, v scaled by sinh a in space. */
  function Exp(m: RealFns, a: real, v: V.Vec3): (r: Spacetime)
    ensures r.t == m.cosh(a)
    ensures Spatial(r) == V.Scale(m.sinh(a), v)
  {
    Spacetime(m.cosh(a), v.x * m.sinh(a), v.y * m.sinh(a), v.z * m.sinh(a))
  }

  /** `exp_versor(x, y, z, a)`: the same exponential with the direction given by components. */
  function ExpVersor(m: RealFns, x: real, y: real, z: real, a: real): (r: Spacetime)
    ensures r == Exp(m, a, V.Vec3(x, y, z))
  {
    var s := m.sinh(a);
    Spacetime(m.cosh(a), x * s, y * s, z * s)
  }

  /**
   * The norm of an exponential: -1 exactly for a unit direction or a zero
   * angle, and in general sinh(a)^2 (|v|^2 - 1) - 1.
   */
  lemma ExpNorm(m: RealFns, a: real, v: V.Vec3)
    requires Lawful(m)
    ensures Norm(Exp(m, a, v)) == m.sinh(a) * m.sinh(a) * (V.LengthSquared(v) - 1.0) - 1.0
    ensures V.LengthSquared(v) == 1.0 ==> Norm(Exp(m, a, v)) == -1.0
    ensures Exp(m, 0.0, v) == Identity()
  {
    var sh := m.sinh(a);
    var ch := m.cosh(a);
    assert ch * ch - sh * sh == 1.0;
    V.LengthSquaredScale(sh, v);
    assert V.LengthSquared(V.Scale(sh, v)) == sh * sh * V.LengthSquared(v);
  }

  // ---------------------------------------------------------------------
  // The quadratic Lorentz map
  // ---------------------------------------------------------------------

  /**
   * `lorentz_transformation` as the source writes it: `self` is transformed by
   * the versor g = (p, q, r, s). The spatial rows subtract the cross terms
   * where the sandwich product adds them; see `LorentzBoost`.
   */
  function LorentzTransformation(self: Spacetime, g: Spacetime): (r: Spacetime)
    ensures r.t == LorentzBoost(self, g).t
    ensures TimeVersor(g) ==> r == TimeScaled(g.t * g.t, self)
  {
    var p := g.t;
    var q := g.x;
    var r := g.y;
    var s := g.z;
    var w := self.t;
    var x := self.x;
    var y := self.y;
    var z := self.z;
    Spacetime(
      (p * p + q * q + r * r + s * s) * w + 2.0 * p * (q * x + r * y + s * z),
      (p * p + q * q - r * r - s * s) * x + 2.0 * q * (p * w - r * y - s * z),
      (p * p - q * q + r * r - s * s) * y + 2.0 * r * (p * w - q * x - s * z),
      (p * p - q * q - r * r + s * s) * z + 2.0 * s * (p * w - q * x - r * y))
  }

  /** A versor with no space part. */
  predicate TimeVersor(g: Spacetime) {
    Spatial(g) == V.Zero
  }

  /** `k` times all four components. */
  function TimeScaled(k: real, s: Spacetime): Spacetime {
    Spacetime(k * s.t, k * s.x, k * s.y, k * s.z)
  }

  /** The identity versor leaves every vector unchanged (the repository's test). */
  lemma LorentzTransformationIdentity(v: Spacetime)
    ensures LorentzTransformation(v, Identity()) == v
    ensures LorentzTransformation(Identity(), Identity()) == Identity()
  {
  }

  /** A versor of norm -1 (p^2 - q^2 - r^2 - s^2 = 1) with two nonzero space components. */
  const SkewVersor: Spacetime := Spacetime(3.0, 2.0, 2.0, 0.0)

  /** A spacelike vector of norm 2. */
  const SkewVector: Spacetime := Spacetime(0.0, 1.0, 1.0, 0.0)

  /** The map as written sends `SkewVector` to (24, 1, 1, 0). */
  lemma LorentzTransformationOfSkew()
    ensures LorentzTransformation(SkewVector, SkewVersor) == Spacetime(24.0, 1.0, 1.0, 0.0)
  {
  }

  lemma SkewNorms()
    ensures Norm(SkewVersor) == -1.0
    ensures Norm(SkewVector) == 2.0
  {
  }

  /**
   * As written the map is not a Lorentz map: `SkewVersor` has norm -1, yet
   * `SkewVector` of norm 2 goes to a vector of norm -574.
   */
  lemma LorentzTransformationBreaksNorm()
    ensures Norm(SkewVersor) == -1.0
    ensures Norm(LorentzTransformation(SkewVector, SkewVersor)) == -574.0
    ensures Norm(LorentzTransformation(SkewVector, SkewVersor)) != Norm(SkewVector)
  {
    hide LorentzTransformation, LorentzBoost;
    LorentzTransformationOfSkew();
    SkewNorms();
    assert Norm(Spacetime(24.0, 1.0, 1.0, 0.0)) == -574.0;
  }

  /**
   * The Lorentz map the sandwich product of the versor g = (p, u) gives, with
   * the cross terms added: with A = p^2 - |u|^2 and e = p w + u.x the space
   * part is A x + 2 e u and the time part (p^2 + |u|^2) w + 2 p u.x.
   */
  function LorentzBoost(self: Spacetime, g: Spacetime): (r: Spacetime)
    ensures TimeVersor(g) ==> r == TimeScaled(g.t * g.t, self)
  {
    var p := g.t;
    var q := g.x;
    var r := g.y;
    var s := g.z;
    var w := self.t;
    var x := self.x;
    var y := self.y;
    var z := self.z;
    Spacetime(
      (p * p + q * q + r * r + s * s) * w + 2.0 * p * (q * x + r * y + s * z),
      (p * p + q * q - r * r - s * s) * x + 2.0 * q * (p * w + r * y + s * z),
      (p * p - q * q + r * r - s * s) * y + 2.0 * r * (p * w + q * x + s * z),
      (p * p - q * q - r * r + s * s) * z + 2.0 * s * (p * w + q * x + r * y))
  }

  /** The corrected map in vector form. */
  lemma LorentzBoostVectorForm(v: Spacetime, g: Spacetime)
    ensures LorentzBoost(v, g).t == (g.t * g.t + V.LengthSquared(Spatial(g))) * v.t
                                    + 2.0 * g.t * V.Dot(Spatial(g), Spatial(v))
    ensures Spatial(LorentzBoost(v, g))
         == V.Add(V.Scale(-Norm(g), Spatial(v)),
                  V.Scale(2.0 * (g.t * v.t + V.Dot(Spatial(g), Spatial(v))), Spatial(g)))
  {
    hide TimeVersor;
  }

  /** |a k + b u|^2 expanded. */
  lemma LengthSquaredCombination(a: real, k: V.Vec3, b: real, u: V.Vec3, k2: real, u2: real, d: real)
    requires k2 == V.LengthSquared(k) && u2 == V.LengthSquared(u) && d == V.Dot(u, k)
    ensures V.LengthSquared(V.Add(V.Scale(a, k), V.Scale(b, u))) == a * a * k2 + 2.0 * a * b * d + b * b * u2
  {
  }

  /**
   * The scalar identity behind norm scaling: with A = p^2 - U, B = p^2 + U and
   * e = p w + d, A^2 X + 4 A e d + 4 e^2 U - t^2 = A^2 n for t = B w + 2 p d
   * and n = X - w^2.
   */
  lemma BoostIdentity(p: real, u2: real, w: real, d: real, x2: real, a: real, b: real, e: real, t: real, n: real)
    requires a == p * p - u2 && b == p * p + u2 && e == p * w + d
    requires t == b * w + 2.0 * p * d && n == x2 - w * w
    ensures a * a * x2 + 4.0 * a * e * d + 4.0 * e * e * u2 - t * t == a * a * n
  {
    assert b * b - 4.0 * p * p * u2 == a * a;
    assert 4.0 * a * e * d == 4.0 * a * p * w * d + 4.0 * a * d * d;
    assert 4.0 * e * e * u2 == 4.0 * u2 * p * p * w * w + 8.0 * u2 * p * w * d + 4.0 * u2 * d * d;
    assert t * t == b * b * w * w + 4.0 * b * p * w * d + 4.0 * p * p * d * d;
    // The d^2 terms cancel: 4 A + 4 U - 4 p^2 = 0.
    assert 4.0 * a * d * d + 4.0 * u2 * d * d - 4.0 * p * p * d * d == 0.0;
    // The p w d terms cancel: 4 A + 8 U - 4 B = 0.
    assert 4.0 * a * p * w * d + 8.0 * u2 * p * w * d - 4.0 * b * p * w * d == 0.0;
  }

  /**
   * The corrected map scales the norm by the square of the versor's norm, so a
   * versor of norm -1 (p^2 - q^2 - r^2 - s^2 = 1) preserves it.
   */
  lemma LorentzBoostScalesNorm(v: Spacetime, g: Spacetime)
    ensures Norm(LorentzBoost(v, g)) == Norm(g) * Norm(g) * Norm(v)
    ensures Norm(g) == -1.0 ==> Norm(LorentzBoost(v, g)) == Norm(v)
  {
    hide LorentzBoost;
    var res := LorentzBoost(v, g);
    var p := g.t;
    var w := v.t;
    var u2 := V.LengthSquared(Spatial(g));
    var x2 := V.LengthSquared(Spatial(v));
    var d := V.Dot(Spatial(g), Spatial(v));
    var a := p * p - u2;
    var b := p * p + u2;
    var e := p * w + d;
    BoostTimePart(v, g, p, w, u2, d, b);
    BoostSpatialPart(v, g, p, w, u2, x2, d, a, e);
    NormFromParts(res, v, g, p, w, u2, x2, d, a, b, e);
  }

  /** The norm of a four-vector whose time part and squared space part are those of the corrected map. */
  lemma NormFromParts(res: Spacetime, v: Spacetime, g: Spacetime,
                      p: real, w: real, u2: real, x2: real, d: real, a: real, b: real, e: real)
    requires p == g.t && w == v.t
    requires u2 == V.LengthSquared(Spatial(g)) && x2 == V.LengthSquared(Spatial(v))
    requires a == p * p - u2 && b == p * p + u2 && e == p * w + d
    requires res.t == b * w + 2.0 * p * d
    requires V.LengthSquared(Spatial(res)) == a * a * x2 + 4.0 * a * e * d + 4.0 * e * e * u2
    ensures Norm(res) == Norm(g) * Norm(g) * Norm(v)
    ensures Norm(g) == -1.0 ==> Norm(res) == Norm(v)
  {
    NormScaling(p, u2, w, d, x2, a, b, e, res.t, V.LengthSquared(Spatial(res)), Norm(res), Norm(g), Norm(v));
  }

  /**
   * The scalar core of `NormFromParts`: with t and s2 the time part and squared
   * space part of the image, its norm s2 - t^2 is norm(g)^2 times x2 - w^2.
   */
  lemma NormScaling(p: real, u2: real, w: real, d: real, x2: real, a: real, b: real, e: real,
                    t: real, s2: real, nr: real, ng: real, nv: real)
    requires a == p * p - u2 && b == p * p + u2 && e == p * w + d
    requires t == b * w + 2.0 * p * d && s2 == a * a * x2 + 4.0 * a * e * d + 4.0 * e * e * u2
    requires nr == s2 - t * t && nv == x2 - w * w && ng == -a
    ensures nr == ng * ng * nv
    ensures ng == -1.0 ==> nr == nv
  {
    BoostIdentity(p, u2, w, d, x2, a, b, e, t, nv);
    OppositeFactor(nr, a, ng, nv);
  }

  /** The time part of the corrected map, in terms of p, w, U = |u|^2 and d = u.k. */
  lemma BoostTimePart(v: Spacetime, g: Spacetime, p: real, w: real, u2: real, d: real, b: real)
    requires p == g.t && w == v.t
    requires u2 == V.LengthSquared(Spatial(g)) && d == V.Dot(Spatial(g), Spatial(v))
    requires b == p * p + u2
    ensures LorentzBoost(v, g).t == b * w + 2.0 * p * d
  {
    LorentzBoostVectorForm(v, g);
  }

  /** The squared space part of the corrected map, in terms of A = -Norm(g), X = |k|^2, U, d and e = p w + d. */
  lemma BoostSpatialPart(v: Spacetime, g: Spacetime, p: real, w: real, u2: real, x2: real, d: real, a: real, e: real)
    requires p == g.t && w == v.t
    requires u2 == V.LengthSquared(Spatial(g)) && x2 == V.LengthSquared(Spatial(v))
    requires d == V.Dot(Spatial(g), Spatial(v))
    requires a == p * p - u2 && e == p * w + d
    ensures V.LengthSquared(Spatial(LorentzBoost(v, g))) == a * a * x2 + 4.0 * a * e * d + 4.0 * e * e * u2
  {
    BoostSpatialForm(v, g, a, e);
    hide LorentzBoost;
    LengthSquaredCombination(a, Spatial(v), 2.0 * e, Spatial(g), x2, u2, d);
    DoubledCross(a, e, x2, u2, d);
  }

  /** The space part of the corrected map is A k + 2 e u, with A = p^2 - |u|^2 and e = p w + u.k. */
  lemma BoostSpatialForm(v: Spacetime, g: Spacetime, a: real, e: real)
    requires a == g.t * g.t - V.LengthSquared(Spatial(g))
    requires e == g.t * v.t + V.Dot(Spatial(g), Spatial(v))
    ensures Spatial(LorentzBoost(v, g)) == V.Add(V.Scale(a, Spatial(v)), V.Scale(2.0 * e, Spatial(g)))
  {
    hide TimeVersor;
  }

  /** The expansion of |a k + 2e u|^2 with the factors of 2 collected. */
  lemma DoubledCross(a: real, e: real, x2: real, u2: real, d: real)
    ensures a * a * x2 + 2.0 * a * (2.0 * e) * d + (2.0 * e) * (2.0 * e) * u2
         == a * a * x2 + 4.0 * a * e * d + 4.0 * e * e * u2
  {
  }

  /** With r = a^2 n and c = -a: r = c^2 n. */
  lemma OppositeFactor(r: real, a: real, c: real, n: real)
    requires r == a * a * n && c == -a
    ensures r == c * c * n
  {
  }

  /** The corrected map also leaves every vector unchanged under the identity versor. */
  lemma LorentzBoostIdentity(v: Spacetime)
    ensures LorentzBoost(v, Identity()) == v
  {
  }

  /** The two maps agree on a versor with at most one nonzero space component. */
  lemma LorentzTransformationAgreesOnAxes(v: Spacetime, g: Spacetime)
    requires (g.y == 0.0 && g.z == 0.0) || (g.x == 0.0 && g.z == 0.0) || (g.x == 0.0 && g.y == 0.0)
    ensures LorentzTransformation(v, g) == LorentzBoost(v, g)
  {
    if g.y == 0.0 && g.z == 0.0 {
      assert g == Spacetime(g.t, g.x, 0.0, 0.0);
    } else if g.x == 0.0 && g.z == 0.0 {
      assert g == Spacetime(g.t, 0.0, g.y, 0.0);
    } else {
      assert g == Spacetime(g.t, 0.0, 0.0, g.z);
    }
  }

  // ---------------------------------------------------------------------
  // Velocities, rapidities and momenta
  // ---------------------------------------------------------------------

  /**
   * `velocities`: with a = |angle|^2, zero for a zero angle and otherwise the
   * angle scaled by tanh(a) c / a.
   */
  function Velocities(m: RealFns, versorAngle: V.Vec3, speedOfLight: real): (r: V.Vec3)
    ensures versorAngle == V.Zero ==> r == V.Zero
    ensures versorAngle != V.Zero ==>
      r == V.Scale(m.tanh(V.LengthSquared(versorAngle)) * speedOfLight / V.LengthSquared(versorAngle), versorAngle)
  {
    if V.LengthSquared(versorAngle) == 0.0 then V.Zero
    else
      V.Scale(m.tanh(V.LengthSquared(versorAngle)) * speedOfLight / V.LengthSquared(versorAngle), versorAngle)
  }

  /**
   * Because `length_squared` stands in for the length, the speed of the result
   * satisfies |r|^2 = (tanh(|a|^2) c)^2 / |a|^2 rather than |r| = tanh(|a|) c.
   */
  lemma VelocitiesSpeed(m: RealFns, versorAngle: V.Vec3, speedOfLight: real)
    requires versorAngle != V.Zero
    ensures var a := V.LengthSquared(versorAngle);
            var tc := m.tanh(a) * speedOfLight;
            V.LengthSquared(Velocities(m, versorAngle, speedOfLight)) == tc * tc / a
  {
    var a := V.LengthSquared(versorAngle);
    var k := m.tanh(a) * speedOfLight / a;
    V.LengthSquaredScale(k, versorAngle);
    QuotientSquare(m.tanh(a) * speedOfLight, a);
  }

  /** (n / a)^2 a = n^2 / a for a positive `a`. */
  lemma QuotientSquare(n: real, a: real)
    requires a > 0.0
    ensures (n / a) * (n / a) * a == n * n / a
  {
    var k := n / a;
    assert k * a == n;
    assert k * k * a * a == n * n;
  }

  /** The argument l / c the velocity conversions hand to atanh, with l = |v|^2. */
  function RapidityArgument(v: V.Vec3, speedOfLightInv: real): real {
    V.LengthSquared(v) * speedOfLightInv
  }

  /** The rapidity atanh(l / c) the velocity conversions compute, with l = |v|^2. */
  function Rapidity(m: RealFns, v: V.Vec3, speedOfLightInv: real): real {
    m.atanh(RapidityArgument(v, speedOfLightInv))
  }

  /** `f64::atanh` is defined (not NaN) exactly on the open interval (-1, 1). */
  predicate InAtanhDomain(y: real) {
    -1.0 < y < 1.0
  }

  /** A velocity strictly below the speed of light c > 0: |v|^2 < c^2. */
  predicate BelowLightSpeed(v: V.Vec3, speedOfLight: real) {
    speedOfLight > 0.0 && V.LengthSquared(v) < speedOfLight * speedOfLight
  }

  /**
   * `rapidity_vector`: with l = |v|^2, zero for zero velocity and otherwise v
   * scaled by atanh(l / c) / l.
   */
  function RapidityVector(m: RealFns, v: V.Vec3, speedOfLightInv: real): (r: V.Vec3)
    ensures v == V.Zero ==> r == V.Zero
    ensures v != V.Zero ==>
      r == V.Scale(Rapidity(m, v, speedOfLightInv) / V.LengthSquared(v), v)
  {
    if V.LengthSquared(v) == 0.0 then V.Zero
    else V.Scale(Rapidity(m, v, speedOfLightInv) / V.LengthSquared(v), v)
  }

  /** The rapidity vector's squared length is atanh(l / c)^2 / l, again with l = |v|^2. */
  lemma RapidityVectorLength(m: RealFns, v: V.Vec3, speedOfLightInv: real)
    requires v != V.Zero
    ensures V.LengthSquared(RapidityVector(m, v, speedOfLightInv))
         == Rapidity(m, v, speedOfLightInv) * Rapidity(m, v, speedOfLightInv) / V.LengthSquared(v)
  {
    var l := V.LengthSquared(v);
    var a := Rapidity(m, v, speedOfLightInv);
    V.LengthSquaredScale(a / l, v);
    QuotientSquare(a, l);
  }

  /**
   * The factor by which the two conversions as written scale a velocity:
   * tanh(a^2 / l) c / a, for the rapidity a and l = |v|^2.
   */
  function AsWrittenFactor(m: RealFns, a: real, l: real, speedOfLight: real): real
    requires a != 0.0 && l != 0.0
  {
    m.tanh(a * a / l) * speedOfLight / a
  }

  /**
   * The two conversions composed as written: a nonzero velocity comes back
   * scaled by `AsWrittenFactor`, so it is recovered exactly when that factor is
   * 1, and a zero rapidity loses the velocity altogether.
   */
  lemma VelocityRoundTripAsWritten(m: RealFns, v: V.Vec3, speedOfLight: real, speedOfLightInv: real)
    requires v != V.Zero
    ensures Rapidity(m, v, speedOfLightInv) == 0.0 ==>
      Velocities(m, RapidityVector(m, v, speedOfLightInv), speedOfLight) == V.Zero
    ensures Rapidity(m, v, speedOfLightInv) != 0.0 ==>
      Velocities(m, RapidityVector(m, v, speedOfLightInv), speedOfLight)
      == V.Scale(AsWrittenFactor(m, Rapidity(m, v, speedOfLightInv), V.LengthSquared(v), speedOfLight), v)
    ensures Rapidity(m, v, speedOfLightInv) != 0.0 ==>
      (Velocities(m, RapidityVector(m, v, speedOfLightInv), speedOfLight) == v
       <==> AsWrittenFactor(m, Rapidity(m, v, speedOfLightInv), V.LengthSquared(v), speedOfLight) == 1.0)
  {
    hide Velocities, RapidityVector, Rapidity, RapidityArgument, AsWrittenFactor;
    var a := Rapidity(m, v, speedOfLightInv);
    if a == 0.0 {
      ZeroRapidityVector(m, v, speedOfLightInv);
      VelocitiesOfZero(m, speedOfLight);
    } else {
      RapidityVectorLength(m, v, speedOfLightInv);
      AsWrittenComposition(m, v, speedOfLight, a, V.LengthSquared(v), RapidityVector(m, v, speedOfLightInv));
    }
  }

  /**
   * `velocities` of w = (a / l) v, with l = |v|^2 > 0, a nonzero `a` and |w|^2 = a^2 / l,
   * is v scaled by `AsWrittenFactor`, and is v itself exactly when that factor is 1.
   */
  lemma AsWrittenComposition(m: RealFns, v: V.Vec3, speedOfLight: real, a: real, l: real, w: V.Vec3)
    requires v != V.Zero && a != 0.0 && l == V.LengthSquared(v)
    requires w == V.Scale(a / l, v) && V.LengthSquared(w) == a * a / l
    ensures Velocities(m, w, speedOfLight) == V.Scale(AsWrittenFactor(m, a, l, speedOfLight), v)
    ensures Velocities(m, w, speedOfLight) == v <==> AsWrittenFactor(m, a, l, speedOfLight) == 1.0
  {
    hide Velocities, V.Scale, V.LengthSquared, AsWrittenFactor;
    var q := a * a / l;
    PositiveQuotientOfSquare(a, l, q);
    VelocitiesWithLength(m, w, speedOfLight, q);
    AsWrittenScaling(m, speedOfLight, a, l, q, v);
    ScaleFixedIff(AsWrittenFactor(m, a, l, speedOfLight), v);
  }

  /** Scaling by a / l and then by tanh(q) c / q, with q = a^2 / l, is scaling by `AsWrittenFactor`. */
  lemma AsWrittenScaling(m: RealFns, speedOfLight: real, a: real, l: real, q: real, v: V.Vec3)
    requires a != 0.0 && l > 0.0 && q > 0.0 && q * l == a * a && q == a * a / l
    ensures V.Scale(m.tanh(q) * speedOfLight / q, V.Scale(a / l, v))
         == V.Scale(AsWrittenFactor(m, a, l, speedOfLight), v)
  {
    hide V.Scale;
    assert AsWrittenFactor(m, a, l, speedOfLight) == m.tanh(q) * speedOfLight / a;
    ComposeFactors(m.tanh(q) * speedOfLight, a, l, q,
      m.tanh(q) * speedOfLight / q, a / l, AsWrittenFactor(m, a, l, speedOfLight), v);
  }

  /** A zero rapidity gives the zero rapidity vector. */
  lemma ZeroRapidityVector(m: RealFns, v: V.Vec3, speedOfLightInv: real)
    requires v != V.Zero && Rapidity(m, v, speedOfLightInv) == 0.0
    ensures RapidityVector(m, v, speedOfLightInv) == V.Zero
  {
    hide Rapidity;
  }

  /** `velocities` of the zero vector is zero. */
  lemma VelocitiesOfZero(m: RealFns, speedOfLight: real)
    ensures Velocities(m, V.Zero, speedOfLight) == V.Zero
  {
  }

  /** Scaling by a / l and then by n / q, where q l = a^2, is scaling by n / a. */
  lemma ComposeFactors(n: real, a: real, l: real, q: real, f: real, r: real, g: real, v: V.Vec3)
    requires a != 0.0 && l > 0.0 && q > 0.0 && q * l == a * a
    requires f == n / q && r == a / l && g == n / a
    ensures V.Scale(f, V.Scale(r, v)) == V.Scale(g, v)
  {
    V.ScaleScale(f, r, v);
    RoundTripFactor(n, a, l, q);
    V.ScaleBySame(f * r, g, v);
  }

  /** `velocities` of a vector whose squared length is known to be `q`. */
  lemma VelocitiesWithLength(m: RealFns, w: V.Vec3, speedOfLight: real, q: real)
    requires q > 0.0 && V.LengthSquared(w) == q
    ensures Velocities(m, w, speedOfLight) == V.Scale(m.tanh(q) * speedOfLight / q, w)
  {
  }

  /** For a nonzero `a` and positive `l`, q = a^2 / l is positive and q l = a^2. */
  lemma PositiveQuotientOfSquare(a: real, l: real, q: real)
    requires a != 0.0 && l > 0.0 && q == a * a / l
    ensures q > 0.0 && q * l == a * a
  {
    SquareFacts(a);
  }

  /** With q l = a^2: (n / q) (a / l) = n / a. */
  lemma RoundTripFactor(n: real, a: real, l: real, q: real)
    requires a != 0.0 && l > 0.0 && q > 0.0 && q * l == a * a
    ensures n / q * (a / l) == n / a
  {
    assert n / q * (a / l) == n * a / (q * l);
    assert n * a / (a * a) == n / a;
  }

  /** A nonzero vector is fixed by scaling by `k` exactly when k = 1. */
  lemma ScaleFixedIff(k: real, v: V.Vec3)
    requires v != V.Zero
    ensures V.Scale(k, v) == v <==> k == 1.0
  {
    if V.Scale(k, v) == v {
      if v.x != 0.0 {
        assert k * v.x == v.x;
      } else if v.y != 0.0 {
        assert k * v.y == v.y;
      } else {
        assert k * v.z == v.z;
      }
    }
  }

  /**
   * A velocity below the speed of light whose rapidity argument |v|^2 / c is
   * outside atanh's domain: for c = 4 and v = (3, 0, 0), |v| = 3 < 4 but the
   * argument is 9 / 4, so `f64::atanh` returns NaN and the round trip yields NaN.
   */
  lemma RapidityArgumentLeavesDomain()
    ensures BelowLightSpeed(V.Vec3(3.0, 0.0, 0.0), 4.0)
    ensures RapidityArgument(V.Vec3(3.0, 0.0, 0.0), 0.25) == 2.25
    ensures !InAtanhDomain(RapidityArgument(V.Vec3(3.0, 0.0, 0.0), 0.25))
  {
  }

  /** The length |v| = sqrt(|v|^2). */
  function Length(m: RealFns, v: V.Vec3): (r: real)
    requires Lawful(m)
    ensures r >= 0.0 && r * r == V.LengthSquared(v)
    ensures r == 0.0 <==> v == V.Zero
  {
    SqrtZeroIff(m, V.LengthSquared(v));
    m.sqrt(V.LengthSquared(v))
  }

  /** The argument |v| / c the corrected conversion gives atanh. */
  function LengthRatio(m: RealFns, v: V.Vec3, speedOfLightInv: real): real
    requires Lawful(m)
  {
    Length(m, v) * speedOfLightInv
  }

  /** `rapidity_vector` with the length in place of the squared length: v scaled by atanh(|v| / c) / |v|. */
  function RapidityVectorByLength(m: RealFns, v: V.Vec3, speedOfLightInv: real): V.Vec3
    requires Lawful(m)
  {
    if v == V.Zero then V.Zero
    else V.Scale(m.atanh(LengthRatio(m, v, speedOfLightInv)) / Length(m, v), v)
  }

  /** `velocities` with the length in place of the squared length: w scaled by tanh(|w|) c / |w|. */
  function VelocitiesByLength(m: RealFns, w: V.Vec3, speedOfLight: real): V.Vec3
    requires Lawful(m)
  {
    if w == V.Zero then V.Zero
    else V.Scale(m.tanh(Length(m, w)) * speedOfLight / Length(m, w), w)
  }

  /** Below the speed of light the argument |v| / c lies in [0, 1), and is zero only for the zero velocity. */
  lemma LengthArgumentInDomain(m: RealFns, v: V.Vec3, speedOfLight: real, speedOfLightInv: real)
    requires Lawful(m)
    requires speedOfLightInv * speedOfLight == 1.0
    requires BelowLightSpeed(v, speedOfLight)
    ensures InAtanhDomain(LengthRatio(m, v, speedOfLightInv))
    ensures v == V.Zero <==> LengthRatio(m, v, speedOfLightInv) == 0.0
    ensures v != V.Zero ==> LengthRatio(m, v, speedOfLightInv) > 0.0
  {
    hide Length, Lawful;
    var s := Length(m, v);
    var y := LengthRatio(m, v, speedOfLightInv);
    LengthBelowLight(m, v, speedOfLight);
    RatioBelowOne(s, speedOfLight, speedOfLightInv, y);
  }

  /** Below the speed of light the length is non-negative, zero only for zero, and its square is below c^2. */
  lemma LengthBelowLight(m: RealFns, v: V.Vec3, speedOfLight: real)
    requires Lawful(m)
    requires BelowLightSpeed(v, speedOfLight)
    ensures Length(m, v) >= 0.0 && speedOfLight > 0.0
    ensures Length(m, v) * Length(m, v) < speedOfLight * speedOfLight
    ensures Length(m, v) == 0.0 <==> v == V.Zero
  {
  }

  /** For 0 <= s with s^2 < c^2 and c^-1 c = 1: y = s c^-1 lies in [0, 1), and is zero exactly when s is. */
  lemma RatioBelowOne(s: real, c: real, cInv: real, y: real)
    requires s >= 0.0 && c > 0.0 && s * s < c * c && cInv * c == 1.0
    requires y == s * cInv
    ensures InAtanhDomain(y)
    ensures s == 0.0 <==> y == 0.0
    ensures s > 0.0 ==> y > 0.0
  {
    InversePositive(c, cInv, cInv * c);
    SquareBelow(s, c, s * s, c * c);
    ProductBelow(s * cInv, c * cInv, s, c, cInv);
    ProductSign(s * cInv, s, cInv);
  }

  /** A number whose product `p` with a positive number is 1 is positive. */
  lemma InversePositive(c: real, cInv: real, p: real)
    requires c > 0.0 && p == cInv * c && p == 1.0
    ensures cInv > 0.0
  {
  }

  /** For non-negative s and c, s^2 < c^2 (given as `ss` and `cc`) means s < c. */
  lemma SquareBelow(s: real, c: real, ss: real, cc: real)
    requires s >= 0.0 && c > 0.0 && ss == s * s && cc == c * c && ss < cc
    ensures s < c
  {
    if s >= c {
      SquareMonotoneWeak(c, s);
    }
  }

  /** p = s k and q = c k with s < c and k > 0 gives p < q. */
  lemma ProductBelow(p: real, q: real, s: real, c: real, k: real)
    requires p == s * k && q == c * k && s < c && k > 0.0
    ensures p < q
  {
    assert q - p == (c - s) * k;
  }

  /** p = s k with s >= 0 and k > 0 is non-negative, zero exactly when s is, and positive when s is. */
  lemma ProductSign(p: real, s: real, k: real)
    requires p == s * k && s >= 0.0 && k > 0.0
    ensures p >= 0.0
    ensures p == 0.0 <==> s == 0.0
    ensures s > 0.0 ==> p > 0.0
  {
  }

  /** Squaring is monotone on the non-negative numbers. */
  lemma SquareMonotoneWeak(a: real, b: real)
    requires 0.0 <= a <= b
    ensures a * a <= b * b
  {
    if a < b {
      SquareMonotone(a, b);
    }
  }

  /** tanh undoes atanh on [0, 1), where atanh(y) >= y. */
  lemma AtanhFacts(m: RealFns, y: real)
    requires HyperbolicInverse(m)
    requires 0.0 <= y < 1.0
    ensures m.tanh(m.atanh(y)) == y
    ensures m.atanh(y) >= y
  {
  }

  /**
   * With lengths in place of squared lengths the round trip recovers every
   * velocity below the speed of light.
   */
  lemma VelocityRoundTripByLength(m: RealFns, v: V.Vec3, speedOfLight: real, speedOfLightInv: real)
    requires Lawful(m) && HyperbolicInverse(m)
    requires speedOfLightInv * speedOfLight == 1.0
    requires BelowLightSpeed(v, speedOfLight)
    ensures VelocitiesByLength(m, RapidityVectorByLength(m, v, speedOfLightInv), speedOfLight) == v
  {
    hide Length, RapidityVectorByLength, VelocitiesByLength, Lawful, HyperbolicInverse, LengthRatio;
    LengthArgumentInDomain(m, v, speedOfLight, speedOfLightInv);
    if v == V.Zero {
      RapidityVectorByLengthOfZero(m, speedOfLightInv);
      VelocitiesByLengthOfZero(m, speedOfLight);
    } else {
      RapidityVectorByLengthFacts(m, v, speedOfLightInv);
      ByLengthComposition(m, v, speedOfLight, speedOfLightInv);
    }
  }

  /**
   * For a nonzero velocity whose argument y = |v| / c lies in (0, 1), the
   * corrected rapidity vector is v scaled by a / |v| with a = atanh(y) > 0,
   * tanh(a) = y, and the rapidity vector has length a.
   */
  lemma RapidityVectorByLengthFacts(m: RealFns, v: V.Vec3, speedOfLightInv: real)
    requires Lawful(m) && HyperbolicInverse(m)
    requires v != V.Zero
    requires 0.0 < LengthRatio(m, v, speedOfLightInv) < 1.0
    ensures var a := m.atanh(LengthRatio(m, v, speedOfLightInv));
            && a > 0.0
            && m.tanh(a) == LengthRatio(m, v, speedOfLightInv)
            && RapidityVectorByLength(m, v, speedOfLightInv) == V.Scale(a / Length(m, v), v)
            && Length(m, RapidityVectorByLength(m, v, speedOfLightInv)) == a
  {
    hide Lawful, HyperbolicInverse, LengthRatio, Length;
    var y := LengthRatio(m, v, speedOfLightInv);
    var a := m.atanh(y);
    var s := Length(m, v);
    AtanhFacts(m, y);
    var k := a / s;
    assert k > 0.0 && k * s == a by {
      PositiveQuotient(a, s);
    }
    assert RapidityVectorByLength(m, v, speedOfLightInv) == V.Scale(k, v);
    ScaledLength(m, k, v);
  }

  /** For a, s > 0: a / s > 0 and (a / s) s = a. */
  lemma PositiveQuotient(a: real, s: real)
    requires a > 0.0 && s > 0.0
    ensures a / s > 0.0 && a / s * s == a
  {
  }

  /**
   * The last step of the corrected round trip: with a = atanh(|v| / c) > 0,
   * tanh(a) = |v| / c and a rapidity vector (a / |v|) v of length a,
   * `VelocitiesByLength` gives v back.
   */
  lemma ByLengthComposition(m: RealFns, v: V.Vec3, speedOfLight: real, speedOfLightInv: real)
    requires Lawful(m)
    requires v != V.Zero && speedOfLightInv * speedOfLight == 1.0
    requires var a := m.atanh(LengthRatio(m, v, speedOfLightInv));
             && a > 0.0
             && m.tanh(a) == LengthRatio(m, v, speedOfLightInv)
             && RapidityVectorByLength(m, v, speedOfLightInv) == V.Scale(a / Length(m, v), v)
             && Length(m, RapidityVectorByLength(m, v, speedOfLightInv)) == a
    ensures VelocitiesByLength(m, RapidityVectorByLength(m, v, speedOfLightInv), speedOfLight) == v
  {
    hide Length, VelocitiesByLength, RapidityVectorByLength, Lawful, V.Scale;
    var s := Length(m, v);
    var y := LengthRatio(m, v, speedOfLightInv);
    var a := m.atanh(y);
    var w := RapidityVectorByLength(m, v, speedOfLightInv);
    var k := a / s;
    var f := m.tanh(a) * speedOfLight / a;
    assert VelocitiesByLength(m, w, speedOfLight) == V.Scale(f, w) by {
      VelocitiesByLengthOf(m, w, speedOfLight, a);
    }
    assert V.Scale(f, w) == V.Scale(f * k, v) by {
      V.ScaleScale(f, k, v);
    }
    assert f * k == 1.0 by {
      UnitRoundTripFactor(m.tanh(a), speedOfLight, speedOfLightInv, a, s);
    }
    ScaleByOne(f * k, v);
  }

  /** `VelocitiesByLength` of a vector whose length is known to be a positive `a`. */
  lemma VelocitiesByLengthOf(m: RealFns, w: V.Vec3, speedOfLight: real, a: real)
    requires Lawful(m)
    requires a > 0.0 && Length(m, w) == a
    ensures VelocitiesByLength(m, w, speedOfLight) == V.Scale(m.tanh(a) * speedOfLight / a, w)
  {
    hide Lawful;
  }

  /** Scaling by 1 changes nothing. */
  lemma ScaleByOne(k: real, v: V.Vec3)
    requires k == 1.0
    ensures V.Scale(k, v) == v
  {
  }

  /** The corrected rapidity vector of zero is zero. */
  lemma RapidityVectorByLengthOfZero(m: RealFns, speedOfLightInv: real)
    requires Lawful(m)
    ensures RapidityVectorByLength(m, V.Zero, speedOfLightInv) == V.Zero
  {
  }

  /** The corrected `velocities` of zero is zero. */
  lemma VelocitiesByLengthOfZero(m: RealFns, speedOfLight: real)
    requires Lawful(m)
    ensures VelocitiesByLength(m, V.Zero, speedOfLight) == V.Zero
  {
  }

  /** |k v| = k |v| for k >= 0. */
  lemma ScaledLength(m: RealFns, k: real, v: V.Vec3)
    requires Lawful(m)
    requires k >= 0.0
    ensures Length(m, V.Scale(k, v)) == k * Length(m, v)
  {
    hide Length, Lawful, V.LengthSquared, V.Scale;
    V.LengthSquaredScale(k, v);
    RootOfScaledSquare(Length(m, V.Scale(k, v)), Length(m, v), k, k, V.LengthSquared(v));
  }

  /** With y = s / c: (y c / a) (a / s) = 1. */
  lemma UnitRoundTripFactor(y: real, c: real, cInv: real, a: real, s: real)
    requires a != 0.0 && s != 0.0 && cInv * c == 1.0
    requires y == s * cInv
    ensures y * c / a * (a / s) == 1.0
  {
    assert y * c == s;
  }

  /**
   * The speed over the speed of light implied by a momentum: |p| over
   * sqrt(m^2 c^2 + |p|^2), for a nonzero momentum.
   */
  function SpeedRatio(m: RealFns, p: V.Vec3, mass: real, speedOfLight: real): (l: real)
    requires Lawful(m)
    requires p != V.Zero
    ensures 0.0 < l <= 1.0
    ensures l == 1.0 <==> mass * speedOfLight == 0.0
  {
    SquareFacts(mass * speedOfLight);
    assert mass * mass * speedOfLight * speedOfLight == (mass * speedOfLight) * (mass * speedOfLight);
    SqrtRatio(m, V.LengthSquared(p), mass * mass * speedOfLight * speedOfLight);
    m.sqrt(V.LengthSquared(p)) / m.sqrt(mass * mass * speedOfLight * speedOfLight + V.LengthSquared(p))
  }

  /** For x > 0 and k >= 0: sqrt(x) / sqrt(k + x) lies in (0, 1], and is 1 exactly when k is 0. */
  lemma SqrtRatio(m: RealFns, x: real, k: real)
    requires Lawful(m)
    requires x > 0.0 && k >= 0.0
    ensures 0.0 < m.sqrt(x) / m.sqrt(k + x) <= 1.0
    ensures m.sqrt(x) / m.sqrt(k + x) == 1.0 <==> k == 0.0
  {
    SqrtPositive(m, x);
    SqrtMonotone(m, x, k + x);
  }

  /**
   * `rapidity_from_momentum`: zero for zero momentum, and otherwise p scaled by
   * atanh(l) / |p| where l is the speed ratio.
   */
  function RapidityFromMomentum(m: RealFns, p: V.Vec3, mass: real, speedOfLight: real): (r: V.Vec3)
    requires Lawful(m)
    ensures p == V.Zero ==> r == V.Zero
    ensures p != V.Zero ==>
      r == V.Scale(m.atanh(SpeedRatio(m, p, mass, speedOfLight)) / m.sqrt(V.LengthSquared(p)), p)
  {
    if V.LengthSquared(p) == 0.0 then V.Zero
    else
      SqrtPositive(m, V.LengthSquared(p));
      V.Scale(m.atanh(SpeedRatio(m, p, mass, speedOfLight)) / m.sqrt(V.LengthSquared(p)), p)
  }

  /**
   * Unlike the velocity conversions, this one divides by the true length, so
   * the result has length |atanh(l)|: a massive particle gets the rapidity of a
   * speed ratio below 1, a massless one the ratio 1.
   */
  lemma RapidityFromMomentumLength(m: RealFns, p: V.Vec3, mass: real, speedOfLight: real)
    requires Lawful(m)
    requires p != V.Zero
    ensures var a := m.atanh(SpeedRatio(m, p, mass, speedOfLight));
            V.LengthSquared(RapidityFromMomentum(m, p, mass, speedOfLight)) == a * a
    ensures SpeedRatio(m, p, mass, speedOfLight) < 1.0 <==> mass * speedOfLight != 0.0
  {
    hide RapidityFromMomentum, SpeedRatio;
    var pn := V.LengthSquared(p);
    var pr := m.sqrt(pn);
    SqrtPositive(m, pn);
    var a := m.atanh(SpeedRatio(m, p, mass, speedOfLight));
    var k := a / pr;
    assert RapidityFromMomentum(m, p, mass, speedOfLight) == V.Scale(k, p);
    InverseLengthSquare(a, pr, pn, k);
    V.LengthSquaredOfScaled(k, p, pn, a * a);
  }

  /** With pr = sqrt(pn) > 0 and k = a / pr: k^2 pn = a^2. */
  lemma InverseLengthSquare(a: real, pr: real, pn: real, k: real)
    requires pr > 0.0 && pr * pr == pn && k == a / pr
    ensures k * k * pn == a * a
  {
    assert k * pr == a;
    assert k * k * pn == (k * pr) * (k * pr);
  }

  /**
   * `lorentz_transformation_v` as the source writes it: nothing happens for a
   * zero velocity; otherwise the map as written with the exponential of half
   * the rapidity atanh(l / c) along v / l, l = |v|^2.
   */
  function LorentzTransformationV(m: RealFns, self: Spacetime, v: V.Vec3, speedOfLightInv: real): (r: Spacetime)
    ensures v == V.Zero ==> r == self
  {
    if V.LengthSquared(v) == 0.0 then self
    else
      LorentzTransformation(self, Exp(m, 0.5 * Rapidity(m, v, speedOfLightInv),
                                      V.Scale(1.0 / V.LengthSquared(v), v)))
  }

  /** `lorentz_transformation_rapidity` as written: as above with the rapidity vector given directly. */
  function LorentzTransformationRapidity(m: RealFns, self: Spacetime, rapidity: V.Vec3): (r: Spacetime)
    ensures rapidity == V.Zero ==> r == self
  {
    if V.LengthSquared(rapidity) == 0.0 then self
    else
      LorentzTransformation(self, Exp(m, 0.5 * V.LengthSquared(rapidity),
                                      V.Scale(1.0 / V.LengthSquared(rapidity), rapidity)))
  }

  /** The corrected velocity boost: `lorentz_transformation_v` through `LorentzBoost`. */
  function LorentzBoostV(m: RealFns, self: Spacetime, v: V.Vec3, speedOfLightInv: real): (r: Spacetime)
    ensures v == V.Zero ==> r == self
    ensures v != V.Zero ==>
      r == LorentzBoost(self, Exp(m, 0.5 * Rapidity(m, v, speedOfLightInv),
                                  V.Scale(1.0 / V.LengthSquared(v), v)))
  {
    if V.LengthSquared(v) == 0.0 then self
    else
      LorentzBoost(self, Exp(m, 0.5 * Rapidity(m, v, speedOfLightInv),
                             V.Scale(1.0 / V.LengthSquared(v), v)))
  }

  /** The corrected rapidity boost: `lorentz_transformation_rapidity` through `LorentzBoost`. */
  function LorentzBoostRapidity(m: RealFns, self: Spacetime, rapidity: V.Vec3): (r: Spacetime)
    ensures rapidity == V.Zero ==> r == self
    ensures rapidity != V.Zero ==>
      r == LorentzBoost(self, Exp(m, 0.5 * V.LengthSquared(rapidity),
                                  V.Scale(1.0 / V.LengthSquared(rapidity), rapidity)))
  {
    if V.LengthSquared(rapidity) == 0.0 then self
    else
      LorentzBoost(self, Exp(m, 0.5 * V.LengthSquared(rapidity),
                             V.Scale(1.0 / V.LengthSquared(rapidity), rapidity)))
  }

  /** The direction v / |v|^2 has squared length 1 / |v|^2, so it is a unit vector only when |v| = 1. */
  lemma DirectionLength(v: V.Vec3)
    requires v != V.Zero
    ensures var l := V.LengthSquared(v);
            V.LengthSquared(V.Scale(1.0 / l, v)) == 1.0 / l
    ensures V.LengthSquared(V.Scale(1.0 / V.LengthSquared(v), v)) == 1.0 <==> V.LengthSquared(v) == 1.0
  {
    var l := V.LengthSquared(v);
    V.LengthSquaredScale(1.0 / l, v);
    QuotientSquare(1.0, l);
  }

  /**
   * The factor cosh^2 - sinh^2 / l of `angle`: minus the norm of the
   * exponential of `angle` along a direction of squared length 1 / l.
   */
  function BoostFactor(m: RealFns, angle: real, l: real): real
    requires l > 0.0
  {
    m.cosh(angle) * m.cosh(angle) - m.sinh(angle) * m.sinh(angle) / l
  }

  /** With n = sinh^2 (ld - 1) - 1 and ld = 1 / l: n = -BoostFactor. */
  lemma NegatedBoostFactor(m: RealFns, angle: real, n: real, l: real, ld: real)
    requires Lawful(m)
    requires l > 0.0 && ld == 1.0 / l
    requires n == m.sinh(angle) * m.sinh(angle) * (ld - 1.0) - 1.0
    ensures n == -BoostFactor(m, angle, l)
  {
    assert m.cosh(angle) * m.cosh(angle) - m.sinh(angle) * m.sinh(angle) == 1.0;
    assert m.sinh(angle) * m.sinh(angle) * ld == m.sinh(angle) * m.sinh(angle) / l;
  }

  /** Opposite numbers have the same square. */
  lemma OppositeSquares(a: real, b: real, n: real)
    requires a == -b
    ensures a * a * n == b * b * n
  {
  }

  /**
   * Boosting by the exponential of `angle` along v / l, l = |v|^2, scales the
   * norm by the square of `BoostFactor`; the norm is kept when l = 1.
   */
  lemma BoostAlongNorm(m: RealFns, self: Spacetime, angle: real, v: V.Vec3)
    requires Lawful(m)
    requires v != V.Zero
    ensures Norm(LorentzBoost(self, Exp(m, angle, V.Scale(1.0 / V.LengthSquared(v), v))))
         == BoostFactor(m, angle, V.LengthSquared(v)) * BoostFactor(m, angle, V.LengthSquared(v)) * Norm(self)
    ensures V.LengthSquared(v) == 1.0 ==> BoostFactor(m, angle, V.LengthSquared(v)) == 1.0
  {
    hide LorentzBoost, Exp, Norm, TimeVersor;
    var l := V.LengthSquared(v);
    var g := Exp(m, angle, V.Scale(1.0 / l, v));
    VersorAlongDirection(m, angle, v);
    LorentzBoostScalesNorm(self, g);
    OppositeSquares(Norm(g), BoostFactor(m, angle, l), Norm(self));
  }

  /** The versor exp(angle, v / |v|^2) has norm -BoostFactor(angle, |v|^2). */
  lemma VersorAlongDirection(m: RealFns, angle: real, v: V.Vec3)
    requires Lawful(m)
    requires v != V.Zero
    ensures Norm(Exp(m, angle, V.Scale(1.0 / V.LengthSquared(v), v))) == -BoostFactor(m, angle, V.LengthSquared(v))
  {
    hide LorentzBoost, Exp, Norm, TimeVersor;
    var l := V.LengthSquared(v);
    var dir := V.Scale(1.0 / l, v);
    var g := Exp(m, angle, dir);
    DirectionLength(v);
    ExpNorm(m, angle, dir);
    NegatedBoostFactor(m, angle, Norm(g), l, V.LengthSquared(dir));
  }

  /**
   * The corrected velocity boost scales the norm by the square of
   * `BoostFactor` of half the rapidity, and so keeps it when |v|^2 = 1.
   */
  lemma VelocityBoostNorm(m: RealFns, self: Spacetime, v: V.Vec3, speedOfLightInv: real)
    requires Lawful(m)
    requires v != V.Zero
    ensures var f := BoostFactor(m, 0.5 * Rapidity(m, v, speedOfLightInv), V.LengthSquared(v));
            Norm(LorentzBoostV(m, self, v, speedOfLightInv)) == f * f * Norm(self)
    ensures V.LengthSquared(v) == 1.0 ==>
            Norm(LorentzBoostV(m, self, v, speedOfLightInv)) == Norm(self)
  {
    hide LorentzBoostV, LorentzBoost, Exp, Norm, BoostFactor, Rapidity, Lawful;
    var angle := 0.5 * Rapidity(m, v, speedOfLightInv);
    assert LorentzBoostV(m, self, v, speedOfLightInv)
        == LorentzBoost(self, Exp(m, angle, V.Scale(1.0 / V.LengthSquared(v), v)));
    BoostAlongNorm(m, self, angle, v);
  }

  /** The same for the corrected rapidity boost, whose angle is half of |rapidity|^2. */
  lemma RapidityBoostNorm(m: RealFns, self: Spacetime, rapidity: V.Vec3)
    requires Lawful(m)
    requires rapidity != V.Zero
    ensures var f := BoostFactor(m, 0.5 * V.LengthSquared(rapidity), V.LengthSquared(rapidity));
            Norm(LorentzBoostRapidity(m, self, rapidity)) == f * f * Norm(self)
    ensures V.LengthSquared(rapidity) == 1.0 ==>
            Norm(LorentzBoostRapidity(m, self, rapidity)) == Norm(self)
  {
    hide LorentzBoostRapidity, LorentzBoost, Exp, Norm, BoostFactor, Lawful;
    var angle := 0.5 * V.LengthSquared(rapidity);
    assert LorentzBoostRapidity(m, self, rapidity)
        == LorentzBoost(self, Exp(m, angle, V.Scale(1.0 / V.LengthSquared(rapidity), rapidity)));
    BoostAlongNorm(m, self, angle, rapidity);
  }

  /** The program's velocity and rapidity boosts change the time part exactly as the corrected ones do. */
  lemma BoostTimeParts(m: RealFns, self: Spacetime, v: V.Vec3, speedOfLightInv: real)
    ensures LorentzTransformationV(m, self, v, speedOfLightInv).t == LorentzBoostV(m, self, v, speedOfLightInv).t
    ensures LorentzTransformationRapidity(m, self, v).t == LorentzBoostRapidity(m, self, v).t
  {
    hide LorentzTransformation, LorentzBoost, Exp, Rapidity, TimeVersor;
  }

  /** A vector with at most one nonzero component. */
  predicate OnAxis(v: V.Vec3) {
    (v.y == 0.0 && v.z == 0.0) || (v.x == 0.0 && v.z == 0.0) || (v.x == 0.0 && v.y == 0.0)
  }

  /** The exponential along a direction on an axis is a versor on that axis. */
  lemma ExpOnAxis(m: RealFns, angle: real, k: real, v: V.Vec3)
    requires OnAxis(v)
    ensures var g := Exp(m, angle, V.Scale(k, v));
            (g.y == 0.0 && g.z == 0.0) || (g.x == 0.0 && g.z == 0.0) || (g.x == 0.0 && g.y == 0.0)
  {
  }

  /**
   * For a velocity along one axis, the program's velocity boost is the
   * corrected one, so it keeps the norm when |v|^2 = 1.
   */
  lemma VelocityBoostOnAxes(m: RealFns, self: Spacetime, v: V.Vec3, speedOfLightInv: real)
    requires Lawful(m)
    requires OnAxis(v)
    ensures LorentzTransformationV(m, self, v, speedOfLightInv) == LorentzBoostV(m, self, v, speedOfLightInv)
    ensures V.LengthSquared(v) == 1.0 ==>
            Norm(LorentzTransformationV(m, self, v, speedOfLightInv)) == Norm(self)
  {
    hide LorentzBoost, LorentzTransformation, Exp, Lawful, Norm;
    if V.LengthSquared(v) != 0.0 {
      var g := Exp(m, 0.5 * Rapidity(m, v, speedOfLightInv), V.Scale(1.0 / V.LengthSquared(v), v));
      ExpOnAxis(m, 0.5 * Rapidity(m, v, speedOfLightInv), 1.0 / V.LengthSquared(v), v);
      LorentzTransformationAgreesOnAxes(self, g);
      assert v != V.Zero;
      VelocityBoostNorm(m, self, v, speedOfLightInv);
    }
  }

  /** The same for a rapidity vector along one axis. */
  lemma RapidityBoostOnAxes(m: RealFns, self: Spacetime, rapidity: V.Vec3)
    requires Lawful(m)
    requires OnAxis(rapidity)
    ensures LorentzTransformationRapidity(m, self, rapidity) == LorentzBoostRapidity(m, self, rapidity)
    ensures V.LengthSquared(rapidity) == 1.0 ==>
            Norm(LorentzTransformationRapidity(m, self, rapidity)) == Norm(self)
  {
    hide LorentzBoost, LorentzTransformation, Exp, Lawful, Norm;
    if V.LengthSquared(rapidity) != 0.0 {
      var g := Exp(m, 0.5 * V.LengthSquared(rapidity), V.Scale(1.0 / V.LengthSquared(rapidity), rapidity));
      ExpOnAxis(m, 0.5 * V.LengthSquared(rapidity), 1.0 / V.LengthSquared(rapidity), rapidity);
      LorentzTransformationAgreesOnAxes(self, g);
      assert rapidity != V.Zero;
      RapidityBoostNorm(m, self, rapidity);
    }
  }

  /** A unit direction with two nonzero components. */
  const SkewDirection: V.Vec3 := V.Vec3(0.6, 0.8, 0.0)

  /** A unit spacelike vector orthogonal to `SkewDirection`. */
  const SkewSpace: Spacetime := Spacetime(0.0, 0.8, -0.6, 0.0)

  /**
   * The map as written, with the exponential of any angle along
   * `SkewDirection`, sends `SkewSpace` (norm 1) to (0, 0.8 + 1.152 s^2,
   * -0.6 - 1.536 s^2, 0) for s = sinh(angle): its norm grows by
   * 3.6864 s^2 (1 + s^2), so it is kept only when s = 0.
   */
  lemma SkewDirectionBreaksNorm(m: RealFns, angle: real)
    requires Lawful(m)
    ensures Norm(SkewSpace) == 1.0
    ensures var s2 := m.sinh(angle) * m.sinh(angle);
            Norm(LorentzTransformation(SkewSpace, Exp(m, angle, SkewDirection))) == 1.0 + 3.6864 * s2 * (1.0 + s2)
    ensures Norm(LorentzTransformation(SkewSpace, Exp(m, angle, SkewDirection))) == Norm(SkewSpace)
        <==> m.sinh(angle) == 0.0
  {
    hide LorentzTransformation, Norm, Lawful;
    var sh := m.sinh(angle);
    var ch := m.cosh(angle);
    var s2 := sh * sh;
    CoshSquared(m, angle);
    SkewImageNorm(0.0, SkewSpace);
    assert Exp(m, angle, SkewDirection) == Spacetime(ch, 0.6 * sh, 0.8 * sh, 0.0 * sh);
    var img := Spacetime(0.0, 0.8 + 1.152 * s2, -0.6 - 1.536 * s2, 0.0);
    SkewImage(sh, ch, s2, LorentzTransformation(SkewSpace, Exp(m, angle, SkewDirection)), img);
    SkewImageNorm(s2, img);
    if 3.6864 * s2 * (1.0 + s2) == 0.0 {
      ZeroProduct(3.6864 * s2, 1.0 + s2);
      ZeroProduct(sh, sh);
    }
  }

  /** cosh^2 = 1 + sinh^2. */
  lemma CoshSquared(m: RealFns, a: real)
    requires Lawful(m)
    ensures m.cosh(a) * m.cosh(a) == 1.0 + m.sinh(a) * m.sinh(a)
  {
    assert m.cosh(a) * m.cosh(a) - m.sinh(a) * m.sinh(a) == 1.0;
  }

  /** The map as written on `SkewSpace` and the versor (ch, 0.6 sh, 0.8 sh, 0), with ch^2 = 1 + sh^2. */
  lemma SkewImage(sh: real, ch: real, s2: real, res: Spacetime, img: Spacetime)
    requires s2 == sh * sh && ch * ch == 1.0 + s2
    requires res == LorentzTransformation(SkewSpace, Spacetime(ch, 0.6 * sh, 0.8 * sh, 0.0 * sh))
    requires img == Spacetime(0.0, 0.8 + 1.152 * s2, -0.6 - 1.536 * s2, 0.0)
    ensures res == img
  {
    assert res.t == 2.0 * ch * ((0.6 * sh) * 0.8 + (0.8 * sh) * -0.6);
    assert res.x == (ch * ch + 0.36 * s2 - 0.64 * s2) * 0.8 + 2.0 * (0.6 * sh) * (0.48 * sh);
    assert res.y == (ch * ch - 0.36 * s2 + 0.64 * s2) * -0.6 + 2.0 * (0.8 * sh) * (-0.48 * sh);
  }

  /** The norm of (0, 0.8 + 1.152 S, -0.6 - 1.536 S, 0) is 1 + 3.6864 S (1 + S). */
  lemma SkewImageNorm(s2: real, img: Spacetime)
    requires img == Spacetime(0.0, 0.8 + 1.152 * s2, -0.6 - 1.536 * s2, 0.0)
    ensures Norm(img) == 1.0 + 3.6864 * s2 * (1.0 + s2)
  {
  }

  /**
   * `lorentz_transformation_v` as written does not keep the norm of a unit
   * velocity off the axes: for v = `SkewDirection`, whose |v|^2 is 1, it
   * keeps the norm of `SkewSpace` only when sinh of half the rapidity is 0,
   * while the corrected boost keeps it.
   */
  lemma VelocityBoostBreaksNorm(m: RealFns, speedOfLightInv: real)
    requires Lawful(m)
    ensures V.LengthSquared(SkewDirection) == 1.0
    ensures Norm(LorentzTransformationV(m, SkewSpace, SkewDirection, speedOfLightInv)) == Norm(SkewSpace)
        <==> m.sinh(0.5 * Rapidity(m, SkewDirection, speedOfLightInv)) == 0.0
    ensures Norm(LorentzBoostV(m, SkewSpace, SkewDirection, speedOfLightInv)) == Norm(SkewSpace)
  {
    hide LorentzTransformation, LorentzBoost, Norm, Exp, Lawful;
    assert V.Scale(1.0 / V.LengthSquared(SkewDirection), SkewDirection) == SkewDirection;
    SkewDirectionBreaksNorm(m, 0.5 * Rapidity(m, SkewDirection, speedOfLightInv));
    VelocityBoostNorm(m, SkewSpace, SkewDirection, speedOfLightInv);
  }

  /** The same for `lorentz_transformation_rapidity` with the rapidity `SkewDirection`: the angle is 1/2. */
  lemma RapidityBoostBreaksNorm(m: RealFns)
    requires Lawful(m)
    ensures Norm(LorentzTransformationRapidity(m, SkewSpace, SkewDirection)) == Norm(SkewSpace)
        <==> m.sinh(0.5) == 0.0
    ensures Norm(LorentzBoostRapidity(m, SkewSpace, SkewDirection)) == Norm(SkewSpace)
  {
    hide LorentzTransformation, LorentzBoost, Norm, Exp, Lawful;
    assert V.LengthSquared(SkewDirection) == 1.0;
    assert V.Scale(1.0 / V.LengthSquared(SkewDirection), SkewDirection) == SkewDirection;
    SkewDirectionBreaksNorm(m, 0.5);
    RapidityBoostNorm(m, SkewSpace, SkewDirection);
  }
}
