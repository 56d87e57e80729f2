/**
 * The N-body bookkeeping of src/simulation.rs: particles with a position,
 * velocity, mass and colour; the Newtonian velocity update computed from a
 * snapshot of every position and mass; the position advance; the default
 * state and the deterministic part of the initial particle set.
 */
module Simulation {

  import opened RealMath
  import opened Vectors

  /** Astronomical unit in metres. */
  const AU: real := 149597870700.0

  /** Gravitational constant 6.6743e-11 in m^3 kg^-1 s^-2. */
  const G: real := 0.000000000066743

  /** An RGBA colour (`[f32; 4]`). */
  datatype Color = Color(r: real, g: real, b: real, a: real)

  datatype Particle = Particle(position: Vec3, velocity: Vec3, mass: real, color: Color)

  /** `scale` is metres per simulation unit, `dt` the duration of one frame in seconds. */
  datatype SimulationState = SimulationState(particles: seq<Particle>, scale: real, dt: real)

  /** Every particle has a nonzero mass, so dividing by its own mass is defined. */
  predicate MassesNonzero(ps: seq<Particle>) {
    forall i :: 0 <= i < |ps| ==> ps[i].mass != 0.0
  }

  /** The snapshot of every position, taken before any velocity changes. */
  function Positions(ps: seq<Particle>): (r: seq<Vec3>)
    ensures |r| == |ps|
    ensures forall i :: 0 <= i < |ps| ==> r[i] == ps[i].position
  {
    seq(|ps|, i requires 0 <= i < |ps| => ps[i].position)
  }

  /** The snapshot of every mass. */
  function Masses(ps: seq<Particle>): (r: seq<real>)
    ensures |r| == |ps|
    ensures forall i :: 0 <= i < |ps| ==> r[i] == ps[i].mass
  {
    seq(|ps|, i requires 0 <= i < |ps| => ps[i].mass)
  }

  /** r^2: the squared distance from `posI` to `posJ`. */
  function Separation(posI: Vec3, posJ: Vec3): (r: real)
    ensures r >= 0.0
    ensures r == 0.0 <==> posI == posJ
  {
    SubZeroIff(posJ, posI);
    LengthSquared(Sub(posJ, posI))
  }

  /** The distance from `posI` to `posJ` is the distance from `posJ` to `posI`. */
  lemma SeparationSymmetric(posI: Vec3, posJ: Vec3)
    ensures Separation(posJ, posI) == Separation(posI, posJ)
  {
    var d := Sub(posJ, posI);
    assert Sub(posI, posJ) == Neg(d);
    assert (-d.x) * (-d.x) == d.x * d.x && (-d.y) * (-d.y) == d.y * d.y && (-d.z) * (-d.z) == d.z * d.z;
  }

  /** The acceleration magnitude G m_j / r^2 / m_i: the force magnitude divided by the particle's own mass. */
  function PairFactor(posI: Vec3, massI: real, posJ: Vec3, massJ: real): (r: real)
    requires massI != 0.0
    requires Separation(posI, posJ) > 0.0
    ensures r * massI * Separation(posI, posJ) == G * massJ
    ensures r == 0.0 <==> massJ == 0.0
  {
    var d := Separation(posI, posJ);
    var f := G * massJ / d;
    assert f * d == G * massJ;
    assert f / massI * massI == f;
    f / massI
  }

  /**
   * The acceleration that a body of mass `massJ` at `posJ` gives a particle
   * of mass `massI` at `posI`: the pair factor along the unit vector towards
   * `posJ`; nothing when the two coincide.
   */
  function PairAcceleration(m: RealFns, posI: Vec3, massI: real, posJ: Vec3, massJ: real): (r: Vec3)
    requires Lawful(m)
    requires massI != 0.0
    ensures posI == posJ ==> r == Zero
  {
    if Separation(posI, posJ) > 0.0 then
      Scale(PairFactor(posI, massI, posJ, massJ), Normalize(m, Sub(posJ, posI)))
    else
      Zero
  }

  /**
   * For separated bodies the contribution has squared length
   * (G m_j / r^2 / m_i)^2, and it is posJ - posI times a factor that is
   * positive exactly when m_j / m_i is.
   */
  lemma PairAccelerationMagnitude(m: RealFns, posI: Vec3, massI: real, posJ: Vec3, massJ: real)
    requires Lawful(m)
    requires massI != 0.0
    requires posI != posJ
    ensures LengthSquared(PairAcceleration(m, posI, massI, posJ, massJ))
         == PairFactor(posI, massI, posJ, massJ) * PairFactor(posI, massI, posJ, massJ)
    ensures PairAcceleration(m, posI, massI, posJ, massJ)
         == Scale(PairFactor(posI, massI, posJ, massJ) * (1.0 / m.sqrt(Separation(posI, posJ))), Sub(posJ, posI))
    ensures PairFactor(posI, massI, posJ, massJ) > 0.0 <==> massJ / massI > 0.0
  {
    hide PairAcceleration, Normalize, PairFactor, Separation, Lawful, LengthSquared;
    PairAccelerationLength(m, posI, massI, posJ, massJ);
    PairAccelerationAlong(m, posI, massI, posJ, massJ);
    PairFactorSign(posI, massI, posJ, massJ);
  }

  /** The squared length of a separated pair's contribution is the pair factor squared. */
  lemma PairAccelerationLength(m: RealFns, posI: Vec3, massI: real, posJ: Vec3, massJ: real)
    requires Lawful(m)
    requires massI != 0.0
    requires posI != posJ
    ensures Separation(posI, posJ) > 0.0
    ensures LengthSquared(PairAcceleration(m, posI, massI, posJ, massJ))
         == PairFactor(posI, massI, posJ, massJ) * PairFactor(posI, massI, posJ, massJ)
  {
    hide PairAcceleration, Normalize, PairFactor, Separation, Lawful, LengthSquared;
    var d := Sub(posJ, posI);
    PairAccelerationForm(m, posI, massI, posJ, massJ);
    NormalizeIsUnit(m, d);
    LengthSquaredOfScaledUnit(PairFactor(posI, massI, posJ, massJ), Normalize(m, d),
      PairFactor(posI, massI, posJ, massJ) * PairFactor(posI, massI, posJ, massJ));
  }

  /** A separated pair's contribution is posJ - posI scaled by the pair factor over the distance. */
  lemma PairAccelerationAlong(m: RealFns, posI: Vec3, massI: real, posJ: Vec3, massJ: real)
    requires Lawful(m)
    requires massI != 0.0
    requires posI != posJ
    ensures Separation(posI, posJ) > 0.0
    ensures PairAcceleration(m, posI, massI, posJ, massJ)
         == Scale(PairFactor(posI, massI, posJ, massJ) * (1.0 / m.sqrt(Separation(posI, posJ))), Sub(posJ, posI))
  {
    hide PairAcceleration, Normalize, PairFactor, Separation, Lawful, LengthSquared;
    var d := Sub(posJ, posI);
    PairAccelerationForm(m, posI, massI, posJ, massJ);
    ScaleScale(PairFactor(posI, massI, posJ, massJ), 1.0 / m.sqrt(Separation(posI, posJ)), d);
  }

  /** For separated bodies the contribution is the pair factor along d / |d|, d = posJ - posI. */
  lemma PairAccelerationForm(m: RealFns, posI: Vec3, massI: real, posJ: Vec3, massJ: real)
    requires Lawful(m)
    requires massI != 0.0
    requires posI != posJ
    ensures Sub(posJ, posI) != Zero
    ensures Separation(posI, posJ) == LengthSquared(Sub(posJ, posI)) > 0.0
    ensures m.sqrt(Separation(posI, posJ)) > 0.0
    ensures PairAcceleration(m, posI, massI, posJ, massJ)
         == Scale(PairFactor(posI, massI, posJ, massJ), Normalize(m, Sub(posJ, posI)))
    ensures Normalize(m, Sub(posJ, posI)) == Scale(1.0 / m.sqrt(Separation(posI, posJ)), Sub(posJ, posI))
  {
    SubZeroIff(posJ, posI);
    SqrtPositive(m, Separation(posI, posJ));
  }

  /** G m_j / r^2 / m_i is positive exactly when m_j / m_i is. */
  lemma PairFactorSign(posI: Vec3, massI: real, posJ: Vec3, massJ: real)
    requires massI != 0.0
    requires Separation(posI, posJ) > 0.0
    ensures PairFactor(posI, massI, posJ, massJ) > 0.0 <==> massJ / massI > 0.0
  {
    assert PairFactor(posI, massI, posJ, massJ) == (G / Separation(posI, posJ)) * (massJ / massI);
    assert G / Separation(posI, posJ) > 0.0;
  }

  /**
   * The acceleration of particle `i` summed over the first `n` snapshot
   * entries in index order, skipping the particle itself.
   */
  function AccelerationUpTo(m: RealFns, positions: seq<Vec3>, masses: seq<real>, i: nat, n: nat): Vec3
    requires Lawful(m)
    requires |positions| == |masses|
    requires i < |masses| && masses[i] != 0.0
    requires n <= |masses|
  {
    if n == 0 then Zero
    else if n - 1 == i then AccelerationUpTo(m, positions, masses, i, n - 1)
    else Add(AccelerationUpTo(m, positions, masses, i, n - 1),
             PairAcceleration(m, positions[i], masses[i], positions[n - 1], masses[n - 1]))
  }

  /** The total acceleration of particle `i` from every other snapshot entry. */
  function Acceleration(m: RealFns, positions: seq<Vec3>, masses: seq<real>, i: nat): (r: Vec3)
    requires Lawful(m)
    requires |positions| == |masses|
    requires i < |masses| && masses[i] != 0.0
    ensures (forall j :: 0 <= j < |masses| && j != i ==> masses[j] == 0.0 || positions[j] == positions[i]) ==> r == Zero
  {
    var r := AccelerationUpTo(m, positions, masses, i, |masses|);
    assert (forall j :: 0 <= j < |masses| && j != i ==> masses[j] == 0.0 || positions[j] == positions[i]) ==> r == Zero by {
      if forall j :: 0 <= j < |masses| && j != i ==> masses[j] == 0.0 || positions[j] == positions[i] {
        AccelerationOfInertBodies(m, positions, masses, i, |masses|);
      }
    }
    r
  }

  /**
   * The loop of `update_velocities_with_gravity` for one particle: it walks
   * the snapshot in order, skips the particle itself and coincident bodies,
   * and adds every other contribution.
   */
  method ComputeAcceleration(m: RealFns, positions: seq<Vec3>, masses: seq<real>, i: nat) returns (acc: Vec3)
    requires Lawful(m)
    requires |positions| == |masses|
    requires i < |masses| && masses[i] != 0.0
    ensures acc == Acceleration(m, positions, masses, i)
  {
    hide PairAcceleration;
    acc := Zero;
    var j := 0;
    while j < |masses|
      invariant j <= |masses|
      invariant acc == AccelerationUpTo(m, positions, masses, i, j)
    {
      AccelerationStep(m, positions, masses, i, j);
      if i != j {
        if Separation(positions[i], positions[j]) > 0.0 {
          acc := Add(acc, PairAcceleration(m, positions[i], masses[i], positions[j], masses[j]));
        }
      }
      j := j + 1;
    }
    assert acc == AccelerationUpTo(m, positions, masses, i, |masses|);
  }

  /** One more snapshot entry adds its contribution, unless it is the particle itself or coincides with it. */
  lemma AccelerationStep(m: RealFns, positions: seq<Vec3>, masses: seq<real>, i: nat, j: nat)
    requires Lawful(m)
    requires |positions| == |masses|
    requires i < |masses| && masses[i] != 0.0
    requires j < |masses|
    ensures i != j && Separation(positions[i], positions[j]) > 0.0 ==>
              AccelerationUpTo(m, positions, masses, i, j + 1)
              == Add(AccelerationUpTo(m, positions, masses, i, j),
                     PairAcceleration(m, positions[i], masses[i], positions[j], masses[j]))
    ensures i == j || Separation(positions[i], positions[j]) == 0.0 ==>
              AccelerationUpTo(m, positions, masses, i, j + 1) == AccelerationUpTo(m, positions, masses, i, j)
  {
    hide PairAcceleration, Separation, Lawful;
    AddZero(AccelerationUpTo(m, positions, masses, i, j));
  }

  /** Bodies that all coincide with particle `i`, or all have zero mass, give no acceleration. */
  lemma {:induction false} AccelerationOfInertBodies(m: RealFns, positions: seq<Vec3>, masses: seq<real>, i: nat, n: nat)
    requires Lawful(m)
    requires |positions| == |masses|
    requires i < |masses| && masses[i] != 0.0
    requires n <= |masses|
    requires forall j :: 0 <= j < n && j != i ==> masses[j] == 0.0 || positions[j] == positions[i]
    ensures AccelerationUpTo(m, positions, masses, i, n) == Zero
  {
    hide PairAcceleration, Separation, Lawful;
    if n > 0 {
      AccelerationOfInertBodies(m, positions, masses, i, n - 1);
      if n - 1 != i {
        InertPair(m, positions[i], masses[i], positions[n - 1], masses[n - 1]);
        AddZero(Zero);
      }
    }
  }

  /** A body of zero mass, or one at the particle's own position, contributes nothing. */
  lemma InertPair(m: RealFns, posI: Vec3, massI: real, posJ: Vec3, massJ: real)
    requires Lawful(m)
    requires massI != 0.0
    requires massJ == 0.0 || posI == posJ
    ensures PairAcceleration(m, posI, massI, posJ, massJ) == Zero
  {
    if posI != posJ {
      assert PairFactor(posI, massI, posJ, massJ) == 0.0;
      ScaleZero(0.0, Normalize(m, Sub(posJ, posI)));
    }
  }

  /** A lone particle feels no acceleration. */
  lemma AccelerationOfSingleParticle(m: RealFns, positions: seq<Vec3>, masses: seq<real>)
    requires Lawful(m)
    requires |positions| == |masses| == 1
    requires masses[0] != 0.0
    ensures Acceleration(m, positions, masses, 0) == Zero
  {
    AccelerationOfInertBodies(m, positions, masses, 0, 1);
  }

  /** One particle after the gravity step: its velocity gains acceleration times delta_seconds. */
  function Accelerated(m: RealFns, positions: seq<Vec3>, masses: seq<real>, p: Particle, i: nat, deltaSeconds: real): Particle
    requires Lawful(m)
    requires |positions| == |masses|
    requires i < |masses| && masses[i] != 0.0
  {
    p.(velocity := Add(p.velocity, Scale(deltaSeconds, Acceleration(m, positions, masses, i))))
  }

  /**
   * `update_velocities_with_gravity`: snapshot every position and mass, then
   * give each particle its acceleration from the snapshot times delta_seconds.
   * The particle count and every position, mass and colour are kept.
   */
  function UpdateVelocities(m: RealFns, s: SimulationState, deltaSeconds: real): (r: SimulationState)
    requires Lawful(m)
    requires MassesNonzero(s.particles)
    ensures |r.particles| == |s.particles|
    ensures r.scale == s.scale && r.dt == s.dt
    ensures forall i :: 0 <= i < |s.particles| ==>
              r.particles[i].position == s.particles[i].position
              && r.particles[i].mass == s.particles[i].mass
              && r.particles[i].color == s.particles[i].color
    ensures forall i :: 0 <= i < |s.particles| ==>
              Sub(r.particles[i].velocity, s.particles[i].velocity)
              == Scale(deltaSeconds, Acceleration(m, Positions(s.particles), Masses(s.particles), i))
    ensures MassesNonzero(r.particles)
  {
    VelocityGain(m, s.particles, deltaSeconds);
    s.(particles := seq(|s.particles|, i requires 0 <= i < |s.particles| =>
         Accelerated(m, Positions(s.particles), Masses(s.particles), s.particles[i], i, deltaSeconds)))
  }

  /** Each accelerated particle gains exactly its acceleration times delta_seconds. */
  lemma VelocityGain(m: RealFns, ps: seq<Particle>, deltaSeconds: real)
    requires Lawful(m)
    requires MassesNonzero(ps)
    ensures forall i :: 0 <= i < |ps| ==>
              Sub(Accelerated(m, Positions(ps), Masses(ps), ps[i], i, deltaSeconds).velocity, ps[i].velocity)
              == Scale(deltaSeconds, Acceleration(m, Positions(ps), Masses(ps), i))
  {
    hide Acceleration;
    forall i | 0 <= i < |ps|
      ensures Sub(Accelerated(m, Positions(ps), Masses(ps), ps[i], i, deltaSeconds).velocity, ps[i].velocity)
              == Scale(deltaSeconds, Acceleration(m, Positions(ps), Masses(ps), i))
    {
      var v := ps[i].velocity;
      var d := Scale(deltaSeconds, Acceleration(m, Positions(ps), Masses(ps), i));
      assert Sub(Add(v, d), v) == d;
    }
  }

  /**
   * Each new velocity depends only on the pre-step state: two states with the
   * same positions and masses give every particle the same velocity change,
   * whatever the velocities were.
   */
  lemma VelocityChangeDependsOnSnapshot(m: RealFns, s1: SimulationState, s2: SimulationState, deltaSeconds: real, i: nat)
    requires Lawful(m)
    requires MassesNonzero(s1.particles)
    requires Positions(s1.particles) == Positions(s2.particles)
    requires Masses(s1.particles) == Masses(s2.particles)
    requires i < |s1.particles|
    ensures MassesNonzero(s2.particles)
    ensures Sub(UpdateVelocities(m, s1, deltaSeconds).particles[i].velocity, s1.particles[i].velocity)
         == Sub(UpdateVelocities(m, s2, deltaSeconds).particles[i].velocity, s2.particles[i].velocity)
  {
    assert forall j :: 0 <= j < |s2.particles| ==> s2.particles[j].mass == Masses(s2.particles)[j];
  }

  /** With delta_seconds = 0 the step changes nothing. */
  lemma UpdateVelocitiesZeroDelta(m: RealFns, s: SimulationState)
    requires Lawful(m)
    requires MassesNonzero(s.particles)
    ensures UpdateVelocities(m, s, 0.0) == s
  {
    var r := UpdateVelocities(m, s, 0.0);
    forall i | 0 <= i < |s.particles|
      ensures r.particles[i] == s.particles[i]
    {
      ScaleZero(0.0, Acceleration(m, Positions(s.particles), Masses(s.particles), i));
      AddZero(s.particles[i].velocity);
    }
  }

  /** With a single particle the step changes nothing. */
  lemma UpdateVelocitiesSingleParticle(m: RealFns, s: SimulationState, deltaSeconds: real)
    requires Lawful(m)
    requires MassesNonzero(s.particles)
    requires |s.particles| == 1
    ensures UpdateVelocities(m, s, deltaSeconds) == s
  {
    AccelerationOfSingleParticle(m, Positions(s.particles), Masses(s.particles));
    ScaleZero(deltaSeconds, Zero);
    AddZero(s.particles[0].velocity);
    assert UpdateVelocities(m, s, deltaSeconds).particles[0] == s.particles[0];
  }

  /** `order` lists every index below n exactly once. */
  predicate IsOrdering(order: seq<nat>, n: nat) {
    && |order| == n
    && (forall k :: 0 <= k < n ==> order[k] < n)
    && (forall k, l :: 0 <= k < l < n ==> order[k] != order[l])
    && (forall i :: 0 <= i < n ==> i in order)
  }

  /**
   * The velocity update applied in place, one particle at a time, in any
   * order (as the parallel iterator may): because every acceleration reads
   * the snapshot, the result is the same as `UpdateVelocities`.
   */
  method UpdateVelocitiesInOrder(m: RealFns, s: SimulationState, deltaSeconds: real, order: seq<nat>)
    returns (r: SimulationState)
    requires Lawful(m)
    requires MassesNonzero(s.particles)
    requires IsOrdering(order, |s.particles|)
    ensures r == UpdateVelocities(m, s, deltaSeconds)
  {
    hide PairAcceleration;
    var positions := Positions(s.particles);
    var masses := Masses(s.particles);
    var ps := s.particles;
    var k := 0;
    while k < |order|
      invariant k <= |order|
      invariant |ps| == |s.particles|
      invariant forall i :: 0 <= i < |ps| && i in order[..k] ==>
                  ps[i] == Accelerated(m, positions, masses, s.particles[i], i, deltaSeconds)
      invariant forall i :: 0 <= i < |ps| && i !in order[..k] ==> ps[i] == s.particles[i]
    {
      var i := order[k];
      assert i !in order[..k];
      assert ps[i] == s.particles[i];
      ps := ps[i := Accelerated(m, positions, masses, ps[i], i, deltaSeconds)];
      assert order[..k + 1] == order[..k] + [i];
      k := k + 1;
    }
    assert order[..k] == order;
    r := s.(particles := ps);
  }

  /**
   * The contributions of a separated pair to each other, weighed by each
   * body's own mass, cancel exactly when the two masses are equal: since the
   * source divides G m_j / r^2 by the particle's own mass a second time,
   * momentum balances only for equal masses.
   */
  lemma PairMomentumBalance(m: RealFns, posI: Vec3, massI: real, posJ: Vec3, massJ: real)
    requires Lawful(m)
    requires massI > 0.0 && massJ > 0.0
    requires posI != posJ
    ensures Add(Scale(massI, PairAcceleration(m, posI, massI, posJ, massJ)),
                Scale(massJ, PairAcceleration(m, posJ, massJ, posI, massI))) == Zero
        <==> massI == massJ
  {
    var d := Sub(posJ, posI);
    var u := Normalize(m, d);
    var ci := PairFactor(posI, massI, posJ, massJ);
    var cj := PairFactor(posJ, massJ, posI, massI);
    var a := PairAcceleration(m, posI, massI, posJ, massJ);
    var b := PairAcceleration(m, posJ, massJ, posI, massI);
    assert a == Scale(ci, u);
    ReversedPair(m, posI, massI, posJ, massJ);
    NormalizeIsUnit(m, d);
    SeparationSymmetric(posI, posJ);
    CancelOwnMass(massI, massJ, Separation(posI, posJ), ci, cj);
    hide PairAcceleration, Normalize, Scale, Add, PairFactor, Separation;
    MomentumSum(massI, massJ, ci, cj, u, a, b);
    ScaleZero(massI * ci - massJ * cj, u);
  }

  /** Seen from the other particle, the pull points the opposite way along the same unit vector. */
  lemma ReversedPair(m: RealFns, posI: Vec3, massI: real, posJ: Vec3, massJ: real)
    requires Lawful(m)
    requires massI > 0.0 && massJ > 0.0
    requires posI != posJ
    ensures PairAcceleration(m, posJ, massJ, posI, massI)
         == Scale(-PairFactor(posJ, massJ, posI, massI), Normalize(m, Sub(posJ, posI)))
  {
    hide PairAcceleration, Normalize, PairFactor, Separation, Lawful, LengthSquared;
    var d := Sub(posJ, posI);
    var cj := PairFactor(posJ, massJ, posI, massI);
    PairAccelerationForm(m, posJ, massJ, posI, massI);
    assert Sub(posI, posJ) == Neg(d);
    SubZeroIff(posJ, posI);
    NormalizeIsUnit(m, d);
    var u := Normalize(m, d);
    assert Scale(cj, Neg(u)) == Scale(-cj, u);
  }

  /** With a = ci u and b = -cj u, m_i a + m_j b = (m_i ci - m_j cj) u. */
  lemma MomentumSum(massI: real, massJ: real, ci: real, cj: real, u: Vec3, a: Vec3, b: Vec3)
    requires a == Scale(ci, u) && b == Scale(-cj, u)
    ensures Add(Scale(massI, a), Scale(massJ, b)) == Scale(massI * ci - massJ * cj, u)
  {
    hide Scale, Add;
    ScaleScale(massI, ci, u);
    var n := -cj;
    assert b == Scale(n, u);
    ScaleScale(massJ, n, u);
    assert Scale(massI, a) == Scale(massI * ci, u);
    assert Scale(massJ, b) == Scale(massJ * n, u);
    AddScales(massI * ci, massJ * n, u);
    ScaleBySame(massI * ci + massJ * n, massI * ci - massJ * cj, u);
  }

  /** m_i (G m_j / l / m_i) - m_j (G m_i / l / m_j) is zero exactly when m_i = m_j. */
  lemma CancelOwnMass(massI: real, massJ: real, l: real, ci: real, cj: real)
    requires massI > 0.0 && massJ > 0.0 && l > 0.0
    requires ci == G * massJ / l / massI && cj == G * massI / l / massJ
    ensures massI * ci - massJ * cj == 0.0 <==> massI == massJ
  {
    assert massI * ci == G * massJ / l;
    assert massJ * cj == G * massI / l;
    assert massI * ci - massJ * cj == (G / l) * (massJ - massI);
    if massI * ci - massJ * cj == 0.0 {
      ZeroProduct(G / l, massJ - massI);
    }
  }

  /**
   * The pair factor the force law intends: G m_j / r^2 is already the
   * acceleration of particle i, with no further division by its own mass.
   */
  function NewtonPairFactor(posI: Vec3, posJ: Vec3, massJ: real): (r: real)
    requires Separation(posI, posJ) > 0.0
    ensures r * Separation(posI, posJ) == G * massJ
    ensures r == 0.0 <==> massJ == 0.0
  {
    var d := Separation(posI, posJ);
    assert G * massJ / d * d == G * massJ;
    G * massJ / d
  }

  /**
   * The factor as written is the intended one divided once more by the
   * particle's own mass.
   */
  lemma PairFactorOverOwnMass(posI: Vec3, massI: real, posJ: Vec3, massJ: real)
    requires massI != 0.0
    requires Separation(posI, posJ) > 0.0
    ensures PairFactor(posI, massI, posJ, massJ) * massI == NewtonPairFactor(posI, posJ, massJ)
  {
    hide PairFactor, NewtonPairFactor;
    var d := Separation(posI, posJ);
    var f := PairFactor(posI, massI, posJ, massJ);
    var n := NewtonPairFactor(posI, posJ, massJ);
    assert (f * massI) * d == n * d;
    assert (f * massI - n) * d == 0.0;
    ZeroProduct(f * massI - n, d);
  }

  /** The intended contribution of body j: `NewtonPairFactor` along the unit vector towards it. */
  function NewtonPairAcceleration(m: RealFns, posI: Vec3, posJ: Vec3, massJ: real): (r: Vec3)
    requires Lawful(m)
    ensures posI == posJ ==> r == Zero
  {
    if Separation(posI, posJ) > 0.0 then
      Scale(NewtonPairFactor(posI, posJ, massJ), Normalize(m, Sub(posJ, posI)))
    else
      Zero
  }

  /**
   * With the intended law the contributions of a separated pair, weighed by
   * each body's own mass, cancel for every pair of masses: momentum balances.
   */
  lemma NewtonMomentumBalance(m: RealFns, posI: Vec3, massI: real, posJ: Vec3, massJ: real)
    requires Lawful(m)
    requires posI != posJ
    ensures Add(Scale(massI, NewtonPairAcceleration(m, posI, posJ, massJ)),
                Scale(massJ, NewtonPairAcceleration(m, posJ, posI, massI))) == Zero
  {
    hide NewtonPairAcceleration, Normalize, Scale, Add, NewtonPairFactor, Separation, Lawful;
    var d := Sub(posJ, posI);
    NewtonPairForm(m, posI, posJ, massJ);
    NewtonReversedPair(m, posI, posJ, massI);
    SeparationSymmetric(posI, posJ);
    var u := Normalize(m, d);
    var ci := NewtonPairFactor(posI, posJ, massJ);
    var cj := NewtonPairFactor(posJ, posI, massI);
    NewtonCancel(massI, massJ, Separation(posI, posJ), ci, cj);
    MomentumSum(massI, massJ, ci, cj, u, NewtonPairAcceleration(m, posI, posJ, massJ),
                NewtonPairAcceleration(m, posJ, posI, massI));
    ScaleZero(massI * ci - massJ * cj, u);
  }

  /** For separated bodies the intended contribution is `NewtonPairFactor` along d / |d|, d = posJ - posI. */
  lemma NewtonPairForm(m: RealFns, posI: Vec3, posJ: Vec3, massJ: real)
    requires Lawful(m)
    requires posI != posJ
    ensures Sub(posJ, posI) != Zero
    ensures Separation(posI, posJ) > 0.0
    ensures NewtonPairAcceleration(m, posI, posJ, massJ)
         == Scale(NewtonPairFactor(posI, posJ, massJ), Normalize(m, Sub(posJ, posI)))
  {
    SubZeroIff(posJ, posI);
  }

  /** Seen from body j, the intended pull points the opposite way along the same unit vector. */
  lemma NewtonReversedPair(m: RealFns, posI: Vec3, posJ: Vec3, massI: real)
    requires Lawful(m)
    requires posI != posJ
    ensures Separation(posJ, posI) > 0.0
    ensures NewtonPairAcceleration(m, posJ, posI, massI)
         == Scale(-NewtonPairFactor(posJ, posI, massI), Normalize(m, Sub(posJ, posI)))
  {
    hide NewtonPairAcceleration, NewtonPairFactor, Normalize, Lawful, Separation;
    NewtonPairForm(m, posJ, posI, massI);
    var d := Sub(posJ, posI);
    SubZeroIff(posJ, posI);
    NormalizeIsUnit(m, d);
    assert Sub(posI, posJ) == Neg(d);
    var cj := NewtonPairFactor(posJ, posI, massI);
    var u := Normalize(m, d);
    assert Scale(cj, Neg(u)) == Scale(-cj, u);
  }

  /** With c_i r^2 = G m_j and c_j r^2 = G m_i: m_i c_i - m_j c_j = 0. */
  lemma NewtonCancel(massI: real, massJ: real, l: real, ci: real, cj: real)
    requires l > 0.0 && ci * l == G * massJ && cj * l == G * massI
    ensures massI * ci - massJ * cj == 0.0
  {
    assert (massI * ci - massJ * cj) * l == massI * (ci * l) - massJ * (cj * l);
    assert (massI * ci - massJ * cj) * l == 0.0;
    ZeroProduct(massI * ci - massJ * cj, l);
  }

  /** One particle after `advance_time`: its position moves by velocity times delta_seconds. */
  function Advanced(p: Particle, deltaSeconds: real): Particle {
    p.(position := Add(p.position, Scale(deltaSeconds, p.velocity)))
  }

  /** `advance_time`: every position moves by its velocity times delta_seconds; nothing else changes. */
  function AdvanceTime(s: SimulationState, deltaSeconds: real): (r: SimulationState)
    ensures |r.particles| == |s.particles|
    ensures r.scale == s.scale && r.dt == s.dt
    ensures forall i :: 0 <= i < |s.particles| ==>
              r.particles[i].velocity == s.particles[i].velocity
              && r.particles[i].mass == s.particles[i].mass
              && r.particles[i].color == s.particles[i].color
    ensures forall i :: 0 <= i < |s.particles| ==>
              Sub(r.particles[i].position, s.particles[i].position) == Scale(deltaSeconds, s.particles[i].velocity)
  {
    AdvanceMoves(s.particles, deltaSeconds);
    s.(particles := seq(|s.particles|, i requires 0 <= i < |s.particles| => Advanced(s.particles[i], deltaSeconds)))
  }

  /** Each advanced particle is displaced by exactly its velocity times delta_seconds. */
  lemma AdvanceMoves(ps: seq<Particle>, deltaSeconds: real)
    ensures forall i :: 0 <= i < |ps| ==>
              Sub(Advanced(ps[i], deltaSeconds).position, ps[i].position) == Scale(deltaSeconds, ps[i].velocity)
  {
    forall i | 0 <= i < |ps|
      ensures Sub(Advanced(ps[i], deltaSeconds).position, ps[i].position) == Scale(deltaSeconds, ps[i].velocity)
    {
      var p := ps[i].position;
      var d := Scale(deltaSeconds, ps[i].velocity);
      assert Sub(Add(p, d), p) == d;
    }
  }

  /** Advancing by zero is the identity. */
  lemma AdvanceTimeZero(s: SimulationState)
    ensures AdvanceTime(s, 0.0) == s
  {
    forall i | 0 <= i < |s.particles|
      ensures AdvanceTime(s, 0.0).particles[i] == s.particles[i]
    {
      ScaleZero(0.0, s.particles[i].velocity);
      AddZero(s.particles[i].position);
    }
  }

  /** Advancing by a and then by b is advancing by a + b, since velocities do not change. */
  lemma AdvanceTimeAdditive(s: SimulationState, a: real, b: real)
    ensures AdvanceTime(AdvanceTime(s, a), b) == AdvanceTime(s, a + b)
  {
    forall i | 0 <= i < |s.particles|
      ensures AdvanceTime(AdvanceTime(s, a), b).particles[i] == AdvanceTime(s, a + b).particles[i]
    {
      AddScales(a, b, s.particles[i].velocity);
    }
  }

  /** Advancing by -dt undoes advancing by dt. */
  lemma AdvanceTimeReversible(s: SimulationState, dt: real)
    ensures AdvanceTime(AdvanceTime(s, dt), -dt) == s
  {
    AdvanceTimeAdditive(s, dt, -dt);
    AdvanceTimeZero(s);
  }

  /**
   * One frame of the simulation thread: `advance_time` and then
   * `update_velocities_with_gravity`, both by the same frame time.
   */
  function Frame(m: RealFns, s: SimulationState, deltaSeconds: real): (r: SimulationState)
    requires Lawful(m)
    requires MassesNonzero(s.particles)
    ensures |r.particles| == |s.particles|
    ensures MassesNonzero(r.particles)
  {
    var moved := AdvanceTime(s, deltaSeconds);
    assert MassesNonzero(moved.particles) by {
      forall k | 0 <= k < |moved.particles|
        ensures moved.particles[k].mass != 0.0
      {
        assert moved.particles[k].mass == s.particles[k].mass;
      }
    }
    UpdateVelocities(m, moved, deltaSeconds)
  }

  /**
   * In one frame each particle moves from p to p + dt v with its old
   * velocity v, and then v gains dt times the acceleration computed at the
   * moved positions; mass and colour stay.
   */
  lemma FrameStep(m: RealFns, s: SimulationState, deltaSeconds: real, i: nat)
    requires Lawful(m)
    requires MassesNonzero(s.particles)
    requires i < |s.particles|
    ensures var r := Frame(m, s, deltaSeconds).particles[i];
            && r.position == Add(s.particles[i].position, Scale(deltaSeconds, s.particles[i].velocity))
            && r.velocity == Add(s.particles[i].velocity,
                                 Scale(deltaSeconds, Acceleration(m, Positions(AdvanceTime(s, deltaSeconds).particles),
                                                                  Masses(s.particles), i)))
            && r.mass == s.particles[i].mass
            && r.color == s.particles[i].color
  {
    var moved := AdvanceTime(s, deltaSeconds);
    var r := Frame(m, s, deltaSeconds).particles[i];
    assert Masses(moved.particles) == Masses(s.particles);
    assert r == UpdateVelocities(m, moved, deltaSeconds).particles[i];
    SubAddBack(r.position, s.particles[i].position, Scale(deltaSeconds, s.particles[i].velocity));
    SubAddBack(r.velocity, s.particles[i].velocity,
               Scale(deltaSeconds, Acceleration(m, Positions(moved.particles), Masses(moved.particles), i)));
  }

  /** a - b = d gives a = b + d. */
  lemma SubAddBack(a: Vec3, b: Vec3, d: Vec3)
    requires Sub(a, b) == d
    ensures a == Add(b, d)
  {
  }

  /** `Default`: no particles, scale 1 and dt 1. */
  function DefaultState(): (r: SimulationState)
    ensures r.particles == [] && r.scale == 1.0 && r.dt == 1.0
  {
    SimulationState([], 1.0, 1.0)
  }

  /** Both steps leave the default state as it is. */
  lemma DefaultStateIsFixed(m: RealFns, deltaSeconds: real)
    requires Lawful(m)
    ensures UpdateVelocities(m, DefaultState(), deltaSeconds) == DefaultState()
    ensures AdvanceTime(DefaultState(), deltaSeconds) == DefaultState()
  {
  }

  /** The five colours `init_particles` cycles through: reddish, bluish, yellowish, purplish, cyanish. */
  function Palette(k: nat): (c: Color)
    requires k < 5
    ensures c.a == 1.0
  {
    match k
    case 0 => Color(1.0, 0.3, 0.2, 1.0)
    case 1 => Color(0.2, 0.5, 1.0, 1.0)
    case 2 => Color(1.0, 0.8, 0.2, 1.0)
    case 3 => Color(0.9, 0.4, 1.0, 1.0)
    case 4 => Color(0.6, 1.0, 0.8, 1.0)
  }

  /** The colour of particle i is chosen by i mod 5. */
  function ColorOf(i: nat): Color {
    Palette(i % 5)
  }

  /** The colours repeat with period 5, and five consecutive particles all differ in colour. */
  lemma ColorOfPeriodic(i: nat)
    ensures ColorOf(i + 5) == ColorOf(i)
    ensures ColorOf(i + 1) != ColorOf(i) && ColorOf(i + 2) != ColorOf(i)
    ensures ColorOf(i + 3) != ColorOf(i) && ColorOf(i + 4) != ColorOf(i)
  {
    assert (i + 5) % 5 == i % 5;
  }

  /** The scale of the initial state: 1e10 metres per simulation unit. */
  const InitialScale: real := 10000000000.0

  /** The frame duration of the initial state in seconds. */
  const InitialDt: real := 10.5

  /** The largest initial speed component, 1e-6 simulation units per second. */
  const SpeedMax: real := 0.000001

  /** The mass range [1e31, 1e33) kg scaled by (1 / 1e10)^3, that is [10, 1000). */
  const MassLow: real := 10000000000000000000000000000000.0 * (1.0 / 10000000000.0) * (1.0 / 10000000000.0) * (1.0 / 10000000000.0)
  const MassHigh: real := 1000000000000000000000000000000000.0 * (1.0 / 10000000000.0) * (1.0 / 10000000000.0) * (1.0 / 10000000000.0)

  /** The random numbers drawn for one particle, in the order the source draws them. */
  datatype Draw = Draw(position: Vec3, velocity: Vec3, mass: real)

  /** x lies in the half-open range [lo, hi), as `random_range(lo..hi)` promises. */
  predicate InRange(x: real, lo: real, hi: real) {
    lo <= x < hi
  }

  /** The draw lies in the ranges `init_particles` asks for. */
  predicate DrawInRange(d: Draw) {
    && InRange(d.position.x, -1.0, 1.0) && InRange(d.position.y, -1.0, 1.0) && InRange(d.position.z, -1.0, 1.0)
    && InRange(d.velocity.x, -SpeedMax, SpeedMax) && InRange(d.velocity.y, -SpeedMax, SpeedMax)
    && InRange(d.velocity.z, -SpeedMax, SpeedMax)
    && InRange(d.mass, MassLow, MassHigh)
  }

  /**
   * `init_particles` with the random numbers supplied: one particle per draw,
   * coloured by its index mod 5, together with scale 1e10 and dt 10.5.
   */
  function InitParticles(draws: seq<Draw>): (r: SimulationState)
    ensures |r.particles| == |draws|
    ensures r.scale == 10000000000.0 && r.dt == 10.5
    ensures forall i :: 0 <= i < |draws| ==> r.particles[i].color == Palette(i % 5)
    ensures forall i :: 0 <= i < |draws| ==>
              && r.particles[i].position == draws[i].position
              && r.particles[i].velocity == draws[i].velocity
              && r.particles[i].mass == draws[i].mass
  {
    SimulationState(
      seq(|draws|, i requires 0 <= i < |draws| =>
        Particle(draws[i].position, draws[i].velocity, draws[i].mass, ColorOf(i))),
      InitialScale, InitialDt)
  }

  /**
   * Every mass `init_particles` can draw lies in [10, 1000), so the initial
   * state satisfies what the gravity step needs.
   */
  lemma InitParticlesMasses(draws: seq<Draw>)
    requires forall i :: 0 <= i < |draws| ==> DrawInRange(draws[i])
    ensures MassLow == 10.0 && MassHigh == 1000.0
    ensures forall i :: 0 <= i < |draws| ==>
              10.0 <= InitParticles(draws).particles[i].mass < 1000.0
    ensures MassesNonzero(InitParticles(draws).particles)
  {
  }
}
