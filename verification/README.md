# dual-spacetime-simulator core, in Dafny

A model of the algebra and bookkeeping routines of the dual-spacetime N-body
simulator. The system is a Rust program: particles move under Newtonian
gravity, and a small library of hypercomplex number types (spacetime
four-vectors, boost bivectors and the 16-dimensional tetraquaternions)
describes the intended relativistic extensions. The model covers:

- **`Tetra`** (`tetraquaternion.dfy`): the quaternion-unit product `quat_mul`, the
  15 unit pairs of `BASIS` and their inverse `get_basis_index`, the 15×15
  sign/index table `compute_mul_table`/`MUL_TABLE`, and the 16-coefficient
  `TetraQuaternion` with `new`, `one`, `basis`, `Add`, `Sub`, `Mul`, their
  `*Assign` forms and `is_zero`.
- **`SpacetimeAlgebra`** (`spacetime.dfy`): the `Spacetime` four-vector with its
  constructors, setters, indexed access, the norm x²+y²+z²−t², conjugation,
  `abs`, `arg`, `exp`/`exp_versor`, the quadratic map `lorentz_transformation`
  and its velocity and rapidity forms, `velocities`, `rapidity_vector`,
  `rapidity_from_momentum` and `fuzzy_compare`.
- **`Bivectors`** (`bivector.dfy`): `BivectorBoost::{norm_squared, norm, exp,
  from_velocity}` and the six plain structs.
- **`Simulation`** (`simulation.dfy`): `Particle`, `SimulationState`, the
  gravity step `update_velocities_with_gravity`, `advance_time`, `Default`,
  and `init_particles` with its random draws supplied as a parameter.
- **`UiFormat`** (`ui_format.dfy`): the two pure display helpers
  `format_simulation_time` (a day/h/m/s clock) and `format_scale` (a unit chosen
  by thresholds).
- **`Vectors`** and **`RealMath`** are support modules. `Vectors` is a stand-in for
  glam's `DVec3`. `RealMath` holds the interface to the real functions.

`f64` is modelled as `real`. `sqrt`, `sinh`, `cosh`, `tanh` and `atanh` are
fields of a `RealFns` value passed to every operation that uses them. The
predicate `Lawful` states the facts the proofs rely on:

- `sqrt` is non-negative and squares back to its argument;
- cosh² − sinh² = 1;
- the values of the functions at 0.

Only the corrected velocity round trip and `ArgOfTimelike` also assume
`HyperbolicInverse`, described under Findings.

Mutating Rust methods are modelled as pure functions that return the new
value: the setters, `get_mut`, `*Assign`, `update_velocities_with_gravity` and
`advance_time`. `AddAssign`, `SubAssign` and the acceleration sum are also
written as loop methods and proved equal to the functions; `MulAssign` is a
single assignment, as in the source.

The model follows the code as written, in particular:

- the gravity guard is `r² > 0`, with no tolerance;
- only the Newtonian advance exists, and the simulation type is never consulted;
- each pair contributes G·m_j/r²/m_i, which divides by the particle's own mass.
  `Simulation.PairMomentumBalance` shows the consequence: the two forces of a
  pair cancel only when the masses are equal. This is listed under Findings;
- `velocities`, `rapidity_vector` and the two boost conversions use the squared
  length where a length is meant. The lemmas state the quantities that result
  instead of the unit-direction properties the names suggest.

## Model

| member | source | states |
|---|---|---|
| `Tetra.QuatMul` | src/math/tetraquaternion.rs:11-25 | R is a two-sided unit with sign +1; each of I, J, K squares to −R; the result is real exactly when the factors are equal; two distinct imaginary units give the third one |
| `Tetra.QuatMulAnticommutes` | src/math/tetraquaternion.rs:11-25 | distinct imaginary units anticommute (same unit, opposite sign), with I·J = K, J·K = I, K·I = J |
| `Tetra.BasisIndex` | src/math/tetraquaternion.rs:45-64 | every pair other than (R, R) gets an index below 15 at which `BASIS` holds that very pair |
| `Tetra.BasisIndexInvertsBasis` | src/math/tetraquaternion.rs:27-64 | no basis entry is (R, R), and looking up `BASIS[n]` gives back n |
| `Tetra.BasisInjective` | src/math/tetraquaternion.rs:27-43 | the 15 basis pairs are pairwise distinct |
| `Tetra.MulEntry` | src/math/tetraquaternion.rs:66-89 | every table entry has sign ±1 and an output coefficient below 16, and that coefficient is the real part exactly when left == right |
| `Tetra.ComputeMulTable` | src/math/tetraquaternion.rs:66-89 | the nested loop fills a 15×15 table whose entry (left, right) is the entry computed from the two basis pairs, and that table is `MUL_TABLE` |
| `Tetra.MulTablePinnedEntries` | src/math/tetraquaternion.rs:251-292 | the ten table entries the repository's tests pin, including j·i = −k against i·j = +k (coefficient 11 is the unit k) |
| `Tetra.BasisSquares` | src/math/tetraquaternion.rs:263-292 | every basis element squares to a real number: +1 when both of its units are imaginary, −1 when one of them is R |
| `Tetra.TableEqualsMulTable` | src/math/tetraquaternion.rs:66-91 | any 15×15 table holding the computed entries is the multiplication table |
| `Tetra.New` | src/math/tetraquaternion.rs:100-105 | coefficient 0 is the real part and coefficients 1..15 are the given bases in order |
| `Tetra.One` | src/math/tetraquaternion.rs:107-111 | `one()` is the real unit: 1 at coefficient 0 and 0 elsewhere |
| `Tetra.BasisElement` | src/math/tetraquaternion.rs:113-118 | `basis(i)` has coefficient 1 at i + 1 and 0 everywhere else |
| `Tetra.Add` | src/math/tetraquaternion.rs:121-130 | addition is componentwise on all 16 coefficients |
| `Tetra.Sub` | src/math/tetraquaternion.rs:164-173 | subtraction is componentwise on all 16 coefficients |
| `Tetra.AddSubInverse` | src/math/tetraquaternion.rs:121-173 | subtracting undoes adding and adding undoes subtracting; addition commutes |
| `Tetra.AddAssign` | src/math/tetraquaternion.rs:156-162 | the in-place loop yields the same value as `Add` |
| `Tetra.SubAssign` | src/math/tetraquaternion.rs:175-181 | the in-place loop yields the same value as `Sub` |
| `Tetra.MulAssign` | src/math/tetraquaternion.rs:183-187 | `*=` yields the same value as `Mul` |
| `Tetra.Mul` | src/math/tetraquaternion.rs:132-154 | with a purely real operand on either side the sweep over the basis pairs adds nothing, so the product is the real-part terms alone: x₀y₀ at coefficient 0 and x₀yₙ + xₙy₀ at each other one |
| `Tetra.AccumulateScalar` | src/math/tetraquaternion.rs:141-151 | when either operand is purely real, the table sweep over the 225 basis pairs adds nothing |
| `Tetra.MulByScalar` | src/math/tetraquaternion.rs:132-154 | multiplying by a real number k on either side scales every coefficient by k |
| `Tetra.OneIsIdentity` | src/math/tetraquaternion.rs:107-154 | `one()` is a two-sided identity for `Mul` on every tetraquaternion |
| `Tetra.AccumulateBasisPair` | src/math/tetraquaternion.rs:141-151 | for two basis elements only their own pair contributes to the table sweep: the sweep adds the table sign at the table's output coefficient exactly while that pair is still ahead |
| `Tetra.AccumulateBasis` | src/math/tetraquaternion.rs:132-154 | over any well-formed table, the full sweep for basis elements i and j yields the signed unit the table names at (i, j) |
| `Tetra.BasisProduct` | src/math/tetraquaternion.rs:132-154 | the product of basis elements i and j is the table's sign times the unit at the table's output coefficient |
| `Tetra.TestedSquareJ` | src/math/tetraquaternion.rs:305-307 | j·j has real part −1 |
| `Tetra.TestedSquareII` | src/math/tetraquaternion.rs:309-311 | iI·iI has real part +1 |
| `Tetra.TestedProductJKI` | src/math/tetraquaternion.rs:300-303 | j·kI has coefficient 1 at iI |
| `Tetra.TestedProductJK` | src/math/tetraquaternion.rs:331-338 | j·k has coefficient 1 at i |
| `Tetra.TestedIdentityProducts` | src/math/tetraquaternion.rs:323-329 | one·j = j and j·one = j |
| `Tetra.TestedAddition` | src/math/tetraquaternion.rs:314-321 | (1 + 0) + j has real part 1 and j-coefficient 1 |
| `Tetra.IsZero` | src/math/tetraquaternion.rs:189-193 | holds exactly when every coefficient has absolute value below 1e-10 |
| `SpacetimeAlgebra.FuzzyCompare` | src/math/spacetime.rs:4-8 | holds exactly when the two numbers differ by less than 1e-10 |
| `SpacetimeAlgebra.FuzzyCompareReflexiveSymmetric` | src/math/spacetime.rs:6-8 | the scalar comparison is reflexive and symmetric |
| `SpacetimeAlgebra.FromT` | src/math/spacetime.rs:23-25 | t is set and the spatial part is zero |
| `SpacetimeAlgebra.FromVector3` | src/math/spacetime.rs:27-29 | t is zero and the spatial part is the vector |
| `SpacetimeAlgebra.FromArray` | src/math/spacetime.rs:31-34 | the four components are the first four array elements |
| `SpacetimeAlgebra.FromArrayIndex` | src/math/spacetime.rs:36-39 | the four components are the array elements index..index+3; the array must hold index + 4 elements |
| `SpacetimeAlgebra.ArrayRoundTrip` | src/math/spacetime.rs:31-39 | reading a four-vector's components back from any array that embeds them, at the start or after a prefix, gives the four-vector |
| `SpacetimeAlgebra.FromArrayIndexIsShift` | src/math/spacetime.rs:31-39 | reading at an index is reading from the array's suffix at that index |
| `SpacetimeAlgebra.SetValues` | src/math/spacetime.rs:41-46 | the result's components are exactly the four given values, whatever the old ones |
| `SpacetimeAlgebra.SetTOnly` | src/math/spacetime.rs:48-53 | the result has the given t and a zero spatial part |
| `SpacetimeAlgebra.SetFromArray` | src/math/spacetime.rs:55-61 | the result is the four-vector the array's first four elements describe |
| `SpacetimeAlgebra.SetFromArrayIndex` | src/math/spacetime.rs:63-69 | the result is the four-vector of elements index..index+3 |
| `SpacetimeAlgebra.Get` | src/math/spacetime.rs:89-97 | indices 0..3 read t, x, y, z; any other index is a panic and hence a precondition |
| `SpacetimeAlgebra.SetComponent` | src/math/spacetime.rs:99-107 | writing through `get_mut(i)` changes component i to the value and leaves the other three alone |
| `SpacetimeAlgebra.GetExtensional` | src/math/spacetime.rs:89-97 | two four-vectors are equal exactly when `get` agrees on all four indices |
| `SpacetimeAlgebra.SetComponentOfGet` | src/math/spacetime.rs:89-107 | writing back the value just read changes nothing |
| `SpacetimeAlgebra.FuzzyCompareSpacetime` | src/math/spacetime.rs:196-201 | four-vectors compare equal exactly when all four components do |
| `SpacetimeAlgebra.FuzzyCompareSpacetimeReflexiveSymmetric` | src/math/spacetime.rs:196-201 | the four-vector comparison is reflexive and symmetric |
| `SpacetimeAlgebra.Norm` | src/math/spacetime.rs:109-112 | a four-vector with t = 0 has non-negative norm and one with zero spatial part has non-positive norm |
| `SpacetimeAlgebra.NormOfZeroAndIdentity` | src/math/spacetime.rs:254-263 | `zero()` has norm 0 and `identity()` has norm −1 |
| `SpacetimeAlgebra.NormExample` | src/math/spacetime.rs:109-112 | (1, 2, 3, 4) has norm 4 + 9 + 16 − 1 = 28 |
| `SpacetimeAlgebra.Conjugated` | src/math/spacetime.rs:114-116 | only t is negated |
| `SpacetimeAlgebra.ConjugatedInvolution` | src/math/spacetime.rs:265-271 | conjugating twice is the identity, conjugation keeps the norm, and (1, 2, 3, 4) becomes (−1, 2, 3, 4) |
| `SpacetimeAlgebra.AbsValue` | src/math/spacetime.rs:118-120 | `abs` is non-negative and its square is the absolute value of the norm |
| `SpacetimeAlgebra.ArgOfRest` | src/math/spacetime.rs:122-125 | a four-vector with zero spatial part has argument 0 |
| `SpacetimeAlgebra.ArgExample` | src/math/spacetime.rs:273-281 | (2, 1, 0, 0) has argument atanh(1/2) |
| `SpacetimeAlgebra.ArgOfTimelike` | src/math/spacetime.rs:122-125 | for a timelike vector (norm < 0) the ratio ‖x‖/t lies in (−1, 1), so the argument is defined, and its tanh is that ratio (under `HyperbolicInverse`) |
| `SpacetimeAlgebra.Exp` | src/math/spacetime.rs:132-135 | t is cosh(a) and the spatial part is the vector times sinh(a) |
| `SpacetimeAlgebra.ExpVersor` | src/math/spacetime.rs:127-130 | `exp_versor(x, y, z, a)` is `exp(a, (x, y, z))` |
| `SpacetimeAlgebra.ExpNorm` | src/math/spacetime.rs:127-135 | the norm of exp(a, v) is sinh²(a)(‖v‖² − 1) − 1, so −1 along a unit direction; exp(0, v) is `identity()` |
| `SpacetimeAlgebra.LorentzTransformation` | src/math/spacetime.rs:147-173 | the time component agrees with the corrected map; a versor (p, 0, 0, 0) multiplies every component by p² |
| `SpacetimeAlgebra.LorentzTransformationIdentity` | src/math/spacetime.rs:296-301 | the map with g = `identity()` leaves every vector unchanged |
| `SpacetimeAlgebra.LorentzTransformationOfSkew` | src/math/spacetime.rs:147-173 | the map as written sends (0, 1, 1, 0) under g = (3, 2, 2, 0) to (24, 1, 1, 0) |
| `SpacetimeAlgebra.LorentzTransformationBreaksNorm` | src/math/spacetime.rs:147-173 | as written the map does not keep the norm: g = (3, 2, 2, 0) has norm −1, yet the image of (0, 1, 1, 0) has norm −574 instead of 2 |
| `SpacetimeAlgebra.LorentzBoost` | src/math/spacetime.rs:147-173 | the corrected map: a versor (p, 0, 0, 0) multiplies every component by p² |
| `SpacetimeAlgebra.LorentzBoostVectorForm` | src/math/spacetime.rs:147-173 | with the cross-term sign corrected the map is g v g̃ in vector form: t′ = (p² + ‖u‖²)w + 2p(u·x) and the spatial part is (p² − ‖u‖²)x + 2(pw + u·x)u |
| `SpacetimeAlgebra.LorentzBoostScalesNorm` | src/math/spacetime.rs:147-173 | the corrected map scales the norm by norm(g)², so it is a Lorentz map for every g of norm −1 |
| `SpacetimeAlgebra.LorentzBoostIdentity` | src/math/spacetime.rs:296-301 | the corrected map with g = `identity()` is also the identity |
| `SpacetimeAlgebra.LorentzTransformationAgreesOnAxes` | src/math/spacetime.rs:147-173 | the map as written and the corrected map agree whenever g has at most one nonzero spatial component |
| `SpacetimeAlgebra.Velocities` | src/math/spacetime.rs:137-145 | zero input gives the zero vector; otherwise the input is scaled by tanh(‖a‖²)·c/‖a‖² |
| `SpacetimeAlgebra.VelocitiesSpeed` | src/math/spacetime.rs:137-145 | the result's squared length is (tanh(‖a‖²)c)²/‖a‖², not (tanh(‖a‖)c)² |
| `SpacetimeAlgebra.RapidityVector` | src/math/spacetime.rs:211-219 | zero input gives the zero vector; otherwise v is scaled by atanh(‖v‖²/c)/‖v‖² |
| `SpacetimeAlgebra.RapidityVectorLength` | src/math/spacetime.rs:211-219 | the rapidity vector's squared length is the rapidity squared over ‖v‖² |
| `SpacetimeAlgebra.VelocityRoundTripAsWritten` | src/math/spacetime.rs:137-219 | for nonzero v, with l = ‖v‖² and a = atanh(l/c): `velocities(rapidity_vector(v))` is 0 when a = 0 and otherwise v scaled by tanh(a²/l)·c/a, which is v exactly when that factor is 1 |
| `SpacetimeAlgebra.AsWrittenComposition` | src/math/spacetime.rs:137-145 | `velocities` of w = (a/l)·v, whose squared length is a²/l, is v scaled by tanh(a²/l)·c/a, and is v exactly when that factor is 1 |
| `SpacetimeAlgebra.RapidityArgumentLeavesDomain` | src/math/spacetime.rs:211-219 | v = (3, 0, 0) is below light speed c = 4, yet the atanh argument ‖v‖²/c is 2.25, outside (−1, 1) |
| `SpacetimeAlgebra.LengthArgumentInDomain` | src/math/spacetime.rs:211-219 | with the length instead, the argument ‖v‖/c lies in [0, 1) for every v below light speed, and is 0 exactly for v = 0 |
| `SpacetimeAlgebra.RapidityVectorByLengthFacts` | src/math/spacetime.rs:211-219 | the corrected rapidity vector of a nonzero v is v scaled by a/‖v‖ with a = atanh(‖v‖/c) > 0, tanh(a) = ‖v‖/c, and its length is a |
| `SpacetimeAlgebra.VelocityRoundTripByLength` | src/math/spacetime.rs:137-219 | with both conversions using the length, `velocities(rapidity_vector(v))` gives back v for every v below light speed |
| `SpacetimeAlgebra.SpeedRatio` | src/math/spacetime.rs:237-246 | ‖p‖/√(m²c² + ‖p‖²) lies in (0, 1] and is 1 exactly when m·c = 0 |
| `SpacetimeAlgebra.RapidityFromMomentum` | src/math/spacetime.rs:237-247 | zero momentum gives the zero vector; otherwise p is scaled by atanh(speed ratio)/‖p‖ |
| `SpacetimeAlgebra.RapidityFromMomentumLength` | src/math/spacetime.rs:237-247 | the result's length is ‖atanh(speed ratio)‖, and the ratio is below 1 exactly for a massive particle |
| `SpacetimeAlgebra.LorentzTransformationV` | src/math/spacetime.rs:175-184 | zero velocity leaves the vector unchanged; otherwise the map as written is applied with exp(rapidity/2) along v/‖v‖² |
| `SpacetimeAlgebra.LorentzTransformationRapidity` | src/math/spacetime.rs:186-194 | zero rapidity leaves the vector unchanged; otherwise the map as written is applied with exp(‖r‖²/2) along r/‖r‖² |
| `SpacetimeAlgebra.BoostTimeParts` | src/math/spacetime.rs:175-194 | the velocity and rapidity boosts as written change the time part exactly as the corrected boosts do |
| `SpacetimeAlgebra.DirectionLength` | src/math/spacetime.rs:175-194 | the direction v/‖v‖² has squared length 1/‖v‖², so it is a unit vector only when ‖v‖ = 1 |
| `SpacetimeAlgebra.BoostAlongNorm` | src/math/spacetime.rs:175-194 | the corrected boost along v/‖v‖² scales the norm by the square of cosh² − sinh²/‖v‖², which is 1 when ‖v‖ = 1 |
| `SpacetimeAlgebra.VelocityBoostNorm` | src/math/spacetime.rs:175-184 | the corrected velocity boost (`LorentzBoostV`) scales the norm by that factor squared and keeps it when ‖v‖² = 1 |
| `SpacetimeAlgebra.RapidityBoostNorm` | src/math/spacetime.rs:186-194 | the corrected rapidity boost (`LorentzBoostRapidity`) scales the norm by that factor squared and keeps it when ‖r‖² = 1 |
| `SpacetimeAlgebra.VelocityBoostOnAxes` | src/math/spacetime.rs:175-184 | for a velocity with at most one nonzero component the velocity boost as written equals the corrected one, so it keeps the norm when ‖v‖² = 1 |
| `SpacetimeAlgebra.RapidityBoostOnAxes` | src/math/spacetime.rs:186-194 | for a rapidity with at most one nonzero component the rapidity boost as written equals the corrected one, so it keeps the norm when ‖r‖² = 1 |
| `SpacetimeAlgebra.SkewDirectionBreaksNorm` | src/math/spacetime.rs:147-173 | the map as written, with exp(a) along the unit (0.6, 0.8, 0), sends (0, 0.8, −0.6, 0) of norm 1 to a vector of norm 1 + 3.6864·s²(1 + s²), s = sinh a, so the norm is kept only when s = 0 |
| `SpacetimeAlgebra.VelocityBoostBreaksNorm` | src/math/spacetime.rs:175-184 | for the unit velocity (0.6, 0.8, 0) the velocity boost as written keeps the norm of (0, 0.8, −0.6, 0) only when sinh of half the rapidity is 0, while the corrected boost keeps it |
| `SpacetimeAlgebra.RapidityBoostBreaksNorm` | src/math/spacetime.rs:186-194 | for the unit rapidity (0.6, 0.8, 0) the rapidity boost as written keeps that norm only when sinh(1/2) = 0, while the corrected boost keeps it |
| `Bivectors.NormSquared` | src/math/bivector.rs:58-61 | iI² + iJ² + iK² is non-negative and zero exactly for the zero bivector |
| `Bivectors.Norm` | src/math/bivector.rs:52-56 | the norm is non-negative, squares to `norm_squared`, and is zero exactly for the zero bivector |
| `Bivectors.NormScale` | src/math/bivector.rs:52-61 | scaling the components by k scales the norm by ‖k‖ |
| `Bivectors.Exp` | src/math/bivector.rs:63-75 | the zero bivector gives exactly (1, 0, 0, 0); otherwise the scalar is cosh of the norm |
| `Bivectors.ExpKeepsDirection` | src/math/bivector.rs:68-73 | the exponential's bivector part is parallel to the input: all cross products vanish |
| `Bivectors.ExpBivectorPart` | src/math/bivector.rs:68-73 | for a nonzero input the bivector part is the input scaled by the one ratio sinh φ/φ |
| `Bivectors.ExpIsUnit` | src/math/bivector.rs:63-75 | the exponential is a unit hyperbolic versor: scalar² minus the bivector part's squared norm is 1 |
| `Bivectors.FromVelocity` | src/math/bivector.rs:77-83 | for a nonzero velocity the speed ‖v‖ is positive and the bivector is the velocity scaled by the one factor atanh(‖v‖)/‖v‖ |
| `Bivectors.FromVelocityNorm` | src/math/bivector.rs:77-83 | the bivector's squared norm is atanh(‖v‖)² |
| `Simulation.Positions` | src/simulation.rs:77-77 | the position snapshot has one entry per particle, in order |
| `Simulation.Masses` | src/simulation.rs:78-78 | the mass snapshot has one entry per particle, in order |
| `Simulation.Separation` | src/simulation.rs:88-89 | the squared distance is non-negative and zero exactly for coincident positions |
| `Simulation.SeparationSymmetric` | src/simulation.rs:88-89 | the squared distance does not depend on the order of the two positions |
| `Simulation.PairFactor` | src/simulation.rs:91-92 | the factor f satisfies m_i·f = G·m_j/r², that is, the Newtonian force G·m_i·m_j/r² divided by m_i twice; f is 0 exactly for a massless partner |
| `Simulation.PairAcceleration` | src/simulation.rs:85-93 | a partner at the particle's own position contributes nothing |
| `Simulation.PairAccelerationMagnitude` | src/simulation.rs:88-93 | a pair at distinct positions contributes G·m_j/r²/m_i along the unit vector towards pos_j, so the squared length is that factor squared, and the factor is positive exactly when m_j/m_i is |
| `Simulation.PairFactorSign` | src/simulation.rs:91-92 | the factor G·m_j/r²/m_i is positive exactly when m_j/m_i is |
| `Simulation.PairFactorOverOwnMass` | src/simulation.rs:91-92 | the factor as written times m_i is the intended factor G·m_j/r² |
| `Simulation.ComputeAcceleration` | src/simulation.rs:83-95 | the loop over j, which skips the self pair and coincident pairs, computes the summed acceleration |
| `Simulation.Acceleration` | src/simulation.rs:83-95 | when every other particle is massless or at the particle's position, the summed acceleration is zero |
| `Simulation.AccelerationStep` | src/simulation.rs:84-95 | pair j adds its contribution when j ≠ i and r² > 0, and adds nothing otherwise |
| `Simulation.AccelerationOfInertBodies` | src/simulation.rs:84-95 | when every other particle is massless or coincident, the summed acceleration is zero |
| `Simulation.InertPair` | src/simulation.rs:85-93 | a massless or coincident partner contributes nothing |
| `Simulation.AccelerationOfSingleParticle` | src/simulation.rs:79-95 | a lone particle has zero acceleration |
| `Simulation.UpdateVelocities` | src/simulation.rs:76-98 | the count, scale and dt are kept, and so is every position, mass and colour; each velocity gains dt times the acceleration computed from the snapshots |
| `Simulation.VelocityGain` | src/simulation.rs:96-96 | each particle's velocity change is delta_seconds times its snapshot acceleration |
| `Simulation.VelocityChangeDependsOnSnapshot` | src/simulation.rs:77-96 | two states with the same positions and masses get the same velocity change, whatever their velocities and colours |
| `Simulation.UpdateVelocitiesZeroDelta` | src/simulation.rs:96-96 | delta_seconds = 0 changes nothing |
| `Simulation.UpdateVelocitiesSingleParticle` | src/simulation.rs:79-96 | a single particle keeps its velocity |
| `Simulation.UpdateVelocitiesInOrder` | src/simulation.rs:80-97 | updating the particles one at a time in any order of the indices yields the same state |
| `Simulation.ReversedPair` | src/simulation.rs:88-93 | the reversed pair's contribution lies along the same unit vector with the opposite sign |
| `Simulation.MomentumSum` | src/simulation.rs:88-93 | m_i·a_ij + m_j·a_ji collapses to (m_i c_i − m_j c_j) times the shared unit vector |
| `Simulation.CancelOwnMass` | src/simulation.rs:91-93 | m_i c_i − m_j c_j vanishes exactly when the masses are equal |
| `Simulation.PairMomentumBalance` | src/simulation.rs:88-93 | the two contributions of a pair of positive masses cancel in momentum exactly when m_i = m_j, because each divides by the particle's own mass |
| `Simulation.NewtonPairFactor` | src/simulation.rs:91-91 | the intended factor f satisfies f·r² = G·m_j, the force G·m_i·m_j/r² divided by m_i once, and is 0 exactly for a massless partner |
| `Simulation.NewtonPairAcceleration` | src/simulation.rs:85-93 | with the intended factor, a partner at the particle's own position contributes nothing |
| `Simulation.NewtonReversedPair` | src/simulation.rs:88-93 | with the intended factor, the reversed pair's contribution lies along the same unit vector with the opposite sign |
| `Simulation.NewtonMomentumBalance` | src/simulation.rs:88-93 | with the intended factor, the two contributions of any separated pair, weighed by each body's mass, cancel for every pair of masses |
| `Simulation.AdvanceTime` | src/simulation.rs:100-104 | each position moves by velocity·dt; the velocity, mass and colour of every particle, the count, the scale and dt are unchanged |
| `Simulation.AdvanceMoves` | src/simulation.rs:102-102 | each particle's displacement is dt times its velocity |
| `Simulation.AdvanceTimeZero` | src/simulation.rs:100-104 | dt = 0 is the identity |
| `Simulation.AdvanceTimeAdditive` | src/simulation.rs:100-104 | advancing by a and then by b is advancing by a + b |
| `Simulation.AdvanceTimeReversible` | src/simulation.rs:100-104 | advancing by dt and then by −dt restores the state |
| `Simulation.FrameStep` | src/main.rs:100-104 | one frame of the simulation thread (advance, then the gravity step, both by the frame time) takes each particle from p to p + dt·v with its old velocity v, then sets the velocity to v + dt·a with a computed at the moved positions; mass and colour are kept |
| `Simulation.Frame` | src/main.rs:100-104 | a frame keeps the particle count and keeps every mass nonzero, so the next frame may run |
| `Simulation.DefaultState` | src/simulation.rs:107-115 | the default state has no particles, scale 1 and dt 1 |
| `Simulation.DefaultStateIsFixed` | src/simulation.rs:76-115 | neither the gravity step nor the advance changes the default state |
| `Simulation.ColorOfPeriodic` | src/simulation.rs:33-40 | the colour depends on i mod 5 and the five palette colours are distinct |
| `Simulation.InitParticles` | src/simulation.rs:24-60 | one particle per draw, with the drawn position, velocity and mass, colour i mod 5, scale 1e10 and dt 10.5 |
| `Simulation.InitParticlesMasses` | src/simulation.rs:25-52 | the mass range [1e31, 1e33) kg in simulation units is [10, 1000), so every drawn mass is nonzero |
| `UiFormat.FloorDiv` | src/ui.rs:12-12 | ⌊x/k⌋ equals ⌊x⌋ div k for x ≥ 0 |
| `UiFormat.FloorFmod` | src/ui.rs:13-16 | ⌊x mod k⌋ equals ⌊x⌋ mod k for x ≥ 0 |
| `UiFormat.ClockOf` | src/ui.rs:11-16 | days ≥ 0, hours in 0..23, minutes and seconds in 0..59, and days·86400 + hours·3600 + minutes·60 + seconds = ⌊‖t‖⌋ |
| `UiFormat.ClockOfIsDecomposition` | src/ui.rs:11-16 | each floating step of the decomposition equals the matching integer division or remainder of ⌊x⌋ |
| `UiFormat.IntegerClockSpec` | src/ui.rs:11-16 | the integer day/h/m/s split of n is in range and recombines to n |
| `UiFormat.ClockOfIsIntegerClock` | src/ui.rs:11-16 | the clock of t is the integer split of ⌊‖t‖⌋ |
| `UiFormat.Sign` | src/ui.rs:10-10 | the prefix is "-" exactly when t < 0 and empty exactly when t ≥ 0 |
| `UiFormat.NatToStringRoundTrip` | src/ui.rs:17-20 | the decimal text of n parses back to n and has no leading zero unless n = 0 |
| `UiFormat.Pad2RoundTrip` | src/ui.rs:17-20 | the two-digit zero-padded text of n < 100 parses back to n |
| `UiFormat.FormatSimulationTimeShape` | src/ui.rs:9-21 | the text is sign, days, a space and hh:mm:ss: it starts with '-' exactly for negative t, and each field parses back to the clock's value |
| `UiFormat.FormatSimulationTime` | src/ui.rs:9-21 | the text starts with '-' exactly for negative t, and its length is the sign, the day digits and nine characters for " hh:mm:ss" |
| `UiFormat.Pow10AtDefaultGauge` | src/ui.rs:24-25 | at the default gauge of 5000, pow10 equals the scale |
| `UiFormat.UnitOf` | src/ui.rs:26-40 | the unit chosen is one whose range of lengths holds pow10 |
| `UiFormat.UnitOfIsRange` | src/ui.rs:26-40 | the branch chosen is the one unit whose range holds pow10 |
| `UiFormat.UnitOfMonotone` | src/ui.rs:26-40 | a larger pow10 never selects a smaller unit |
| `UiFormat.FormatScale` | src/ui.rs:23-41 | the unit printed is au exactly from 1 au up, km on [1e3 m, 1 au), m on [1e-3 m, 1e3 m), mm on [1e-9 m, 1e-3 m) and nm below; the notation is scientific exactly from 1e6 au up and on [1e9 m, 1 au) |
| `UiFormat.FormatScaleRoundTrip` | src/ui.rs:26-40 | the displayed value times the unit's length in metres gives back pow10 |
| `UiFormat.FormatScaleValueRange` | src/ui.rs:26-40 | the displayed value lies in [1, 1e6) for au and km in plain form, [1e-6, 1) for mm, [1e-3, 1e3) for m and below 1 for nm; the other branches are scientific |

## Left out

- Floating-point rounding: `f64` is `real`, and `mul_add` is the exact a·b + c.
- `sqrt`, `sinh`, `cosh`, `tanh`, `atanh`, glam's `normalize` and `powi`: these are external numerics. The first five are parameters constrained only by `Lawful`; `normalize` is v·(1/√‖v‖²) and `powi(4)` is a fourth power.
- The rayon parallel iteration in `update_velocities_with_gravity` and `advance_time`: it is modelled as a sequential map. `Simulation.UpdateVelocitiesInOrder` shows that any order of the per-particle updates gives the same result.
- Randomness in `init_particles`: the drawn numbers are a parameter (`Draw`), and `DrawInRange` states the ranges drawn from. `reset` and the `InitialCondition` generators are RNG-driven and outside the core.
- `Simulation.UpdateVelocities`, `Simulation.PairFactor`, `Simulation.PairAcceleration`, `Simulation.Acceleration` and `Simulation.ComputeAcceleration`: require the particle's own mass (every mass, for `UpdateVelocities`) to be nonzero. The source divides by the particle's own mass, which for a zero mass gives infinities or NaN in `f64`.
- `Simulation.Palette`: states only the alpha channel; the five RGB values are literal constants.
- `SpacetimeAlgebra.Arg`: requires t ≠ 0, because the source divides by t. It has no row; its facts are stated by `ArgOfRest`, `ArgExample` and `ArgOfTimelike`, the last of which also assumes `HyperbolicInverse`.
- `SpacetimeAlgebra.BoostAlongNorm`: states the norm law for the corrected boost only. The source's boost applies the map as written, which keeps the norm only on the axes (`VelocityBoostOnAxes`, `RapidityBoostOnAxes`) and breaks it off them (`SkewDirectionBreaksNorm`).
- `SpacetimeAlgebra.VelocityBoostNorm`: states the norm law for the corrected velocity boost `LorentzBoostV`. For the program's `lorentz_transformation_v` it holds only when v has at most one nonzero component (`VelocityBoostOnAxes`); `VelocityBoostBreaksNorm` shows it failing for v = (0.6, 0.8, 0).
- `SpacetimeAlgebra.RapidityBoostNorm`: states the norm law for the corrected rapidity boost `LorentzBoostRapidity`. For the program's `lorentz_transformation_rapidity` it holds on the axes only (`RapidityBoostOnAxes`, `RapidityBoostBreaksNorm`).
- `Bivectors.FromVelocity`: requires a nonzero velocity, since the source divides 0 by 0 there. It does not require ‖v‖ < 1: `atanh` is a parameter, so values outside its domain need no exclusion.
- `UiFormat.ClockOf`: days are an unbounded integer; the saturating `as i64` conversion for more than 2⁶³−1 days is not modelled.
- `UiFormat.FormatScale`: requires a nonzero gauge, where the source would divide by zero. It returns the unit and value chosen, not the text: the digit formatting (`{:.3e}`, `{:.3}`, `{:.6}`) is float formatting.
- Decimal formatting of the day count and the zero padding are modelled on naturals, not on Rust's formatter.
- `Spacetime::new` and the bivector constructors are the datatype constructors, which store their arguments unchanged by construction.
- `SpacetimeAlgebra.Identity`: the constant `identity()`. It is stated through `NormOfZeroAndIdentity` and the identity lemmas.
- `SpacetimeAlgebra.Zero`: the constant `zero()`, stated the same way.
- `_LIGHT_SPEED` is unused in the source.
- `SimulationType` is never dispatched on, so there is no relativistic advance.
- `_to_mul_table_string`, the `Display` implementations and `draw_ui` are text rendering and UI.
- The repository's tests that compare through `is_zero` with a tolerance: they are stated as exact equalities on the coefficients (`Tetra.Tested*`).
- Everything outside the five core files: rendering, GPU pipeline, camera, event loop, configuration.

## Findings

| source | as written | input that shows it | evidently intended | confidence | as-written member | corrected member |
|---|---|---|---|---|---|---|
| src/math/spacetime.rs:147-173 | the spatial components subtract the cross terms in the versor's other spatial components, so the map is not g v g̃ | g = (3, 2, 2, 0), which has norm −1, and v = (0, 1, 1, 0), which has norm 2: the result is (24, 1, 1, 0), with norm −574 | a Lorentz map: with the cross terms added, the norm is scaled by norm(g)², so it is kept for every g of norm −1 | high (not executed; both sides are polynomial identities proved here) | `SpacetimeAlgebra.LorentzTransformationBreaksNorm` | `SpacetimeAlgebra.LorentzBoostScalesNorm` |
| src/math/spacetime.rs:211-219 | `rapidity_vector` takes atanh of ‖v‖²/c and divides by ‖v‖², and `velocities` (137-145) likewise uses the squared length as the magnitude | c = 4 and v = (3, 0, 0), a velocity below light speed: the atanh argument is 9/4 = 2.25, where `f64::atanh` gives NaN | atanh(‖v‖/c) scaled by v/‖v‖, with `velocities` using ‖w‖, so that converting a velocity to a rapidity vector and back gives the velocity | high (not executed; the argument is exact arithmetic proved here) | `SpacetimeAlgebra.RapidityArgumentLeavesDomain` | `SpacetimeAlgebra.VelocityRoundTripByLength` |
| src/math/spacetime.rs:175-194 | `lorentz_transformation_v` and `lorentz_transformation_rapidity` apply the map as written (147-173), so a unit direction with two nonzero components does not keep the norm | v = (0.6, 0.8, 0), so ‖v‖² = 1, acting on (0, 0.8, −0.6, 0) of norm 1: with s = sinh of the angle, the image is (0, 0.8 + 1.152 s², −0.6 − 1.536 s², 0), of norm 1 + 3.6864 s²(1 + s²) | a boost of unit ‖v‖² keeps the norm, as it does through the corrected map | high (not executed; the image is a polynomial identity proved here) | `SpacetimeAlgebra.VelocityBoostBreaksNorm` | `SpacetimeAlgebra.VelocityBoostNorm` |
| src/simulation.rs:91-92 | the value named `force_magnitude` is G·m_j/r², already the acceleration of particle i, and it is divided by m_i once more | m_i = 1 and m_j = 2 at distinct positions: m_i·a_ij + m_j·a_ji = G(m_j − m_i)/r²·u, which is not zero, so the pair's momentum changes | the Newtonian acceleration G·m_j/r² along the unit vector, under which each pair's momentum changes cancel for all masses | high (not executed; the identity is proved here, and `PairFactorOverOwnMass` shows the factor is the intended one divided by m_i; the initial orbit speeds at src/initial_condition.rs:183-189 (Earth, 29780 m/s ≈ √(G·1.989e30/1.496e11)) and src/initial_condition.rs:223-223 (satellites, √(G·M/r)) assume a = G·M/r² with no division by the orbiting body's mass) | `Simulation.PairMomentumBalance` | `Simulation.NewtonMomentumBalance` |

The two maps agree when g has at most one nonzero spatial component
(`SpacetimeAlgebra.LorentzTransformationAgreesOnAxes`), which covers the
repository's identity test. The velocity and rapidity boosts are modelled as
written (`LorentzTransformationV`, `LorentzTransformationRapidity`), with
corrected twins (`LorentzBoostV`, `LorentzBoostRapidity`) that carry the norm
law. On the axes the two agree (`VelocityBoostOnAxes`, `RapidityBoostOnAxes`).

The gravity step is modelled as written, dividing by the particle's own mass.
The intended law is `NewtonPairAcceleration`, and `NewtonMomentumBalance`
proves for it the pairwise momentum balance that the as-written step has only
for equal masses.

The two conversions between a velocity and its rapidity vector are modelled as
written (`Velocities`, `RapidityVector`). Their round trip gives v back only when
tanh(a²/l)·c = a (`SpacetimeAlgebra.VelocityRoundTripAsWritten`). The corrected pair
(`RapidityVectorByLength`, `VelocitiesByLength`) uses the length ‖v‖ = √‖v‖², keeps the
atanh argument inside (−1, 1) below light speed, and recovers v. The round trip
needs one fact about `tanh` and `atanh` beyond `Lawful`: the predicate
`HyperbolicInverse` states that tanh inverts atanh on (−1, 1), that tanh lies in
(−1, 1), and that atanh(y) ≥ y on [0, 1).
