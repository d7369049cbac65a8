# SPH solid simulator — step model in Dafny

A model of the physics step of a small smoothed-particle hydrodynamics
simulator for a metal block in a box (repository Fenjlfat/SPH_C--, C++).
The particles live in one fixed vector of records. `main` builds the
vector with `initParticles`. It then runs 1000 steps, and each step runs
three passes in this order:

1. `computeDensityPressure` sets every particle's density and pressure.
2. `computeForces` sets gravity, pressure, viscosity and a strain rate, then
   applies the von Mises plasticity update.
3. `integrate` takes one semi-implicit Euler step, clamped to the box.

After every step whose number is a multiple of 10, `main` saves the
positions.

Modules follow the source files (`Vectors` and `Particles` both come from
SPH_PARTICLE.h, `Kernel` and `Simulation` both from SPH.cpp); `Arith` holds
helper facts for the solver:

- `Arith`: sign facts about real products (helpers).
- `Vectors`: `vec3` as the datatype `Vec3`; `+=` is the method `AddAssign`.
- `Particles`: the constants and the `Particle` record.
- `Kernel`: the cubic-spline kernel `W` and its gradient `gradW`.
- `Eos`: the density and pressure pass.
- `Plasticity`: `applyPlasticity`.
- `Move`: `computeForces` and `integrate`.
- `CreateSystem`: `initParticles`.
- `Simulation`: the step loop of `main`.

Every pass that changes the particle vector is a method on an
`array<Particle>`. It is proved equal to a pure function of the array's
old contents (`a[..] == DensityPass(old(a[..]))`, and so on). The
properties of the passes are then proved as lemmas about those functions.

Modelling choices:

- **Numbers.**
  - Every `float` is a `real`.
  - `sqrt` is a parameter. It is constrained by `IsSqrt`: a non-negative
    root of every non-negative real.
  - `M_PI` is the constant `PI`, and the proofs use only that it is
    positive.
- **`vec3` operators.** `vec3` declares no division and no product of two
  vectors. So `(v_ij * PARTICLE_MASS / pj.density) * grad` is read as:
  - scale by the mass, then by `1 / density`,
  - then take the componentwise product `Times`.

  `(1 - yield_factor) * deviatoric * dt` is read as scaling by a scalar.
- **Yield factor.** When the deviatoric magnitude is 0, the float quotient
  in `std::min(1, YIELD_STRESS / (2 MU |dev|))` is `+inf`. The yield factor
  is therefore 1.
- **Gradient, code over design.** The comment above `gradW` (SPH.cpp:28)
  calls it the gradient of the smoothing kernel `W`. The inner branch
  (SPH.cpp:39) is that kernel's analytic derivative divided by `h`. The
  outer branch (SPH.cpp:44) is a quarter of it: the derivative of
  `(2 - q)^3 / (4 pi h^4)` has the factor `-3 (2 - q)^2`, and the code
  writes `-0.75 (2 - q)^2`. The model follows the code, and
  `GradWJumpAtOne` proves that the two branches disagree at `q = 1`.
- **Distances.** Distances within the interaction cut-off `dist < H` are
  all the code uses. The model keeps that cut-off.
- **References.** `computeForces` and `integrate` update each particle
  through a C++ reference. The model uses a local copy, stored back once.
  This is the same behaviour, because neither loop reads that particle
  through the vector before the store:
  - the force pass skips `j == i`,
  - the integrator touches one particle at a time.
- **Initialiser inputs.**
  - The random generator is replaced by `draws`, the sequence of values it
    returns. The values are consumed left to right: three for a lattice
    particle (x, y, z), two for a boundary particle.
  - The particle count is a parameter `n`, so that the boundary loop is
    reachable. With the default 2000 particles, the 14 × 14 × 14 lattice
    takes them all (`AllInteriorByDefault`).

## Model

| member | source | states |
|---|---|---|
| Vectors.Vec3.Plus | SPH_PARTICLE.h:46-49 | definition of `operator+`, componentwise; properties in `PlusMinusCancel` and `AddAssign` |
| Vectors.Vec3.Minus | SPH_PARTICLE.h:51-54 | definition of `operator-`, componentwise; properties in `PlusMinusCancel`, `LengthSymmetric`, `MinusOpposite` and `SelfDistance` |
| Vectors.Vec3.Scale | SPH_PARTICLE.h:56-59 | definition of `operator*` by a scalar; properties in `ScaleNorm2`, `ScaleLength`, `ScaleByZero` and `OppositeScale` |
| Vectors.Vec3.Times | SPH_MOVE.cpp:56 | definition of the vector-by-vector product the force pass writes, read componentwise; used by `Move.StrainRateTerm` and `Move.AddPair`; that the term reads only the kinematic fields is in `Move.PairTermsKinematic` |
| Vectors.Vec3.Norm2 | SPH_PARTICLE.h:71 | the argument `x*x + y*y + z*z` of `sqrt` is never negative |
| Vectors.Vec3.Length | SPH_PARTICLE.h:69-72 | `length()` is non-negative and its square is `x² + y² + z²` |
| Vectors.Vec3.Normalized | SPH_PARTICLE.h:74-79 | at length 0 the vector itself; otherwise the vector times `1/length()`, and that has length 1 |
| Vectors.AddAssign | SPH_PARTICLE.h:61-67 | after `a += b` the receiver is the old `a + b`, and subtracting `b` gives back `a` |
| Vectors.Norm2Zero | SPH_PARTICLE.h:71 | `x² + y² + z²` is 0 exactly for the zero vector |
| Vectors.LengthZero | SPH_PARTICLE.h:69-72 | `length()` is 0 exactly for the zero vector |
| Vectors.ScaleNorm2 | SPH_PARTICLE.h:56-72 | scaling by `s` multiplies the squared length by `s²` |
| Vectors.ScaleLength | SPH_PARTICLE.h:56-72 | scaling by `c >= 0` multiplies `length()` by `c` |
| Vectors.RootUnique | SPH_PARTICLE.h:69-72 | two non-negative numbers with the same square are equal, so `length()` is determined by `x² + y² + z²` |
| Vectors.PlusMinusCancel | SPH_PARTICLE.h:46-54 | `(a + b) - b == a` and `(a - b) + b == a` |
| Vectors.LengthSymmetric | SPH_PARTICLE.h:51-72 | `(a - b).length() == (b - a).length()` |
| Vectors.NegNorm2 | SPH_PARTICLE.h:69-72 | negating a vector keeps `x² + y² + z²` |
| Vectors.NegLength | SPH_PARTICLE.h:69-72 | negating a vector keeps its length |
| Vectors.ScaleByZero | SPH_PARTICLE.h:56-59 | `v * 0` is the zero vector |
| Vectors.OppositeIsNeg | SPH_PARTICLE.h:56-59 | the componentwise relation `Opposite(u, v)` holds exactly when `u == v * -1` |
| Vectors.MinusOpposite | SPH_PARTICLE.h:51-54 | `b - a` is the opposite of `a - b` |
| Vectors.OppositeScale | SPH_PARTICLE.h:56-59 | opposite vectors stay opposite under the same scalar, and the relation is symmetric |
| Vectors.SelfDistance | SPH_PARTICLE.h:51-72 | `(a - a).length() == 0` |
| Particles.Positions | SPH_SPOUT.cpp:6-9 | the data a snapshot writes: one position per particle, in order (used by `Simulation.FramesSchedule`) |
| Particles.ConstantsPositive | SPH_PARTICLE.h:24-36 | `H`, `DT`, `PARTICLE_MASS`, `WIDTH`, `HEIGHT`, `DEPTH` are positive; `GRAVITY` is non-zero only on y |
| Particles.WeightIsScaledGravity | SPH_MOVE.cpp:30 | the starting force `WEIGHT` is `GRAVITY * PARTICLE_MASS` |
| Kernel.W | SPH.cpp:11-26 | definition of the cubic-spline kernel, with the branches `q <= 1`, `q <= 2` and beyond; properties in `WPositive`, `WNonNegative`, `WVanishesBeyondSupport` and `WContinuousAtOne` |
| Kernel.GradW | SPH.cpp:29-53 | definition of the kernel gradient; properties in `GradWIsScaled`, `GradWVanishes`, `GradWRadial`, `GradWAntisymmetric` and `GradWJumpAtOne` |
| Kernel.WVanishesBeyondSupport | SPH.cpp:18-25 | compact support: `W(r, h) == 0` whenever `r >= 2h`, the edge `q == 2` included |
| Kernel.InnerShapeBound | SPH.cpp:16 | the first branch's cubic `1 - 1.5q² + 0.75q³` is at least 1/4 on `[0, 1]` |
| Kernel.OuterShapePositive | SPH.cpp:20 | `(2 - q)³ > 0` for `q < 2` |
| Kernel.WPositive | SPH.cpp:14-21 | `W(r, h) > 0` for `0 <= r/h < 2` |
| Kernel.WNonNegative | SPH.cpp:11-26 | `W(r, h) >= 0` for every `r >= 0` |
| Kernel.WContinuousAtOne | SPH.cpp:14-21 | both branches of `W` give `1/(4πh³)` at `q = 1` |
| Kernel.GradWVanishes | SPH.cpp:34-50 | `gradW` is the zero vector when `‖r_vec‖ < 1e-6` or `q > 2` |
| Kernel.GradFactorsNonPositive | SPH.cpp:39-44 | each factor is `<= 0` on its own branch: the inner one on `[0, 1]`, the outer one on `[0, 2]` |
| Kernel.GradWIsScaled | SPH.cpp:29-53 | `gradW(r_vec)` is `r_vec` times a factor that depends on `‖r_vec‖` only |
| Kernel.GradScaleNonPositive | SPH.cpp:34-50 | that factor is never positive |
| Kernel.GradWRadial | SPH.cpp:37-46 | `gradW(r_vec)` is a non-positive multiple of `r_vec` |
| Kernel.GradWAntisymmetric | SPH.cpp:29-53 | `gradW(-r) == -gradW(r)`, componentwise |
| Kernel.GradWJumpAtOne | SPH.cpp:37-46 | at `q = 1` the branches give `-0.75/(πh⁴)` and `-0.1875/(πh⁴)`, which differ, so the gradient is not continuous there |
| Eos.Dist | SPH_EOS.cpp:9-10 | the distance between two positions is non-negative |
| Eos.DistIsLength | SPH_EOS.cpp:9-10 | the distance is `(a - b).length()` |
| Eos.DistSymmetric | SPH_EOS.cpp:9-10 | the distance from `a` to `b` equals the distance from `b` to `a` |
| Eos.SelfTermAt | SPH_EOS.cpp:12-14 | at distance 0 the density term is `PARTICLE_MASS * W(0, H) > 0` |
| Eos.DensityTerm | SPH_EOS.cpp:12-14 | definition of one particle's contribution, `PARTICLE_MASS * W(dist, H)` inside the cut-off and 0 outside; properties in `DensityTermNonNegative`, `SelfTerm` and `SelfTermAt` |
| Eos.DensityOver | SPH_EOS.cpp:6-16 | definition of the partial density sum over the first `n` particles; properties in `DensityOverBound` and `DensityDependsOnPositions` |
| Eos.Density | SPH_EOS.cpp:6-16 | definition of a particle's density, the sum over all particles; properties in `DensityLowerBound` and `DensityPassFields` |
| Eos.Pressure | SPH_EOS.cpp:19 | definition of the equation of state `K * (density - REST_DENSITY)`; `DensityPassFields` states the pressure each particle ends with |
| Eos.DensityUpdated | SPH_EOS.cpp:4-20 | the pass replaces a particle's density and pressure and nothing else |
| Eos.DensityPass | SPH_EOS.cpp:4-20 | the reference definition `ComputeDensityPressure` is proved equal to: the count is kept and every particle, boundary or not, is updated; what each update does is stated by `DensityPassFields` and `DensityLowerBound` |
| Eos.ComputeDensityPressure | SPH_EOS.cpp:2-21 | the array afterwards is `DensityPass` of the array before |
| Eos.DensityDependsOnPositions | SPH_EOS.cpp:6-16 | a partial density sum depends on the positions only |
| Eos.DensityTermNonNegative | SPH_EOS.cpp:12-15 | no particle adds a negative amount to a density |
| Eos.SelfTerm | SPH_EOS.cpp:7-15 | a particle's own term is `PARTICLE_MASS * W(0, H)`, which is positive |
| Eos.DensityOverBound | SPH_EOS.cpp:6-16 | partial density sums are non-negative and at least any one of their terms |
| Eos.SelfBound | SPH_EOS.cpp:12-14 | anything at least the self term is at least `PARTICLE_MASS * W(0, H)` and positive |
| Eos.DensityLowerBound | SPH_EOS.cpp:6-16 | because the self term is included, every density is `>= PARTICLE_MASS * W(0, H) > 0` |
| Eos.DensityPassFields | SPH_EOS.cpp:2-21 | after the pass: density is the kernel sum and positive; pressure is `K * (density - REST_DENSITY)`; position, velocity, force, boundary flag and plastic strain are unchanged |
| Eos.DensityPassReadsPositionsOnly | SPH_EOS.cpp:6-19 | two vectors with the same positions get the same densities and pressures, so old and already-updated densities are never read |
| Plasticity.Deviatoric | SPH_DISLOC.cpp:8 | definition of the deviatoric part; properties in `DeviatoricParallel`, `DeviatoricVanishesAtThree` and `DeviatoricVanishesOnlyAtThree` |
| Plasticity.YieldFactor | SPH_DISLOC.cpp:11 | definition of the yield factor; properties in `YieldFactorBounds`, `YieldFactorCases` and `PlasticExcess` |
| Plasticity.PlasticStrainAfter | SPH_DISLOC.cpp:5-12 | definition of the new plastic strain; properties in `ZeroStrainRateUnchanged`, `ElasticRegime`, `PlasticIncrement` and `PlasticGrowth` |
| Plasticity.Plasticized | SPH_DISLOC.cpp:3-14 | the update writes the plastic strain only; every other field is unchanged |
| Plasticity.ApplyPlasticity | SPH_DISLOC.cpp:3-14 | slot `i` becomes `Plasticized` of its old value, and every other slot is unchanged |
| Plasticity.DeviatoricParallel | SPH_DISLOC.cpp:8 | `deviatoric == strain_rate * (1 - ‖strain_rate‖/3)`, a multiple of the strain rate |
| Plasticity.YieldFactorBounds | SPH_DISLOC.cpp:11 | `0 < yield_factor <= 1` |
| Plasticity.YieldFactorCases | SPH_DISLOC.cpp:11 | the factor is 1 when `2 MU ‖dev‖ <= YIELD_STRESS`; otherwise it is `YIELD_STRESS / (2 MU ‖dev‖) < 1` |
| Plasticity.ZeroStrainRateUnchanged | SPH_DISLOC.cpp:5-6 | a zero strain rate leaves the plastic strain as it is |
| Plasticity.ElasticRegime | SPH_DISLOC.cpp:11-12 | when `2 MU ‖deviatoric‖ <= YIELD_STRESS` the plastic strain is unchanged |
| Plasticity.PlasticIncrement | SPH_DISLOC.cpp:8-12 | for any non-zero strain rate the strain grows by exactly `(1 - yf) * deviatoric * dt`; `PlasticExcess` gives the size of `1 - yf` in the plastic regime |
| Plasticity.PlasticExcess | SPH_DISLOC.cpp:11-12 | above the yield criterion `0 < 1 - yf < 1`, and `(1 - yf) ‖dev‖` is the excess `‖dev‖ - YIELD_STRESS / (2 MU)` |
| Plasticity.PlasticGrowth | SPH_DISLOC.cpp:8-12 | above the yield criterion and with `dt >= 0`, the new plastic strain is the old one plus the unit deviatoric direction (length 1) times `(‖dev‖ - YIELD_STRESS / (2 MU)) * dt`, a positive excess: the strain grows along the deviatoric part in proportion to the excess |
| Plasticity.DeviatoricLength | SPH_DISLOC.cpp:8-9 | for `‖strain_rate‖ <= 3`, `deviatoric_mag == (1 - ‖strain_rate‖/3) ‖strain_rate‖` |
| Plasticity.PlasticRegimeReachable | SPH_DISLOC.cpp:5-12 | the plastic branch is reachable: the strain rate `(1.5, 0, 0)` has `deviatoric_mag == 0.75` and `2 MU * 0.75 > YIELD_STRESS`, so it meets the requires of `PlasticGrowth` |
| Plasticity.DeviatoricVanishesAtThree | SPH_DISLOC.cpp:8-9 | at `‖strain_rate‖ == 3` the deviatoric part and its magnitude are 0 |
| Plasticity.DeviatoricVanishesOnlyAtThree | SPH_DISLOC.cpp:8-9 | for a non-zero strain rate, that is the only case where the deviatoric part vanishes |
| Move.Interacts | SPH_MOVE.cpp:39 | definition of the distance test `dist < H && dist > 1e-6`; used by `AddPair` and `Neighbour` |
| Move.Neighbour | SPH_MOVE.cpp:34-39 | definition of "`j` contributes to `i`": `j != i` and the distance test; used by `IsolatedOver`, `Isolated`, `ReplaceOutsiderOver` and `ReplaceOutsider` |
| Move.PressureCoefficient | SPH_MOVE.cpp:44-46 | definition of `pressure_force`; property in `PressureCoefficientSymmetric` |
| Move.ViscousCoefficient | SPH_MOVE.cpp:51-53 | definition of the viscous factor; property in `ViscousCoefficientSymmetric` |
| Move.PressurePush | SPH_MOVE.cpp:41-47 | definition of the pressure force from a neighbour; properties in `PressureAntisymmetric` and `PairTermsKinematic` |
| Move.ViscousPush | SPH_MOVE.cpp:50-53 | definition of the viscous force from a neighbour; properties in `ViscousAntisymmetric` and `PairTermsKinematic` |
| Move.StrainRateTerm | SPH_MOVE.cpp:56 | definition of a neighbour's strain-rate term; property in `PairTermsKinematic` |
| Move.ForceOver | SPH_MOVE.cpp:30-58 | definition of the partial force sum over the first `n` particles; properties in `IsolatedOver`, `ReplaceOutsiderOver` and `KinematicsOnlyOver` |
| Move.StrainRateOver | SPH_MOVE.cpp:31-58 | definition of the partial strain-rate sum; properties in `IsolatedOver`, `ReplaceOutsiderOver` and `KinematicsOnlyOver` |
| Move.ForceUpdated | SPH_MOVE.cpp:27-61 | the force pass keeps position, velocity, density, pressure and boundary flag; it leaves a boundary particle unchanged |
| Move.ForcePass | SPH_MOVE.cpp:25-63 | the reference definition `ComputeForces` is proved equal to: the count is kept and particle `i` is computed from the pre-pass vector; what it does is stated by `ForcePassFrame`, `ForcePassBoundaryUntouched` and `KinematicsOnly` |
| Move.AddPair | SPH_MOVE.cpp:36-57 | a pair at a distance in `(1e-6, H)` adds the pressure and viscous pushes to the force and the strain term to the strain rate; any other pair changes nothing |
| Move.ComputeForces | SPH_MOVE.cpp:25-63 | the in-place loop leaves the array equal to `ForcePass` of the array before |
| Move.ForcePassBoundaryUntouched | SPH_MOVE.cpp:27-28 | a boundary particle is left completely untouched |
| Move.ForcePassFrame | SPH_MOVE.cpp:25-63 | no position, velocity, density, pressure or boundary flag changes |
| Move.IsolatedOver | SPH_MOVE.cpp:30-39 | with no neighbour in `(1e-6, H)` among the visited particles, the force is `GRAVITY * PARTICLE_MASS` and the strain rate is zero |
| Move.Isolated | SPH_MOVE.cpp:30-61 | an isolated non-boundary particle ends with force `GRAVITY * PARTICLE_MASS` and an unchanged plastic strain |
| Move.ReplaceOutsiderOver | SPH_MOVE.cpp:33-39 | a particle that is not a neighbour contributes nothing to the partial force and strain sums |
| Move.ReplaceOutsider | SPH_MOVE.cpp:33-39 | replacing a non-neighbour `j != i` does not change particle `i`'s result |
| Move.PressureCoefficientSymmetric | SPH_MOVE.cpp:44-46 | the pressure coefficient is symmetric in `i` and `j` |
| Move.PressureAntisymmetric | SPH_MOVE.cpp:41-47 | the pressure push on `i` from `j` is the opposite of the push on `j` from `i` |
| Move.ViscousCoefficientSymmetric | SPH_MOVE.cpp:51-53 | the viscous coefficient is symmetric in the two densities |
| Move.ViscousAntisymmetric | SPH_MOVE.cpp:50-53 | the viscous push on `i` from `j` is the opposite of the push on `j` from `i` |
| Move.PairTermsKinematic | SPH_MOVE.cpp:36-56 | the pair terms read only position, velocity, density and pressure |
| Move.KinematicsOnlyOver | SPH_MOVE.cpp:33-58 | the partial force and strain sums read only those fields of the other particles |
| Move.KinematicsOnly | SPH_MOVE.cpp:27-61 | particle `i`'s result depends on particle `i` itself and the kinematic fields of the other particles, so forces and strains already rewritten for earlier particles do not matter |
| Move.Integrated | SPH_MOVE.cpp:68-111 | integration keeps force, density, pressure, boundary flag and plastic strain, and leaves a boundary particle unchanged |
| Move.IntegratePass | SPH_MOVE.cpp:66-113 | the reference definition `Integrate` is proved equal to: the count is kept and each particle is integrated on its own; what that does is stated by `IntegratedEuler`, `IntegratedInBox` and `BounceCases` |
| Move.Integrate | SPH_MOVE.cpp:66-113 | the array afterwards is `IntegratePass` of the array before |
| Move.Bounce | SPH_MOVE.cpp:82-111 | definition of one axis's two box tests; properties in `BounceCases` |
| Move.BounceCases | SPH_MOVE.cpp:82-111 | below 0 an axis is clamped to 0 and above the side to the side, with velocity times `-0.5`; inside it is unchanged; the result is always in `[0, side]` |
| Move.IntegratedInBox | SPH_MOVE.cpp:82-111 | after `integrate` a non-boundary particle lies in `[0, WIDTH] × [0, HEIGHT] × [0, DEPTH]` |
| Move.IntegratedEuler | SPH_MOVE.cpp:76-79 | without clamping, `v' = v + F DT/m` and `p' = p + v' DT` |
| CreateSystem.LatticePosition | SPH_CREATE_SYSTEM.cpp:30-36 | definition of lattice slot `i`, with y slowest and z fastest; properties in `LatticeSlot` and `LatticeInCube` |
| CreateSystem.DrawIndex | SPH_CREATE_SYSTEM.cpp:36-65 | definition of the first draw particle `i` consumes: three per lattice particle, then two per boundary particle; property in `BoundarySlot` |
| CreateSystem.LatticeParticle | SPH_CREATE_SYSTEM.cpp:36-42 | definition of a jittered lattice particle; properties in `LatticeSlot`, `InteriorJitter` and `InitialFieldsZero` |
| CreateSystem.FacePosition | SPH_CREATE_SYSTEM.cpp:51-66 | definition of a boundary particle's position; properties in `BoundaryFaces` and `InitialInBox` |
| CreateSystem.InitialParticle | SPH_CREATE_SYSTEM.cpp:29-74 | definition of particle `i` of the initial system; properties in `InteriorPrefix`, `InitialFieldsZero` and `InitialInBox` |
| CreateSystem.LatticeSide | SPH_CREATE_SYSTEM.cpp:30-34 | a lattice loop from `start` runs while `start + 0.15k < start + 2`, so there are exactly 14 values per axis |
| CreateSystem.InteriorCount | SPH_CREATE_SYSTEM.cpp:29-46 | the lattice places `min(n, 2744)` particles: at most `n`, at most 2744, and one of the two |
| CreateSystem.AllInteriorByDefault | SPH_CREATE_SYSTEM.cpp:23-34 | with 2000 particles the lattice takes them all |
| CreateSystem.LatticeIndex | SPH_CREATE_SYSTEM.cpp:30-34 | slot `196 ky + 14 kx + kz` decodes back to `(ky, kx, kz)` |
| CreateSystem.LatticeSlot | SPH_CREATE_SYSTEM.cpp:30-43 | the particle written at loop position `(ky, kx, kz)` is lattice particle `196 ky + 14 kx + kz` |
| CreateSystem.BoundarySlot | SPH_CREATE_SYSTEM.cpp:49-74 | a boundary particle takes the next two draws and sits at `FacePosition` |
| CreateSystem.InitialSystem | SPH_CREATE_SYSTEM.cpp:21-77 | the reference definition `InitParticles` is proved equal to: exactly `n` entries, each built on its own; their contents are stated by `InteriorPrefix`, `BoundaryFaces`, `InitialFieldsZero` and `InitialInBox` |
| CreateSystem.InitParticles | SPH_CREATE_SYSTEM.cpp:21-77 | the loops fill a fresh array equal to `InitialSystem(n, draws)` |
| CreateSystem.PlaceBlock | SPH_CREATE_SYSTEM.cpp:29-46 | the lattice loops place `min(n, 2744)` lattice particles in order, consume three draws each, and leave every later slot as it was |
| CreateSystem.PlaceColumn | SPH_CREATE_SYSTEM.cpp:34-44 | the innermost loop places the next column of up to 14 lattice particles and leaves every later slot as it was |
| CreateSystem.PlaceWalls | SPH_CREATE_SYSTEM.cpp:49-74 | the boundary loop fills every remaining slot, finishing the initial system |
| CreateSystem.InitialFieldsZero | SPH_CREATE_SYSTEM.cpp:37-73 | every particle starts with zero velocity, force, density, pressure and plastic strain |
| CreateSystem.InteriorPrefix | SPH_CREATE_SYSTEM.cpp:29-72 | particle `i` is a boundary particle exactly when `i >= InteriorCount(n)`, so interior particles form a prefix |
| CreateSystem.BoundaryFaces | SPH_CREATE_SYSTEM.cpp:51-66 | boundary particle `k` lies on `y = 0`, `y = HEIGHT`, `x = 0` or `x = WIDTH` as `k % 4` is 0, 1, 2 or 3 |
| CreateSystem.ScaledDraw | SPH_CREATE_SYSTEM.cpp:53-65 | a draw in `[0, 1)` times a positive side lies in `[0, side)` |
| CreateSystem.InteriorJitter | SPH_CREATE_SYSTEM.cpp:36 | each interior coordinate is its lattice value plus a jitter in `[0, 0.02)` |
| CreateSystem.LatticeInCube | SPH_CREATE_SYSTEM.cpp:30-34 | every lattice slot lies in `[1.5, 3.45]³` |
| CreateSystem.InitialInBox | SPH_CREATE_SYSTEM.cpp:30-65 | with draws in `[0, 1)`, every initial position lies in the closed box |
| Simulation.DensityPassNonZero | SPH.cpp:163-164 | after the density pass no density is 0, so the force pass's divisions are defined |
| Simulation.Step | SPH.cpp:163-165 | a step (density, then forces, then integration) keeps the particle count |
| Simulation.Run | SPH.cpp:161-165 | `k` steps keep the particle count |
| Simulation.Frames | SPH.cpp:161-170 | definition of the snapshots of the first `steps` steps; properties in `FramesSchedule`, `SnapshotCount` and `HundredFrames` |
| Simulation.FramesSchedule | SPH.cpp:161-172 | steps `0 .. s-1` take `ceil(s/10)` snapshots; snapshot `k` has index `k` and the positions after step `10k` |
| Simulation.SnapshotCount | SPH.cpp:167 | step `s` adds snapshot `s/10` exactly when `s % 10 == 0` |
| Simulation.HundredFrames | SPH.cpp:161-170 | the 1000 steps take 100 snapshots, numbered 0 to 99 |
| Simulation.StepLoop | SPH.cpp:161-172 | the step loop leaves the array at `Run(old, 1000)` and returns exactly the snapshots `Frames` |
| Simulation.Simulate | SPH.cpp:157-175 | `main`'s snapshots are `Frames` of the initial system |
| Simulation.StepFields | SPH.cpp:163-165 | after a step each particle is `Frozen` relative to its old self: same boundary flag, and a boundary particle keeps position, velocity, force and plastic strain; every non-boundary particle ends inside the box |
| Simulation.StepKeepsFrozen | SPH.cpp:163-165 | a particle frozen relative to `p` stays frozen relative to `p` across a step |
| Simulation.BoundaryFrozen | SPH.cpp:161-165 | after any number of steps every particle keeps its boundary flag, and a boundary particle has its initial position, velocity, force and plastic strain |
| Simulation.StaysInBox | SPH.cpp:159-165 | with draws in `[0, 1)`, every particle is inside the box after any number of steps |

## Left out

- Snapshot I/O: `saveToFile` writing `frame_<index>.xyz` (SPH_SPOUT.cpp) and the console output of `main` are file and stream I/O. A snapshot is modelled as the value `Frame(index, positions)`.
- `std::random_device`, `mt19937` and `uniform_real_distribution` are foreign code. They are replaced by the input sequence `draws`, consumed left to right. C++ leaves the evaluation order of the three `dis(gen)` arguments unspecified.
- IEEE float rounding: every float is a real.
  - The loop counters that step by `0.15f` are modelled exactly, so each axis has 14 values.
  - `1e-6f` is the decimal `0.000001`.
  - `M_PI` is the decimal 3.141592653589793.
  - Overflow, NaN and infinity are not modelled, except the one `+inf` the yield factor relies on.
- `sqrt` from the C library is an input function. All it must satisfy is `IsSqrt`.
- Kernel normalisation (the integral of `W` is 1) and energy behaviour would need calculus or float analysis.
- The empty classes `SPH_MOVE` and `SPH_CREATE_SYSTEM`, their constructors and destructors, and `MOVE()`: they have no behaviour.
- The unused `SPH_Particle` struct of doubles (SPH_PARTICLE.h:2-22).
- The copies of `initParticles`, `computeDensityPressure` and `applyPlasticity` in SPH.cpp: each is modelled once, from its own file.
- The unused local `old_velocity` (SPH_MOVE.cpp:73).
- The value-initialised vector `particles(NUM_PARTICLES)`: its default contents are never read, because both loops of the initialiser together write every slot.
- Kernel.GradW, Kernel.W: both require `h > 0`. Every call in the source passes `H = 0.5`.
- Move.ComputeForces: requires every density to be non-zero. The source divides by the densities without a guard; the density pass always leaves them positive (`Simulation.DensityPassNonZero`).
- Move.PressureAntisymmetric, Move.ViscousAntisymmetric, Kernel.GradWAntisymmetric: all three state "opposite" componentwise (`Opposite`). `Vectors.OppositeIsNeg` shows that this is the same as equality with `v * -1`.
- CreateSystem.InitParticles: requires at least `DrawsNeeded(n)` draws. The source's generator never runs out.
- Multithreading: the code is single-threaded, and the phase order is plain sequencing.
