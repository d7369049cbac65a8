/**
 * The force pass `computeForces` and the integrator `integrate`
 * (SPH_MOVE.cpp).
 *
 * The force pass visits every non-boundary particle `i`: its force starts at
 * gravity, every other particle `j` at a distance in `(1e-6, H)` adds a
 * pressure push and a viscous push, and the same pairs add to a local strain
 * rate, which is then handed to the plasticity update. The integrator moves
 * every non-boundary particle by one semi-implicit Euler step and then
 * clamps it into the box, reflecting the clamped velocity components.
 */
module Move {
  import opened Arith
  import opened Vectors
  import opened Kernel
  import opened Particles
  import opened Eos
  import opened Plasticity

  /** The force pass divides by every density; the density pass leaves them all positive. */
  predicate DensitiesNonZero(ps: seq<Particle>)
  {
    forall k :: 0 <= k < |ps| ==> ps[k].density != 0.0
  }

  /** The distance test of the inner loop, `dist < H && dist > 1e-6`. */
  predicate Interacts(dist: real)
  {
    dist < H && dist > MIN_DISTANCE
  }

  /** `p / (rho * rho)`, one particle's share of the pressure coefficient. */
  function SpecificPressure(pressure: real, density: real): real
    requires density != 0.0
  {
    MulNonZero(density, density, density * density);
    pressure / (density * density)
  }

  /** `pressure_force`: `-m * m * (p_i / (rho_i * rho_i) + p_j / (rho_j * rho_j))`. */
  function PressureCoefficient(pi: Particle, pj: Particle): real
    requires pi.density != 0.0 && pj.density != 0.0
  {
    -PARTICLE_MASS * PARTICLE_MASS * (SpecificPressure(pi.pressure, pi.density) + SpecificPressure(pj.pressure, pj.density))
  }

  /** The viscous factor `MU m m / (rho_i rho_j) * (-45 / (pi H^5)) * (H - dist)`. */
  function ViscousCoefficient(densityI: real, densityJ: real, dist: real): real
    requires densityI != 0.0 && densityJ != 0.0
  {
    MulNonZero(densityI, densityJ, densityI * densityJ);
    PiPositive();
    MU * PARTICLE_MASS * PARTICLE_MASS / (densityI * densityJ) * (-45.0 / (PI * H * H * H * H * H)) * (H - dist)
  }

  /** `1 / rho`, the scaling that stands for the division `v_ij * m / rho_j`. */
  function Reciprocal(density: real): real
    requires density != 0.0
  {
    1.0 / density
  }

  /** `gradW(r, H)` for `r = x_i - x_j`. */
  function PairGradient(xi: Vec3, xj: Vec3, sqrt: real -> real): Vec3
    requires IsSqrt(sqrt)
  {
    ConstantsPositive();
    GradW(xi.Minus(xj), H, sqrt)
  }

  /** What the pressure term of pair `(i, j)` adds to the force on `i`. */
  function PressurePush(pi: Particle, pj: Particle, sqrt: real -> real): Vec3
    requires IsSqrt(sqrt) && pi.density != 0.0 && pj.density != 0.0
  {
    PairGradient(pi.position, pj.position, sqrt).Scale(PressureCoefficient(pi, pj))
  }

  /** What the viscous term of pair `(i, j)` adds to the force on `i`. */
  function ViscousPush(pi: Particle, pj: Particle, sqrt: real -> real): Vec3
    requires IsSqrt(sqrt) && pi.density != 0.0 && pj.density != 0.0
  {
    pi.velocity.Minus(pj.velocity).Scale(ViscousCoefficient(pi.density, pj.density, Dist(pi.position, pj.position, sqrt)))
  }

  /**
   * What pair `(i, j)` adds to the strain rate of `i`,
   * `(v_ij * m / rho_j) * grad`: the division is a scaling by `1 / rho_j`
   * and the product of two vectors is componentwise (`Times`).
   */
  function StrainRateTerm(pi: Particle, pj: Particle, sqrt: real -> real): Vec3
    requires IsSqrt(sqrt) && pj.density != 0.0
  {
    pi.velocity.Minus(pj.velocity).Scale(PARTICLE_MASS).Scale(Reciprocal(pj.density)).Times(PairGradient(pi.position, pj.position, sqrt))
  }

  /** Whether `j` contributes to particle `i`: `j != i` and the distance test. */
  predicate Neighbour(ps: seq<Particle>, i: nat, j: nat, sqrt: real -> real)
    requires IsSqrt(sqrt) && i < |ps| && j < |ps|
  {
    j != i && Interacts(Dist(ps[i].position, ps[j].position, sqrt))
  }

  /** The force on `i` after the inner loop has visited `ps[0..n]`. */
  function ForceOver(ps: seq<Particle>, i: nat, n: nat, sqrt: real -> real): Vec3
    requires IsSqrt(sqrt) && i < |ps| && n <= |ps| && DensitiesNonZero(ps)
  {
    if n == 0 then WEIGHT
    else
      var f := ForceOver(ps, i, n - 1, sqrt);
      if Neighbour(ps, i, n - 1, sqrt) then
        f.Plus(PressurePush(ps[i], ps[n - 1], sqrt)).Plus(ViscousPush(ps[i], ps[n - 1], sqrt))
      else
        f
  }

  /** The strain rate of `i` after the inner loop has visited `ps[0..n]`. */
  function StrainRateOver(ps: seq<Particle>, i: nat, n: nat, sqrt: real -> real): Vec3
    requires IsSqrt(sqrt) && i < |ps| && n <= |ps| && DensitiesNonZero(ps)
  {
    if n == 0 then Zero
    else
      var s := StrainRateOver(ps, i, n - 1, sqrt);
      if Neighbour(ps, i, n - 1, sqrt) then s.Plus(StrainRateTerm(ps[i], ps[n - 1], sqrt)) else s
  }

  /**
   * Particle `i` after the force pass: a boundary particle is skipped; any
   * other gets the summed force and then the plasticity update. Either way
   * position, velocity, density, pressure and the boundary flag stay.
   */
  function ForceUpdated(ps: seq<Particle>, i: nat, sqrt: real -> real): (r: Particle)
    requires IsSqrt(sqrt) && i < |ps| && DensitiesNonZero(ps)
    ensures r.position == ps[i].position && r.velocity == ps[i].velocity
    ensures r.density == ps[i].density && r.pressure == ps[i].pressure && r.boundary == ps[i].boundary
    ensures ps[i].boundary ==> r == ps[i]
  {
    if ps[i].boundary then ps[i]
    else
      Plasticized(ps[i].(force := ForceOver(ps, i, |ps|, sqrt)), StrainRateOver(ps, i, |ps|, sqrt), DT, sqrt)
  }

  /** The particle vector after the force pass. */
  function ForcePass(ps: seq<Particle>, sqrt: real -> real): (r: seq<Particle>)
    requires IsSqrt(sqrt) && DensitiesNonZero(ps)
    ensures |r| == |ps|
    ensures forall i :: 0 <= i < |ps| ==> r[i] == ForceUpdated(ps, i, sqrt)
  {
    seq(|ps|, i requires 0 <= i < |ps| => ForceUpdated(ps, i, sqrt))
  }

  /**
   * One pass of the inner loop for `j != i`: if `j` is at a distance in
   * `(1e-6, H)`, `pi` gets the pressure and the viscous push and the strain
   * rate the strain term; otherwise nothing changes.
   */
  method AddPair(pi: Particle, pj: Particle, strainRate: Vec3, sqrt: real -> real) returns (pi': Particle, strainRate': Vec3)
    requires IsSqrt(sqrt) && pi.density != 0.0 && pj.density != 0.0
    ensures Interacts(Dist(pi.position, pj.position, sqrt)) ==>
      && pi' == pi.(force := pi.force.Plus(PressurePush(pi, pj, sqrt)).Plus(ViscousPush(pi, pj, sqrt)))
      && strainRate' == strainRate.Plus(StrainRateTerm(pi, pj, sqrt))
    ensures !Interacts(Dist(pi.position, pj.position, sqrt)) ==> pi' == pi && strainRate' == strainRate
  {
    pi', strainRate' := pi, strainRate;
    var r := pi.position.Minus(pj.position);
    var dist := r.Length(sqrt);
    DistIsLength(pi.position, pj.position, sqrt);
    if dist < H && dist > MIN_DISTANCE {
      var grad := PairGradient(pi.position, pj.position, sqrt);
      var pressureForce := PressureCoefficient(pi, pj);
      var f := AddAssign(pi'.force, grad.Scale(pressureForce));
      pi' := pi'.(force := f);
      var vij := pi'.velocity.Minus(pj.velocity);
      f := AddAssign(pi'.force, vij.Scale(ViscousCoefficient(pi'.density, pj.density, dist)));
      pi' := pi'.(force := f);
      strainRate' := AddAssign(strainRate', vij.Scale(PARTICLE_MASS).Scale(Reciprocal(pj.density)).Times(grad));
    }
  }

  /**
   * The source works on `pi`, a reference to particle `i`; here `pi` is a
   * local copy stored back before the plasticity update, which is the same
   * because the inner loop skips `j == i` and so never reads particle `i`
   * from the vector.
   */
  method ComputeForces(a: array<Particle>, sqrt: real -> real)
    requires IsSqrt(sqrt) && DensitiesNonZero(a[..])
    modifies a
    ensures a[..] == ForcePass(old(a[..]), sqrt)
  {
    ghost var ps := a[..];
    for i := 0 to a.Length
      invariant forall k :: 0 <= k < i ==> a[k] == ForceUpdated(ps, k, sqrt)
      invariant forall k :: i <= k < a.Length ==> a[k] == ps[k]
    {
      var pi := a[i];
      if pi.boundary {
        continue;
      }
      pi := pi.(force := WEIGHT);
      var strainRate := Zero;
      for j := 0 to a.Length
        modifies {}
        invariant pi == ps[i].(force := ForceOver(ps, i, j, sqrt))
        invariant strainRate == StrainRateOver(ps, i, j, sqrt)
      {
        if j == i {
          continue;
        }
        var pj := a[j];
        assert SameKinematics(pj, ps[j]);
        PairTermsKinematic(pi, pj, ps[i], ps[j], sqrt);
        pi, strainRate := AddPair(pi, pj, strainRate, sqrt);
      }
      a[i] := pi;
      ApplyPlasticity(a, i, strainRate, DT, sqrt);
    }
  }

  /** The force pass leaves a boundary particle exactly as it was, force and plastic strain included. */
  lemma ForcePassBoundaryUntouched(ps: seq<Particle>, i: nat, sqrt: real -> real)
    requires IsSqrt(sqrt) && DensitiesNonZero(ps) && i < |ps| && ps[i].boundary
    ensures ForcePass(ps, sqrt)[i] == ps[i]
  {
  }

  /** The force pass changes no position, velocity, density, pressure or boundary flag. */
  lemma ForcePassFrame(ps: seq<Particle>, i: nat, sqrt: real -> real)
    requires IsSqrt(sqrt) && DensitiesNonZero(ps) && i < |ps|
    ensures ForcePass(ps, sqrt)[i].position == ps[i].position
    ensures ForcePass(ps, sqrt)[i].velocity == ps[i].velocity
    ensures ForcePass(ps, sqrt)[i].density == ps[i].density
    ensures ForcePass(ps, sqrt)[i].pressure == ps[i].pressure
    ensures ForcePass(ps, sqrt)[i].boundary == ps[i].boundary
  {
  }

  lemma {:induction false} IsolatedOver(ps: seq<Particle>, i: nat, n: nat, sqrt: real -> real)
    requires IsSqrt(sqrt) && DensitiesNonZero(ps) && i < |ps| && n <= |ps|
    requires forall j :: 0 <= j < n ==> !Neighbour(ps, i, j, sqrt)
    ensures ForceOver(ps, i, n, sqrt) == WEIGHT
    ensures StrainRateOver(ps, i, n, sqrt) == Zero
  {
    if n > 0 {
      IsolatedOver(ps, i, n - 1, sqrt);
    }
  }

  /**
   * A non-boundary particle with no neighbour gets exactly the weight
   * `GRAVITY * PARTICLE_MASS` and keeps its plastic strain.
   */
  lemma Isolated(ps: seq<Particle>, i: nat, sqrt: real -> real)
    requires IsSqrt(sqrt) && DensitiesNonZero(ps) && i < |ps| && !ps[i].boundary
    requires forall j :: 0 <= j < |ps| ==> !Neighbour(ps, i, j, sqrt)
    ensures ForcePass(ps, sqrt)[i].force == WEIGHT
    ensures ForcePass(ps, sqrt)[i].plasticStrain == ps[i].plasticStrain
  {
    IsolatedOver(ps, i, |ps|, sqrt);
    ZeroStrainRateUnchanged(ps[i].plasticStrain, Zero, DT, sqrt);
  }

  lemma {:induction false} ReplaceOutsiderOver(ps: seq<Particle>, qs: seq<Particle>, i: nat, j: nat, n: nat, sqrt: real -> real)
    requires IsSqrt(sqrt) && DensitiesNonZero(ps) && DensitiesNonZero(qs)
    requires |ps| == |qs| && i < |ps| && j < |ps| && n <= |ps| && i != j
    requires forall k :: 0 <= k < |ps| && k != j ==> qs[k] == ps[k]
    requires !Neighbour(ps, i, j, sqrt) && !Neighbour(qs, i, j, sqrt)
    ensures ForceOver(ps, i, n, sqrt) == ForceOver(qs, i, n, sqrt)
    ensures StrainRateOver(ps, i, n, sqrt) == StrainRateOver(qs, i, n, sqrt)
  {
    if n > 0 {
      ReplaceOutsiderOver(ps, qs, i, j, n - 1, sqrt);
    }
  }

  /**
   * Only neighbours count: replacing a particle that is not a neighbour of
   * `i`, before or after, by any other non-neighbour leaves `i`'s result unchanged.
   */
  lemma ReplaceOutsider(ps: seq<Particle>, qs: seq<Particle>, i: nat, j: nat, sqrt: real -> real)
    requires IsSqrt(sqrt) && DensitiesNonZero(ps) && DensitiesNonZero(qs)
    requires |ps| == |qs| && i < |ps| && j < |ps| && i != j
    requires forall k :: 0 <= k < |ps| && k != j ==> qs[k] == ps[k]
    requires !Neighbour(ps, i, j, sqrt) && !Neighbour(qs, i, j, sqrt)
    ensures ForcePass(ps, sqrt)[i] == ForcePass(qs, sqrt)[i]
  {
    ReplaceOutsiderOver(ps, qs, i, j, |ps|, sqrt);
  }

  /** The pressure coefficient is symmetric in `i` and `j`. */
  lemma PressureCoefficientSymmetric(pi: Particle, pj: Particle)
    requires pi.density != 0.0 && pj.density != 0.0
    ensures PressureCoefficient(pi, pj) == PressureCoefficient(pj, pi)
  {
  }

  /** The pressure push of `j` on `i` is the negation of that of `i` on `j`. */
  lemma PressureAntisymmetric(pi: Particle, pj: Particle, sqrt: real -> real)
    requires IsSqrt(sqrt) && pi.density != 0.0 && pj.density != 0.0
    ensures Opposite(PressurePush(pi, pj, sqrt), PressurePush(pj, pi, sqrt))
  {
    var r := pi.position.Minus(pj.position);
    assert pj.position.Minus(pi.position) == r.Neg();
    ConstantsPositive();
    GradWAntisymmetric(r, H, sqrt);
    PressureCoefficientSymmetric(pi, pj);
    OppositeScale(PairGradient(pj.position, pi.position, sqrt), PairGradient(pi.position, pj.position, sqrt), PressureCoefficient(pi, pj));
  }

  /** The viscous coefficient is symmetric in `i` and `j`. */
  lemma ViscousCoefficientSymmetric(densityI: real, densityJ: real, dist: real)
    requires densityI != 0.0 && densityJ != 0.0
    ensures ViscousCoefficient(densityI, densityJ, dist) == ViscousCoefficient(densityJ, densityI, dist)
  {
    assert densityI * densityJ == densityJ * densityI;
  }

  /** The viscous push of `j` on `i` is the negation of that of `i` on `j`. */
  lemma ViscousAntisymmetric(pi: Particle, pj: Particle, sqrt: real -> real)
    requires IsSqrt(sqrt) && pi.density != 0.0 && pj.density != 0.0
    ensures Opposite(ViscousPush(pi, pj, sqrt), ViscousPush(pj, pi, sqrt))
  {
    var d := Dist(pi.position, pj.position, sqrt);
    DistSymmetric(pi.position, pj.position, sqrt);
    var c := ViscousCoefficient(pi.density, pj.density, d);
    ViscousCoefficientSymmetric(pi.density, pj.density, d);
    MinusOpposite(pi.velocity, pj.velocity);
    OppositeScale(pi.velocity.Minus(pj.velocity), pj.velocity.Minus(pi.velocity), c);
  }

  /** The fields of a particle that the force pass reads from its neighbours. */
  predicate SameKinematics(p: Particle, q: Particle)
  {
    p.position == q.position && p.velocity == q.velocity && p.density == q.density && p.pressure == q.pressure
  }

  /** The pair terms read only the position, velocity, density and pressure of the two particles. */
  lemma PairTermsKinematic(pi: Particle, pj: Particle, qi: Particle, qj: Particle, sqrt: real -> real)
    requires IsSqrt(sqrt) && pi.density != 0.0 && pj.density != 0.0
    requires SameKinematics(pi, qi) && SameKinematics(pj, qj)
    ensures PressurePush(pi, pj, sqrt) == PressurePush(qi, qj, sqrt)
    ensures ViscousPush(pi, pj, sqrt) == ViscousPush(qi, qj, sqrt)
    ensures StrainRateTerm(pi, pj, sqrt) == StrainRateTerm(qi, qj, sqrt)
  {
  }

  lemma {:induction false} KinematicsOnlyOver(ps: seq<Particle>, qs: seq<Particle>, i: nat, n: nat, sqrt: real -> real)
    requires IsSqrt(sqrt) && DensitiesNonZero(ps) && DensitiesNonZero(qs)
    requires |ps| == |qs| && i < |ps| && n <= |ps|
    requires forall k :: 0 <= k < |ps| ==> SameKinematics(ps[k], qs[k])
    ensures ForceOver(ps, i, n, sqrt) == ForceOver(qs, i, n, sqrt)
    ensures StrainRateOver(ps, i, n, sqrt) == StrainRateOver(qs, i, n, sqrt)
  {
    if n > 0 {
      KinematicsOnlyOver(ps, qs, i, n - 1, sqrt);
      PairTermsKinematic(ps[i], ps[n - 1], qs[i], qs[n - 1], sqrt);
    }
  }

  /**
   * The result for `i` reads only the position, velocity, density and
   * pressure of the others, none of which the pass writes; so the forces
   * and plastic strains already rewritten when `i` is visited do not
   * matter, and the in-place loop computes the same as the pure pass.
   */
  lemma KinematicsOnly(ps: seq<Particle>, qs: seq<Particle>, i: nat, sqrt: real -> real)
    requires IsSqrt(sqrt) && DensitiesNonZero(ps) && DensitiesNonZero(qs)
    requires |ps| == |qs| && i < |ps| && ps[i] == qs[i]
    requires forall k :: 0 <= k < |ps| ==> SameKinematics(ps[k], qs[k])
    ensures ForceUpdated(ps, i, sqrt) == ForceUpdated(qs, i, sqrt)
  {
    KinematicsOnlyOver(ps, qs, i, |ps|, sqrt);
  }

  // ---------------------------------------------------------------------
  // integrate

  /**
   * The two box tests of one axis, in order: below 0 the coordinate is set
   * to 0, above `hi` to `hi`, and each test that fires multiplies the
   * velocity component by `-0.5`.
   */
  function Bounce(c: real, v: real, hi: real): (real, real)
  {
    var low := if c < 0.0 then (0.0, v * -0.5) else (c, v);
    if low.0 > hi then (hi, low.1 * -0.5) else low
  }

  /** Particle `p` after `integrate`. */
  function Integrated(p: Particle): (r: Particle)
    ensures r.force == p.force && r.density == p.density && r.pressure == p.pressure
    ensures r.boundary == p.boundary && r.plasticStrain == p.plasticStrain
    ensures p.boundary ==> r == p
  {
    if p.boundary then p
    else
      var v := p.velocity.Plus(p.force.Scale(DT / PARTICLE_MASS));
      var x := p.position.Plus(v.Scale(DT));
      var onX := Bounce(x.x, v.x, WIDTH);
      var onY := Bounce(x.y, v.y, HEIGHT);
      var onZ := Bounce(x.z, v.z, DEPTH);
      p.(position := Vec3(onX.0, onY.0, onZ.0), velocity := Vec3(onX.1, onY.1, onZ.1))
  }

  /** The particle vector after `integrate`. */
  function IntegratePass(ps: seq<Particle>): (r: seq<Particle>)
    ensures |r| == |ps|
    ensures forall i :: 0 <= i < |ps| ==> r[i] == Integrated(ps[i])
  {
    seq(|ps|, i requires 0 <= i < |ps| => Integrated(ps[i]))
  }

  /**
   * The source updates each particle through a reference `p`; here `p` is a
   * local copy that is stored back once, which is the same because the
   * loop reads no other particle.
   */
  method Integrate(a: array<Particle>)
    modifies a
    ensures a[..] == IntegratePass(old(a[..]))
  {
    for i := 0 to a.Length
      invariant forall k :: 0 <= k < i ==> a[k] == Integrated(old(a[k]))
      invariant forall k :: i <= k < a.Length ==> a[k] == old(a[k])
    {
      var p := a[i];
      if p.boundary {
        continue;
      }
      var v := AddAssign(p.velocity, p.force.Scale(DT / PARTICLE_MASS));
      p := p.(velocity := v);
      var x := AddAssign(p.position, p.velocity.Scale(DT));
      p := p.(position := x);
      if p.position.x < 0.0 {
        p := p.(position := p.position.(x := 0.0), velocity := p.velocity.(x := p.velocity.x * -0.5));
      }
      if p.position.x > WIDTH {
        p := p.(position := p.position.(x := WIDTH), velocity := p.velocity.(x := p.velocity.x * -0.5));
      }
      if p.position.y < 0.0 {
        p := p.(position := p.position.(y := 0.0), velocity := p.velocity.(y := p.velocity.y * -0.5));
      }
      if p.position.y > HEIGHT {
        p := p.(position := p.position.(y := HEIGHT), velocity := p.velocity.(y := p.velocity.y * -0.5));
      }
      if p.position.z < 0.0 {
        p := p.(position := p.position.(z := 0.0), velocity := p.velocity.(z := p.velocity.z * -0.5));
      }
      if p.position.z > DEPTH {
        p := p.(position := p.position.(z := DEPTH), velocity := p.velocity.(z := p.velocity.z * -0.5));
      }
      a[i] := p;
    }
  }

  /**
   * For a positive `hi` at most one of the two tests fires: a coordinate
   * below the box is put on 0, one above it on `hi`, each with its velocity
   * reflected once; one inside is left with its velocity. The result is in `[0, hi]`.
   */
  lemma BounceCases(c: real, v: real, hi: real)
    requires 0.0 < hi
    ensures c < 0.0 ==> Bounce(c, v, hi) == (0.0, -0.5 * v)
    ensures c > hi ==> Bounce(c, v, hi) == (hi, -0.5 * v)
    ensures 0.0 <= c <= hi ==> Bounce(c, v, hi) == (c, v)
    ensures 0.0 <= Bounce(c, v, hi).0 <= hi
  {
  }

  /** After `integrate` every non-boundary particle lies in the closed box. */
  lemma IntegratedInBox(p: Particle)
    requires !p.boundary
    ensures 0.0 <= Integrated(p).position.x <= WIDTH
    ensures 0.0 <= Integrated(p).position.y <= HEIGHT
    ensures 0.0 <= Integrated(p).position.z <= DEPTH
  {
    var v := p.velocity.Plus(p.force.Scale(DT / PARTICLE_MASS));
    var x := p.position.Plus(v.Scale(DT));
    BounceCases(x.x, v.x, WIDTH);
    BounceCases(x.y, v.y, HEIGHT);
    BounceCases(x.z, v.z, DEPTH);
  }

  /**
   * When no clamp fires the step is plain semi-implicit Euler:
   * `v' = v + F DT / m` and then `x' = x + v' DT`.
   */
  lemma IntegratedEuler(p: Particle)
    requires !p.boundary
    requires var v := p.velocity.Plus(p.force.Scale(DT / PARTICLE_MASS));
      var x := p.position.Plus(v.Scale(DT));
      0.0 <= x.x <= WIDTH && 0.0 <= x.y <= HEIGHT && 0.0 <= x.z <= DEPTH
    ensures Integrated(p).velocity == p.velocity.Plus(p.force.Scale(DT / PARTICLE_MASS))
    ensures Integrated(p).position == p.position.Plus(Integrated(p).velocity.Scale(DT))
  {
    var v := p.velocity.Plus(p.force.Scale(DT / PARTICLE_MASS));
    var x := p.position.Plus(v.Scale(DT));
    BounceCases(x.x, v.x, WIDTH);
    BounceCases(x.y, v.y, HEIGHT);
    BounceCases(x.z, v.z, DEPTH);
  }
}
