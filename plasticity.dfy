/**
 * The von Mises plasticity update `applyPlasticity` (SPH_DISLOC.cpp).
 *
 * Given the strain rate a particle accumulated in the force pass, the
 * update adds the part of the deviatoric strain rate that exceeds the yield
 * criterion to the particle's plastic strain; below the yield stress the
 * strain is unchanged.
 */
module Plasticity {
  import opened Arith
  import opened Vectors
  import opened Particles

  /** `strain_rate - strain_rate * (1/3) * |strain_rate|` */
  function Deviatoric(sr: Vec3, sqrt: real -> real): Vec3
    requires IsSqrt(sqrt)
  {
    sr.Minus(sr.Scale(1.0 / 3.0).Scale(sr.Length(sqrt)))
  }

  /**
   * `std::min(1, YIELD_STRESS / (2 MU |deviatoric|))`. At magnitude 0 the
   * float quotient is `+inf`, so the minimum is 1.
   */
  function YieldFactor(devMag: real): real
  {
    if devMag == 0.0 then 1.0
    else
      var ratio := YIELD_STRESS / (2.0 * MU * devMag);
      if ratio < 1.0 then ratio else 1.0
  }

  /** The plastic strain after the update with strain rate `sr` over `dt`. */
  function PlasticStrainAfter(strain: Vec3, sr: Vec3, dt: real, sqrt: real -> real): Vec3
    requires IsSqrt(sqrt)
  {
    if sr.Length(sqrt) > 0.0 then
      var dev := Deviatoric(sr, sqrt);
      strain.Plus(dev.Scale(1.0 - YieldFactor(dev.Length(sqrt))).Scale(dt))
    else
      strain
  }

  /** The particle after the update: only its plastic strain is rewritten. */
  function Plasticized(p: Particle, sr: Vec3, dt: real, sqrt: real -> real): (r: Particle)
    requires IsSqrt(sqrt)
    ensures r.position == p.position && r.velocity == p.velocity && r.force == p.force
    ensures r.density == p.density && r.pressure == p.pressure && r.boundary == p.boundary
  {
    p.(plasticStrain := PlasticStrainAfter(p.plasticStrain, sr, dt, sqrt))
  }

  /** `applyPlasticity(particles[i], sr, dt)`: the particle is passed by reference. */
  method ApplyPlasticity(a: array<Particle>, i: nat, sr: Vec3, dt: real, sqrt: real -> real)
    requires IsSqrt(sqrt) && i < a.Length
    modifies a
    ensures a[..] == old(a[..])[i := Plasticized(old(a[i]), sr, dt, sqrt)]
  {
    var srMag := sr.Length(sqrt);
    if srMag > 0.0 {
      var deviatoric := sr.Minus(sr.Scale(1.0 / 3.0).Scale(srMag));
      var devMag := deviatoric.Length(sqrt);
      var yieldFactor := YieldFactor(devMag);
      a[i] := a[i].(plasticStrain := a[i].plasticStrain.Plus(deviatoric.Scale(1.0 - yieldFactor).Scale(dt)));
    }
  }

  /** The deviatoric part is `strain_rate * (1 - |strain_rate| / 3)`, a multiple of the strain rate. */
  lemma DeviatoricParallel(sr: Vec3, sqrt: real -> real)
    requires IsSqrt(sqrt)
    ensures Deviatoric(sr, sqrt) == sr.Scale(1.0 - sr.Length(sqrt) / 3.0)
  {
    var m := sr.Length(sqrt);
    assert sr.x - sr.x * (1.0 / 3.0) * m == sr.x * (1.0 - m / 3.0);
    assert sr.y - sr.y * (1.0 / 3.0) * m == sr.y * (1.0 - m / 3.0);
    assert sr.z - sr.z * (1.0 / 3.0) * m == sr.z * (1.0 - m / 3.0);
  }

  /** For any magnitude the yield factor lies in `(0, 1]`. */
  lemma YieldFactorBounds(devMag: real)
    requires 0.0 <= devMag
    ensures 0.0 < YieldFactor(devMag) <= 1.0
  {
    if devMag != 0.0 {
      MulPositive(2.0 * MU, devMag, 2.0 * MU * devMag);
    }
  }

  /** Below the yield stress the factor is exactly 1; above it, the ratio. */
  lemma YieldFactorCases(devMag: real)
    requires 0.0 < devMag
    ensures 2.0 * MU * devMag <= YIELD_STRESS ==> YieldFactor(devMag) == 1.0
    ensures 2.0 * MU * devMag > YIELD_STRESS ==> YieldFactor(devMag) == YIELD_STRESS / (2.0 * MU * devMag) < 1.0
  {
    MulPositive(2.0 * MU, devMag, 2.0 * MU * devMag);
  }

  /** A zero strain rate leaves the plastic strain as it is. */
  lemma ZeroStrainRateUnchanged(strain: Vec3, sr: Vec3, dt: real, sqrt: real -> real)
    requires IsSqrt(sqrt) && sr == Zero
    ensures PlasticStrainAfter(strain, sr, dt, sqrt) == strain
  {
    LengthZero(sr, sqrt);
  }

  /** In the elastic regime `2 MU |deviatoric| <= YIELD_STRESS` nothing changes either. */
  lemma ElasticRegime(strain: Vec3, sr: Vec3, dt: real, sqrt: real -> real)
    requires IsSqrt(sqrt)
    requires 2.0 * MU * Deviatoric(sr, sqrt).Length(sqrt) <= YIELD_STRESS
    ensures PlasticStrainAfter(strain, sr, dt, sqrt) == strain
  {
    var dev := Deviatoric(sr, sqrt);
    var devMag := dev.Length(sqrt);
    if devMag != 0.0 {
      YieldFactorCases(devMag);
    }
  }

  /**
   * Above the yield criterion `0 < 1 - yield_factor < 1`, and the scaled
   * magnitude `(1 - yield_factor) |deviatoric|` is the excess
   * `|deviatoric| - YIELD_STRESS / (2 MU)` over the criterion.
   */
  lemma PlasticExcess(devMag: real)
    requires 2.0 * MU * devMag > YIELD_STRESS
    ensures 0.0 < 1.0 - YieldFactor(devMag) < 1.0
    ensures (1.0 - YieldFactor(devMag)) * devMag == devMag - YIELD_STRESS / (2.0 * MU)
  {
    YieldFactorCases(devMag);
    assert (1.0 - YIELD_STRESS / (2.0 * MU * devMag)) * devMag == devMag - YIELD_STRESS / (2.0 * MU);
  }

  /**
   * For a non-zero strain rate the strain grows by exactly
   * `(1 - yield_factor) * deviatoric * dt`. This is the update as written;
   * what it means above the yield criterion is stated by `PlasticExcess`
   * and `PlasticGrowth`, which build on it.
   */
  lemma PlasticIncrement(strain: Vec3, sr: Vec3, dt: real, sqrt: real -> real)
    requires IsSqrt(sqrt) && sr != Zero
    ensures PlasticStrainAfter(strain, sr, dt, sqrt)
      == strain.Plus(Deviatoric(sr, sqrt).Scale(1.0 - YieldFactor(Deviatoric(sr, sqrt).Length(sqrt))).Scale(dt))
  {
    LengthZero(sr, sqrt);
  }

  /**
   * In the plastic regime, over a step `dt >= 0`, the plastic strain moves
   * along the unit deviatoric direction by `(|deviatoric| - YIELD_STRESS / (2 MU)) * dt`:
   * in proportion to the excess over the yield criterion.
   */
  lemma PlasticGrowth(strain: Vec3, sr: Vec3, dt: real, sqrt: real -> real)
    requires IsSqrt(sqrt) && sr != Zero && 0.0 <= dt
    requires 2.0 * MU * Deviatoric(sr, sqrt).Length(sqrt) > YIELD_STRESS
    ensures Deviatoric(sr, sqrt).Normalized(sqrt).Length(sqrt) == 1.0
    ensures Deviatoric(sr, sqrt).Length(sqrt) - YIELD_STRESS / (2.0 * MU) > 0.0
    ensures PlasticStrainAfter(strain, sr, dt, sqrt)
      == strain.Plus(Deviatoric(sr, sqrt).Normalized(sqrt).Scale((Deviatoric(sr, sqrt).Length(sqrt) - YIELD_STRESS / (2.0 * MU)) * dt))
  {
    var m := Deviatoric(sr, sqrt).Length(sqrt);
    PlasticIncrement(strain, sr, dt, sqrt);
    PlasticExcess(m);
    var next := PlasticStrainAfter(strain, sr, dt, sqrt);
    var u := Deviatoric(sr, sqrt).Normalized(sqrt);
    var e := m - YIELD_STRESS / (2.0 * MU);
    RescaledStep(next, strain, Deviatoric(sr, sqrt), 1.0 - YieldFactor(m), m, e, dt, u);
    var s := (Deviatoric(sr, sqrt).Length(sqrt) - YIELD_STRESS / (2.0 * MU)) * dt;
    assert s == e * dt;
    assert u.Scale(s) == u.Scale(e * dt);
  }

  /** A step `dev * c * dt` with `c m == e` is the step `(dev / m) * (e dt)`. */
  lemma RescaledStep(next: Vec3, strain: Vec3, dev: Vec3, c: real, m: real, e: real, dt: real, u: Vec3)
    requires next == strain.Plus(dev.Scale(c).Scale(dt))
    requires 0.0 < m && c * m == e && u == dev.Scale(1.0 / m)
    ensures next == strain.Plus(u.Scale(e * dt))
  {
  }

  /** For `|strain_rate| <= 3`, `|deviatoric| == (1 - |strain_rate| / 3) |strain_rate|`. */
  lemma DeviatoricLength(sr: Vec3, sqrt: real -> real)
    requires IsSqrt(sqrt) && sr.Length(sqrt) <= 3.0
    ensures Deviatoric(sr, sqrt).Length(sqrt) == (1.0 - sr.Length(sqrt) / 3.0) * sr.Length(sqrt)
  {
    DeviatoricParallel(sr, sqrt);
    ScaleLength(sr, 1.0 - sr.Length(sqrt) / 3.0, sqrt);
  }

  /**
   * The plastic regime is reachable: the strain rate `(1.5, 0, 0)` has a
   * deviatoric part of length `0.75`, and `2 MU * 0.75` exceeds `YIELD_STRESS`.
   */
  lemma PlasticRegimeReachable(sqrt: real -> real)
    requires IsSqrt(sqrt)
    ensures var sr := Vec3(1.5, 0.0, 0.0);
      sr != Zero && Deviatoric(sr, sqrt).Length(sqrt) == 0.75
      && 2.0 * MU * Deviatoric(sr, sqrt).Length(sqrt) > YIELD_STRESS
  {
    var sr := Vec3(1.5, 0.0, 0.0);
    assert Sq(sr.Length(sqrt)) == Sq(1.5);
    RootUnique(sr.Length(sqrt), 1.5);
    DeviatoricLength(sr, sqrt);
  }

  /** At `|strain_rate| == 3` the deviatoric part is the zero vector, so its magnitude is 0. */
  lemma DeviatoricVanishesAtThree(sr: Vec3, sqrt: real -> real)
    requires IsSqrt(sqrt) && sr.Length(sqrt) == 3.0
    ensures Deviatoric(sr, sqrt) == Zero
    ensures Deviatoric(sr, sqrt).Length(sqrt) == 0.0
  {
    DeviatoricParallel(sr, sqrt);
    LengthZero(Deviatoric(sr, sqrt), sqrt);
  }

  /** For a non-zero strain rate that is the only place where the deviatoric part vanishes. */
  lemma DeviatoricVanishesOnlyAtThree(sr: Vec3, sqrt: real -> real)
    requires IsSqrt(sqrt) && sr != Zero && Deviatoric(sr, sqrt) == Zero
    ensures sr.Length(sqrt) == 3.0
  {
    DeviatoricParallel(sr, sqrt);
    ScaleZero(sr, 1.0 - sr.Length(sqrt) / 3.0);
  }

  lemma ScaleZero(v: Vec3, c: real)
    requires v != Zero && v.Scale(c) == Zero
    ensures c == 0.0
  {
    if v.x != 0.0 {
      ProductZero(v.x, c);
    } else if v.y != 0.0 {
      ProductZero(v.y, c);
    } else {
      ProductZero(v.z, c);
    }
  }

  lemma ProductZero(a: real, c: real)
    requires a != 0.0 && a * c == 0.0
    ensures c == 0.0
  {
    if c != 0.0 {
      MulNonZero(a, c, a * c);
    }
  }
}
