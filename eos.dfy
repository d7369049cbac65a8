/**
 * The density and pressure pass `computeDensityPressure` (SPH_EOS.cpp).
 *
 * For every particle, boundary or not, the density is the kernel-weighted
 * mass of every particle closer than `H`, itself included, summed in index
 * order; the pressure then follows from the linear equation of state.
 */
module Eos {
  import opened Arith
  import opened Vectors
  import opened Kernel
  import opened Particles

  /**
   * The distance between two points, `(a - b).length()`. The `a == b` case
   * has no counterpart in the source: it spares the solver the square root
   * of zero, and `DistIsLength` shows that it agrees with
   * `(a - b).length()` for every input.
   */
  function Dist(a: Vec3, b: Vec3, sqrt: real -> real): (d: real)
    requires IsSqrt(sqrt)
    ensures 0.0 <= d
  {
    if a == b then 0.0 else a.Minus(b).Length(sqrt)
  }

  /** `Dist` is `(a - b).length()` for every pair of points. */
  lemma DistIsLength(a: Vec3, b: Vec3, sqrt: real -> real)
    requires IsSqrt(sqrt)
    ensures Dist(a, b, sqrt) == a.Minus(b).Length(sqrt)
  {
    if a == b {
      SelfDistance(a, sqrt);
    }
  }

  /** The distance from `a` to `b` is the distance from `b` to `a`. */
  lemma DistSymmetric(a: Vec3, b: Vec3, sqrt: real -> real)
    requires IsSqrt(sqrt)
    ensures Dist(a, b, sqrt) == Dist(b, a, sqrt)
  {
    if a != b {
      LengthSymmetric(a, b, sqrt);
    }
  }

  /** What a particle at distance `dist` adds to the density. */
  function DensityTerm(dist: real): real
  {
    ConstantsPositive();
    if dist < H then PARTICLE_MASS * W(dist, H) else 0.0
  }

  /** The density at `p` after the inner loop has visited `ps[0..n]`. */
  function DensityOver(ps: seq<Particle>, p: Vec3, n: nat, sqrt: real -> real): real
    requires IsSqrt(sqrt) && n <= |ps|
  {
    if n == 0 then 0.0
    else DensityOver(ps, p, n - 1, sqrt) + DensityTerm(Dist(p, ps[n - 1].position, sqrt))
  }

  /** The density `computeDensityPressure` gives particle `i`. */
  function Density(ps: seq<Particle>, i: nat, sqrt: real -> real): real
    requires IsSqrt(sqrt) && i < |ps|
  {
    DensityOver(ps, ps[i].position, |ps|, sqrt)
  }

  /** The equation of state. */
  function Pressure(density: real): real
  {
    K * (density - REST_DENSITY)
  }

  /** Particle `i` after the pass: only its density and pressure are rewritten. */
  function DensityUpdated(ps: seq<Particle>, i: nat, sqrt: real -> real): (r: Particle)
    requires IsSqrt(sqrt) && i < |ps|
    ensures r == ps[i].(density := r.density, pressure := r.pressure)
  {
    var d := Density(ps, i, sqrt);
    ps[i].(density := d, pressure := Pressure(d))
  }

  /** The particle vector after the pass. */
  function DensityPass(ps: seq<Particle>, sqrt: real -> real): (r: seq<Particle>)
    requires IsSqrt(sqrt)
    ensures |r| == |ps|
    ensures forall i :: 0 <= i < |ps| ==> r[i] == DensityUpdated(ps, i, sqrt)
  {
    seq(|ps|, i requires 0 <= i < |ps| => DensityUpdated(ps, i, sqrt))
  }

  method ComputeDensityPressure(a: array<Particle>, sqrt: real -> real)
    requires IsSqrt(sqrt)
    modifies a
    ensures a[..] == DensityPass(old(a[..]), sqrt)
  {
    ConstantsPositive();
    ghost var ps := a[..];
    for i := 0 to a.Length
      invariant forall k :: 0 <= k < i ==> a[k] == DensityUpdated(ps, k, sqrt)
      invariant forall k :: i <= k < a.Length ==> a[k] == ps[k]
    {
      a[i] := a[i].(density := 0.0);
      for j := 0 to a.Length
        invariant forall k :: 0 <= k < i ==> a[k] == DensityUpdated(ps, k, sqrt)
        invariant forall k :: i < k < a.Length ==> a[k] == ps[k]
        invariant a[i] == ps[i].(density := DensityOver(ps, ps[i].position, j, sqrt))
      {
        assert a[j].position == ps[j].position;
        var r := a[i].position.Minus(a[j].position);
        var dist := r.Length(sqrt);
        DistIsLength(a[i].position, a[j].position, sqrt);
        if dist < H {
          a[i] := a[i].(density := a[i].density + PARTICLE_MASS * W(dist, H));
        }
      }
      a[i] := a[i].(pressure := Pressure(a[i].density));
    }
  }

  /** The density does not depend on the other fields of any particle. */
  lemma {:induction false} DensityDependsOnPositions(ps: seq<Particle>, qs: seq<Particle>, p: Vec3, n: nat, sqrt: real -> real)
    requires IsSqrt(sqrt) && n <= |ps| && |ps| == |qs|
    requires Positions(ps) == Positions(qs)
    ensures DensityOver(ps, p, n, sqrt) == DensityOver(qs, p, n, sqrt)
  {
    if n > 0 {
      DensityDependsOnPositions(ps, qs, p, n - 1, sqrt);
      assert ps[n - 1].position == Positions(ps)[n - 1] == qs[n - 1].position;
    }
  }

  /** No particle takes a negative share of the density. */
  lemma DensityTermNonNegative(dist: real)
    requires 0.0 <= dist
    ensures DensityTerm(dist) >= 0.0
  {
    ConstantsPositive();
    if dist < H {
      WNonNegative(dist, H);
      MulNonNegative(PARTICLE_MASS, W(dist, H), PARTICLE_MASS * W(dist, H));
    }
  }

  /** The self term: a particle adds `PARTICLE_MASS * W(0, H)` to its own density. */
  lemma SelfTerm(p: Vec3, sqrt: real -> real)
    requires IsSqrt(sqrt)
    ensures DensityTerm(Dist(p, p, sqrt)) == PARTICLE_MASS * W(0.0, H)
    ensures DensityTerm(Dist(p, p, sqrt)) > 0.0
  {
    SelfDistance(p, sqrt);
    SelfTermAt(Dist(p, p, sqrt));
  }

  lemma SelfTermAt(d: real)
    requires d == 0.0
    ensures DensityTerm(d) == PARTICLE_MASS * W(0.0, H)
    ensures DensityTerm(d) > 0.0
  {
    WPositive(0.0, H);
  }

  /** The partial sums never decrease and never fall below any one of their terms. */
  lemma {:induction false} DensityOverBound(ps: seq<Particle>, p: Vec3, n: nat, j: nat, sqrt: real -> real)
    requires IsSqrt(sqrt) && n <= |ps|
    ensures DensityOver(ps, p, n, sqrt) >= 0.0
    ensures j < n ==> DensityOver(ps, p, n, sqrt) >= DensityTerm(Dist(p, ps[j].position, sqrt))
  {
    if n > 0 {
      DensityOverBound(ps, p, n - 1, j, sqrt);
      DensityTermNonNegative(Dist(p, ps[n - 1].position, sqrt));
      if j < n - 1 {
        DensityTermNonNegative(Dist(p, ps[j].position, sqrt));
      }
    }
  }

  /** Because the self term is included, every density is at least `PARTICLE_MASS * W(0, H) > 0`. */
  lemma DensityLowerBound(ps: seq<Particle>, i: nat, sqrt: real -> real)
    requires IsSqrt(sqrt) && i < |ps|
    ensures Density(ps, i, sqrt) >= PARTICLE_MASS * W(0.0, H)
    ensures Density(ps, i, sqrt) > 0.0
  {
    var p := ps[i].position;
    DensityOverBound(ps, p, |ps|, i, sqrt);
    SelfBound(p, Density(ps, i, sqrt), sqrt);
  }

  lemma SelfBound(p: Vec3, x: real, sqrt: real -> real)
    requires IsSqrt(sqrt)
    requires x >= DensityTerm(Dist(p, p, sqrt))
    ensures x >= PARTICLE_MASS * W(0.0, H) && x > 0.0
  {
    SelfTerm(p, sqrt);
  }

  /**
   * After the pass every particle, boundary or not, has a positive density
   * and the pressure of the equation of state, and keeps every other field.
   */
  lemma DensityPassFields(ps: seq<Particle>, i: nat, sqrt: real -> real)
    requires IsSqrt(sqrt) && i < |ps|
    ensures DensityPass(ps, sqrt)[i].density == Density(ps, i, sqrt) > 0.0
    ensures DensityPass(ps, sqrt)[i].pressure == K * (DensityPass(ps, sqrt)[i].density - REST_DENSITY)
    ensures DensityPass(ps, sqrt)[i].position == ps[i].position
    ensures DensityPass(ps, sqrt)[i].velocity == ps[i].velocity
    ensures DensityPass(ps, sqrt)[i].force == ps[i].force
    ensures DensityPass(ps, sqrt)[i].boundary == ps[i].boundary
    ensures DensityPass(ps, sqrt)[i].plasticStrain == ps[i].plasticStrain
  {
    DensityLowerBound(ps, i, sqrt);
  }

  /**
   * The pass equals the same pass applied to any particle vector with the
   * same positions: the old densities and pressures, and the ones already
   * rewritten, are never read.
   */
  lemma DensityPassReadsPositionsOnly(ps: seq<Particle>, qs: seq<Particle>, i: nat, sqrt: real -> real)
    requires IsSqrt(sqrt) && |ps| == |qs| && i < |ps|
    requires Positions(ps) == Positions(qs)
    ensures DensityPass(ps, sqrt)[i].density == DensityPass(qs, sqrt)[i].density
    ensures DensityPass(ps, sqrt)[i].pressure == DensityPass(qs, sqrt)[i].pressure
  {
    assert ps[i].position == Positions(ps)[i] == qs[i].position;
    DensityDependsOnPositions(ps, qs, ps[i].position, |ps|, sqrt);
  }
}
