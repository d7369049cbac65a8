/**
 * The model constants and the particle record of SPH_PARTICLE.h.
 *
 * `Particle` is a value struct held by value in the particle vector, so it is
 * a datatype; a pass that writes a field of `particles[i]` assigns the record
 * with that field replaced.
 */
module Particles {
  import opened Vectors

  const NUM_PARTICLES: nat := 2000
  const WIDTH: real := 5.0
  const HEIGHT: real := 5.0
  const DEPTH: real := 5.0
  const PARTICLE_MASS: real := 0.05
  /** Stiffness of the equation of state. */
  const K: real := 5000.0
  /** Viscosity, also the shear modulus of the yield criterion. */
  const MU: real := 200.0
  const YIELD_STRESS: real := 50.0
  const REST_DENSITY: real := 1.0
  /** Smoothing radius. */
  const H: real := 0.5
  /** Time step. */
  const DT: real := 0.001
  const G: real := -9.81
  const GRAVITY: Vec3 := Vec3(0.0, G, 0.0)
  /** `GRAVITY * PARTICLE_MASS`, the force every non-boundary particle starts from. */
  const WEIGHT: Vec3 := Vec3(0.0, G * PARTICLE_MASS, 0.0)

  datatype Particle = Particle(
    position: Vec3,
    velocity: Vec3,
    force: Vec3,
    density: real,
    pressure: real,
    boundary: bool,
    plasticStrain: Vec3)

  /** The closed box `[0, WIDTH] x [0, HEIGHT] x [0, DEPTH]`. */
  predicate InBox(v: Vec3)
  {
    0.0 <= v.x <= WIDTH && 0.0 <= v.y <= HEIGHT && 0.0 <= v.z <= DEPTH
  }

  /** The positions of a particle sequence, in order. */
  function Positions(ps: seq<Particle>): (r: seq<Vec3>)
    ensures |r| == |ps|
    ensures forall i :: 0 <= i < |ps| ==> r[i] == ps[i].position
  {
    seq(|ps|, i requires 0 <= i < |ps| => ps[i].position)
  }

  /** `WEIGHT` is `GRAVITY * PARTICLE_MASS`. */
  lemma WeightIsScaledGravity()
    ensures WEIGHT == GRAVITY.Scale(PARTICLE_MASS)
  {
  }

  /** The sizes, the time step and the mass are positive; gravity acts along y only. */
  lemma ConstantsPositive()
    ensures 0.0 < H && 0.0 < DT && 0.0 < PARTICLE_MASS
    ensures 0.0 < WIDTH && 0.0 < HEIGHT && 0.0 < DEPTH
    ensures GRAVITY.x == 0.0 && GRAVITY.z == 0.0 && GRAVITY.y != 0.0
  {
  }
}
