/**
 * The step loop of `main` (SPH.cpp): 1000 steps, each running the density
 * pass, the force pass and the integrator in that order, with a snapshot of
 * the particle positions (what `saveToFile` writes to `frame_<index>.xyz`)
 * after every step whose number is a multiple of 10.
 */
module Simulation {
  import opened Vectors
  import opened Particles
  import opened Eos
  import opened Move
  import opened CreateSystem

  /** The number of steps `main` runs. */
  const STEPS: nat := 1000
  /** A snapshot is taken after every step whose number is a multiple of this. */
  const SNAPSHOT_PERIOD: nat := 10

  /** The density pass leaves no density at zero, so the force pass may divide by them. */
  lemma DensityPassNonZero(ps: seq<Particle>, sqrt: real -> real)
    requires IsSqrt(sqrt)
    ensures DensitiesNonZero(DensityPass(ps, sqrt))
  {
    forall i | 0 <= i < |ps| {
      DensityPassFields(ps, i, sqrt);
    }
  }

  /** One step: density and pressure, then forces and plasticity, then integration. */
  function Step(ps: seq<Particle>, sqrt: real -> real): (r: seq<Particle>)
    requires IsSqrt(sqrt)
    ensures |r| == |ps|
  {
    DensityPassNonZero(ps, sqrt);
    IntegratePass(ForcePass(DensityPass(ps, sqrt), sqrt))
  }

  /** The particle vector after `k` steps. */
  function Run(ps: seq<Particle>, k: nat, sqrt: real -> real): (r: seq<Particle>)
    requires IsSqrt(sqrt)
    ensures |r| == |ps|
  {
    if k == 0 then ps else Step(Run(ps, k - 1, sqrt), sqrt)
  }

  /** What `saveToFile(particles, index)` writes: the index and every position in order. */
  datatype Frame = Frame(index: nat, positions: seq<Vec3>)

  /** The snapshots taken during steps `0 .. steps - 1`, in order. */
  function Frames(ps: seq<Particle>, steps: nat, sqrt: real -> real): seq<Frame>
    requires IsSqrt(sqrt)
  {
    if steps == 0 then []
    else
      var s := steps - 1;
      Frames(ps, s, sqrt)
      + if s % SNAPSHOT_PERIOD == 0 then [Frame(s / SNAPSHOT_PERIOD, Positions(Run(ps, steps, sqrt)))] else []
  }

  /**
   * Snapshot `k` is taken after step `10 k`, that is after `10 k + 1`
   * steps, and the first `steps` steps take `ceil(steps / 10)` snapshots.
   */
  lemma {:induction false} FramesSchedule(ps: seq<Particle>, steps: nat, sqrt: real -> real)
    requires IsSqrt(sqrt)
    ensures |Frames(ps, steps, sqrt)| == (steps + SNAPSHOT_PERIOD - 1) / SNAPSHOT_PERIOD
    ensures forall k :: 0 <= k < |Frames(ps, steps, sqrt)| ==>
      Frames(ps, steps, sqrt)[k] == Frame(k, Positions(Run(ps, SNAPSHOT_PERIOD * k + 1, sqrt)))
  {
    if steps > 0 {
      var s := steps - 1;
      FramesSchedule(ps, s, sqrt);
      SnapshotCount(s);
      var before := Frames(ps, s, sqrt);
      if s % SNAPSHOT_PERIOD == 0 {
        assert Frames(ps, steps, sqrt) == before + [Frame(s / SNAPSHOT_PERIOD, Positions(Run(ps, steps, sqrt)))];
      } else {
        assert Frames(ps, steps, sqrt) == before;
      }
    }
  }

  /** Step `s` adds snapshot number `s / 10` exactly when `s % 10 == 0`. */
  lemma SnapshotCount(s: nat)
    ensures s % SNAPSHOT_PERIOD == 0 ==>
      && (s + SNAPSHOT_PERIOD) / SNAPSHOT_PERIOD == (s + SNAPSHOT_PERIOD - 1) / SNAPSHOT_PERIOD + 1
      && s / SNAPSHOT_PERIOD == (s + SNAPSHOT_PERIOD - 1) / SNAPSHOT_PERIOD
      && SNAPSHOT_PERIOD * (s / SNAPSHOT_PERIOD) + 1 == s + 1
    ensures s % SNAPSHOT_PERIOD != 0 ==> (s + SNAPSHOT_PERIOD) / SNAPSHOT_PERIOD == (s + SNAPSHOT_PERIOD - 1) / SNAPSHOT_PERIOD
  {
  }

  /** `main` takes 100 snapshots, numbered 0 to 99. */
  lemma HundredFrames(ps: seq<Particle>, sqrt: real -> real)
    requires IsSqrt(sqrt)
    ensures |Frames(ps, STEPS, sqrt)| == 100
    ensures forall k :: 0 <= k < 100 ==> Frames(ps, STEPS, sqrt)[k].index == k
  {
    FramesSchedule(ps, STEPS, sqrt);
  }

  /** The step loop of `main`, run on the particle vector `a`. */
  method StepLoop(a: array<Particle>, sqrt: real -> real) returns (frames: seq<Frame>)
    requires IsSqrt(sqrt)
    modifies a
    ensures a[..] == Run(old(a[..]), STEPS, sqrt)
    ensures frames == Frames(old(a[..]), STEPS, sqrt)
  {
    ghost var ps := a[..];
    frames := [];
    for step := 0 to STEPS
      invariant a[..] == Run(ps, step, sqrt)
      invariant frames == Frames(ps, step, sqrt)
    {
      ComputeDensityPressure(a, sqrt);
      DensityPassNonZero(Run(ps, step, sqrt), sqrt);
      ComputeForces(a, sqrt);
      Integrate(a);
      if step % SNAPSHOT_PERIOD == 0 {
        frames := frames + [Frame(step / SNAPSHOT_PERIOD, Positions(a[..]))];
      }
    }
  }

  /** `main`: initialise the particles, then run the step loop; the result is the list of snapshots. */
  method Simulate(n: nat, draws: seq<real>, sqrt: real -> real) returns (frames: seq<Frame>)
    requires IsSqrt(sqrt) && |draws| >= DrawsNeeded(n)
    ensures frames == Frames(InitialSystem(n, draws), STEPS, sqrt)
  {
    var particles := InitParticles(n, draws);
    frames := StepLoop(particles, sqrt);
  }

  /**
   * `q` has the boundary flag of `p` and, if `p` is a boundary particle,
   * also its position, velocity, force and plastic strain.
   */
  predicate Frozen(p: Particle, q: Particle)
  {
    && q.boundary == p.boundary
    && (p.boundary ==>
      && q.position == p.position && q.velocity == p.velocity
      && q.force == p.force && q.plasticStrain == p.plasticStrain)
  }

  /**
   * A step keeps every boundary flag and freezes every boundary particle
   * but for its density and pressure; a non-boundary particle ends inside
   * the box.
   */
  lemma StepFields(ps: seq<Particle>, i: nat, sqrt: real -> real)
    requires IsSqrt(sqrt) && i < |ps|
    ensures Frozen(ps[i], Step(ps, sqrt)[i])
    ensures !ps[i].boundary ==> InBox(Step(ps, sqrt)[i].position)
  {
    var ds := DensityPass(ps, sqrt);
    DensityPassFields(ps, i, sqrt);
    DensityPassNonZero(ps, sqrt);
    var fs := ForcePass(ds, sqrt);
    ForcePassFrame(ds, i, sqrt);
    if ps[i].boundary {
      ForcePassBoundaryUntouched(ds, i, sqrt);
    } else {
      IntegratedInBox(fs[i]);
    }
  }

  /** A particle frozen relative to `p` before a step is still frozen relative to `p` after it. */
  lemma StepKeepsFrozen(p: Particle, ps: seq<Particle>, i: nat, sqrt: real -> real)
    requires IsSqrt(sqrt) && i < |ps| && Frozen(p, ps[i])
    ensures Frozen(p, Step(ps, sqrt)[i])
  {
    StepFields(ps, i, sqrt);
  }

  /** Boundary particles never move and keep their velocity, force and plastic strain. */
  lemma {:induction false} BoundaryFrozen(ps: seq<Particle>, k: nat, i: nat, sqrt: real -> real)
    requires IsSqrt(sqrt) && i < |ps|
    ensures Frozen(ps[i], Run(ps, k, sqrt)[i])
  {
    if k > 0 {
      BoundaryFrozen(ps, k - 1, i, sqrt);
      StepKeepsFrozen(ps[i], Run(ps, k - 1, sqrt), i, sqrt);
    }
  }

  /** With draws in `[0, 1)`, every particle is inside the box after any number of steps. */
  lemma StaysInBox(n: nat, draws: seq<real>, k: nat, i: nat, sqrt: real -> real)
    requires IsSqrt(sqrt) && |draws| >= DrawsNeeded(n) && UnitDraws(draws) && i < n
    ensures InBox(Run(InitialSystem(n, draws), k, sqrt)[i].position)
  {
    var ps := InitialSystem(n, draws);
    InitialInBox(n, draws, i);
    BoundaryFrozen(ps, k, i, sqrt);
    if k > 0 && !ps[i].boundary {
      BoundaryFrozen(ps, k - 1, i, sqrt);
      StepFields(Run(ps, k - 1, sqrt), i, sqrt);
    }
  }
}
