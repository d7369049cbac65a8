/**
 * The particle initialiser `initParticles` (SPH_CREATE_SYSTEM.cpp).
 *
 * A lattice with spacing 0.15 fills the cube `[1.5, 3.5)^3` in the middle
 * of the box, y outermost and z innermost, each coordinate jittered by a
 * draw times 0.02, until the particles run out; every slot left after the
 * lattice becomes a boundary particle on one of four faces of the box,
 * chosen by its index modulo 4. The particle count is the parameter `n`
 * (the source uses `NUM_PARTICLES`), and the random generator is replaced
 * by the sequence `draws` of values it returns, consumed left to right,
 * three for a lattice particle and two for a boundary particle.
 */
module CreateSystem {
  import opened Vectors
  import opened Particles

  /** The lattice spacing, `0.15f`. */
  const SPACING: real := 0.15
  /** The largest jitter factor, `0.02f`. */
  const JITTER: real := 0.02
  /** The number of lattice values along each axis. */
  const LATTICE_SIDE: nat := 14
  /** The number of lattice slots, `LATTICE_SIDE` cubed. */
  const LATTICE_SIZE: nat := 2744

  function Min(a: nat, b: nat): nat
  {
    if a < b then a else b
  }

  /** The `k`-th value of a lattice loop that starts at `start`. */
  function LatticeCoord(start: real, k: nat): real
  {
    start + SPACING * k as real
  }

  /** A lattice loop runs while its value is below `start + 2`: exactly 14 values. */
  lemma LatticeSide(start: real, k: nat)
    ensures LatticeCoord(start, k) < start + 2.0 <==> k < LATTICE_SIDE
  {
    if k < LATTICE_SIDE {
      assert k as real <= 13.0;
    } else {
      assert k as real >= 14.0;
    }
  }

  /** The number of lattice (interior) particles. */
  function InteriorCount(n: nat): (m: nat)
    ensures m <= n && m <= LATTICE_SIZE
    ensures m == n || m == LATTICE_SIZE
  {
    Min(n, LATTICE_SIZE)
  }

  /** With the default count the lattice takes every particle. */
  lemma AllInteriorByDefault()
    ensures InteriorCount(NUM_PARTICLES) == NUM_PARTICLES
  {
  }

  /** The index of the first draw particle `i` consumes. */
  function DrawIndex(n: nat, i: nat): nat
  {
    var m := InteriorCount(n);
    if i <= m then 3 * i else 3 * m + 2 * (i - m)
  }

  /** The number of draws the initialiser consumes. */
  function DrawsNeeded(n: nat): nat
  {
    DrawIndex(n, n)
  }

  /** The lattice slot of particle `i`: y runs slowest, z fastest. */
  function LatticePosition(i: nat): Vec3
  {
    Vec3(LatticeCoord(WIDTH / 2.0 - 1.0, (i / LATTICE_SIDE) % LATTICE_SIDE),
         LatticeCoord(HEIGHT / 2.0 - 1.0, i / (LATTICE_SIDE * LATTICE_SIDE)),
         LatticeCoord(DEPTH / 2.0 - 1.0, i % LATTICE_SIDE))
  }

  /** Slot `196 ky + 14 kx + kz` is the one the loops visit at `(ky, kx, kz)`. */
  lemma LatticeIndex(ky: nat, kx: nat, kz: nat)
    requires kx < LATTICE_SIDE && kz < LATTICE_SIDE
    ensures var i := 196 * ky + 14 * kx + kz;
      i / 196 == ky && (i / 14) % 14 == kx && i % 14 == kz
  {
    var i := 196 * ky + 14 * kx + kz;
    assert i == 14 * (14 * ky + kx) + kz;
    assert i / 14 == 14 * ky + kx;
  }

  /** A particle at `position` with every other vector and scalar zero. */
  function Resting(position: Vec3, boundary: bool): Particle
  {
    Particle(position, Zero, Zero, 0.0, 0.0, boundary, Zero)
  }

  /** The position of boundary particle `i` from its two draws `u`, `v`. */
  function FacePosition(i: nat, u: real, v: real): Vec3
  {
    if i % 4 == 0 then Vec3(u * WIDTH, 0.0, v * DEPTH)
    else if i % 4 == 1 then Vec3(u * WIDTH, HEIGHT, v * DEPTH)
    else if i % 4 == 2 then Vec3(0.0, u * HEIGHT, v * DEPTH)
    else Vec3(WIDTH, u * HEIGHT, v * DEPTH)
  }

  /** Lattice particle `i`, jittered by draws `3 i`, `3 i + 1` and `3 i + 2`. */
  function LatticeParticle(draws: seq<real>, i: nat): Particle
    requires 3 * i + 2 < |draws|
  {
    var l := LatticePosition(i);
    Resting(Vec3(l.x + draws[3 * i] * JITTER, l.y + draws[3 * i + 1] * JITTER, l.z + draws[3 * i + 2] * JITTER), false)
  }

  /** Particle `i` of the initial system. */
  function InitialParticle(n: nat, draws: seq<real>, i: nat): Particle
    requires i < n && |draws| >= DrawsNeeded(n)
  {
    var d := DrawIndex(n, i);
    if i < InteriorCount(n) then LatticeParticle(draws, i)
    else Resting(FacePosition(i, draws[d], draws[d + 1]), true)
  }

  /** The particle vector `initParticles` returns. */
  function InitialSystem(n: nat, draws: seq<real>): (r: seq<Particle>)
    requires |draws| >= DrawsNeeded(n)
    ensures |r| == n
    ensures forall i :: 0 <= i < n ==> r[i] == InitialParticle(n, draws, i)
  {
    seq(n, i requires 0 <= i < n => InitialParticle(n, draws, i))
  }

  /**
   * `initParticles`: the metal block (the lattice loops), then the walls
   * and the floor (the boundary loop). `i` counts the particles placed and
   * `next` the draws consumed. The source assigns the fields of
   * `particles[i]` one by one; here the slot gets the whole record at once.
   */
  method InitParticles(n: nat, draws: seq<real>) returns (particles: array<Particle>)
    requires |draws| >= DrawsNeeded(n)
    ensures fresh(particles)
    ensures particles[..] == InitialSystem(n, draws)
  {
    particles := new Particle[n];
    var i, next := PlaceBlock(particles, draws);
    PlaceWalls(particles, draws, i, next);
  }

  /**
   * The three lattice loops, y outermost, each stopping at the end of its
   * axis or when the particles run out; the ghost counters `ky`, `kx` (and
   * `kz` in `PlaceColumn`) count the values each loop has taken. Slots the
   * loops do not reach keep their contents.
   */
  method PlaceBlock(particles: array<Particle>, draws: seq<real>) returns (i: nat, next: nat)
    requires |draws| >= DrawsNeeded(particles.Length)
    modifies particles
    ensures i == InteriorCount(particles.Length) && next == 3 * i
    ensures forall k :: 0 <= k < i ==> particles[k] == LatticeParticle(draws, k)
    ensures forall k :: i <= k < particles.Length ==> particles[k] == old(particles[k])
  {
    ghost var n := particles.Length;
    i, next := 0, 0;
    var y := HEIGHT / 2.0 - 1.0;
    ghost var ky: nat := 0;
    while y < HEIGHT / 2.0 + 1.0 && i < particles.Length
      invariant ky <= LATTICE_SIDE && y == LatticeCoord(HEIGHT / 2.0 - 1.0, ky)
      invariant i == Min(n, 196 * ky) && next == 3 * i
      invariant forall k :: 0 <= k < i ==> particles[k] == LatticeParticle(draws, k)
      invariant forall k :: i <= k < n ==> particles[k] == old(particles[k])
      decreases LATTICE_SIDE - ky
    {
      LatticeSide(HEIGHT / 2.0 - 1.0, ky);
      var x := WIDTH / 2.0 - 1.0;
      ghost var kx: nat := 0;
      while x < WIDTH / 2.0 + 1.0 && i < particles.Length
        invariant kx <= LATTICE_SIDE && x == LatticeCoord(WIDTH / 2.0 - 1.0, kx)
        invariant i == Min(n, 196 * ky + 14 * kx) && next == 3 * i
        invariant forall k :: 0 <= k < i ==> particles[k] == LatticeParticle(draws, k)
        invariant forall k :: i <= k < n ==> particles[k] == old(particles[k])
        decreases LATTICE_SIDE - kx
      {
        LatticeSide(WIDTH / 2.0 - 1.0, kx);
        i, next := PlaceColumn(particles, draws, x, y, ky, kx, i, next);
        x := x + SPACING;
        kx := kx + 1;
      }
      y := y + SPACING;
      ky := ky + 1;
    }
    LatticeSide(HEIGHT / 2.0 - 1.0, ky);
  }

  /** The innermost lattice loop: one column along z at `(x, y)`. */
  method PlaceColumn(particles: array<Particle>, draws: seq<real>, x: real, y: real, ghost ky: nat, ghost kx: nat, i0: nat, next0: nat)
    returns (i: nat, next: nat)
    requires |draws| >= DrawsNeeded(particles.Length)
    requires ky < LATTICE_SIDE && kx < LATTICE_SIDE
    requires x == LatticeCoord(WIDTH / 2.0 - 1.0, kx) && y == LatticeCoord(HEIGHT / 2.0 - 1.0, ky)
    requires i0 == Min(particles.Length, 196 * ky + 14 * kx) && next0 == 3 * i0
    requires forall k :: 0 <= k < i0 ==> particles[k] == LatticeParticle(draws, k)
    modifies particles
    ensures i == Min(particles.Length, 196 * ky + 14 * kx + LATTICE_SIDE) && next == 3 * i
    ensures forall k :: 0 <= k < i ==> particles[k] == LatticeParticle(draws, k)
    ensures forall k :: i <= k < particles.Length ==> particles[k] == old(particles[k])
  {
    ghost var n := particles.Length;
    i, next := i0, next0;
    var z := DEPTH / 2.0 - 1.0;
    ghost var kz: nat := 0;
    while z < DEPTH / 2.0 + 1.0 && i < particles.Length
      invariant kz <= LATTICE_SIDE && z == LatticeCoord(DEPTH / 2.0 - 1.0, kz)
      invariant i == Min(n, 196 * ky + 14 * kx + kz) && next == 3 * i
      invariant forall k :: 0 <= k < i ==> particles[k] == LatticeParticle(draws, k)
      invariant forall k :: i <= k < n ==> particles[k] == old(particles[k])
      decreases LATTICE_SIDE - kz
    {
      LatticeSide(DEPTH / 2.0 - 1.0, kz);
      LatticeSlot(n, draws, ky, kx, kz);
      particles[i] := Resting(Vec3(x + draws[next] * JITTER, y + draws[next + 1] * JITTER, z + draws[next + 2] * JITTER), false);
      next := next + 3;
      i := i + 1;
      z := z + SPACING;
      kz := kz + 1;
    }
    LatticeSide(DEPTH / 2.0 - 1.0, kz);
  }

  /** The boundary loop: every slot after the block goes to the face `i % 4` picks. */
  method PlaceWalls(particles: array<Particle>, draws: seq<real>, i0: nat, next0: nat)
    requires |draws| >= DrawsNeeded(particles.Length)
    requires i0 == InteriorCount(particles.Length) && next0 == 3 * i0
    requires forall k :: 0 <= k < i0 ==> particles[k] == LatticeParticle(draws, k)
    modifies particles
    ensures particles[..] == InitialSystem(particles.Length, draws)
  {
    ghost var n := particles.Length;
    var i, next := i0, next0;
    while i < particles.Length
      invariant i0 <= i <= n && next == DrawIndex(n, i)
      invariant forall k :: 0 <= k < i ==> particles[k] == InitialParticle(n, draws, k)
    {
      BoundarySlot(n, draws, i);
      var position;
      if i % 4 == 0 {
        position := Vec3(draws[next] * WIDTH, 0.0, draws[next + 1] * DEPTH);
      } else if i % 4 == 1 {
        position := Vec3(draws[next] * WIDTH, HEIGHT, draws[next + 1] * DEPTH);
      } else if i % 4 == 2 {
        position := Vec3(0.0, draws[next] * HEIGHT, draws[next + 1] * DEPTH);
      } else {
        position := Vec3(WIDTH, draws[next] * HEIGHT, draws[next + 1] * DEPTH);
      }
      particles[i] := Resting(position, true);
      next := next + 2;
      i := i + 1;
    }
  }

  /** The particle the lattice loops write at `(ky, kx, kz)` is lattice particle `196 ky + 14 kx + kz`. */
  lemma LatticeSlot(n: nat, draws: seq<real>, ky: nat, kx: nat, kz: nat)
    requires ky < LATTICE_SIDE && kx < LATTICE_SIDE && kz < LATTICE_SIDE
    requires 196 * ky + 14 * kx + kz < n && |draws| >= DrawsNeeded(n)
    ensures var i := 196 * ky + 14 * kx + kz;
      && 3 * i + 2 < |draws|
      && LatticeParticle(draws, i)
         == Resting(Vec3(LatticeCoord(WIDTH / 2.0 - 1.0, kx) + draws[3 * i] * JITTER,
                         LatticeCoord(HEIGHT / 2.0 - 1.0, ky) + draws[3 * i + 1] * JITTER,
                         LatticeCoord(DEPTH / 2.0 - 1.0, kz) + draws[3 * i + 2] * JITTER), false)
  {
    LatticeIndex(ky, kx, kz);
  }

  /** A particle after the lattice takes the two draws after those of the particles before it. */
  lemma BoundarySlot(n: nat, draws: seq<real>, i: nat)
    requires |draws| >= DrawsNeeded(n) && InteriorCount(n) <= i < n
    ensures var d := DrawIndex(n, i);
      && d + 1 < |draws| && DrawIndex(n, i + 1) == d + 2
      && InitialParticle(n, draws, i) == Resting(FacePosition(i, draws[d], draws[d + 1]), true)
  {
  }

  /** Every particle starts at rest, with no force, density, pressure or plastic strain. */
  lemma InitialFieldsZero(n: nat, draws: seq<real>, i: nat)
    requires |draws| >= DrawsNeeded(n) && i < n
    ensures InitialSystem(n, draws)[i].velocity == Zero
    ensures InitialSystem(n, draws)[i].force == Zero
    ensures InitialSystem(n, draws)[i].density == 0.0
    ensures InitialSystem(n, draws)[i].pressure == 0.0
    ensures InitialSystem(n, draws)[i].plasticStrain == Zero
  {
  }

  /** The interior particles are the prefix `[0, InteriorCount(n))`, the rest are boundary particles. */
  lemma InteriorPrefix(n: nat, draws: seq<real>, i: nat)
    requires |draws| >= DrawsNeeded(n) && i < n
    ensures InitialSystem(n, draws)[i].boundary <==> InteriorCount(n) <= i
  {
  }

  /** Boundary particle `i` lies on the face `y = 0`, `y = HEIGHT`, `x = 0` or `x = WIDTH` as `i % 4` is 0, 1, 2 or 3. */
  lemma BoundaryFaces(n: nat, draws: seq<real>, i: nat)
    requires |draws| >= DrawsNeeded(n) && InteriorCount(n) <= i < n
    ensures i % 4 == 0 ==> InitialSystem(n, draws)[i].position.y == 0.0
    ensures i % 4 == 1 ==> InitialSystem(n, draws)[i].position.y == HEIGHT
    ensures i % 4 == 2 ==> InitialSystem(n, draws)[i].position.x == 0.0
    ensures i % 4 == 3 ==> InitialSystem(n, draws)[i].position.x == WIDTH
  {
  }

  predicate Unit(u: real)
  {
    0.0 <= u < 1.0
  }

  /** Every draw lies in `[0, 1)`. */
  predicate UnitDraws(draws: seq<real>)
  {
    forall k :: 0 <= k < |draws| ==> Unit(draws[k])
  }

  /** A boundary coordinate `u * side` with `u` in `[0, 1)` lies in `[0, side)`. */
  lemma ScaledDraw(u: real, side: real)
    requires Unit(u) && 0.0 < side
    ensures 0.0 <= u * side < side
  {
  }

  /** Each interior coordinate is its lattice value plus a jitter in `[0, 0.02)`. */
  lemma InteriorJitter(n: nat, draws: seq<real>, i: nat)
    requires |draws| >= DrawsNeeded(n) && UnitDraws(draws) && i < InteriorCount(n)
    ensures var p := InitialSystem(n, draws)[i].position;
      var l := LatticePosition(i);
      && 0.0 <= p.x - l.x < JITTER
      && 0.0 <= p.y - l.y < JITTER
      && 0.0 <= p.z - l.z < JITTER
  {
    var d := DrawIndex(n, i);
    ScaledDraw(draws[d], JITTER);
    ScaledDraw(draws[d + 1], JITTER);
    ScaledDraw(draws[d + 2], JITTER);
  }

  /** With draws in `[0, 1)` every particle starts inside the closed box. */
  lemma InitialInBox(n: nat, draws: seq<real>, i: nat)
    requires |draws| >= DrawsNeeded(n) && UnitDraws(draws) && i < n
    ensures InBox(InitialSystem(n, draws)[i].position)
  {
    var d := DrawIndex(n, i);
    if i < InteriorCount(n) {
      InteriorJitter(n, draws, i);
      LatticeInCube(i);
    } else {
      ScaledDraw(draws[d], WIDTH);
      ScaledDraw(draws[d], HEIGHT);
      ScaledDraw(draws[d + 1], DEPTH);
    }
  }

  /** Every lattice slot lies in `[1.5, 3.45]^3`. */
  lemma LatticeInCube(i: nat)
    ensures var l := LatticePosition(i);
      && 1.5 <= l.x <= 3.45 && 1.5 <= l.y
      && 1.5 <= l.z <= 3.45
    ensures i < LATTICE_SIZE ==> LatticePosition(i).y <= 3.45
  {
    assert (i / LATTICE_SIDE) % LATTICE_SIDE < 14 && i % LATTICE_SIDE < 14;
    if i < LATTICE_SIZE {
      assert i / (LATTICE_SIDE * LATTICE_SIDE) < 14;
    }
  }
}
