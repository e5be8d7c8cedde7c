/** The particle spawner of the GPU solver: a grid of `particleCount` slots
    over the spawn rectangle, each position pushed by a random jitter, every
    velocity the initial one. The two random draws per slot (the jitter
    direction and its signed length) are inputs. */
module ParticleSpawner2D {
  import opened Vectors
  import opened SpawnGrid

  /** The jitter of one slot: direction `dir` (the unit vector of a random
      angle), scaled by the jitter strength and by `u - 0.5` for a random `u`
      in [0, 1). */
  function Jitter(dir: Vec2, jitterStrength: real, u: real): (j: Vec2)
    ensures u == 0.5 ==> j == Zero
    ensures Abs(dir.x) <= 1.0 && Abs(dir.y) <= 1.0 && 0.0 <= u <= 1.0 ==>
      Abs(j.x) <= 0.5 * Abs(jitterStrength) && Abs(j.y) <= 0.5 * Abs(jitterStrength)
  {
    var j := Scale(Scale(dir, jitterStrength), u - 0.5);
    JitterAxis(dir.x, jitterStrength, u);
    JitterAxis(dir.y, jitterStrength, u);
    assert j.x == dir.x * jitterStrength * (u - 0.5);
    assert j.y == dir.y * jitterStrength * (u - 0.5);
    j
  }

  /** One axis of a jitter: a direction component of magnitude at most 1,
      times the strength, times `u - 0.5` for `u` in [0, 1], is at most half
      the strength in magnitude. */
  lemma JitterAxis(d: real, strength: real, u: real)
    ensures Abs(d) <= 1.0 && 0.0 <= u <= 1.0 ==> Abs(d * strength * (u - 0.5)) <= 0.5 * Abs(strength)
  {
    if Abs(d) <= 1.0 && 0.0 <= u <= 1.0 {
      AbsMul(d, strength);
      AbsMul(d * strength, u - 0.5);
      MulLe(Abs(d), Abs(strength), 1.0, Abs(strength));
      MulLe(Abs(d * strength), Abs(u - 0.5), Abs(strength), 0.5);
    }
  }

  /** The position GetSpawnData gives slot `k`: column `k % numX` and row
      `k / numX` of the grid, mapped onto the spawn rectangle around its
      centre, plus the slot's jitter. */
  function SpawnPosition(spawnCenter: Vec2, spawnSize: Vec2, particleCount: nat, numX: nat,
                         k: nat, jitter: Vec2): (p: Vec2)
    requires numX >= 1 && k < particleCount
    ensures Abs(p.x - jitter.x - spawnCenter.x) <= 0.5 * Abs(spawnSize.x)
    ensures Abs(p.y - jitter.y - spawnCenter.y) <= 0.5 * Abs(spawnSize.y)
    ensures numX == 1 ==> p.x == jitter.x + spawnCenter.x
    ensures particleCount <= numX ==> p.y == jitter.y + spawnCenter.y
    ensures k == 0 && numX > 1 ==> p.x == jitter.x + spawnCenter.x - 0.5 * spawnSize.x
    ensures k == 0 && particleCount > numX ==> p.y == jitter.y + spawnCenter.y - 0.5 * spawnSize.y
  {
    RowCount(particleCount, numX);
    RowBelow(particleCount, numX, k);
    var tx := GridT(k % numX, numX);
    var ty := GridT(k / numX, CeilDiv(particleCount, numX));
    Add(Add(Vec2(GridOffset(tx, spawnSize.x), GridOffset(ty, spawnSize.y)), jitter), spawnCenter)
  }

  /** The offset from the centre of grid coordinate `t` over a span of `size`:
      `(t - 0.5) * size`, within half the span for `t` in [0, 1]. */
  function GridOffset(t: real, size: real): (d: real)
    ensures 0.0 <= t <= 1.0 ==> Abs(d) <= 0.5 * Abs(size)
  {
    HalfSpan(t, size);
    (t - 0.5) * size
  }

  /** All spawn positions, slot by slot, for the random draws `dirs` and
      `us`. */
  function SpawnPositions(spawnCenter: Vec2, spawnSize: Vec2, particleCount: nat, numX: nat,
                          jitterStrength: real, dirs: seq<Vec2>, us: seq<real>): (ps: seq<Vec2>)
    requires numX >= 1 && |dirs| >= particleCount && |us| >= particleCount
    ensures |ps| == particleCount
    ensures forall k :: 0 <= k < particleCount ==>
      ps[k] == SpawnPosition(spawnCenter, spawnSize, particleCount, numX, k, Jitter(dirs[k], jitterStrength, us[k]))
  {
    seq(particleCount, k requires 0 <= k < particleCount =>
      SpawnPosition(spawnCenter, spawnSize, particleCount, numX, k, Jitter(dirs[k], jitterStrength, us[k])))
  }

  /** A grid coordinate `t` in [0, 1] puts `(t - 0.5) * size` within half the
      size's magnitude of the centre. */
  lemma HalfSpan(t: real, size: real)
    ensures 0.0 <= t <= 1.0 ==> Abs((t - 0.5) * size) <= 0.5 * Abs(size)
  {
    if 0.0 <= t <= 1.0 {
      AbsMul(t - 0.5, size);
      MulLe(Abs(t - 0.5), Abs(size), 0.5, Abs(size));
    }
  }

  /** |a * b| == |a| * |b|. */
  lemma AbsMul(a: real, b: real)
    ensures Abs(a * b) == Abs(a) * Abs(b)
  {
    if a < 0.0 && b < 0.0 {
      assert a * b == (-a) * (-b);
      MulSigns(-a, -b);
    } else if a < 0.0 {
      assert Abs(a) * Abs(b) == -(a * b);
      MulSigns(-a, b);
    } else if b < 0.0 {
      assert Abs(a) * Abs(b) == -(a * b);
      MulSigns(a, -b);
    } else {
      MulSigns(a, b);
    }
  }

  /** Products of non-negative numbers grow with their factors. */
  lemma MulLe(x: real, y: real, xMax: real, yMax: real)
    requires 0.0 <= x <= xMax && 0.0 <= y <= yMax
    ensures x * y <= xMax * yMax
  {
    MulSigns(xMax - x, yMax);
    MulSigns(x, yMax - y);
    assert xMax * yMax - x * y == (xMax - x) * yMax + x * (yMax - y);
  }

  /** A jitter strength of zero gives no jitter, whatever the draws. */
  lemma NoJitter(dir: Vec2, u: real)
    ensures Jitter(dir, 0.0, u) == Zero
  {
    assert Scale(dir, 0.0) == Zero;
  }

  /** One axis of a spawn position: grid coordinate `t` in [0, 1] over `size`
      plus a jitter of at most `bound`, around centre `c`. */
  lemma SpawnAxis(t: real, size: real, jitter: real, c: real, bound: real)
    requires 0.0 <= t <= 1.0 && Abs(jitter) <= bound
    ensures Abs(GridOffset(t, size) + jitter + c - c) <= 0.5 * Abs(size) + bound
  {
  }

  /** Every spawn position lies in the spawn rectangle widened by the jitter's
      bound on each side. */
  lemma SpawnWithinBounds(spawnCenter: Vec2, spawnSize: Vec2, particleCount: nat, numX: nat,
                          k: nat, jitter: Vec2, bound: real)
    requires numX >= 1 && k < particleCount
    requires Abs(jitter.x) <= bound && Abs(jitter.y) <= bound
    ensures var p := SpawnPosition(spawnCenter, spawnSize, particleCount, numX, k, jitter);
      Abs(p.x - spawnCenter.x) <= 0.5 * Abs(spawnSize.x) + bound &&
      Abs(p.y - spawnCenter.y) <= 0.5 * Abs(spawnSize.y) + bound
  {
    RowBelow(particleCount, numX, k);
    var tx := GridT(k % numX, numX);
    var ty := GridT(k / numX, CeilDiv(particleCount, numX));
    var p := SpawnPosition(spawnCenter, spawnSize, particleCount, numX, k, jitter);
    assert p.x == GridOffset(tx, spawnSize.x) + jitter.x + spawnCenter.x;
    assert p.y == GridOffset(ty, spawnSize.y) + jitter.y + spawnCenter.y;
    SpawnAxis(tx, spawnSize.x, jitter.x, spawnCenter.x, bound);
    SpawnAxis(ty, spawnSize.y, jitter.y, spawnCenter.y, bound);
  }

  /** Without jitter every spawn position lies in the spawn rectangle:
      within half the spawn size of the centre along each axis. */
  lemma SpawnWithinRect(spawnCenter: Vec2, spawnSize: Vec2, particleCount: nat, numX: nat,
                        k: nat, dir: Vec2, u: real)
    requires numX >= 1 && k < particleCount
    ensures var p := SpawnPosition(spawnCenter, spawnSize, particleCount, numX, k, Jitter(dir, 0.0, u));
      Abs(p.x - spawnCenter.x) <= 0.5 * Abs(spawnSize.x) &&
      Abs(p.y - spawnCenter.y) <= 0.5 * Abs(spawnSize.y)
  {
    NoJitter(dir, u);
    SpawnWithinBounds(spawnCenter, spawnSize, particleCount, numX, k, Zero, 0.0);
  }

  /** With the jitter GetSpawnData draws (a direction of components at most 1
      and `u` in [0, 1]) every spawn position lies in the spawn rectangle
      widened by half the jitter strength on each side. */
  lemma SpawnWithinJitteredRect(spawnCenter: Vec2, spawnSize: Vec2, particleCount: nat, numX: nat,
                                k: nat, dir: Vec2, jitterStrength: real, u: real)
    requires numX >= 1 && k < particleCount
    requires Abs(dir.x) <= 1.0 && Abs(dir.y) <= 1.0 && 0.0 <= u <= 1.0
    ensures var p := SpawnPosition(spawnCenter, spawnSize, particleCount, numX, k, Jitter(dir, jitterStrength, u));
      Abs(p.x - spawnCenter.x) <= 0.5 * Abs(spawnSize.x) + 0.5 * Abs(jitterStrength) &&
      Abs(p.y - spawnCenter.y) <= 0.5 * Abs(spawnSize.y) + 0.5 * Abs(jitterStrength)
  {
    SpawnWithinBounds(spawnCenter, spawnSize, particleCount, numX, k, Jitter(dir, jitterStrength, u),
                      0.5 * Abs(jitterStrength));
  }

  /** The struct GetSpawnData hands to the GPU solver: two array references,
      copied by value. */
  datatype ParticleSpawnData = ParticleSpawnData(positions: array<Vec2>, velocities: array<Vec2>)

  /** The ParticleSpawnData(num) constructor: two fresh arrays of `num` zero
      vectors. */
  method NewParticleSpawnData(num: nat) returns (data: ParticleSpawnData)
    ensures data.positions.Length == num && data.velocities.Length == num
    ensures data.positions[..] == Zeros(num) && data.velocities[..] == Zeros(num)
    ensures fresh(data.positions) && fresh(data.velocities) && data.positions != data.velocities
  {
    var ps := new Vec2[num](_ => Zero);
    var vs := new Vec2[num](_ => Zero);
    assert ps[..] == Zeros(num) && vs[..] == Zeros(num);
    data := ParticleSpawnData(ps, vs);
  }

  class ParticleSpawner2D {
    var particleCount: nat
    var initialVelocity: Vec2
    var spawnCenter: Vec2
    var spawnSize: Vec2
    var jitterStrength: real

    constructor (particleCount: nat, initialVelocity: Vec2, spawnCenter: Vec2, spawnSize: Vec2,
                 jitterStrength: real)
      ensures this.particleCount == particleCount && this.initialVelocity == initialVelocity
      ensures this.spawnCenter == spawnCenter && this.spawnSize == spawnSize
      ensures this.jitterStrength == jitterStrength
    {
      this.particleCount := particleCount;
      this.initialVelocity := initialVelocity;
      this.spawnCenter := spawnCenter;
      this.spawnSize := spawnSize;
      this.jitterStrength := jitterStrength;
    }

    /** GetSpawnData for a grid of `numX` columns (the rounded square-root
        estimate is an input) and the random draws of each slot: `dirs[k]`
        the jitter direction, `us[k]` the jitter length draw. */
    method GetSpawnData(numX: nat, dirs: seq<Vec2>, us: seq<real>) returns (data: ParticleSpawnData)
      requires numX >= 1 && |dirs| >= particleCount && |us| >= particleCount
      ensures fresh(data.positions) && fresh(data.velocities)
      ensures data.positions[..] ==
        SpawnPositions(spawnCenter, spawnSize, particleCount, numX, jitterStrength, dirs, us)
      ensures data.velocities.Length == particleCount
      ensures forall k :: 0 <= k < particleCount ==> data.velocities[k] == initialVelocity
    {
      data := NewParticleSpawnData(particleCount);
      var numY := CeilDiv(particleCount, numX);
      var i := 0;
      var y := 0;
      while y < numY
        invariant 0 <= y <= numY
        // `i` counts the slots written so far; the fill stops once it reaches the count
        invariant i == Min(y * numX, particleCount)
        invariant data.positions.Length == data.velocities.Length == particleCount
        invariant data.positions != data.velocities
        invariant forall k :: 0 <= k < i ==>
          data.positions[k] == SpawnPosition(spawnCenter, spawnSize, particleCount, numX, k,
                                             Jitter(dirs[k], jitterStrength, us[k]))
        invariant forall k :: 0 <= k < i ==> data.velocities[k] == initialVelocity
      {
        var x := 0;
        while x < numX
          invariant 0 <= x <= numX
          invariant i == Min(y * numX + x, particleCount)
          invariant data.positions.Length == data.velocities.Length == particleCount
          invariant data.positions != data.velocities
          invariant forall k :: 0 <= k < i ==>
            data.positions[k] == SpawnPosition(spawnCenter, spawnSize, particleCount, numX, k,
                                               Jitter(dirs[k], jitterStrength, us[k]))
          invariant forall k :: 0 <= k < i ==> data.velocities[k] == initialVelocity
        {
          if i >= particleCount {
            break;
          }
          RowMajorIndex(y, x, numX);
          var tx := GridT(x, numX);
          var ty := GridT(y, numY);
          var jitter := Jitter(dirs[i], jitterStrength, us[i]);
          data.positions[i] := Add(Add(Vec2(GridOffset(tx, spawnSize.x), GridOffset(ty, spawnSize.y)), jitter), spawnCenter);
          data.velocities[i] := initialVelocity;
          i := i + 1;
          x := x + 1;
        }
        assert i == Min((y + 1) * numX, particleCount);
        y := y + 1;
      }
      assert data.positions[..] ==
        SpawnPositions(spawnCenter, spawnSize, particleCount, numX, jitterStrength, dirs, us);
    }
  }
}
