/** The sequential bookkeeping of the CPU fluid solver: pressure from density,
    the interaction and gravity acceleration, collision with the bounding box,
    the initial grid layout and the pause / single-step flags. The physics
    step itself (density sums, pressure and viscosity forces, integration) is
    not part of this model. */
module CPUFluid2D {
  import opened Vectors
  import opened Kernels
  import opened SpawnGrid
  import SpatialLookup2D

  // ---------------------------------------------------------------------------
  // Pressure

  /** PressureFromDensity: pressure grows with the excess over the target
      density. */
  function PressureFromDensity(density: real, targetDensity: real, pressureMultiplier: real): (p: real)
    ensures density == targetDensity ==> p == 0.0
    ensures pressureMultiplier > 0.0 ==> (p > 0.0 <==> density > targetDensity)
    ensures pressureMultiplier > 0.0 ==> (p < 0.0 <==> density < targetDensity)
  {
    var excess := density - targetDensity;
    MulSigns(excess, pressureMultiplier);
    MulSigns(-excess, pressureMultiplier);
    excess * pressureMultiplier
  }

  /** NearPressureFromDensity: proportional to the near density, never
      negative for a non-negative multiplier and near density. */
  function NearPressureFromDensity(nearDensity: real, nearPressureMultiplier: real): (p: real)
    ensures nearDensity == 0.0 ==> p == 0.0
    ensures nearPressureMultiplier >= 0.0 && nearDensity >= 0.0 ==> p >= 0.0
    ensures nearPressureMultiplier > 0.0 && nearDensity > 0.0 ==> p > 0.0
  {
    MulSigns(nearPressureMultiplier, nearDensity);
    nearPressureMultiplier * nearDensity
  }

  /** With a positive multiplier, pressure is strictly increasing in density. */
  lemma PressureIncreasing(d1: real, d2: real, targetDensity: real, pressureMultiplier: real)
    requires d1 < d2 && pressureMultiplier > 0.0
    ensures PressureFromDensity(d1, targetDensity, pressureMultiplier)
          < PressureFromDensity(d2, targetDensity, pressureMultiplier)
  {
    var a, b := d1 - targetDensity, d2 - targetDensity;
    MulSigns(b - a, pressureMultiplier);
    assert (b - a) * pressureMultiplier == b * pressureMultiplier - a * pressureMultiplier;
    calc {
      PressureFromDensity(d1, targetDensity, pressureMultiplier);
      a * pressureMultiplier;
    < b * pressureMultiplier;
      PressureFromDensity(d2, targetDensity, pressureMultiplier);
    }
  }

  // ---------------------------------------------------------------------------
  // External forces

  /** The acceleration ExternalForces returns: a finite vector, or NaN in both
      components when the particle sits exactly on the interaction point
      (the direction is then 0 / 0). */
  datatype Accel = Finite(a: Vec2) | NotANumber

  /** Mathf.Clamp(x, lo, hi) for lo <= hi. */
  function Clamp(x: real, lo: real, hi: real): (c: real)
    requires lo <= hi
    ensures lo <= c <= hi
    ensures lo <= x <= hi ==> c == x
  {
    if x < lo then lo else if x > hi then hi else x
  }

  /** `1 - dst / radius`: 1 at the interaction point, falling to 0 at the rim
      of a positive radius; above 1 for a negative radius. */
  function CenterT(dst: real, interactionRadius: real): (t: real)
    requires interactionRadius != 0.0
    ensures 0.0 <= dst < interactionRadius ==> 0.0 < t <= 1.0
    ensures 0.0 <= dst && interactionRadius < 0.0 ==> t >= 1.0
    ensures dst == 0.0 <==> t == 1.0
  {
    var edgeT := dst / interactionRadius;
    assert edgeT * interactionRadius == dst;
    1.0 - edgeT
  }

  /** How much of gravity survives near the interaction point: all of it for a
      push (negative strength), and for a pull of strength 10 or more only the
      `edgeT` share. */
  function GravityWeight(centerT: real, strength: real): (w: real)
    ensures 0.0 <= centerT <= 1.0 ==> 0.0 <= w <= 1.0
    ensures strength <= 0.0 ==> w == 1.0
    ensures strength >= 10.0 ==> w == 1.0 - centerT
  {
    var k := Clamp(strength / 10.0, 0.0, 1.0);
    MulSigns(centerT, k);
    MulSigns(centerT, 1.0 - k);
    assert centerT * (1.0 - k) == centerT - centerT * k;
    1.0 - centerT * k
  }

  /** ExternalForces for one particle. `dst` is Mathf.Sqrt of the squared
      distance to the interaction point, taken here as an input. */
  function ExternalForces(gravity: real, position: Vec2, velocity: Vec2, strength: real,
                          inputPoint: Vec2, interactionRadius: real, dst: real): (r: Accel)
    requires dst >= 0.0 && dst * dst == SqDist(inputPoint, position)
    ensures strength == 0.0 || SqDist(inputPoint, position) >= interactionRadius * interactionRadius
            ==> r == Finite(Vec2(0.0, gravity))
    ensures r == NotANumber ==>
            strength != 0.0 && dst == 0.0 && 0.0 < interactionRadius * interactionRadius
  {
    var offset := Sub(inputPoint, position);
    var sqrDst := SqLength(offset);
    if InInteraction(strength, sqrDst, interactionRadius) then
      if dst == 0.0 then NotANumber
      else
        var centerT := CenterT(dst, interactionRadius);
        Finite(InteractionAccel(gravity, offset, velocity, strength, centerT, dst))
    else
      Finite(Vec2(0.0, gravity))
  }

  /** The interaction acts on a particle strictly inside its radius, and only
      while a mouse button holds it at a non-zero strength. */
  predicate InInteraction(strength: real, sqrDst: real, interactionRadius: real)
  {
    strength != 0.0 && sqrDst < interactionRadius * interactionRadius
  }

  /** A live interaction with a non-zero radius reaches its own centre. */
  lemma CentreInInteraction(strength: real, interactionRadius: real)
    requires strength != 0.0 && interactionRadius != 0.0
    ensures InInteraction(strength, 0.0, interactionRadius)
  {
    var r := Abs(interactionRadius);
    MulSigns(r, r);
    assert r * r == interactionRadius * interactionRadius;
  }

  /** A particle exactly on the interaction point of a live interaction gets
      a NaN acceleration. */
  lemma NotANumberAtInputPoint(gravity: real, position: Vec2, velocity: Vec2, strength: real,
                               inputPoint: Vec2, interactionRadius: real)
    requires strength != 0.0 && interactionRadius != 0.0 && SqDist(inputPoint, position) == 0.0
    ensures ExternalForces(gravity, position, velocity, strength, inputPoint, interactionRadius, 0.0) == NotANumber
  {
    CentreInInteraction(strength, interactionRadius);
  }

  /** The acceleration inside the interaction radius, away from its centre:
      weighted gravity, plus the pull along the direction to the interaction
      point, minus a velocity drag, the last two growing towards the centre. */
  function InteractionAccel(gravity: real, offset: Vec2, velocity: Vec2, strength: real,
                            centerT: real, dst: real): (a: Vec2)
    requires dst > 0.0
    ensures centerT == 0.0 ==> a == Vec2(0.0, gravity)
    ensures strength == 0.0 ==> a == Sub(Vec2(0.0, gravity), Scale(velocity, centerT))
  {
    var gravityAccel := Vec2(0.0, gravity);
    var dirToCenter := Vec2(offset.x / dst, offset.y / dst);
    var gravityWeight := GravityWeight(centerT, strength);
    var accel := Add(Scale(gravityAccel, gravityWeight), Scale(Scale(dirToCenter, centerT), strength));
    Sub(accel, Scale(velocity, centerT))
  }

  /** A distance whose square is below the squared radius is below the
      radius's magnitude. */
  lemma InsideRadius(dst: real, interactionRadius: real)
    requires dst >= 0.0 && dst * dst < interactionRadius * interactionRadius
    ensures dst < Abs(interactionRadius)
  {
    var r := Abs(interactionRadius);
    assert r * r == interactionRadius * interactionRadius;
    MulSigns(dst - r, dst + r);
    assert (dst - r) * (dst + r) == dst * dst - r * r;
  }

  function Dot(a: Vec2, b: Vec2): real { a.x * b.x + a.y * b.y }

  /** Without gravity and for a particle at rest, a pull (positive strength)
      accelerates it towards the interaction point and a push away from it. */
  lemma InteractionDirection(position: Vec2, strength: real, inputPoint: Vec2,
                             interactionRadius: real, dst: real)
    requires dst > 0.0 && dst * dst == SqDist(inputPoint, position)
    requires dst * dst < interactionRadius * interactionRadius
    ensures var r := ExternalForces(0.0, position, Zero, strength, inputPoint, interactionRadius, dst);
      r.Finite? &&
      (strength > 0.0 ==> Dot(r.a, Sub(inputPoint, position)) > 0.0) &&
      (strength < 0.0 ==> Dot(r.a, Sub(inputPoint, position)) < 0.0)
  {
    var offset := Sub(inputPoint, position);
    InsideRadius(dst, interactionRadius);
    var centerT := CenterT(dst, interactionRadius);
    if strength != 0.0 {
      PullSign(offset, strength, centerT, dst);
    }
  }

  /** The sign of the pull on a particle at rest without gravity, along its
      offset to the interaction point, is the sign of the strength. */
  lemma PullSign(offset: Vec2, strength: real, centerT: real, dst: real)
    requires centerT > 0.0 && dst > 0.0 && dst * dst == SqLength(offset)
    ensures var a := InteractionAccel(0.0, offset, Zero, strength, centerT, dst);
      (strength > 0.0 ==> Dot(a, offset) > 0.0) && (strength < 0.0 ==> Dot(a, offset) < 0.0)
  {
    AccelAtRest(offset, strength, centerT, dst);
    DotTowards(offset, dst, centerT * strength);
    SignOfProduct(centerT, strength, dst);
  }

  /** Without gravity and for a particle at rest only the pull remains: the
      direction to the interaction point times `centerT * strength`. */
  lemma AccelAtRest(offset: Vec2, strength: real, centerT: real, dst: real)
    requires dst > 0.0
    ensures InteractionAccel(0.0, offset, Zero, strength, centerT, dst) ==
      Vec2(offset.x / dst * (centerT * strength), offset.y / dst * (centerT * strength))
  {
    var ux, uy := offset.x / dst, offset.y / dst;
    var w := GravityWeight(centerT, strength);
    assert Scale(Vec2(0.0, 0.0), w) == Zero;
    assert Scale(Zero, centerT) == Zero;
    assert ux * centerT * strength == ux * (centerT * strength);
    assert uy * centerT * strength == uy * (centerT * strength);
  }

  /** For positive `t` and `d`, `(t * s) * d` has the sign of `s`. */
  lemma SignOfProduct(t: real, s: real, d: real)
    requires t > 0.0 && d > 0.0
    ensures s > 0.0 ==> (t * s) * d > 0.0
    ensures s < 0.0 ==> (t * s) * d < 0.0
  {
    MulSigns(t, s);
    MulSigns(t, -s);
    MulSigns(t * s, d);
    MulSigns(-(t * s), d);
    assert -(t * s) * d == -((t * s) * d);
  }

  /** The component of the pull along the offset is the pull times the
      distance. */
  lemma DotTowards(offset: Vec2, dst: real, c: real)
    requires dst > 0.0 && dst * dst == SqLength(offset)
    ensures Dot(Vec2(offset.x / dst * c, offset.y / dst * c), offset) == c * dst
  {
    var q := c / dst;
    assert offset.x / dst * c == q * offset.x;
    assert offset.y / dst * c == q * offset.y;
    assert Dot(Vec2(q * offset.x, q * offset.y), offset) == q * SqLength(offset);
    assert q * (dst * dst) == c * dst;
  }

  // ---------------------------------------------------------------------------
  // Collisions

  /** One axis of HandleCollisions: a coordinate past the half size is put
      back on the wall, on its own side, and the velocity along that axis is
      reflected and damped. */
  function CollideAxis(p: real, v: real, half: real, damping: real): (r: (real, real))
    ensures Abs(p) <= half ==> r == (p, v)
    ensures Abs(p) > half ==> r.1 == v * (-1.0 * damping)
    ensures Abs(p) > half && half >= 0.0 ==> Abs(r.0) == half
    ensures half >= 0.0 ==> Abs(r.0) <= half
    ensures half > 0.0 ==> Sign(r.0) == Sign(p)
  {
    if Abs(p) > half then (half * Sign(p), v * (-1.0 * damping)) else (p, v)
  }

  /** Colliding twice is colliding once: the first collision already leaves
      the particle inside the box. */
  lemma CollideIdempotent(p: real, v: real, half: real, damping: real)
    requires half >= 0.0
    ensures var r := CollideAxis(p, v, half, damping);
      CollideAxis(r.0, r.1, half, damping) == r
  {
  }

  // ---------------------------------------------------------------------------
  // Initial layout

  /** The slot InitializeData gives particle `k` of `numParticles`: column
      `k % numX` and row `k / numX` of the grid, spread over 90% of the bounds
      and centred on the origin. */
  function InitialPosition(boundsSize: Vec2, numParticles: nat, numX: nat, k: nat): (p: Vec2)
    requires numX >= 1 && k < numParticles
    ensures numX == 1 ==> p.x == 0.0
    ensures numParticles <= numX ==> p.y == 0.0
    ensures k == 0 && numX > 1 ==> p.x == -0.45 * boundsSize.x
    ensures k == 0 && numParticles > numX ==> p.y == -0.45 * boundsSize.y
  {
    var numY := CeilDiv(numParticles, numX);
    RowBelow(numParticles, numX, k);
    RowCount(numParticles, numX);
    var s := Scale(boundsSize, 0.9);
    var t := Vec2(GridT(k % numX, numX), GridT(k / numX, numY));
    Vec2(Spread(s.x, t.x), Spread(s.y, t.y))
  }

  /** One axis of `s * t - s / 2`: grid coordinate `t` over a span `s`
      centred on the origin, within `s / 2` of it for `t` in [0, 1]. */
  function Spread(s: real, t: real): (c: real)
    ensures s >= 0.0 && 0.0 <= t <= 1.0 ==> -0.5 * s <= c <= 0.5 * s
  {
    SpreadWithin(s, t);
    s * t - s * 0.5
  }

  /** All initial positions, slot by slot. */
  function GridPositions(boundsSize: Vec2, numParticles: nat, numX: nat): (ps: seq<Vec2>)
    requires numX >= 1
    ensures |ps| == numParticles
    ensures forall k :: 0 <= k < numParticles ==> ps[k] == InitialPosition(boundsSize, numParticles, numX, k)
  {
    seq(numParticles, k requires 0 <= k < numParticles => InitialPosition(boundsSize, numParticles, numX, k))
  }

  /** Every initial position lies inside 45% of the bounds on either side of
      the origin. */
  lemma InitialPositionInBounds(boundsSize: Vec2, numParticles: nat, numX: nat, k: nat)
    requires numX >= 1 && k < numParticles
    requires boundsSize.x >= 0.0 && boundsSize.y >= 0.0
    ensures var p := InitialPosition(boundsSize, numParticles, numX, k);
      -0.45 * boundsSize.x <= p.x <= 0.45 * boundsSize.x &&
      -0.45 * boundsSize.y <= p.y <= 0.45 * boundsSize.y
  {
    RowBelow(numParticles, numX, k);
  }

  /** `s * t - s / 2` lies within `s / 2` of zero for `t` in [0, 1]. */
  lemma SpreadWithin(s: real, t: real)
    ensures s >= 0.0 && 0.0 <= t <= 1.0 ==> -0.5 * s <= s * t - s * 0.5 <= 0.5 * s
  {
    MulSigns(s, t);
    MulSigns(s, 1.0 - t);
    assert s * (1.0 - t) == s - s * t;
  }

  // ---------------------------------------------------------------------------
  // Pause and single-step

  /** The keys _UnhandledInput reacts to; every other event leaves the flags. */
  datatype Key = Space | Right | Reset | OtherKey

  datatype Flags = Flags(isPaused: bool, pauseNextFrame: bool)

  /** The flags after a key press. Reset also reinitialises the particles and
      runs one simulation step. */
  function OnKey(f: Flags, key: Key): (g: Flags)
    ensures key == Space ==> g.isPaused != f.isPaused && g.pauseNextFrame == f.pauseNextFrame
    ensures key == Right ==> !g.isPaused && g.pauseNextFrame
    ensures key == Reset ==> g.isPaused && g.pauseNextFrame == f.pauseNextFrame
    ensures key == OtherKey ==> g == f
  {
    match key
    case Space => f.(isPaused := !f.isPaused)
    case Right => Flags(false, true)
    case Reset => f.(isPaused := true)
    case OtherKey => f
  }

  /** One physics frame: it simulates when not paused, and a pending
      single-step pauses afterwards. */
  function OnFrame(f: Flags): (r: (Flags, bool))
    ensures r.1 <==> !f.isPaused
    ensures f.pauseNextFrame ==> r.0 == Flags(true, false)
    ensures !f.pauseNextFrame ==> r.0 == f
  {
    (if f.pauseNextFrame then Flags(true, false) else f, !f.isPaused)
  }

  /** The flags after `k` frames and how many of them simulated. */
  function RunFrames(f: Flags, k: nat): (r: (Flags, nat))
    ensures r.1 <= k
    decreases k
  {
    if k == 0 then (f, 0)
    else
      var (g, simulated) := OnFrame(f);
      var (h, n) := RunFrames(g, k - 1);
      (h, n + if simulated then 1 else 0)
  }

  /** Once paused with no step pending, no frame simulates. */
  lemma {:induction false} PausedStaysPaused(k: nat)
    ensures RunFrames(Flags(true, false), k) == (Flags(true, false), 0)
  {
    if k > 0 {
      PausedStaysPaused(k - 1);
    }
  }

  /** Unpaused with no step pending, every frame simulates. */
  lemma {:induction false} RunningKeepsRunning(k: nat)
    ensures RunFrames(Flags(false, false), k) == (Flags(false, false), k)
  {
    if k > 0 {
      RunningKeepsRunning(k - 1);
    }
  }

  /** The Right key simulates exactly one frame, then the solver is paused
      again, however many frames follow. */
  lemma SingleStep(f: Flags, k: nat)
    requires k >= 1
    ensures RunFrames(OnKey(f, Right), k) == (Flags(true, false), 1)
  {
    PausedStaysPaused(k - 1);
  }

  /** After Reset no frame simulates until another key is pressed. */
  lemma ResetStaysPaused(f: Flags, k: nat)
    ensures RunFrames(OnKey(f, Reset), k).1 == 0
    ensures k >= 1 ==> RunFrames(OnKey(f, Reset), k).0 == Flags(true, false)
  {
    var g := OnKey(f, Reset);
    if k >= 1 {
      PausedStaysPaused(k - 1);
      if g.pauseNextFrame {
        assert OnFrame(g) == (Flags(true, false), false);
      } else {
        assert g == Flags(true, false);
      }
    }
  }

  /** Space twice restores the flags. */
  lemma SpaceTwice(f: Flags)
    ensures OnKey(OnKey(f, Space), Space) == f
  {
  }

  /** The number of RunSimulationStep calls in a frame that simulates. */
  function StepsPerFrame(iterationsPerFrame: int): (n: nat)
    ensures iterationsPerFrame >= 0 ==> n == iterationsPerFrame
    ensures iterationsPerFrame < 0 ==> n == 0
  {
    if iterationsPerFrame < 0 then 0 else iterationsPerFrame
  }

  // ---------------------------------------------------------------------------
  // The solver object

  class Fluid {
    var numParticles: nat
    var gravity: real
    var collisionDamping: real
    var iterationsPerFrame: int
    var smoothingRadius: real
    var targetDensity: real
    var pressureMultiplier: real
    var nearPressureMultiplier: real
    var boundsSize: Vec2

    var isPaused: bool
    var pauseNextFrame: bool

    var smoothPoly6ScalingFactor: real
    var spikyPow2ScalingFactor: real
    var spikyPow3ScalingFactor: real
    var spikyPow2DerivativeScalingFactor: real
    var spikyPow3DerivativeScalingFactor: real

    var positions: array<Vec2>
    var predictedPositions: array<Vec2>
    var velocities: array<Vec2>
    var densities: array<Vec2>
    var spatialLookup: SpatialLookup2D.Lookup

    /** The five scaling factor fields as one value. */
    ghost function Factors(): ScalingFactors
      reads this`smoothPoly6ScalingFactor, this`spikyPow2ScalingFactor, this`spikyPow3ScalingFactor,
            this`spikyPow2DerivativeScalingFactor, this`spikyPow3DerivativeScalingFactor
    {
      ScalingFactors(smoothPoly6ScalingFactor, spikyPow2ScalingFactor, spikyPow3ScalingFactor,
                     spikyPow2DerivativeScalingFactor, spikyPow3DerivativeScalingFactor)
    }

    ghost function FlagState(): Flags
      reads this`isPaused, this`pauseNextFrame
    {
      Flags(isPaused, pauseNextFrame)
    }

    /** The particle arrays InitializeData lays out for a grid of `numX`
        columns: four distinct arrays, every position on its grid slot,
        everything else zero, and a lookup with one slot per particle. */
    ghost predicate InitialLayout(numX: nat)
      requires numX >= 1
      reads this, positions, predictedPositions, velocities, densities, spatialLookup
    {
      positions != predictedPositions && positions != velocities && positions != densities &&
      predictedPositions != velocities && predictedPositions != densities && velocities != densities &&
      positions[..] == GridPositions(boundsSize, numParticles, numX) &&
      predictedPositions[..] == Zeros(numParticles) &&
      velocities[..] == Zeros(numParticles) &&
      densities[..] == Zeros(numParticles) &&
      spatialLookup.Allocated() && spatialLookup.spatialIndices.Length == numParticles
    }

    /** The field initialisers: the exported settings at their defaults, no
        particles, unpaused, and the scaling factors still zero (they are first
        computed by InitializeData). The arrays start empty. */
    constructor ()
      ensures numParticles == 0 && smoothingRadius == 0.35 && boundsSize == Vec2(16.0, 9.0)
      ensures gravity == 9.8 && collisionDamping == 0.95 && iterationsPerFrame == 1
      ensures targetDensity == 55.0 && pressureMultiplier == 200.0 && nearPressureMultiplier == 18.0
      ensures Factors() == ScalingFactors(0.0, 0.0, 0.0, 0.0, 0.0)
      ensures !isPaused && !pauseNextFrame
    {
      numParticles := 0;
      smoothingRadius := 0.35;
      boundsSize := Vec2(16.0, 9.0);
      smoothPoly6ScalingFactor, spikyPow2ScalingFactor, spikyPow3ScalingFactor := 0.0, 0.0, 0.0;
      spikyPow2DerivativeScalingFactor, spikyPow3DerivativeScalingFactor := 0.0, 0.0;
      positions := new Vec2[0];
      predictedPositions := new Vec2[0];
      velocities := new Vec2[0];
      densities := new Vec2[0];
      spatialLookup := new SpatialLookup2D.Lookup(0);
      gravity, collisionDamping, iterationsPerFrame := 9.8, 0.95, 1;
      targetDensity, pressureMultiplier, nearPressureMultiplier := 55.0, 200.0, 18.0;
      isPaused, pauseNextFrame := false, false;
    }

    /** The NumParticles setter: stores the count and reinitialises the
        particles on a grid of `numX` columns. */
    method SetNumParticles(value: nat, numX: nat)
      requires numX >= 1 && value <= IntMax && smoothingRadius != 0.0
      modifies this`numParticles
      modifies this`positions, this`predictedPositions, this`velocities, this`densities,
               this`spatialLookup, this`smoothPoly6ScalingFactor, this`spikyPow2ScalingFactor,
               this`spikyPow3ScalingFactor, this`spikyPow2DerivativeScalingFactor,
               this`spikyPow3DerivativeScalingFactor
      ensures numParticles == value
      ensures InitialLayout(numX)
      ensures fresh(positions) && fresh(predictedPositions) && fresh(velocities) && fresh(densities)
      ensures fresh(spatialLookup)
      ensures Factors() == ScalingFactorsFor(smoothingRadius)
    {
      numParticles := value;
      InitializeData(numX);
    }

    /** The SmoothingRadius setter: stores the radius and recomputes all five
        scaling factors from it. */
    method SetSmoothingRadius(value: real)
      requires value != 0.0
      modifies this`smoothingRadius, this`smoothPoly6ScalingFactor, this`spikyPow2ScalingFactor,
               this`spikyPow3ScalingFactor, this`spikyPow2DerivativeScalingFactor,
               this`spikyPow3DerivativeScalingFactor
      ensures smoothingRadius == value
      ensures Factors() == ScalingFactorsFor(value)
    {
      smoothingRadius := value;
      SetFactors();
    }

    /** `SmoothingRadius = smoothingRadius`: the setter applied to the stored
        radius, which only recomputes the factors. */
    method SetFactors()
      requires smoothingRadius != 0.0
      modifies this`smoothPoly6ScalingFactor, this`spikyPow2ScalingFactor,
               this`spikyPow3ScalingFactor, this`spikyPow2DerivativeScalingFactor,
               this`spikyPow3DerivativeScalingFactor
      ensures Factors() == ScalingFactorsFor(smoothingRadius)
    {
      var f := ScalingFactorsFor(smoothingRadius);
      smoothPoly6ScalingFactor := f.smoothPoly6;
      spikyPow2ScalingFactor := f.spikyPow2;
      spikyPow3ScalingFactor := f.spikyPow3;
      spikyPow2DerivativeScalingFactor := f.spikyPow2Derivative;
      spikyPow3DerivativeScalingFactor := f.spikyPow3Derivative;
    }

    /** HandleCollisions: clamps particle `i` into the box of half size
        `boundsSize / 2`, each axis on its own. */
    method HandleCollisions(i: nat)
      requires i < positions.Length && i < velocities.Length && positions != velocities
      modifies positions, velocities
      ensures var half := Scale(boundsSize, 0.5);
        var cx := CollideAxis(old(positions[i]).x, old(velocities[i]).x, half.x, collisionDamping);
        var cy := CollideAxis(old(positions[i]).y, old(velocities[i]).y, half.y, collisionDamping);
        positions[i] == Vec2(cx.0, cy.0) && velocities[i] == Vec2(cx.1, cy.1)
      ensures forall k :: 0 <= k < positions.Length && k != i ==> positions[k] == old(positions[k])
      ensures forall k :: 0 <= k < velocities.Length && k != i ==> velocities[k] == old(velocities[k])
    {
      var position := positions[i];
      var velocity := velocities[i];
      var halfSize := Scale(boundsSize, 0.5);
      if Abs(position.x) > halfSize.x {
        position := position.(x := halfSize.x * Sign(position.x));
        velocity := velocity.(x := velocity.x * (-1.0 * collisionDamping));
      }
      if Abs(position.y) > halfSize.y {
        position := position.(y := halfSize.y * Sign(position.y));
        velocity := velocity.(y := velocity.y * (-1.0 * collisionDamping));
      }
      positions[i] := position;
      velocities[i] := velocity;
    }

    /** InitializeData for a grid of `numX` columns (the rounded square-root
        estimate is an input): fresh arrays of `numParticles` slots, the
        scaling factors recomputed, and the positions filled row by row until
        every particle has its slot. */
    method InitializeData(numX: nat)
      requires numX >= 1 && numParticles <= IntMax && smoothingRadius != 0.0
      modifies this`positions, this`predictedPositions, this`velocities, this`densities,
               this`spatialLookup, this`smoothPoly6ScalingFactor, this`spikyPow2ScalingFactor,
               this`spikyPow3ScalingFactor, this`spikyPow2DerivativeScalingFactor,
               this`spikyPow3DerivativeScalingFactor
      ensures InitialLayout(numX)
      ensures fresh(positions) && fresh(predictedPositions) && fresh(velocities) && fresh(densities)
      ensures fresh(spatialLookup)
      ensures Factors() == ScalingFactorsFor(smoothingRadius)
    {
      AllocateParticles(numX);
      SetFactors();
    }

    /** The array part of InitializeData: the four particle arrays and the
        lookup allocated afresh, and the positions laid out on the grid. */
    method AllocateParticles(numX: nat)
      requires numX >= 1 && numParticles <= IntMax
      modifies this`positions, this`predictedPositions, this`velocities, this`densities,
               this`spatialLookup
      ensures InitialLayout(numX)
      ensures fresh(positions) && fresh(predictedPositions) && fresh(velocities) && fresh(densities)
      ensures fresh(spatialLookup)
    {
      var n := numParticles;
      var newPositions := ZeroArray(n);
      var newPredicted := ZeroArray(n);
      var newVelocities := ZeroArray(n);
      var newDensities := ZeroArray(n);
      var newLookup := new SpatialLookup2D.Lookup(n);
      FillGrid(newPositions, boundsSize, numX);
      positions, predictedPositions, velocities, densities := newPositions, newPredicted, newVelocities, newDensities;
      spatialLookup := newLookup;
    }

    /** _UnhandledInput for a key press, returning how many simulation steps
        it ran. Reset pauses, reinitialises the particles (on a grid of `numX`
        columns) and then runs one simulation step; that step is not part of
        this model, so `InitialLayout` is the state it starts from. */
    method UnhandledInput(key: Key, numX: nat) returns (steps: nat)
      requires numX >= 1 && numParticles <= IntMax && smoothingRadius != 0.0
      modifies this`isPaused, this`pauseNextFrame
      modifies this`positions, this`predictedPositions, this`velocities, this`densities,
               this`spatialLookup, this`smoothPoly6ScalingFactor, this`spikyPow2ScalingFactor,
               this`spikyPow3ScalingFactor, this`spikyPow2DerivativeScalingFactor,
               this`spikyPow3DerivativeScalingFactor
      ensures FlagState() == OnKey(old(FlagState()), key)
      ensures steps == if key == Reset then 1 else 0
      ensures key == Reset ==> InitialLayout(numX) && Factors() == ScalingFactorsFor(smoothingRadius)
      ensures key == Reset ==>
        fresh(positions) && fresh(predictedPositions) && fresh(velocities) && fresh(densities) &&
        fresh(spatialLookup)
      ensures key != Reset ==>
        positions == old(positions) && predictedPositions == old(predictedPositions) &&
        velocities == old(velocities) && densities == old(densities) &&
        spatialLookup == old(spatialLookup) && Factors() == old(Factors())
    {
      steps := 0;
      match key {
        case Space =>
          isPaused := !isPaused;
        case Right =>
          isPaused := false;
          pauseNextFrame := true;
        case Reset =>
          isPaused := true;
          InitializeData(numX);
          steps := 1;
        case OtherKey =>
      }
    }

    /** _PhysicsProcess: runs a frame (RunSimulationFrame), returning how many
        simulation steps it ran, then honours a pending single-step. */
    method PhysicsProcess() returns (steps: nat)
      modifies this`isPaused, this`pauseNextFrame
      ensures FlagState() == OnFrame(old(FlagState())).0
      ensures steps == if OnFrame(old(FlagState())).1 then StepsPerFrame(iterationsPerFrame) else 0
    {
      steps := RunSimulationFrame();
      if pauseNextFrame {
        isPaused := true;
        pauseNextFrame := false;
      }
    }

    /** RunSimulationFrame: nothing while paused, else `iterationsPerFrame`
        simulation steps (the steps themselves are not part of this model). */
    method RunSimulationFrame() returns (steps: nat)
      ensures steps == if isPaused then 0 else StepsPerFrame(iterationsPerFrame)
    {
      steps := 0;
      if !isPaused {
        var i := 0;
        while i < iterationsPerFrame
          invariant 0 <= steps == i
          invariant iterationsPerFrame >= 0 ==> i <= iterationsPerFrame
          invariant iterationsPerFrame < 0 ==> i == 0
        {
          steps := steps + 1;
          i := i + 1;
        }
      }
    }
  }

  /** `new Vector2[n]`: a fresh array of `n` zero vectors. */
  method ZeroArray(n: nat) returns (a: array<Vec2>)
    ensures fresh(a) && a[..] == Zeros(n)
  {
    a := new Vec2[n](_ => Zero);
    assert a[..] == Zeros(n);
  }

  /** The nested row / column loop of InitializeData: slot after slot in
      row-major order, stopping once every particle has a position. */
  method FillGrid(positions: array<Vec2>, boundsSize: Vec2, numX: nat)
    requires numX >= 1
    modifies positions
    ensures positions[..] == GridPositions(boundsSize, positions.Length, numX)
  {
    var n := positions.Length;
    var s := Scale(boundsSize, 0.9);
    var numY := CeilDiv(n, numX);
    var i := 0;
    var y := 0;
    while y < numY
      invariant 0 <= y <= numY
      // `i` counts the slots written so far; the fill stops once it reaches the count
      invariant i == Min(y * numX, n)
      invariant forall k :: 0 <= k < i ==> positions[k] == InitialPosition(boundsSize, n, numX, k)
    {
      var x := 0;
      while x < numX
        invariant 0 <= x <= numX
        invariant i == Min(y * numX + x, n)
        invariant forall k :: 0 <= k < i ==> positions[k] == InitialPosition(boundsSize, n, numX, k)
      {
        if i >= n {
          break;
        }
        RowMajorIndex(y, x, numX);
        var tx := GridT(x, numX);
        var ty := GridT(y, numY);
        positions[i] := Vec2(Spread(s.x, tx), Spread(s.y, ty));
        i := i + 1;
        x := x + 1;
      }
      assert i == Min((y + 1) * numX, n);
      y := y + 1;
    }
    assert positions[..] == GridPositions(boundsSize, n, numX);
  }
}
