# fluid-sim core in Dafny

A model of the sequential bookkeeping around the 2D smoothed-particle
hydrodynamics (SPH) fluid solver of the Godot project *fluid-sim*, with
proofs about it. Four pieces of the C# code are modelled:

- **Spatial hash lookup** (`spatial_lookup.dfy`, module `SpatialLookup2D`).
  - Points map to integer cells by truncating toward zero.
  - A cell is hashed with wrapping 32-bit arithmetic, and the hash is reduced
    modulo the table size.
  - `Update` writes an `(index, key)` entry per point, sorts the entries in
    place by key, and builds a first-occurrence offset table. Empty slots hold
    `int.MaxValue`.
  - `ForeachPointWithinRadius` scans the buckets of the 3x3 block of cells
    around the sample point.
  - The lookup is a class over two arrays. The query's callback is modelled
    as the sequence of indices it would receive, in call order.
  - Proved: `Update` leaves the index array a sorted permutation of the
    points' entries and the offset table equal to the first-occurrence table.
    A query reports exactly the points strictly within the radius, each at
    least once.
- **SPH helpers and control flow of the CPU solver** (`kernels.dfy`,
  `cpu_fluid.dfy`, modules `Kernels` and `CPUFluid2D`), over `real`.
  - The five smoothing kernels and the scaling factors that the
    `SmoothingRadius` setter computes.
  - Pressure from density.
  - The gravity and interaction acceleration of `ExternalForces`.
  - Boundary collision.
  - The initial grid layout of `InitializeData`.
  - The pause / single-step flags of `_UnhandledInput`, `_PhysicsProcess` and
    `RunSimulationFrame`.
  - The solver is a class `Fluid` holding the source's fields that these
    operations read or write; its methods modify those fields and arrays in
    place. `interactionRadius` and the current interaction strength are
    parameters of `ExternalForces`; `timeScale` and `viscosityStrength` are
    only read by the physics step, which is not modelled.
- **Bitonic sort schedule** (`gpu_sort.dfy`, module `GPUSort`).
  - The host-side stage / step loop of `GPUSort.Sort`, and the work-group
    counts of `Sort` and `CalculateOffsets`.
  - The settings buffer is a field. Every compute dispatch is appended to a
    `dispatches` sequence, so the sort is proved to issue exactly the schedule
    `Schedule(n, NumStages(n))`. Separate lemmas state that schedule's length,
    its per-step settings and their well-formedness.
- **Particle spawner** (`particle_spawner.dfy`, module `ParticleSpawner2D`).
  - The `ParticleSpawnData` constructor.
  - The row-major grid fill of `GetSpawnData`, including its jitter.
  - Each random draw is passed in as an argument.

Two helper modules are shared by the others. `vectors.dfy` holds `Vector2`
as a pair of reals, `Vector2I` as a pair of ints, and the integer limits.
`spawn_grid.dfy` holds the row-major grid arithmetic that the CPU layout and
the GPU spawner share.

Two details of the lookup:

- A cell coordinate is `(int)(x / radius)`, which truncates toward zero, so
  cell 0 spans two radii (from `-radius` to `radius`, exclusive).
- An empty offset slot holds `int.MaxValue`.

## Model

| member | source | states |
|---|---|---|
| SpatialLookup2D.GetCell2D | 2D/CPU/SpatialLookup2D.cs:57-63 | each cell coordinate is the coordinate's quotient by the radius truncated toward zero: at most the quotient and within one of it for a non-negative quotient, at least it and within one for a negative one |
| SpatialLookup2D.CellZeroSpansTwoRadii | 2D/CPU/SpatialLookup2D.cs:57-63 | every coordinate strictly between `-radius` and `radius` falls in cell 0, so cell 0 is two radii wide |
| SpatialLookup2D.Trunc | 2D/CPU/SpatialLookup2D.cs:60-61 | the `(int)` cast of a quotient rounds toward zero: it is within one below a non-negative value and within one above a negative one |
| SpatialLookup2D.TruncAdjacent | 2D/CPU/SpatialLookup2D.cs:57-63 | values less than one apart truncate to integers at most one apart |
| SpatialLookup2D.AxisAdjacent | 2D/CPU/SpatialLookup2D.cs:57-63 | two coordinates less than a radius apart fall in the same or adjacent cells along that axis |
| SpatialLookup2D.ToUint | 2D/CPU/SpatialLookup2D.cs:69-70 | the `(uint)` cast of a cell coordinate is below 2^32 and congruent to it modulo 2^32 (two's complement) |
| SpatialLookup2D.HashCell2D | 2D/CPU/SpatialLookup2D.cs:65-72 | the wrapping hash is a 32-bit value |
| SpatialLookup2D.HashCellIsExactModulo | 2D/CPU/SpatialLookup2D.cs:65-72 | the wrapping hash equals `(x * 15823 + y * 9737333) mod 2^32` of the exact integers, for negative cells too |
| SpatialLookup2D.KeyFromHash | 2D/CPU/SpatialLookup2D.cs:74-77 | for a non-empty table the key is below the table size, and a hash already below the size is its own key |
| SpatialLookup2D.KeyOf | 2D/CPU/SpatialLookup2D.cs:38-39 | a point's bucket key is a valid slot of a table with one slot per point |
| SpatialLookup2D.CompareTo | 2D/CPU/SpatialLookup2D.cs:115-118 | Entry.CompareTo is -1, 0 or 1 and is negative, zero or positive exactly when the first key is less than, equal to or greater than the second; indices are ignored |
| SpatialLookup2D.Entries | 2D/CPU/SpatialLookup2D.cs:36-42 | the first pass gives one entry per point: entry `i` is point `i` with its key |
| SpatialLookup2D.WriteEntries | 2D/CPU/SpatialLookup2D.cs:36-42 | the first pass leaves the index array equal to `Entries(points)` and every offset slot at int.MaxValue |
| SpatialLookup2D.SortByKey | 2D/CPU/SpatialLookup2D.cs:44 | Array.Sort under CompareTo leaves the array sorted by key and a permutation of what it held |
| SpatialLookup2D.InsertAt | 2D/CPU/SpatialLookup2D.cs:44 | one insertion step extends the sorted prefix by one and permutes the array |
| SpatialLookup2D.FirstSpec | 2D/CPU/SpatialLookup2D.cs:46-54 | the first-occurrence search returns int.MaxValue exactly when no position holds the key, and otherwise the least position that does |
| SpatialLookup2D.OffsetTableSpec | 2D/CPU/SpatialLookup2D.cs:46-54 | slot `k` of the offset table is int.MaxValue exactly when no entry has key `k`, and otherwise the smallest sorted position with key `k` |
| SpatialLookup2D.OffsetsStep | 2D/CPU/SpatialLookup2D.cs:48-53 | in a sorted array a position's key differs from its predecessor's (with uint.MaxValue before position 0) exactly when no earlier position has that key |
| SpatialLookup2D.RunStartsHaveDistinctKeys | 2D/CPU/SpatialLookup2D.cs:46-54 | distinct run starts carry distinct keys, so each offset slot is written by at most one position and the parallel pass's order does not matter |
| SpatialLookup2D.WriteOffsets | 2D/CPU/SpatialLookup2D.cs:46-54 | the offsets pass over a sorted array leaves the offset table equal to the first-occurrence table |
| SpatialLookup2D.EntriesFacts | 2D/CPU/SpatialLookup2D.cs:36-44 | every entry of the sorted array names a valid point and carries that point's key |
| SpatialLookup2D.EntryPresent | 2D/CPU/SpatialLookup2D.cs:36-44 | every point's entry is somewhere in the sorted array |
| SpatialLookup2D.Lookup.constructor | 2D/CPU/SpatialLookup2D.cs:25-29 | both tables are fresh arrays with one slot per point |
| SpatialLookup2D.Lookup.Update | 2D/CPU/SpatialLookup2D.cs:31-55 | afterwards the index array is a sorted permutation of the points' entries and the offset table is their first-occurrence table; the same arrays are reused |
| SpatialLookup2D.Lookup.ScanBucket | 2D/CPU/SpatialLookup2D.cs:86-100 | an empty bucket reports nothing; every reported point has the bucket's key and lies strictly within the radius; every such point is reported |
| SpatialLookup2D.RunCovered | 2D/CPU/SpatialLookup2D.cs:89-100 | a scan that stops at the first different key has seen every entry with the bucket's key |
| SpatialLookup2D.Lookup.ScanCell | 2D/CPU/SpatialLookup2D.cs:84-101 | one visited cell reports only points within the radius and every point of that cell within it |
| SpatialLookup2D.QueryStep | 2D/CPU/SpatialLookup2D.cs:84-101 | appending one cell's report keeps the report sound and adds that cell to the covered ones |
| SpatialLookup2D.NeighbourInBlock | 2D/CPU/SpatialLookup2D.cs:7-17 | a point strictly within the radius lies in one of the nine cells of the sample's 3x3 offset block |
| SpatialLookup2D.BlockOffset | 2D/CPU/SpatialLookup2D.cs:7-17 | the offset table holds every step of at most one cell along each axis |
| SpatialLookup2D.BlockCovered | 2D/CPU/SpatialLookup2D.cs:81-101 | a sound report covering the nine block cells holds exactly the points within the radius |
| SpatialLookup2D.Lookup.ForeachPointWithinRadius | 2D/CPU/SpatialLookup2D.cs:79-102 | every reported index is a point strictly within the radius, and every such point is reported at least once |
| Kernels.Pow | 2D/CPU/CPUFluid2D.cs:34-38 | Mathf.Pow of a positive (non-negative) base is positive (non-negative) |
| Kernels.PowNonzero | 2D/CPU/CPUFluid2D.cs:34-38 | a power of a non-zero radius is non-zero, so the factor divisions are defined |
| Kernels.PowMonotone | 2D/CPU/CPUFluid2D.cs:437-445 | a power grows with its non-negative base |
| Kernels.ScalingFactorsFor | 2D/CPU/CPUFluid2D.cs:34-38 | all five factors are positive for a positive radius, and each derivative factor is the matching kernel factor times its exponent |
| Kernels.SmoothPoly6Kernel | 2D/CPU/CPUFluid2D.cs:427-435 | zero from the radius on, non-negative inside it for a non-negative factor, positive for a positive one |
| Kernels.SpikyPow2Kernel | 2D/CPU/CPUFluid2D.cs:437-445 | zero from the radius on, non-negative inside it for a non-negative factor, positive for a positive one |
| Kernels.SpikyPow3Kernel | 2D/CPU/CPUFluid2D.cs:447-455 | zero from the radius on, non-negative inside it for a non-negative factor, positive for a positive one |
| Kernels.SpikyPow2Derivative | 2D/CPU/CPUFluid2D.cs:457-465 | zero beyond the radius and at it, non-positive up to it for a non-negative factor, negative inside it for a positive one |
| Kernels.SpikyPow3Derivative | 2D/CPU/CPUFluid2D.cs:467-475 | zero beyond the radius and at it, non-positive up to it for a non-negative factor, negative inside it for a positive one |
| Kernels.SpikyPow2DerivativeIsSlope | 2D/CPU/CPUFluid2D.cs:437-465 | with the setter's factors the derivative kernel is the exact slope of the density kernel: the change over a step `h` is `h` times it plus a second-order term |
| Kernels.SpikyPow3DerivativeIsSlope | 2D/CPU/CPUFluid2D.cs:447-475 | the same for the near-density kernel and its derivative, with the exact higher-order remainder |
| Kernels.SpikyPow2Decreasing | 2D/CPU/CPUFluid2D.cs:437-445 | the density kernel does not increase with distance |
| CPUFluid2D.PressureFromDensity | 2D/CPU/CPUFluid2D.cs:380-383 | zero at the target density; with a positive multiplier, positive exactly above the target and negative exactly below it |
| CPUFluid2D.PressureIncreasing | 2D/CPU/CPUFluid2D.cs:380-383 | with a positive multiplier pressure strictly increases with density |
| CPUFluid2D.NearPressureFromDensity | 2D/CPU/CPUFluid2D.cs:386-389 | zero for zero near density, non-negative for non-negative inputs, positive for positive ones |
| CPUFluid2D.Clamp | 2D/CPU/CPUFluid2D.cs:286 | Mathf.Clamp lands in the interval and leaves values inside it alone |
| CPUFluid2D.CenterT | 2D/CPU/CPUFluid2D.cs:282-283 | `1 - dst / radius` is 1 exactly at the interaction point, in (0, 1] inside a positive radius, at least 1 for a negative radius |
| CPUFluid2D.GravityWeight | 2D/CPU/CPUFluid2D.cs:286 | the gravity weight is in [0, 1] for `centerT` in [0, 1], all of gravity for a push, and `1 - centerT` for a pull of strength 10 or more |
| CPUFluid2D.ExternalForces | 2D/CPU/CPUFluid2D.cs:269-294 | exactly `(0, gravity)` with no interaction or outside its radius; NaN only for a live interaction at its own centre |
| CPUFluid2D.InteractionAccel | 2D/CPU/CPUFluid2D.cs:282-288 | at the rim of the radius (`centerT` 0) only gravity remains; with zero strength, all of gravity minus the velocity drag `velocity * centerT` |
| CPUFluid2D.CentreInInteraction | 2D/CPU/CPUFluid2D.cs:275-279 | a live interaction with a non-zero radius reaches its own centre |
| CPUFluid2D.NotANumberAtInputPoint | 2D/CPU/CPUFluid2D.cs:281-284 | a particle exactly on the interaction point of a live interaction gets `0 / 0`, a NaN acceleration |
| CPUFluid2D.InsideRadius | 2D/CPU/CPUFluid2D.cs:279-281 | a distance whose square is below the squared radius is below the radius's magnitude |
| CPUFluid2D.InteractionDirection | 2D/CPU/CPUFluid2D.cs:277-289 | without gravity, for a particle at rest inside the radius, a pull accelerates it towards the input point and a push away from it |
| CPUFluid2D.PullSign | 2D/CPU/CPUFluid2D.cs:284-288 | the interaction term's component along the offset has the sign of the strength |
| CPUFluid2D.AccelAtRest | 2D/CPU/CPUFluid2D.cs:284-288 | with zero gravity and velocity only `dirToCenter * centerT * strength` remains |
| CPUFluid2D.DotTowards | 2D/CPU/CPUFluid2D.cs:284 | the unit direction to the centre, scaled by `c`, has component `c * dst` along the offset |
| CPUFluid2D.CollideAxis | 2D/CPU/CPUFluid2D.cs:363-373 | one axis of a collision: unchanged inside the box; outside, the coordinate is put exactly on the wall (`half * Sign(p)`: magnitude `half`, its own sign) and the velocity reflected and damped; afterwards the coordinate is within the half size |
| CPUFluid2D.CollideIdempotent | 2D/CPU/CPUFluid2D.cs:356-377 | colliding a second time changes nothing |
| CPUFluid2D.Fluid.HandleCollisions | 2D/CPU/CPUFluid2D.cs:356-377 | particle `i` gets each axis collided independently; every other particle keeps its position and velocity |
| CPUFluid2D.Spread | 2D/CPU/CPUFluid2D.cs:166 | `s * t - s / 2` lies within `s / 2` of the origin for `t` in [0, 1] |
| CPUFluid2D.GridPositions | 2D/CPU/CPUFluid2D.cs:156-170 | one initial position per particle, each on its row-major grid slot |
| CPUFluid2D.InitialPosition | 2D/CPU/CPUFluid2D.cs:163-166 | a single column is centred at x 0 and a single row at y 0; otherwise the first particle sits at the lower-left corner `-0.45 * boundsSize` |
| CPUFluid2D.InitialPositionInBounds | 2D/CPU/CPUFluid2D.cs:151-166 | every initial position lies within 45% of the bounds on each side of the origin |
| CPUFluid2D.FillGrid | 2D/CPU/CPUFluid2D.cs:151-170 | the nested loop writes every slot below the particle count, in row-major order, with its grid position |
| CPUFluid2D.ZeroArray | 2D/CPU/CPUFluid2D.cs:142-145 | `new Vector2[n]` is a fresh array of `n` zero vectors |
| CPUFluid2D.Fluid.constructor | 2D/CPU/CPUFluid2D.cs:19-82 | the field initialisers: default settings, no particles, unpaused, scaling factors still zero |
| CPUFluid2D.Fluid.SetNumParticles | 2D/CPU/CPUFluid2D.cs:9-17 | the NumParticles setter stores the count and reinitialises the particles to the initial layout: four fresh, distinct arrays and a fresh lookup, and factors for the current radius |
| CPUFluid2D.Fluid.SetSmoothingRadius | 2D/CPU/CPUFluid2D.cs:27-39 | the setter stores the radius and recomputes all five scaling factors from it together |
| CPUFluid2D.Fluid.SetFactors | 2D/CPU/CPUFluid2D.cs:149 | assigning the radius to itself recomputes the factors from it |
| CPUFluid2D.Fluid.AllocateParticles | 2D/CPU/CPUFluid2D.cs:142-170 | four fresh, pairwise distinct arrays of `numParticles` slots, a fresh lookup of that size, positions on their grid slots and everything else zero |
| CPUFluid2D.Fluid.InitializeData | 2D/CPU/CPUFluid2D.cs:140-176 | the initial layout (four distinct arrays, positions on their grid slots, the rest zero), plus the scaling factors recomputed for the current radius |
| CPUFluid2D.OnKey | 2D/CPU/CPUFluid2D.cs:116-138 | Space toggles the pause, Right unpauses and schedules a pause after the next frame, R pauses, other keys change nothing |
| CPUFluid2D.SpaceTwice | 2D/CPU/CPUFluid2D.cs:120-123 | pressing Space twice restores the flags |
| CPUFluid2D.OnFrame | 2D/CPU/CPUFluid2D.cs:105-114 | a frame simulates exactly when unpaused, and a pending single step pauses afterwards |
| CPUFluid2D.RunFrames | 2D/CPU/CPUFluid2D.cs:105-114 | `k` frames simulate at most `k` times |
| CPUFluid2D.PausedStaysPaused | 2D/CPU/CPUFluid2D.cs:105-114 | paused with no step pending, no frame simulates and the flags stay put |
| CPUFluid2D.RunningKeepsRunning | 2D/CPU/CPUFluid2D.cs:193-208 | unpaused with no step pending, every frame simulates |
| CPUFluid2D.SingleStep | 2D/CPU/CPUFluid2D.cs:124-128 | after Right exactly one of any number of frames simulates, and then the solver is paused |
| CPUFluid2D.ResetStaysPaused | 2D/CPU/CPUFluid2D.cs:129-133 | after R no frame simulates until another key is pressed |
| CPUFluid2D.StepsPerFrame | 2D/CPU/CPUFluid2D.cs:201-204 | a simulating frame runs `iterationsPerFrame` steps, none for a negative count |
| CPUFluid2D.Fluid.UnhandledInput | 2D/CPU/CPUFluid2D.cs:116-138 | the flags change as `OnKey` says; R also reinitialises the particles to the initial layout (four fresh arrays, a fresh lookup, factors for the current radius) and runs exactly one simulation step from it; other keys run none and leave arrays and factors alone |
| CPUFluid2D.Fluid.PhysicsProcess | 2D/CPU/CPUFluid2D.cs:105-114 | the flags change as `OnFrame` says, and the frame runs `iterationsPerFrame` steps exactly when it simulates |
| CPUFluid2D.Fluid.RunSimulationFrame | 2D/CPU/CPUFluid2D.cs:193-208 | no step while paused, else `iterationsPerFrame` steps |
| SpawnGrid.CeilDiv | 2D/CPU/CPUFluid2D.cs:155 | `numY` is the fewest rows of `numX` slots that hold every particle |
| SpawnGrid.GridT | 2D/GPU/ParticleSpawner2D.cs:89-90 | `tx`, `ty` lie in [0, 1], are 0.5 for a single column or row, and run from 0 at the first to 1 at the last |
| SpawnGrid.RowMajorIndex | 2D/GPU/ParticleSpawner2D.cs:83-97 | slot `y * numX + x` is column `x` of row `y` |
| SpawnGrid.RowBelow | 2D/GPU/ParticleSpawner2D.cs:79-80 | every slot below the count lies in one of the `numY` rows |
| ParticleSpawner2D.Jitter | 2D/GPU/ParticleSpawner2D.cs:92-94 | no jitter for a draw of exactly 0.5; for a direction of components at most 1 and a draw in [0, 1], at most half the jitter strength along each axis |
| ParticleSpawner2D.SpawnPosition | 2D/GPU/ParticleSpawner2D.cs:89-95 | without its jitter a position lies within half the spawn size of the centre; a single column or row is centred; otherwise the first slot sits at `spawnCenter - spawnSize / 2` |
| ParticleSpawner2D.GridOffset | 2D/GPU/ParticleSpawner2D.cs:95 | `(t - 0.5) * size` lies within half the span for `t` in [0, 1] |
| ParticleSpawner2D.SpawnPositions | 2D/GPU/ParticleSpawner2D.cs:83-98 | one position per slot: its grid position plus that slot's jitter, around the spawn centre |
| ParticleSpawner2D.NoJitter | 2D/GPU/ParticleSpawner2D.cs:94 | a jitter strength of zero gives no jitter, whatever the random draws |
| ParticleSpawner2D.SpawnWithinBounds | 2D/GPU/ParticleSpawner2D.cs:95 | every position lies within half the spawn size plus the jitter's bound of the centre |
| ParticleSpawner2D.SpawnWithinRect | 2D/GPU/ParticleSpawner2D.cs:92-95 | with zero jitter strength every position lies inside `spawnCenter +- spawnSize / 2` |
| ParticleSpawner2D.SpawnWithinJitteredRect | 2D/GPU/ParticleSpawner2D.cs:91-95 | with the drawn jitter every position lies within half the spawn size plus half the jitter strength of the centre |
| ParticleSpawner2D.NewParticleSpawnData | 2D/GPU/ParticleSpawner2D.cs:67-71 | two fresh, distinct arrays of `num` zero vectors |
| ParticleSpawner2D.ParticleSpawner2D.constructor | 2D/GPU/ParticleSpawner2D.cs:7-33 | the exported spawner settings, as given |
| ParticleSpawner2D.ParticleSpawner2D.GetSpawnData | 2D/GPU/ParticleSpawner2D.cs:74-102 | both arrays have `particleCount` slots; every slot is written with `SpawnPositions` in row-major order; every velocity is the initial velocity |
| GPUSort.Pow2 | GPUSort/GPUSort.cs:133 | `1 << k` is at least 1 |
| GPUSort.CeilLog2Bounds | GPUSort/GPUSort.cs:124-126 | `2^CeilLog2(n)` is the least power of two at or above `n` |
| GPUSort.NearestPo2 | GPUSort/GPUSort.cs:124 | Mathf.NearestPo2 is 0 for 0, otherwise a power of two at or above `n` and below `2n` |
| GPUSort.NumStages | GPUSort/GPUSort.cs:126 | `2^numStages` is the padded table size; tables of 0 or 1 entries have no stages |
| GPUSort.StageSettings | GPUSort/GPUSort.cs:130-145 | stage `s` runs `s + 1` steps; step `t` has group width `2^(s - t)`, height `2 * width - 1`, step index `t` and the unchanged entry count |
| GPUSort.ScheduleLength | GPUSort/GPUSort.cs:128-131 | `numStages` stages dispatch `numStages * (numStages + 1) / 2` times |
| GPUSort.ScheduleAt | GPUSort/GPUSort.cs:128-145 | dispatch number `Triangle(stage) + step` carries width `2^(stage - step)` and step index `step` |
| GPUSort.ScheduleWellFormed | GPUSort/GPUSort.cs:133-145 | every dispatched setting carries the entry count, a power-of-two width, an odd height `2 * width - 1` and a step index below the stage count |
| GPUSort.StageWellFormed | GPUSort/GPUSort.cs:133-145 | the settings of one stage are well formed |
| GPUSort.SortXGroups | GPUSort/GPUSort.cs:124-125 | the sort's group count is at least 1 |
| GPUSort.SortXGroupsCover | GPUSort/GPUSort.cs:124-125 | groups of 256 lanes span the padded table, exactly once it has 256 entries or more |
| GPUSort.OffsetsXGroups | GPUSort/GPUSort.cs:157-158 | the offsets group count is at least 1, is 1 below 256 entries, and is the whole number of 128-lane groups otherwise |
| GPUSort.SortPasses | GPUSort/GPUSort.cs:146-150 | one dispatch per setting of the schedule |
| GPUSort.SortPassesAt | GPUSort/GPUSort.cs:146-150 | dispatch `i` runs setting `i` with the common group count |
| GPUSort.DispatchStep | GPUSort/GPUSort.cs:130-150 | one step of the loop nest extends the dispatches by the next setting of the schedule |
| GPUSort.GPUSort.constructor | GPUSort/GPUSort.cs:22-43 | a zero entry count and an empty dispatch history |
| GPUSort.GPUSort.SetBuffers | GPUSort/GPUSort.cs:88-90 | stores the entry count |
| GPUSort.GPUSort.Sort | GPUSort/GPUSort.cs:122-153 | the dispatches issued are exactly the schedule of `NumStages(n)` stages, each with the sort's group count |
| GPUSort.GPUSort.RunStage | GPUSort/GPUSort.cs:130-151 | the inner loop issues the `stage + 1` settings of its stage, in order |
| GPUSort.GPUSort.CalculateOffsets | GPUSort/GPUSort.cs:155-164 | issues one offsets dispatch with the offsets group count |

## Left out

- Floating point: every `float` is a `real`. Rounding, infinities and NaN are not modelled, except that a `0 / 0` direction in `ExternalForces` is an explicit `NotANumber` result.
- Concurrency: each `Parallel.For` is a sequential loop. The writes are disjoint per index, and `RunStartsHaveDistinctKeys` shows that the offsets pass writes each slot at most once.
- SpatialLookup2D.GetCell2D, SpatialLookup2D.Lookup.Update: both require a positive radius. A radius of zero divides by zero, and the source also accepts a negative radius, which the model does not cover.
- SpatialLookup2D.Lookup.ForeachPointWithinRadius: requires a non-empty table, because `hash % 0` throws in the source.
- SpatialLookup2D.SortByKey: `Array.Sort` is introsort and unstable. The model sorts by insertion and promises only a sorted permutation, so tie order is unspecified in both.
- SpatialLookup2D.Lookup: `points` is stored as a sequence, so later writes through the caller's array are not seen (aliasing is not modelled).
- The query callback is modelled as the sequence of indices it receives, so no code runs inside the callback.
- Cell coordinates are unbounded integers. An `(int)` cast of a huge quotient, which is undefined in C#, is not modelled.
- `numX` comes from a square-root formula in floats. It is taken as an input with `numX >= 1`, in both `InitializeData` and `GetSpawnData`.
- `numY` is `Mathf.CeilToInt(n / (float)numX)`, taken as exact integer ceiling division.
- CPUFluid2D.ExternalForces: `dst` is Mathf.Sqrt of the squared distance. It is taken as an input whose square is that distance.
- CPUFluid2D.InteractionDirection: proved only for zero gravity and a particle at rest. With either non-zero, the direction depends on their magnitudes.
- The input state (`currInteractionStrength`, `interactionInputPoint`, from GatherInput and mouse polling) is passed as parameters.
- The physics step `RunSimulationStep` is not modelled: the force sums, density, pressure and viscosity, and integration. `RunSimulationFrame` and the R key only count or skip it. It is floating-point accumulation over the kernels, whose properties are proved separately.
- The density and viscosity kernel aliases (`DensityKernel` and the rest) only rename the five kernels.
- Godot presentation is not modelled: `_Ready`, `_Draw`, `UpdateVisuals`, MultiMesh counts, `QueueRedraw` and the spawner's gizmo and redraw setters.
- CPUFluid2D.Fluid.SetNumParticles, ParticleSpawner2D.ParticleSpawner2D.GetSpawnData: counts are `nat`. A negative count throws when the array is allocated in the source.
- CPUFluid2D.Fluid.UnhandledInput: on R the particles end one simulation step past `InitialLayout`; the model counts that step but states the layout it starts from, because the step itself is not modelled.
- CPUFluid2D.Fluid.InitializeData, CPUFluid2D.Fluid.SetNumParticles, CPUFluid2D.Fluid.UnhandledInput: require `numX >= 1`. With no particles and bounds wider than tall the source's square-root formula can give `numX = 0` and then `numY = CeilToInt(0 / 0f)`; its loop then writes nothing, as the model's does with `numX = 1`.
- CPUFluid2D.Fluid: `timeScale`, `viscosityStrength`, `interactionRadius` and `interactionStrength` are not fields of the model; the latter two enter `ExternalForces` as parameters, and the first two are only used by the unmodelled physics step.
- CPUFluid2D.Fluid.SetSmoothingRadius, CPUFluid2D.Fluid.SetFactors, CPUFluid2D.Fluid.SetNumParticles, CPUFluid2D.Fluid.InitializeData, CPUFluid2D.Fluid.UnhandledInput: require a non-zero radius. A zero radius gives infinite factors in floats.
- Randomness: the jitter angle and length draws (`GD.Randf`) are parameters `dirs` and `us`. `SpawnWithinJitteredRect` assumes only that each component of `dir` is at most 1 in magnitude and that `u` is in [0, 1].
- GPUSort.NearestPo2: defined up to 2^30. Godot's integer version overflows above that, and `Sort` requires it.
- GPUSort.NumStages: `(int)MathF.Log(p, 2)` is taken as the exact base-2 logarithm of the power of two `p`.
- GPUSort.SortXGroups, GPUSort.OffsetsXGroups: the `/ 256f` and `/ 128f` float divisions followed by a `(uint)` cast are taken as exact integer division.
- GPU plumbing is not modelled: buffer updates, uniform sets, pipelines and byte conversion. The settings buffer is a field, and each dispatch is a value appended to a sequence.
- The compare-exchange and offset shaders run on the device and their code is not part of this model, so sortedness of the GPU table is not claimed.
