# ofxFlockDraw simulation core in Dafny

This project models the simulation core of a particle-flocking engine for generative visuals:

- **`spatial_matrix<T>`** (`spatial_matrix.dfy`, module `SpatialMatrices`). This is a uniform grid of square cells laid over a field, stored row-major. Each cell lists references in insertion order. The model covers `resize`, `clear`, `insert`, the cell index, the radius scan, the scan of every cell, `clear_apply` (snapshot, clear, revisit) and `resize_clear_apply`.
- **`Particle`** (`particle.dfy`, module `Particles`). This is a class whose methods rewrite its fields in place:
  - `applyForce` and `limitSpeed`;
  - `updateTimer`, which ages the particle and fades its alpha;
  - `update`: speed cap, acceleration, integration, damping, clamps, the `WRAP` toroidal wrap and the three-probe colour guidance.
- **`ParticleEmitter`** (`emitter.dfy`, module `Emitters`, with the pure pair logic in `flocking.dfy`, module `Flocking`). This is a class holding a sequence of groups of particles. The model covers:
  - `addParticles`;
  - population control in `update`: groups converge to the wanted count, and particles per group grow by at most two per frame or drop to the target at once;
  - the shared flocking timer;
  - the `i < j` flocking pass of `updateParticles`, followed by each particle's own update;
  - the round-robin split of groups over the four workers of `threadProcessParticles`.

`vectors.dfy` (module `Vectors`) holds the 2-D vectors over the reals and the float-to-integer cast (truncation toward zero). It also holds `fmod`, defined exactly and proved equal to `p - w * trunc(p / w)`. `option.dfy` holds `Option`, which stands for a nullable pointer.

Some operations read maths the model does not interpret: `getNormalized`, `rotate`, `sin` and `cos`. They receive these as a `VecMath` parameter, so nothing proved depends on how they are computed. Every `ofRandom` draw is a parameter whose range is stated (`SpawnDraws.Fits`). The emitter picks draws nondeterministically within those ranges.

The model follows the code in these places:
- The grid does not clamp a cell index, so `insert` requires an in-field position.
- `applyForce` adds to the velocity, not to the acceleration.
- `limitSpeed` is commented out in `update`. Where it is used, it sets the speed to the *squared* limit.
- `m_flockLeader` is never read, so leaders receive flocking forces like any other particle.
- Shrinking a group pops particles from the back at once. Dead particles are never culled.
- Wrapping does not touch any "previous position".
- The flocking pass does not use the grid: it is all-pairs.

## Model

| member | source | states |
|---|---|---|
| `SpatialMatrices.SpatialMatrix.Unsized` | src/ofSpatialMatrix.h:30 | The default constructor: no cells, every parameter zero. |
| `SpatialMatrices.SpatialMatrix.constructor` | src/ofSpatialMatrix.h:25-28 | The sizing constructor gives a valid grid with the given parameters, all cells empty. |
| `SpatialMatrices.SpatialMatrix.Resize` | src/ofSpatialMatrix.h:32-42 | After resize: `w = trunc(f_w/c_r)+1`, `h = trunc(f_h/c_r)+1`, exactly `w*h+1` cells, every one empty. |
| `SpatialMatrices.SpatialMatrix.Clear` | src/ofSpatialMatrix.h:44-50 | Every cell becomes empty; the number of cells is unchanged. |
| `SpatialMatrices.CellIndex` | src/ofSpatialMatrix.h:100-103 | For a positive cell size and an in-field position, the index `trunc(x/c)+trunc(y/c)*w` is in `[0, w*h)`. |
| `SpatialMatrices.CellIndexInjective` | src/ofSpatialMatrix.h:100-103 | Distinct (column, row) pairs inside the grid get distinct indices. |
| `SpatialMatrices.SpatialMatrix.Insert` | src/ofSpatialMatrix.h:52-55 | The element is appended to exactly the cell covering the position. The other cells are unchanged. The stored multiset gains exactly that element and the total count rises by one. |
| `SpatialMatrices.FlattenAppend` | src/ofSpatialMatrix.h:52-55 | Appending to any one cell adds exactly one element to the grid's contents. |
| `SpatialMatrices.RadiusBox` | src/ofSpatialMatrix.h:59-65 | The scanned columns `[max(cx,0), min(cx+d,w))` and rows `[max(cy,0), min(cy+d,h))`, with `d = trunc(2r/c)+1`, address only cells below `w*h`. |
| `SpatialMatrices.SpatialMatrix.ApplyToRadius` | src/ofSpatialMatrix.h:57-80 | The visitor is called on exactly the box's cells: rows top to bottom, columns left to right, insertion order inside a cell. The grid is only read. |
| `SpatialMatrices.SpatialMatrix.ScanRow` | src/ofSpatialMatrix.h:69-79 | One row of the scan is the row's cells in column order. |
| `SpatialMatrices.BoxScanMembership` | src/ofSpatialMatrix.h:67-79 | An element is visited exactly when it lies in some cell of the box (both directions). |
| `SpatialMatrices.RadiusBoxMissesNeighbour` | src/ofSpatialMatrix.h:59-63 | A concrete point within the radius whose cell the scan box leaves out (see Findings). |
| `SpatialMatrices.CoveringBoxCovers` | src/ofSpatialMatrix.h:57-80 | The corrected box, from the cell of `p-r` to the cell of `p+r`, contains the cell of every in-field point within `r` of `p` along each axis. |
| `SpatialMatrices.SpatialMatrix.ApplyToAll` | src/ofSpatialMatrix.h:110-119 | The visitor is called once per stored element, in cell order and then insertion order. |
| `SpatialMatrices.SpatialMatrix.ClearApply` | src/ofSpatialMatrix.h:87-92 | The visitor runs on exactly the pre-call snapshot, in order. On a sized grid, the cells afterwards hold exactly what the visitor reinserted into the cleared grid. On the default-constructed grid nothing is visited and the grid stays empty. |
| `SpatialMatrices.ReinsertedContents` | src/ofSpatialMatrix.h:87-92 | A reinsertion pass adds to the grid's multiset exactly the elements the visitor kept. |
| `SpatialMatrices.ReinsertedPlacement` | src/ofSpatialMatrix.h:87-92 | After clear_apply, an element is in cell `i` iff it was visited and reinserted at a position whose cell is `i` (both directions). |
| `SpatialMatrices.SpatialMatrix.ResizeClearApply` | src/ofSpatialMatrix.h:94-98 | Defined for any grid with non-negative field sizes, including the default-constructed one. resize clears before the snapshot, so the visitor is never called. The grid ends empty with the new cell size and the old field. |
| `Vectors.Trunc` | src/ofSpatialMatrix.h:102 | A float cast to an integer truncates toward zero: the result has the value's sign and lies within one of it on the side of zero (the floor for non-negative values). |
| `Vectors.FmodRange` | src/Particle.cpp:13 | `fmod(p, w)` of a non-negative `p` and positive `w` lies in `[0, w)`. |
| `Vectors.FmodQuotient` | src/Particle.cpp:13-15 | `fmod(p, w) == p - w*trunc(p/w)`, the C library's definition. |
| `Particles.WrapCoord` | src/Particle.cpp:11-15 | WRAP maps a coordinate into `[0, w)` exactly when it is at least `-w`; the result is always below `w`; a coordinate already in `[0, w)` is unchanged. |
| `Particles.Wrapped` | src/Particle.cpp:84-86 | The wrapped position is below the surface's width and height. |
| `Particles.ProbePixel` | src/Particle.cpp:102-110 | Each probe samples a pixel inside the image: the wrapped point, truncated and raised to 0. |
| `Particles.Diff` | src/Particle.cpp:107-110 | ofColor subtraction works per channel: a channel of the subtrahend that exceeds the minuend's gives 0, otherwise the exact difference. |
| `Particles.ProbeLoss` | src/Particle.cpp:107-111 | A probe's colour loss lies between 0 and twice the current colour's channel sum. |
| `Particles.Steering` | src/Particle.cpp:120-127 | Exactly one decision: `+angle*delta` iff `l1 < l0`; `-2*angle*delta` iff `l0 <= l1` and `l2 < l0`; no turn iff `l0 <= l1` and `l0 <= l2`. |
| `Particles.GuidedTurns` | src/Particle.cpp:84-127 | The surface block moves the particle to its wrapped position and keeps direction and acceleration. The velocity turns by `+angle*delta` when the +45 probe loses less colour than the straight one (`l1 < l0`). Otherwise it turns by `-2*angle*delta` when the -45 probe does (`l2 < l0`). Otherwise it is unchanged. |
| `Particles.Integrated` | src/Particle.cpp:57-79 | After the integration part of update: acceleration zero, both position components `>= 0`, both velocity components `<= 500`, direction = normalized(capped velocity + old acceleration). |
| `Particles.StepBounds` | src/Particle.cpp:54-86 | After update the acceleration is zero. With a surface, `0 <= x < width` and `0 <= y < height`, and the truncated position is a pixel of the image. Without one, the position is non-negative. |
| `Particles.LimitedSpeed` | src/Particle.cpp:184-197 | For a unit direction: above the max, the squared speed becomes max²; below the min, min²; in range, the velocity is unchanged. A limit above 1 leaves a fast particle above its limit. |
| `Particles.ByteCast` | src/Particle.cpp:139 | An unsigned-char cast of a float in `[0, 256)` is its truncation; below 255 it stays below 255. |
| `Particles.Aged` | src/Particle.cpp:131-145 | `lifeTime + lifeTimeLeft` is preserved and lifeTime grows by delta. Alpha is `trunc(255*lifeTime)` while lifeTime is in `[0,1)`, otherwise `trunc(255*lifeTimeLeft)` while that is in `[0,1)`, otherwise unchanged. |
| `Particles.Particle.constructor` | src/Particle.cpp:24-41 | A new particle is at rest at its position, with alpha 0, zero limits and life, not a leader, in group -1. |
| `Particles.Particle.ApplyForce` | src/Particle.cpp:47-52 | The velocity gains the force and the direction becomes its normalization. limitSpeed runs iff `limit` is set. |
| `Particles.Particle.LimitSpeed` | src/Particle.cpp:184-197 | The new velocity is the limited velocity of the old one. |
| `Particles.Particle.UpdateTimer` | src/Particle.cpp:131-145 | The new life state is `Aged(old, delta)`. |
| `Particles.Particle.Integrate` | src/Particle.cpp:57-79 | The kinematic state after the first part of update is `Integrated(old)`. |
| `Particles.Particle.Guide` | src/Particle.cpp:81-128 | The surface block wraps the position, fills the three probe losses and steers by them, as `Guided` says. |
| `Particles.Particle.Update` | src/Particle.cpp:54-129 | The kinematic state after update is `Step(old)`: integration, then wrap and guidance only when there is a surface. |
| `Flocking.DistanceSquared` | src/ParticleEmitter.cpp:298-299 | The squared distance of a pair is never negative. |
| `Flocking.ZoneFraction` | src/ParticleEmitter.cpp:301-303 | A neighbour inside the zone has `percent` in `[0, 1)`. |
| `Flocking.PairEffectBands` | src/ParticleEmitter.cpp:301-351 | No effect outside the zone. Inside it: no effect iff the band's strength is `< 0.0001`. Separation (`percent < low`) pushes the pair apart by the repulsion vector. Cohesion (`percent >= high`) pulls them together. The cohesion vector lies along the normalised offset between the two. Alignment (between the thresholds) adds to each particle the other's direction, both scaled by one common factor. Each band acts iff its strength is on. |
| `Flocking.RuleWithoutAlignment` | src/ParticleEmitter.cpp:319-333 | With alignment strength below the epsilon, no pair aligns. |
| `Flocking.RowMembership` | src/ParticleEmitter.cpp:293-297 | Row `i` of the pass holds exactly the pairs `(i, j)` with `i < j < n`. |
| `Flocking.PairsMembership` | src/ParticleEmitter.cpp:287-297 | The pass visits exactly the pairs `i < j < n` (both directions). |
| `Flocking.PairsOnce` | src/ParticleEmitter.cpp:287-297 | The pass visits its pairs in strictly increasing lexicographic order, so no pair twice. |
| `Flocking.ApplyPairAt` | src/ParticleEmitter.cpp:305-350 | A pair changes the accelerations of its two particles only. |
| `Flocking.AccumulateKeepsTotal` | src/ParticleEmitter.cpp:316-349 | Pushes and pulls add equal and opposite vectors, so a pass without alignment keeps the sum of the accelerations. |
| `Flocking.FlockKeepsTotal` | src/ParticleEmitter.cpp:305-350 | The emitter's pass with alignment off keeps a group's acceleration total. |
| `Flocking.RowsSettle` | src/ParticleEmitter.cpp:287-358 | Once row `k` has run, no later row touches particle `k`. So its update sees its final acceleration. |
| `Emitters.DrawsExist` | src/ParticleEmitter.cpp:64-94 | Random draws within the ofRandom ranges exist for any count and any surface. |
| `Emitters.SpawnOnSurface` | src/ParticleEmitter.cpp:64-83 | With a surface, every emitted particle lies on it. |
| `Emitters.NewbornState` | src/ParticleEmitter.cpp:64-101 | A new particle's kinematics, for any in-range draws: zero velocity, acceleration `normalize(dir)*2.5`, a `(sin a, cos a)` heading, and a position on the surface (or the emitter's position without one). |
| `Emitters.Spawn` | src/ParticleEmitter.cpp:75-99 | The new particle has the drawn position and heading, acceleration `normalize(dir)*2.5`, the drawn limits in `[10,50]` and `[1,10]`, and its group. |
| `Emitters.NextPerGroup` | src/ParticleEmitter.cpp:164-191 | Growing rises by `min(2, target-current)` without overshoot. Shrinking goes straight to the target. |
| `Emitters.PerGroupSettles` | src/ParticleEmitter.cpp:164-191 | The per-group count reaches a larger target in `ceil(shortfall/2)` frames and a smaller one in one frame, and stays there. |
| `Emitters.TimersPrimeFirstFrame` | src/ParticleEmitter.cpp:193-203 | On the first frame the timer is primed to the period and the last pass to `now - every`, so the first pass has ratio 1. Later frames only add delta. |
| `Emitters.WorkFromMembership` | src/ParticleEmitter.cpp:251-261 | Worker `t` processes exactly the groups `t, t+4, t+8, … < n`. |
| `Emitters.WorkOrderCovers` | src/ParticleEmitter.cpp:251-261 | Over workers 0..3, every group below `n` is processed, and no other. |
| `Emitters.WorkOrderOnce` | src/ParticleEmitter.cpp:251-261 | No group is processed twice in a round. |
| `Emitters.WorkOrderStartsAtZero` | src/ParticleEmitter.cpp:251-261 | Group 0 is the first one processed. |
| `Emitters.ExchangeAccelerations` | src/ParticleEmitter.cpp:316-349 | The two compound assignments of a pair give the first and second particle's new accelerations. |
| `Emitters.FlockPair` | src/ParticleEmitter.cpp:297-351 | One inner iteration extends the accumulated accelerations by pair `(i, j)`. |
| `Emitters.FlockRow` | src/ParticleEmitter.cpp:293-352 | The inner loop applies row `i` and leaves particles below `i` alone. |
| `Emitters.StepOne` | src/ParticleEmitter.cpp:289-357 | One outer iteration: row `i` (when flocking), then particle `i`'s update with its accumulated acceleration. |
| `Emitters.StepGroup` | src/ParticleEmitter.cpp:287-358 | The group ends as `GroupStep`: each particle updated once, with the sum of every pair's force on it. |
| `Emitters.ParticleEmitter.constructor` | src/ParticleEmitter.cpp:15-41 | No groups, the default flocking parameters, zeroed timers and counters. |
| `Emitters.ParticleEmitter.AddGroups` | src/ParticleEmitter.cpp:54-58 | Empty groups are appended until group `g` exists. Existing groups are unchanged. |
| `Emitters.ParticleEmitter.Emit` | src/ParticleEmitter.cpp:72-102 | One new particle, spawned from the draws, is pushed onto group `g`. |
| `Emitters.ParticleEmitter.AddParticles` | src/ParticleEmitter.cpp:49-103 | Groups up to `g` exist. Group `g` gains exactly `n` fresh particles after its old ones, each spawned from the draws, so each is newborn. Every other group is untouched. |
| `Emitters.ParticleEmitter.UpdateParticles` | src/ParticleEmitter.cpp:269-359 | Flocks iff `timer >= every`; then the timer is 0, last = now, and ratio = `(now-last)/every`. Every particle is stepped as `GroupStep` says. Nothing but kinematics changes. |
| `Emitters.ParticleEmitter.RunWorker` | src/ParticleEmitter.cpp:251-261 | Worker `t` runs updateParticles on groups `t, t+4, …` in order, and on no other. |
| `Emitters.ParticleEmitter.RunRound` | src/ParticleEmitter.cpp:238-267 | Each of workers 0..3 takes one turn, in worker order, and every group reaches its planned state (see Left out for the wake-up protocol). |
| `Emitters.ParticleEmitter.ProcessGroups` | src/ParticleEmitter.cpp:215-267 | One round, with each worker taking one turn in worker order, steps every group once. Only group 0 can find the shared flocking timer due. |
| `Emitters.ParticleEmitter.AdjustGroups` | src/ParticleEmitter.cpp:135-161 | The group count reaches the target in one frame: new groups get the current per-group count of fresh, newborn particles, or the last groups are dropped. Surviving particles stay in place. |
| `Emitters.ParticleEmitter.PopGroup` | src/ParticleEmitter.cpp:150-157 | Removes the last group. |
| `Emitters.ParticleEmitter.AdjustGroupSize` | src/ParticleEmitter.cpp:163-191 | Every group reaches `NextPerGroup(current, target)` particles. Old particles keep their slots, and every new slot holds a fresh, newborn particle. |
| `Emitters.ParticleEmitter.GrowGroups` | src/ParticleEmitter.cpp:164-175 | Every group gains `particlesToEmit` fresh, newborn particles at its end. |
| `Emitters.ParticleEmitter.ShrinkGroups` | src/ParticleEmitter.cpp:177-191 | Every group is cut to its first `target` particles. |
| `Emitters.ParticleEmitter.ShrinkGroup` | src/ParticleEmitter.cpp:183-187 | `count` pop_backs remove the last `count` particles of group `g`. |
| `Emitters.ParticleEmitter.PopParticle` | src/ParticleEmitter.cpp:185-186 | Removes the last particle of group `g`. |
| `Emitters.ParticleEmitter.AdjustPopulation` | src/ParticleEmitter.cpp:135-191 | After both population stages, there are `s_particleGroups` groups, each holding exactly `particlesPerGroup` particles (Valid), with the per-group count stepped by `NextPerGroup`. Old particles keep their slots and kinematics, and every new slot holds a fresh, newborn particle. |
| `Emitters.ParticleEmitter.AdvanceTimers` | src/ParticleEmitter.cpp:193-203 | The timers become `Timers(old)`, including the first-frame priming. |
| `Emitters.ParticleEmitter.Populate` | src/ParticleEmitter.cpp:135-203 | The stages of update before the workers run. The target group count is reached and the per-group count is stepped by `NextPerGroup`. The timers become `Timers(old)`. Old slots keep their particles and kinematics, and every new slot holds a fresh particle with newborn kinematics. |
| `Emitters.ParticleEmitter.Update` | src/ParticleEmitter.cpp:130-213 | One frame: population control keeps the group-length invariant, then the timers advance. With any group, one worker round steps every group from its post-population state; with none, nothing runs. In that state, old slots hold the particles' pre-frame kinematics and new slots hold newborn kinematics (`NewbornState`). |

## Findings

| source | as written | input that shows it | evidently intended | confidence | as-written member | corrected member |
|---|---|---|---|---|---|---|
| src/ofSpatialMatrix.h:59-63 | the scan spans `trunc(2r/c)+1` cells from the cell of `p-r` | `c = 1`, `p = (0.8, 0.8)`, `r = 0.3`: the point `(1.05, 0.8)` is within `r` but in column 1, and the scan covers column 0 only | scan from the cell of `p-r` to the cell of `p+r` inclusive | medium, not executed | `SpatialMatrices.RadiusBoxMissesNeighbour` | `SpatialMatrices.CoveringBoxCovers` |

`ApplyToRadius` keeps the box as written, because it models the code. No other part of the model scans by radius.

## Left out

- GUI, file dialogs, image loading, texture and framebuffer drawing, and the slideshow (`ofApp`, `main`): these are the host application, not the simulation.
- `draw` and `debugDraw` of particles and emitter: rendering. `m_color` and its blending are not modelled for the same reason.
- Thread synchronisation: `startThreadedUpdate`, `waitThreadedUpdate`, the condition-variable loop, `pauseThreads`, `continueThreads` and `killAll`. Only the index partition is kept. Each worker holds `m_updateLock` from its wait through its `updateParticles` calls and the decrement of `m_processing` (src/ParticleEmitter.cpp:242-266). So the workers' turns never overlap, and the model runs them one after another in worker order.
- `Emitters.GroupFlock`: the flocking timer is shared by all groups and is read and reset under `m_updateLock`. So only the first group to reach `updateParticles` in a frame flocks. In the source this is the first group of whichever worker takes the lock first. In the model's worker order it is group 0.
- `Emitters.ParticleEmitter.RunRound` and `Emitters.ParticleEmitter.ProcessGroups` assume that each worker takes exactly one turn per frame. The source does not guarantee this. `startThreadedUpdate` issues `min(4, groups)` calls to `notify_one` (src/ParticleEmitter.cpp:221-226), and a worker waits only for `m_processing > 0` (line 244). So a worker that has finished can take another wake-up and step its groups a second time. With fewer than four groups, a worker that has no groups can take a wake-up in place of one that has some. In the source a group can therefore be stepped twice, or not at all, in one frame. The model does not capture these schedules.
- `killAll` clears the groups without resetting the counters. It is not modelled, and the group-length invariant is stated for `update` only.
- The float model: arithmetic is over mathematical reals, and the `isnan` checks have no counterpart. `getNormalized`, `rotate`, `sin` and `cos` are uninterpreted parameters.
- Random draws: every `ofRandom` call is a parameter with its range stated in `SpawnDraws.Fits`.
- `ParticleEmitter.AddParticles` requires a reference surface, because the code reads it before testing it. A frame that would call it (adding groups, or growing existing ones) therefore requires one.
- `FuncCtl`, `UpdateType`, the audio fields and `updateParticleTiming`, `updateParticlesFunctions`, `updateParticlesFlocking` are declared but have no bodies, so they are not part of this model.
- Particle fields with no role in the modelled operations are left out: `m_oldPosition`, `m_color`, `m_owner`, `m_id` and the id generator. `m_referenceSurface` is a parameter of `update`.
- The spatial grid's element type is a value type `T`, so aliasing of the stored pointers is not modelled. Visitors of `apply_to_radius` and `apply_to_all` are read-only, and the model returns the sequence of elements they are called on. The visitor of `clear_apply` is a function that reinserts each visited element at a position, or drops it.
- `Particles.Aged`: alpha is stated only for life values in `[0, 1)`. Casting a negative float to `unsigned char` is undefined in C++; the model takes the low 8 bits of the truncation.
- `Particles.LimitedSpeed`: stated for a unit direction. The direction is an uninterpreted normalization, so nothing guarantees its length.
- `Vectors.Trunc`: casting a negative float to `size_t` is undefined in C++. The model uses signed truncation toward zero, as x86 compilers do.
