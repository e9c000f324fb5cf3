# Mosquito engine — a Dafny model

This project models `MosquitoEngine`, the simulation core of a browser game in
which mosquitoes fly around a canvas. They follow the cursor when it comes
close, wander otherwise, and bounce off the canvas edges. Clicking on one
makes it multiply: new mosquitoes appear around it and the clicked one stays.

The engine object owns four things:

- a store of mosquito records keyed by id;
- the cursor position;
- the canvas size;
- a speed multiplier.

It offers these operations:

- **Store:** `createMosquito`, `removeMosquito`, `clearAll`, `getMosquitoes`,
  `getCount`.
- **Setters:** for the canvas size, the cursor and the speed multiplier.
- **Clicks:** a hit test, `checkClick`, and the spawning of children,
  `multiplyMosquito`.
- **Animation:** the per-frame step, `update`, which runs `updateMosquito` on
  every record.

The model is split into four files:

- `geometry.dfy` (module `Geometry`): the `Vector2D` record, squared
  distances, the engine's normalise-and-scale step (`Resize`, `Toward`), and
  the host square root, which the model receives as a parameter constrained
  only by `IsSqrt`.
- `mosquito.dfy` (module `Mosquitoes`):
  - the `Mosquito` record and the record `createMosquito` builds
    (`NewMosquito`);
  - the spawn placement of `multiplyMosquito` (`ChildPosition`, `Offspring`);
  - the click reach (`WithinReach`);
  - the effect of a run of `Map.set` calls on the store (`Inserted`).
- `physics.dfy` (module `Physics`): one step of one mosquito as a function,
  `Stepped`. It is the composition of the stages the engine runs in order:
  `Clocked`, `Steered`, `Flown`, `Bounced`, `Headed`. Beside it are the
  lemmas about what a step guarantees, and `StepAll`, the step of the whole
  store.
- `engine.dfy` (module `Engine`): the class `MosquitoEngine`. Its fields are
  the engine's fields, and its methods update them in place. Each method is
  proved against the functions above.

Notes on the model:

- **Numbers.** Coordinates are exact reals.
- **Distance tests.** Every distance test of the engine is a comparison of
  `sqrt(d2)` with a bound. `SqrtCompare` shows it agrees with the squared
  comparison `d2 < bound * bound`, so the contracts state distances in squared
  form.
- **A zero-length step.** One might expect a step of zero duration to leave
  positions and velocities unchanged. The code does not guarantee this, and
  the model follows the code:
  - a mosquito that is off the canvas is moved onto its edge (`ZeroTickClamps`);
  - a velocity above the current cap is rescaled;
  - the heading is re-derived from the velocity.

  `ZeroTick` states a condition under which such a step changes nothing
  except the follow decision and the acceleration. `ZeroTickExactly` shows
  that on a canvas of non-negative size this condition is also necessary.

## Model

| member | source | states |
|---|---|---|
| Engine.MosquitoEngine.constructor | client/src/lib/mosquito-engine.ts:20-32 | The store starts empty and the cursor at the origin. The canvas takes the given size and the speed multiplier is 1. |
| Engine.MosquitoEngine.SetCanvasSize | client/src/lib/mosquito-engine.ts:34-37 | Sets the width and height. The store, cursor and multiplier are unchanged. |
| Engine.MosquitoEngine.SetMousePosition | client/src/lib/mosquito-engine.ts:39-41 | Sets the cursor. Everything else is unchanged. |
| Engine.MosquitoEngine.SetSpeedMultiplier | client/src/lib/mosquito-engine.ts:43-45 | Sets the multiplier. Everything else is unchanged. |
| Engine.MosquitoEngine.CreateMosquito | client/src/lib/mosquito-engine.ts:47-68 | Returns `NewMosquito` for the current canvas and files it under its id. This replaces any entry with that id. The count grows by one exactly when the id was new. The store stays well formed and the scene is unchanged. |
| Mosquitoes.NewMosquito | client/src/lib/mosquito-engine.ts:47-64 | A given coordinate is used as is, and a missing one lies on the canvas (before its far edge when the extent is positive). Velocity components are in [-1, 1), acceleration is zero and the heading is in [0, 2π). Size is in [3, 5), both clocks are 0, and the mosquito does not follow and has no target. |
| Mosquitoes.ScaledDrawInRange | client/src/lib/mosquito-engine.ts:51-52 | A random coordinate `u * extent` with `u` in [0, 1) lies in [0, extent], strictly below `extent` when `extent > 0`. |
| Engine.MosquitoEngine.RemoveMosquito | client/src/lib/mosquito-engine.ts:70-72 | Deletes exactly the given id; an absent id is not an error. The remaining store stays well formed. |
| Engine.MosquitoEngine.ClearAll | client/src/lib/mosquito-engine.ts:74-76 | The store becomes empty and the scene is unchanged. |
| Engine.MosquitoEngine.GetMosquitoes | client/src/lib/mosquito-engine.ts:78-80 | Returns every stored record exactly once. The length equals the store size, each element is the entry filed under its id, each entry appears, and ids are distinct. |
| Engine.MosquitoEngine.GetCount | client/src/lib/mosquito-engine.ts:82-84 | Returns the number of stored ids. |
| Engine.MosquitoEngine.CheckClick | client/src/lib/mosquito-engine.ts:86-101 | Returns exactly the stored mosquitoes closer to the click than size + 10, each once (both directions). Nothing is modified. |
| Geometry.SqrtCompare | client/src/lib/mosquito-engine.ts:90-95 | For a non-negative bound, `sqrt(a) < c` iff `a < c*c`, and `sqrt(a) > c` iff `a > c*c`. This is how every distance test of the engine is read. |
| Geometry.Dist2 | client/src/lib/mosquito-engine.ts:90-93 | A squared distance is non-negative and zero between equal points. |
| Engine.MosquitoEngine.MultiplyMosquito | client/src/lib/mosquito-engine.ts:103-121 | Returns `Offspring` of the parent for `count` ids. The new store is the old one with the children filed in order (`Inserted`). The store stays well formed and the scene is unchanged. |
| Mosquitoes.InsetClamp | client/src/lib/mosquito-engine.ts:113-114 | The clamped coordinate is at least 10. It is at most `extent - 10` when the canvas is at least 20 wide, and is the input itself when that already lies inside. |
| Mosquitoes.ChildPosition | client/src/lib/mosquito-engine.ts:106-114 | Every child position lies in the inset rectangle [10, width-10] × [10, height-10] whenever the canvas is large enough for it. |
| Mosquitoes.OffspringAt | client/src/lib/mosquito-engine.ts:106-118 | Child `i` is the mosquito created with `ids[i]` at the `i`-th spawn position, angle `2πi/count` on a radius-20 circle, clamped. |
| Mosquitoes.SpawnedStore | client/src/lib/mosquito-engine.ts:103-121 | Multiplying adds exactly the new ids and leaves every other entry, the parent's included, untouched. With distinct fresh ids it grows the store by exactly `count`. |
| Mosquitoes.InsertedIds | client/src/lib/mosquito-engine.ts:112-117 | Filing records that carry `ids` adds exactly those ids and keeps every other entry. It adds `\|ids\|` entries when the ids are distinct and new. |
| Mosquitoes.InsertedKeys | client/src/lib/mosquito-engine.ts:66 | A run of `Map.set` adds exactly the ids set and leaves every other entry alone. |
| Mosquitoes.InsertedLastWins | client/src/lib/mosquito-engine.ts:66 | After a run of `Map.set`, each record is stored under its id unless a later record reuses that id. |
| Mosquitoes.InsertedFresh | client/src/lib/mosquito-engine.ts:66 | With distinct ids none of which is stored yet, a run of `Map.set` grows the store by its length and stores every record. |
| Mosquitoes.WithinReach | client/src/lib/mosquito-engine.ts:89-95 | The click test `distance < size + 10`, in squared form. `CheckClick` returns exactly the mosquitoes it accepts, and `SqrtCompare` shows it agrees with the root comparison. |
| Mosquitoes.SpawnAngle | client/src/lib/mosquito-engine.ts:107 | The angle of child `i` of `count` is `2π·i/count`. `OffspringAt` places each child at this angle. |
| Mosquitoes.Offspring | client/src/lib/mosquito-engine.ts:106-118 | The first `n` children of a multiply, in creation order; there are exactly `n` of them. `OffspringAt` states what each one is. |
| Mosquitoes.Inserted | client/src/lib/mosquito-engine.ts:66 | The store after `Map.set` of each record in order. `InsertedKeys`, `InsertedLastWins`, `InsertedFresh` and `InsertedIds` state its ids and entries. |
| Geometry.Toward | client/src/lib/mosquito-engine.ts:146-154 | The pull of the given strength along the unit vector between two points, or no pull unless their distance is positive. The same code reappears at lines 164-172. `TowardZero` and `TowardLength` state its value. |
| Physics.Follows | client/src/lib/mosquito-engine.ts:134-139 | The follow decision `sqrt(d2) < 100`. `SteppedSteering` shows it holds iff `d2 < 100²`. |
| Physics.Steering | client/src/lib/mosquito-engine.ts:141-173 | The acceleration, rebuilt from zero: the cursor pull for a follower, and the jitter plus the centre pull otherwise. `FollowPull` and `WanderForce` state the magnitude and direction of each. |
| Physics.CapSpeed | client/src/lib/mosquito-engine.ts:180-184 | The speed cap: a velocity faster than the cap is rescaled to it. `CapSpeedKeep`, `CapSpeedCut` and `CapSpeedBound` state the result. |
| Physics.Clocked | client/src/lib/mosquito-engine.ts:130-131 | The clocks advance: time alive by `dt` and wing beat by `20 * dt`. `Stepped` carries this as its ensures. |
| Physics.Steered | client/src/lib/mosquito-engine.ts:133-173 | The steering stage: `followCursor` becomes `Follows` of the pre-step position, and the acceleration becomes `Steering` from that position under that decision. All other fields are kept. |
| Physics.Center | client/src/lib/mosquito-engine.ts:162-163 | The canvas centre `(width / 2, height / 2)`, the target of the wander pull. |
| Physics.CappedVelocity | client/src/lib/mosquito-engine.ts:175-184 | The new velocity `velocity + acceleration · dt · multiplier`, passed through `CapSpeed` with the cap `2 · multiplier`. |
| Physics.Flown | client/src/lib/mosquito-engine.ts:175-188 | The flight stage: the velocity becomes `CappedVelocity`, and the position becomes `position + velocity · dt · 60` with that new velocity. |
| Physics.Bounced | client/src/lib/mosquito-engine.ts:190-206 | The boundary stage: `BounceAxis` on x against the width and on y against the height. Both position and velocity are taken from it. |
| Physics.Headed | client/src/lib/mosquito-engine.ts:208-211 | The heading stage: the angle becomes `Heading` of the record's current velocity. |
| Geometry.Resize | client/src/lib/mosquito-engine.ts:150-153 | `v / s * c` per axis, as the engine normalises and scales at lines 152-153, 170-171 and 182-183. `ResizeLength` states that for `s = \|v\|` the result has length `\|c\|` on `v`'s line. |
| Physics.Heading | client/src/lib/mosquito-engine.ts:208-211 | The heading is `atan2` of a non-zero velocity and is otherwise kept. `SteppedHeading` states this of a step. |
| Physics.StepAll | client/src/lib/mosquito-engine.ts:123-127 | Every stored mosquito stepped with the noise for its id. `StepAllPointwise`, `StepAllKeepsStore` and `StepAllBounds` state its properties. |
| Engine.MosquitoEngine.Update | client/src/lib/mosquito-engine.ts:123-127 | The new store is `StepAll` of the old store in the old scene. The ids, the scene and well-formedness are kept. |
| Physics.StepAllPointwise | client/src/lib/mosquito-engine.ts:123-127 | A store whose every entry is the step of the old entry is exactly the stepped store. |
| Physics.StepAllKeepsStore | client/src/lib/mosquito-engine.ts:123-127 | Stepping the store keeps its set of ids and keeps it well formed: every entry is still filed under its own id, with a size from the creation range. |
| Physics.StepAllBounds | client/src/lib/mosquito-engine.ts:123-127 | After `update` every mosquito is within the speed cap. On a canvas of non-negative size, every mosquito is also on the canvas. |
| Engine.MosquitoEngine.UpdateMosquito | client/src/lib/mosquito-engine.ts:129-212 | The in-place sequence of updates yields exactly `Stepped` of the record in the current scene. |
| Engine.MosquitoEngine.Steer | client/src/lib/mosquito-engine.ts:133-173 | The follow decision and the acceleration, rebuilt from zero, are exactly `Steered`. The other fields are untouched. |
| Engine.MosquitoEngine.BounceOffEdges | client/src/lib/mosquito-engine.ts:190-206 | The four edge tests give exactly `BounceAxis` on each axis. |
| Physics.Stepped | client/src/lib/mosquito-engine.ts:129-131 | A step never changes id, size or target. Age advances by `dt` and wing-beat phase by `20 * dt`. |
| Physics.SteppedSteering | client/src/lib/mosquito-engine.ts:133-142 | A mosquito follows iff its squared distance to the cursor is below 100². Its acceleration is `Steering` from its pre-step position under that decision. |
| Physics.FollowPull | client/src/lib/mosquito-engine.ts:144-154 | A follower on the cursor gets no force. Otherwise it gets a force of magnitude exactly 0.5 on the line to the cursor, pointing toward it. |
| Physics.WanderForce | client/src/lib/mosquito-engine.ts:155-173 | A non-follower gets the jitter plus a centre pull. The pull is zero at the centre, and otherwise has magnitude exactly 0.05 on the line to the centre, pointing toward it. |
| Physics.Jitter | client/src/lib/mosquito-engine.ts:157-159 | Each jitter component from a draw in [0, 1) lies in [-0.15, 0.15). |
| Geometry.TowardZero | client/src/lib/mosquito-engine.ts:148-150 | At zero distance the normalised pull is zero: the `distance > 0` guard skips the division. |
| Geometry.TowardLength | client/src/lib/mosquito-engine.ts:146-154 | At positive distance the pull has exactly the requested magnitude, lies on the line between the points and points toward the target for a non-negative strength. |
| Geometry.ResizeLength | client/src/lib/mosquito-engine.ts:180-184 | Dividing a vector by its length and multiplying by `c` gives length `\|c\|` on the same line. The result points the same way when `c >= 0`. |
| Geometry.Integrate | client/src/lib/mosquito-engine.ts:176-188 | The Euler update leaves its base unchanged when `dt` is 0. |
| Physics.CapSpeedKeep | client/src/lib/mosquito-engine.ts:180-181 | A velocity within the cap is kept as it is. |
| Physics.CapSpeedCut | client/src/lib/mosquito-engine.ts:180-184 | A velocity over the cap is rescaled to exactly the cap, keeping its direction. |
| Physics.CapSpeedBound | client/src/lib/mosquito-engine.ts:180-184 | A capped velocity never exceeds the cap. |
| Physics.SteppedSpeed | client/src/lib/mosquito-engine.ts:175-206 | After a step the squared speed is at most (2 × multiplier)². The bounce only damps it. |
| Physics.BounceAxis | client/src/lib/mosquito-engine.ts:191-198 | On a non-negative extent the coordinate ends in [0, extent] and the speed never grows. An in-range coordinate is untouched. A coordinate below 0 ends at exactly 0 with velocity `\|v\| * 0.8`. A coordinate beyond the extent ends at exactly the extent with velocity `-\|v\| * 0.8`. |
| Physics.SteppedInCanvas | client/src/lib/mosquito-engine.ts:190-206 | On a canvas of non-negative size every step ends on the canvas. |
| Physics.SteppedBounce | client/src/lib/mosquito-engine.ts:190-206 | Where the bounce moved a coordinate, the velocity on that axis now points back in. A position below 0 on an axis becomes 0 with velocity `\|v\| * 0.8` on that axis. A position beyond the extent becomes the extent with velocity `-\|v\| * 0.8`. Here `v` is the capped flight velocity. A coordinate already on the canvas keeps its position and speed. |
| Physics.SteppedHeading | client/src/lib/mosquito-engine.ts:208-211 | The heading is `atan2` of a non-zero new velocity, and the old heading when the new velocity is zero. |
| Physics.ZeroTick | client/src/lib/mosquito-engine.ts:129-212 | A zero-length step changes only the follow decision and acceleration of a mosquito that is on the canvas, within the cap and headed along its velocity. |
| Physics.ZeroTickExactly | client/src/lib/mosquito-engine.ts:129-212 | On a canvas of non-negative size, a zero-length step changes only the follow decision and acceleration if and only if the mosquito is on the canvas, within the cap and headed along its velocity. |
| Physics.ZeroTickClamps | client/src/lib/mosquito-engine.ts:191-194 | A zero-length step still moves a mosquito with negative x onto the edge x = 0. |

## Left out

- `render` and `renderMosquito` draw on a 2D canvas context and change no engine state, so they are not modelled.
- Numbers:
  - Floating point: IEEE doubles, rounding, NaN and infinities are not modelled. Coordinates are exact reals, and `Math.PI` is the shortest decimal that rounds to that double.
- Host functions:
  - The host's sources of values are parameters: `Date.now` and `Math.random` for ids, the six `Math.random` draws of `createMosquito`, and the two wander draws of each step.
  - `Math.sqrt`, `Math.cos`, `Math.sin` and `Math.atan2` are also parameters. Only the square root is constrained (`IsSqrt`).
  - The two wander draws are a function of the mosquito's id, which covers any order in which the host draws them.
- Speed multiplier:
  - Engine.MosquitoEngine.Update requires a non-negative speed multiplier. With a negative one, the cap `2 · multiplier` is negative. A mosquito whose velocity is zero when the cap is tested then makes the source divide 0 by 0. With a non-zero speed, the source reverses the velocity to length `\|cap\|`. The requirement excludes both cases. UpdateMosquito, Stepped and CapSpeed carry the same condition.
- Order:
  - Engine.MosquitoEngine.GetMosquitoes does not state the order of the result. The source returns insertion order, and the model's loop visits the keys in an unspecified order.
  - Engine.MosquitoEngine.CheckClick likewise does not state the order of the hits.
  - Engine.MosquitoEngine.Update steps every record of the old store and installs the new store at the end, while the source mutates each record in place inside `forEach`. No other code runs in between, so the resulting store is the same.
- Aliasing:
  - Records are values. The source returns the stored objects themselves, so a caller holding one sees later updates to it; the model does not capture that.
- multiplyMosquito arguments:
  - Engine.MosquitoEngine.MultiplyMosquito takes an integer `count`. A fractional `count` (which the source would accept, running `ceil(count)` iterations with angles `2πi/count`) is not modelled, nor is a NaN `count`.
  - The default `count = 2` is left to the caller.
- Fields:
  - The `generation` field is initialised to 0 and never read or written afterwards, so it is not modelled.
  - `followRadius` and `maxSpeed` are never reassigned, so they are constants.
- The UI components, the audio triggers and the server are not part of this model.
