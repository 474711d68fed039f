# Dango Bros: a verified model of the turn state machine

Dango Bros is a small arcade game. Five circular targets ("dango") bob up and down. The player
aims a horizontal bar with the pointer and clicks to fire it. The bar slides from the right edge of
the screen to the left edge and skewers every target it passes close enough to. Skewered targets
travel with the bar. When the bar reaches the left edge the turn ends: the score rises by the
square of the number of targets skewered. A second click starts a new turn.

This project models the game logic of `projects/dango.py`: the constants, the `Target`, `Bar` and
`Game` classes, collision detection and the `"ready" → "firing" → "stuck" → "ready"` turn cycle.
It is a deterministic, fixed-step simulation. Each frame takes three inputs: the pointer's height,
whether the button was pressed on that frame, and the random draws that a turn reset would use.

It is written in two layers.

- **State values and step functions.** Each source class has a module (`Targets`, `Bars`,
  `Collision`, `GameRules`). A datatype holds the entity's fields, and pure functions compute one
  call of each source method. The lemmas about the game are proved on these functions.
- **Objects.** `Targets.Target`, `Bars.Bar` and `GameLoop.Game` are classes with the source's
  fields. Their methods update those fields in place, as the source does. The loops over the target
  list carry invariants. Each method ensures that its new state, read through `Model()`, equals the
  step function applied to its old state. `Game.Valid()` includes the game invariant `GameInv`, so
  every `Game.Update` keeps it.

Target heights and speeds are exact `real`s. The bar's coordinates are `int`s. Python's unbounded
`int` needs no wrap-around.

Behaviour of the code worth knowing:

- A target's centre does **not** stay inside `[TargetRadius, ScreenHeight - TargetRadius]`. The
  bound is checked after the move (`projects/dango.py:28-30`), so the centre can overshoot a bound
  by up to one step (`OvershootsLowerBound`). What holds is `InBand`: the centre is at most
  `|speedY|` (≤ 4) past a bound, and while it is past one it heads back (`StepsStayNearBounds`).
- `random.randint(R, H - R)` can put a target exactly on a bound. If it then moves toward that
  bound, it flips direction on every step and oscillates between the bound and one step beyond it
  until it is hit (`LowerEdgeOscillates`, `UpperEdgeOscillates`).
- The speed magnitude comes from `random.uniform(1.5, 4.0)`, which can return either end point. The
  model allows the closed range `[1.5, 4.0]`.
- The bar's height is an integer: it is `ScreenHeight // 2` at start and then the pointer's
  integer `mouse_y`.
- On the frame where the bar reaches 0, the skewered targets do not move. The drag at
  `projects/dango.py:129` tests the bar's position after that frame's move. `FiringDragsStuckTargets`
  states this.

## Model

| member | source | states |
|---|---|---|
| Targets.NewTarget | projects/dango.py:17-23 | A new target sits at its column: `initialX == x` equals that column. It is not hit and not stuck. Its height is within `[Lower, Upper]` and its speed magnitude within `[1.5, 4]`, so it satisfies the target invariant. |
| Targets.StepTarget | projects/dango.py:25-30 | A stuck target is returned unchanged. Otherwise `y` advances by `speedY`. The speed's magnitude, `x`, `initialX` and both flags are never changed. |
| Targets.StepReflectsAtBounds | projects/dango.py:28-30 | For a moving target with a nonzero speed, the speed is negated exactly when the moved centre is `<= Lower` or `>= Upper`. Otherwise it is kept. |
| Targets.StepN | projects/dango.py:25-30 | No contract. It is `n` consecutive calls of `update` on one target, used by `StuckIsFrozen` and `StepsStayNearBounds`. |
| Targets.StuckIsFrozen | projects/dango.py:25-27 | Any number of updates on a stuck target leaves it unchanged. |
| Targets.StepKeepsInv | projects/dango.py:25-30 | One update keeps the target invariant: the flags are equal, the speed magnitude is in range, the centre is in band, and a free target stays at its home column. |
| Targets.StepsStayNearBounds | projects/dango.py:25-30 | After any number of updates the invariant holds. The centre stays within `[Lower - 4, Upper + 4]`. |
| Targets.OvershootsLowerBound | projects/dango.py:28-30 | A concrete target at height 18 with speed -4 ends one update below `Lower`: the bound is not a hard limit. |
| Targets.LowerEdgeOscillates | projects/dango.py:28-30 | A free target on `Lower` heading down goes below `Lower` and returns to exactly its starting state after two updates. |
| Targets.UpperEdgeOscillates | projects/dango.py:28-30 | The same at `Upper` for a target heading up. |
| Targets.ResetTarget | projects/dango.py:37-43 | After a reset, `x == initialX` and `initialX` is kept. Both flags are false. The height is within `[Lower, Upper]` and the speed magnitude within `[1.5, 4]`. |
| Targets.ResetIsRespawn | projects/dango.py:37-43 | A reset target equals a target freshly built at its `initialX` from the same draw. |
| Targets.Target.constructor | projects/dango.py:17-23 | The new object's state is `NewTarget` of the column and the draw. |
| Targets.Target.Update | projects/dango.py:25-30 | The object's new state is `StepTarget` of its old state. A stuck object is unchanged. |
| Targets.Target.Reset | projects/dango.py:37-43 | The object's new state is `ResetTarget` of its old state and the draw. |
| Bars.NewBar | projects/dango.py:49-54 | A new bar: `x == ScreenWidth`, `y == ScreenHeight / 2`, length `BarLength`, not firing, zero hits. This satisfies the bar invariant. |
| Bars.StepBar | projects/dango.py:56-64 | While firing, `x` drops by `BarSpeed` if positive and is otherwise set to 0, and `y` is kept. While idle, `y` becomes the pointer value and `x` is kept. Length, firing flag and hit count are never changed. |
| Bars.FireBar | projects/dango.py:73-78 | A no-op when already firing. Otherwise it sets the firing flag, zero hits and `x == ScreenWidth`, keeping `y` and the length. |
| Bars.ResetBar | projects/dango.py:80-82 | Only the firing flag is cleared. `x`, `y`, length and hit count are kept. |
| Bars.BarOpsKeepInv | projects/dango.py:56-82 | Update, fire and reset keep `x` a multiple of `BarSpeed` in `[0, ScreenWidth]`. They also keep the length and keep the hit count within `[0, TargetCount]`. |
| Bars.FiringBarAdvances | projects/dango.py:58-60 | For a bar satisfying the invariant and firing from `x > 0`, one update lands exactly on `x - BarSpeed >= 0`. |
| Bars.Bar.constructor | projects/dango.py:49-54 | The new object's state is `NewBar()`. |
| Bars.Bar.Update | projects/dango.py:56-64 | The object's new state is `StepBar` of its old state and the pointer. |
| Bars.Bar.Fire | projects/dango.py:73-78 | The object's new state is `FireBar` of its old state. |
| Bars.Bar.Reset | projects/dango.py:80-82 | The object's new state is `ResetBar` of its old state. |
| Settings.RealAbs | projects/dango.py:151 | Python's `abs` on a real: the result is non-negative and equals the argument or its negation. |
| Collision.XHit | projects/dango.py:150 | No contract. It is the inclusive horizontal test `bar.x <= t.x <= bar.x + length`. |
| Collision.YHit | projects/dango.py:151 | No contract. It is the strict vertical test `abs(bar.y - t.y) < HitToleranceY`. |
| Collision.Hits | projects/dango.py:149-153 | No contract. A target is newly hit when it is not hit yet and passes both tests. |
| Collision.CollideTarget | projects/dango.py:149-155 | An already-hit target is untouched. A target not yet hit becomes hit exactly when `bar.x <= t.x <= bar.x + length` and `abs(bar.y - t.y) < HitToleranceY`. Hit and stuck are set together, so equal flags stay equal. Nothing else changes. |
| Collision.CollideAll | projects/dango.py:148-155 | The pass over the list keeps its length and order. Target `i` becomes `CollideTarget` of target `i`. |
| Collision.CountHits | projects/dango.py:148-156 | The number of newly hit targets in a list is at most the list's length. |
| Collision.ToleranceIsStrict | projects/dango.py:151 | A height difference of exactly `HitToleranceY` is a miss. |
| Collision.CountHitsAtMostUnhit | projects/dango.py:149 | One collision pass adds at most the number of targets not yet hit. |
| Collision.CollideCountsNewHits | projects/dango.py:153-156 | After a pass, the number of hit targets is the old number plus exactly the count the pass adds to `hit_count`. |
| Collision.CollideIsIdempotent | projects/dango.py:149-156 | A second pass with the same bar changes no target and finds no new hit, so nothing is counted twice. |
| GameRules.InitialGame | projects/dango.py:91-99 | A new game has score 0, state `Ready`, `lastHitCount` 0 and a new bar. It has exactly `TargetCount` targets, target `i` built at column `40 + 60 i`. |
| GameRules.HomeColumn | projects/dango.py:95 | No contract. It is the column `40 + 60 i` of target `i`. |
| GameRules.InitialGameInv | projects/dango.py:91-99 | The initial game satisfies the game invariant `GameInv`. |
| GameRules.StepAll | projects/dango.py:113-115 | The list keeps its length. Target `i` becomes `StepTarget` of target `i`, and a stuck target is left as it was. |
| GameRules.Drag | projects/dango.py:128-130 | No contract. It moves one stuck target `BarSpeed` left when the bar's `x > 0`. |
| GameRules.DragAll | projects/dango.py:127-130 | The list keeps its length. Only `x` can change: a stuck target moves `BarSpeed` left when the bar's `x > 0`, and every other target keeps its `x`. |
| GameRules.ResetAll | projects/dango.py:161-162 | The list keeps its length. Target `i` becomes a fresh target at its `initialX` built from draw `i`. |
| GameRules.ReadyStep | projects/dango.py:117-121 | No contract. It is the `"ready"` branch; `ReadyStepInv`, `ReadyClickFires` and `ReadyFollowsPointer` state its properties. |
| GameRules.FiringStep | projects/dango.py:123-138 | No contract. It is the `"firing"` branch: move the bar, drag, collide, then end the turn and score when `bar.x <= 0`. `FiringStepInv`, `ScoreStep`, `FiringStepProgress`, `FiringDragsStuckTargets` and `FiringTerminates` state its properties. |
| GameRules.StuckStep | projects/dango.py:140-143 | No contract. It is the `"stuck"` branch; `StuckStepInv`, `StuckWaits` and `StuckClickResets` state its properties. |
| GameRules.GameStep | projects/dango.py:111-143 | A frame keeps the number of targets and every target's `initialX`. |
| GameRules.StepAllKeepsTargets | projects/dango.py:113-115 | Stepping the free targets keeps every target invariant, every flag, every `initialX` and the count of hit targets. |
| GameRules.ReadyStepInv | projects/dango.py:117-121 | A `Ready` frame keeps `GameInv`. |
| GameRules.DragCollideKeepsTargets | projects/dango.py:126-132 | Dragging and then colliding keeps every target invariant and `initialX`. The number of hit targets grows by exactly the pass's count of new hits. |
| GameRules.FiringStepInv | projects/dango.py:123-138 | A `Firing` frame keeps `GameInv`. This covers the bar lattice, `hitCount == ` the number of hit targets, and `lastHitCount == hitCount` once `Stuck`. |
| GameRules.StuckStepInv | projects/dango.py:140-143 | A `Stuck` frame keeps `GameInv`. |
| GameRules.GameStepKeepsInv | projects/dango.py:111-143 | Every frame keeps `GameInv`: the flags are equal on every target, the bar's `x` is on the lattice, hit counts are in `[0, TargetCount]`, and the state agrees with the bar's firing flag. |
| GameRules.ScoreStep | projects/dango.py:134-138 | The score never decreases. It changes only on a `Firing → Stuck` frame with a positive hit count. On that frame it rises by exactly `lastHitCount²`. |
| GameRules.ScoreMonotone | projects/dango.py:134-138 | Over any run of frames, `GameInv` holds and the score never decreases. |
| GameRules.ReadyClickFires | projects/dango.py:117-121 | A click in `Ready` gives `Firing` with a firing bar at `ScreenWidth`, zero hits, the pointer's height and the score unchanged. |
| GameRules.ReadyFollowsPointer | projects/dango.py:117-118 | Without a click, `Ready` stays `Ready`. The bar only takes the pointer's height. |
| GameRules.FiringDragsStuckTargets | projects/dango.py:126-130 | In `Firing`, a stuck target keeps its height and speed. It moves left by `BarSpeed` exactly when the bar's post-update `x > 0`. |
| GameRules.FiringStepProgress | projects/dango.py:123-138 | A `Firing` frame moves the bar exactly `BarSpeed` left. It ends the turn exactly when the bar was at `BarSpeed`. |
| GameRules.FiringTerminates | projects/dango.py:134-135 | From `Firing`, whatever the inputs, the game reaches `Stuck` after exactly `bar.x / BarSpeed` frames and is `Firing` before that. This is at most `ScreenWidth / BarSpeed = 40` frames. |
| GameRules.StuckWaits | projects/dango.py:140-143 | Without a click, `Stuck` stays `Stuck` with the bar, score and `lastHitCount` unchanged. |
| GameRules.StuckClickResets | projects/dango.py:140-143 | A click in `Stuck` gives `Ready` with an idle bar and the score unchanged. Every target is respawned unhit at its home column from its draw. |
| GameLoop.Game.constructor | projects/dango.py:91-99 | The new game is `InitialGame` of the draws. It is valid, with distinct fresh target objects. |
| GameLoop.Game.StepTargets | projects/dango.py:113-115 | The loop steps exactly the targets not stuck, in place. |
| GameLoop.Game.DragStuckTargets | projects/dango.py:127-130 | The loop moves each stuck target `BarSpeed` left when `bar.x > 0`. |
| GameLoop.Game.CheckCollision | projects/dango.py:145-156 | The targets become `CollideAll` of the old bar and targets. `hit_count` rises by `CountHits`. The bar's other fields are kept. |
| GameLoop.Game.ResetTurn | projects/dango.py:158-162 | The bar is `ResetBar` of the old bar. Every target is reset from its own draw. |
| GameLoop.Game.ReadyFrame | projects/dango.py:117-121 | The `Ready` branch: the bar tracks the pointer and fires on a click. |
| GameLoop.Game.FiringFrame | projects/dango.py:123-138 | The `Firing` branch: move the bar, drag, collide, and end the turn and score when `bar.x <= 0`. |
| GameLoop.Game.StuckFrame | projects/dango.py:140-143 | The `Stuck` branch: a click resets the turn and gives `Ready`. |
| GameLoop.Game.Update | projects/dango.py:111-143 | The game's new state is `GameStep` of its old state and the frame's inputs. `Valid()`, and so `GameInv`, is kept. |

## Left out

- Window setup, the mouse cursor and the main loop (`pyxel.init`, `pyxel.mouse`, `pyxel.run`, the module-level `Game()` call): these belong to the host engine. The model has no frame clock; a caller steps `Game.Update` once per frame.
- Input polling: `pyxel.mouse_y` and `pyxel.btnp(MOUSE_BUTTON_LEFT)` become the `pointerY` and `click` parameters of `Game.Update`.
- Random draws: `random.randint`, `random.uniform` and `random.choice` become `Draw` parameters, required to lie in the library's ranges. Their distribution is not modelled. `Game.Update` takes one draw per target on every frame, and only the reset of a turn uses them.
- `RAINBOW_COLORS` and every `draw` method, including `Game.draw`: these cover shapes, colours, the result and celebration messages, and text centring with `pyxel.FONT_WIDTH`. They are presentation only and call a library that is not part of this model.
- IEEE floating point: target heights and speeds are exact reals, and Python's floats round. Rounding can change a reflection test at projects/dango.py:29. It can also change the strict collision test `abs(bar.y - target.y) < HIT_TOLERANCE_Y` at projects/dango.py:151, with no bound involved. Once a reflection or a hit falls on a different frame, every later height, hit and score of that turn can differ from the model.
- The string-valued `game_state` is the three-valued `Phase`. The source never assigns any other string.
