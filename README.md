# Cat-Attack game core in Dafny

Cat-Attack is a browser game. A camera looks at the player, a pose estimator finds a
body, and the game throws cats at it. A cat that gets there scores a point. The game
lasts 30 seconds after a 3-second countdown. Everything happens in `script.js`.

This project models the game engine in that file, with the camera, pose model and
drawing code taken out:

- `anchor.dfy`, module `Anchor`: the aiming point of a frame. This is the mean of the
  keypoints of the first pose whose score is above 0.5. It is written as pure functions,
  matching the `filter`/`reduce` expressions of the source.
- `projectiles.dfy`, module `Projectiles`: one projectile as a value and one call of
  `updateProjectiles` as a pure specification. That call advances progress by 0.05,
  interpolates the position, records an edge-triggered hit and removes the projectile
  1000 ms after its hit. The module also holds the lemmas about these steps.
- `game.dfy`, module `Game`: the class `Game`. Its fields are the script's module-level
  state: `score`, `projectiles`, `lastShotTime`, `gameRunning`, `countdownActive`, the
  countdown `count` and the timer `timeLeft`. It also models the pending timers and which
  button is on screen.
  - Each animation frame is a call of `Frame`.
  - Each timer firing is a call of `CountdownTimeout`, `CountdownFinish` or `TimerTick`.
  - Each click is a call of `PressStart` or `Restart`.
  - `Date.now()` and the frame's width and height are parameters.
  - `UpdateProjectiles` keeps the source's reverse `for` loop with its in-place update
    and `splice`. It is proved equal to the pure `Projectiles.Update`.
  - A global fire gate (`CanFire`, `ShotTimes`) has lemmas about how far apart shots are.
  - A client method, `Game.SessionLifecycle`, runs one whole session through the
    contracts alone: start, countdown, 30 ticks, end, restart.

How the model represents the source:

- **Progress** is a step counter. The projectile datatype stores `steps`, and progress is
  `Progress(steps) = steps * 0.05`. The hit test is `Reached(steps)`, which means
  `Progress(steps) >= 1`. No step number is written into the model.
- **Hit time** is `Option<int>`. `HasHit` reads it the way JavaScript does: absent and `0`
  are both false. So the lemmas that say a projectile scores only once need a clock
  reading other than 0. `Date.now()` is never 0.
- **Session phase**. `Game.Valid()` says that exactly one of Idle, Countdown, Running and
  Ended holds. Each phase comes with its own control:
  - Idle: the start button.
  - Countdown: a pending timeout.
  - Running: the interval timer.
  - Ended: the restart button.
- **Timer ticks**. A ghost counter, `timerTicks`, counts ticks since the game started.
  `TimerTick` says that the game ends on exactly the 30th tick.

Other variants of this game use a per-target cooldown, freeze progress after the hit,
or clear the projectiles when the game ends. `script.js` does none of these, and the
model follows `script.js`:

- The cooldown is one global `lastShotTime`, not one per target. There is no target
  tracker.
- Progress keeps growing after the hit instead of freezing.
- `endGame` leaves the projectiles in flight. `Frame` keeps updating them, so a projectile
  can still add to `score` after the game has ended.
- `startGame` never resets `lastShotTime`.

## Model

| member | source | states |
|---|---|---|
| `Anchor.Confident` | script.js:112 | a keypoint is kept exactly when it is in the pose and its score is above 0.5; the result is no longer than the pose |
| `Anchor.ConfidentAppend` | script.js:112 | the filter keeps keypoints in their original order (it distributes over concatenation) |
| `Anchor.FrameAim` | script.js:110-116 | no pose gives `NoPose`; a first pose without confident keypoints gives `NoConfidentKeypoint` (both directions); otherwise the aim's x and y are the means of the confident keypoints' x and y |
| `Anchor.Mean` | script.js:115-116 | the mean times the number of terms equals their left-fold sum |
| `Anchor.SumBounds` | script.js:115-116 | the `reduce` sum of n terms within [lo, hi] lies within [n·lo, n·hi] |
| `Anchor.AnchorWithinBox` | script.js:110-116 | the anchor lies within every box that holds all confident keypoints of the first pose |
| `Anchor.SingleConfidentKeypoint` | script.js:112-116 | a pose with one confident keypoint is aimed exactly at it |
| `Anchor.UnconfidentKeypointIgnored` | script.js:112-116 | inserting a keypoint scoring 0.5 or less anywhere in the first pose never changes the frame's aim |
| `Anchor.Sum` | script.js:115-116 | the left fold of `reduce`; `SumBounds` bounds it and `Mean`/`IsMean` tie the anchor to it |
| `Anchor.MeanWithin` | script.js:115-116 | a mean of terms that all lie in [lo, hi] lies in [lo, hi] |
| `Projectiles.ReachedMonotone` | script.js:151-164 | once progress has reached 1, further steps keep it at or above 1 |
| `Projectiles.LerpBetween` | script.js:153-154 | for a parameter in [0, 1] the interpolated coordinate lies between origin and target |
| `Projectiles.SpawnAtOrigin` | script.js:138-144 | a spawned projectile has progress 0, no hit, and sits at the interpolation's start (bottom centre) |
| `Projectiles.HasHit` | script.js:164-171 | `hitTime` read as a JavaScript condition: absent and 0 both read as not hit; `HitIsEdgeTriggered` and `AtMostOneHit` rest on it |
| `Projectiles.ScoresOnUpdate` | script.js:164 | an update scores exactly when the new progress is at least 1 and no hit is recorded; `NewHits` counts these and `HitIsEdgeTriggered` shows a hit projectile never passes it |
| `Projectiles.Spawn` | script.js:138-144 | the pushed object; `SpawnAtOrigin` shows it starts at progress 0, unhit, at the bottom centre, and `FirstUpdateOfSpawn` that it survives its first update |
| `Projectiles.Advance` | script.js:150-169 | one loop iteration before the removal test; `AdvanceMoves`, `HitIsEdgeTriggered` and `RemovedOnlyAfterReachAndLinger` state what it does to progress, position and hit time |
| `Projectiles.Expired` | script.js:171 | the removal test: hit recorded and more than 1000 ms since the hit; `RemoveExpired` removes exactly the projectiles that pass it |
| `Projectiles.Update` | script.js:148-175 | one call of `updateProjectiles`; `UpdateIsAdvanceThenRemove` equates it with advancing all and dropping the expired, and `Game.Game.UpdateProjectiles` is proved to compute it |
| `Projectiles.AdvanceMoves` | script.js:151-154 | an update raises progress by exactly 0.05, even after the hit; it keeps the target; it places the cat at `(1 - p)·origin + p·target` with one shared p, the new progress, and the origin the current frame's bottom centre; at progress 1 the cat is on the target; up to progress 1 it lies on the segment from the bottom centre to the target |
| `Projectiles.HitIsEdgeTriggered` | script.js:164-166 | a projectile already hit never scores again and keeps its hit time; one that scores records `now` |
| `Projectiles.RemovedOnlyAfterReachAndLinger` | script.js:164-173 | updates keep "hit implies progress reached 1", so a projectile is removed only after reaching its target and more than 1000 ms after its hit |
| `Projectiles.NewHits` | script.js:164-166 | one update scores at most one hit per projectile |
| `Projectiles.RemoveExpired` | script.js:171-173 | a projectile survives exactly when it is not hit or at most 1000 ms have passed since its hit |
| `Projectiles.RemoveExpiredAppend` | script.js:149-173 | removal keeps the survivors' relative order |
| `Projectiles.NothingExpiredKeepsAll` | script.js:171-173 | with nothing expired the list is kept whole |
| `Projectiles.UpdateIsAdvanceThenRemove` | script.js:148-175 | one update equals advancing every projectile and then dropping exactly the expired ones, so the reverse loop skips nobody |
| `Projectiles.UpdateAppend` | script.js:148-175 | projectiles are updated independently: the update of a concatenation is the concatenation of updates |
| `Projectiles.NewHitsAppend` | script.js:164-166 | the hits of one update add up over the list |
| `Projectiles.FirstUpdateOfSpawn` | script.js:137-173 | a projectile spawned this frame survives its first update and does not score in it |
| `Projectiles.NoHitAfterHit` | script.js:164 | a projectile with a recorded hit scores nothing over any run of updates |
| `Projectiles.AtMostOneHit` | script.js:164-166 | with a clock that never reads 0, a projectile scores at most once over any run of updates |
| `Projectiles.ExactlyOneHitOnReach` | script.js:151-166 | a projectile not yet at its target scores exactly one hit over a run of updates when its progress reaches 1 during the run, and none otherwise |
| `Game.CanFire` | script.js:125 | the strict gate `now - lastShotTime > 2000`; `GateFollowsLastShot` and `CooldownScenario` state its effect over a run of frames |
| `Game.ShotTimes` | script.js:123-128 | the shots fired over a run of frames reaching the gate; `ShotsAreSpaced` and `GateFollowsLastShot` characterise it |
| `Game.ShotsAreSpaced` | script.js:123-128 | over frames that reach the gate, the first shot comes more than 2000 ms after the last shot time and every later shot more than 2000 ms after the previous one; shots are frames of the run |
| `Game.GateFollowsLastShot` | script.js:125-127 | a frame fires exactly when it comes more than 2000 ms after the last shot so far, over all people alike |
| `Game.CooldownScenario` | script.js:125 | frames 0, 500 and 1000 ms after a shot are refused and the one 2500 ms after it fires |
| `Game.Game.constructor` | script.js:10-15 | the page starts in Idle with score 0, no projectiles and last shot time 0 |
| `Game.Game.PressStart` | script.js:50-58 | a start request with the button disabled or hidden, or while a countdown is active, changes nothing; otherwise the countdown begins with `count` at 2 after its first, immediate, tick |
| `Game.Game.DoCountdown` | script.js:59-82 | a positive count is decremented and the next tick is scheduled; at 0 the finishing timeout is scheduled |
| `Game.Game.CountdownTimeout` | script.js:65 | a pending countdown tick runs `doCountdown` and leaves score, projectiles and timer alone |
| `Game.Game.CountdownFinish` | script.js:73-80 | after the countdown, `countdownActive` is cleared and the game runs with score 0, no projectiles and 30 seconds left |
| `Game.Game.StartGame` | script.js:185-192 | sets score 0, empties the projectiles, sets `gameRunning`, starts the timer at 30; keeps `lastShotTime` |
| `Game.Game.TimerTick` | script.js:90-97 | every tick takes one second off; the game ends exactly on the 30th tick since it started, keeping score and projectiles |
| `Game.Game.EndGame` | script.js:194-196 | clears `gameRunning` and the interval and shows the restart button; projectiles are left untouched |
| `Game.Game.Restart` | script.js:238-245 | back to Idle: score 0, no projectiles, start button enabled |
| `Game.Game.ShootCat` | script.js:137-145 | appends exactly one projectile at the bottom centre aimed at the target, leaving the others and their order unchanged |
| `Game.Game.UpdateProjectiles` | script.js:148-175 | the reverse loop with in-place update and `splice` leaves exactly `Update(old list)` and adds exactly `NewHits(old list)` to the score |
| `Game.Game.Frame` | script.js:101-134 | fires exactly when the frame has an anchor, the game runs and more than 2000 ms passed since the last shot, then sets the last shot time; a pose without confident keypoints changes nothing; otherwise the old projectiles are updated whether or not the game runs and the new one, aimed 80 above the anchor, is appended after its first update |

## Left out

- Camera acquisition and loading of the pose model (script.js:21-47, 248-253) are device and library I/O. The pose list is a parameter of `Frame`.
- The guard at script.js:102 is not modelled. It cannot fire in this file: `detectLoop` is first called at script.js:252, after `await loadModel()` at script.js:251 has set `detector` at script.js:45.
- Canvas drawing, image loading, DOM text and style updates, `showMessage` and the end-screen HTML (script.js:104-108, 118-121, 156-162, 177-182, 198-236) are presentation only.
- The button animations scheduled at script.js:56-57, 61-63, 67-72 and 76-78 are presentation only.
- `requestAnimationFrame`, `setTimeout`, `setInterval` and `async`/`await` are not modelled as schedulers. Each firing is a method call. The delays (1000 ms, 1200 ms, one second per tick) are not modelled, only the order of the events.
- `Date.now()` is read once for the fire gate (script.js:124), and then inside the loop over the projectiles: once for each projectile that scores (script.js:165) and once for each projectile with a recorded hit (script.js:171). A frame with n projectiles can read the clock up to 1 + 2n times. The model uses one `now` for all of them.
- Floating point is not modelled. Coordinates are reals and progress is exactly `steps * 0.05`. In IEEE doubles, nineteen additions of 0.05 give 0.9500000000000003 and twenty give 1.0000000000000002, so the program hits at the same step as `Reached`. But progress is never exactly 1.0 in doubles, so the "at progress 1 the cat is on the target" case of `AdvanceMoves` never occurs in the program. The model states the threshold through `Reached` and never through a step number.
- Per-target tracking, stale-track pruning and time-based flight do not exist in `script.js`. They are not modelled.
- A click on the hidden or disabled start button is modelled as having no effect. That is how the browser treats such a click.
- `Restart` requires the end screen to be shown. The restart button exists only there.
- The run-of-updates lemmas (`NoHitAfterHit`, `AtMostOneHit`, `ExactlyOneHitOnReach`) keep the frame size fixed over the run and ignore removal. Hit logic does not depend on the frame size, and a projectile is removed only after its hit.
