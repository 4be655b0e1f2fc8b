# BulletHell controller: per-round simulation in Dafny

This project models the simulation core of the BulletHell canvas game's `app.main`
controller. The core covers:

- building a round of bullets (`makeBullets`, `reset`);
- moving bullets and retiring them at the screen edges (`moveBullets`, `bulletHitLeftRight`,
  `bulletHitTopBottom`);
- the bullet state machine AIMING → WAITING → NORMAL → (EXPLODED) → DONE, driven by the
  state-changing half of `drawBullets` and by `shootBullet`, with firing ordered by the
  cursor `currentBullet`;
- the collision and round-progress check (`checkForCollisions`);
- the player controller (`playerMove`);
- the order of one `update()` frame;
- the click-driven phase changes of `doMousedown`, and `toggleDebug`.

There are two copies of the controller, and both are modelled. `BulletHell/js/main.js` is
the variant `Current`. The earlier `BulletHell/js/js/main.js` is the variant `Early`. They
share every datatype and differ in five ways:

- the initial phase (BEGIN against DEFAULT);
- the shape of the player clamp (`else if` against four independent `if`s);
- the order of a frame (the player moves before the collision check in `Current`, after
  drawing in `Early`);
- what a click does (`Current` runs nested `update()` frames and leaves BEGIN; `Early`
  ignores a click in BEGIN and runs a frame only when unpausing);
- `toggleDebug` exists only in `Early` (`BulletHell/js/js/main.js:564-566`), so
  `Controller.Game.ToggleDebug` requires that copy.

Layout:

- `entities.dfy` (`Entities`): the constants, `Bullet`, the two state enumerations, the
  spawn of a bullet from its random draws, and the firing-cursor invariant `RoundInvariant`.
  The invariant says that bullets before the cursor have been fired, those from it on are
  AIMING or WAITING and at rest, no bullet is both sniper and rocket, and only rockets are
  EXPLODED.
- `movement.dfy` (`Movement`), `aiming.dfy` (`Aiming`), `collisions.dfy` (`Collisions`) and
  `steering.dfy` (`Steering`): each loop of the controller as a function on bullet values,
  with the lemmas about it.
- `rounds.dfy` (`Rounds`): the controller's fields as one value `World`, plus a frame, a
  reset, a click and init as functions on it.
- `game.dfy` (`Controller`): the classes `Player` and `Game`. Their methods update the
  bullet array and the fields in place with the source's loops. Each is proved to leave
  exactly the state the matching function describes, and `Game` methods keep
  `RoundInvariant` as their invariant `Valid()`.

Bullets are value records held in an `array<Bullet>` and written back after each change.
In the source, every slot holds its own object literal, and no bullet is reachable from
two slots, so value semantics loses nothing. Coordinates, speeds, `dt` and `totalTime` are
Dafny `real`s: they stand exactly for the numbers, not for IEEE doubles.

The helpers of the utilities file are inputs (`Helpers`). `bulletsIntersect` is an
arbitrary predicate on two circles. `getVectorToPlayer` is an arbitrary function from a
bullet's position and the player's position to a vector. The random draws of `makeBullets`
are a function `draws` from the bullet's index to its `Spawn` values. The elapsed time `dt`
and the held keys are parameters.

Quirks of the code that the model reproduces:

- **Sniper promotion.** The promotion test for snipers in `drawBullets`
  (`BulletHell/js/main.js:352`) does not compare the index with `currentBullet`.
  `Aiming.Promote` and `Aiming.AdvancePromotes` reproduce that. `Aiming.DrawPassLeavesQueue`
  then proves that, within a pass that starts under the round invariant, no bullet after
  the cursor is touched anyway. The reason: the cursor only stops on a bullet while the
  clock is before that cursor's sniper gate.
- **DONE rockets.** The explosion test does not exclude DONE rockets
  (`BulletHell/js/main.js:478`), so a DONE rocket can become EXPLODED again
  (`Collisions.DoneRocketRevived`). State order is therefore proved forward-only for
  `moveBullets` and `drawBullets` only.
- **Rocket band.** The rocket test makes two fresh `Math.random()` draws
  (`BulletHell/js/main.js:315`): the first must be above 0.25 and the second at most 0.30.
  It is not one band (0.25, 0.30] of a single draw (`Entities.Spawned`).
- **`c != b2`.** This guard reads `c`, a hoisted variable that is still undefined at that
  point, so it always holds.
- **EXPLODED rockets** still hit the player.
- **ROUND_OVER after REPEAT_LEVEL.** In `Current`, a click in REPEAT_LEVEL whose frame ends
  the round in ROUND_OVER does not start a new round. The ROUND_OVER test comes before the
  REPEAT_LEVEL branch (`Rounds.ClickCurrentStarts`).

## Model

| member | source | states |
|---|---|---|
| Entities.Spawned | BulletHell/js/main.js:280-335 | a new bullet is AIMING and at rest with timer 0, speed 140 and radius 20 for a rocket or 10 otherwise, at the spawn point SpawnPoint gives for its draws (on one of the four spawn lines), a sniper exactly when the first category draw is at most 0.25 and a rocket exactly when it is not a sniper, the second category draw is above 0.25 and a third draw is at most 0.30. |
| Entities.SpawnPoint | BulletHell/js/main.js:285-301 | the spawn point lies on one of the lines x = 20, x = 780, y = 20, y = 580, taking the drawn coordinate as x for the top and bottom edges and as y for the left and right ones |
| Entities.Batch | BulletHell/js/main.js:278-336 | makeBullets(num) yields exactly num bullets, bullet k spawned from the k-th draws |
| Entities.FreshBatch | BulletHell/js/main.js:278-336 | a fresh batch satisfies the round invariant with the cursor at 0 (every bullet AIMING, at rest, never sniper and rocket), each with timer 0, speed 140 and radius 10 or 20 |
| Entities.SpawnInsideScreen | BulletHell/js/main.js:285-302 | with the coordinate drawn in the range getRandom is asked for, the spawn point lies inside the screen, 20 from its edges |
| Movement.HitLeftRight | BulletHell/js/main.js:398-402 | the test holds exactly when the disc's right edge is at or left of x = 0 or its left edge at or right of x = WIDTH, so (for a non-negative radius) the centre is off screen too |
| Movement.HitTopBottom | BulletHell/js/main.js:404-408 | the test holds exactly when the disc's bottom edge is at or above y = 0 or its top edge at or below y = HEIGHT, so (for a non-negative radius) the centre is off screen too |
| Movement.MoveOne | BulletHell/js/main.js:378-396 | AIMING, WAITING and DONE bullets are untouched; others move by speed·velocity·dt and nothing else changes but the state, which becomes DONE exactly when the moved disc lies wholly outside the screen and is kept otherwise |
| Movement.MoveAll | BulletHell/js/main.js:378-396 | moveBullets keeps the number of bullets |
| Movement.MoveAllKeepsRound | BulletHell/js/main.js:378-396 | moveBullets keeps the firing-cursor invariant, moves every state forward only, and leaves resting bullets as they were |
| Movement.RetiredIffOffScreen | BulletHell/js/main.js:398-408 | a NORMAL or EXPLODED bullet is DONE after moveBullets iff x ≤ -r, x ≥ WIDTH + r, y ≤ -r or y ≥ HEIGHT + r, and keeps its state otherwise |
| Aiming.Shoot | BulletHell/js/main.js:231-250 | shootBullet sets NORMAL and the velocity to the aim vector times 3 for a sniper, times 0.5 for a rocket, as is otherwise, changing nothing else |
| Aiming.Promote | BulletHell/js/main.js:345-354 | promotion only turns an AIMING bullet into WAITING, and does so exactly for a non-sniper at the cursor or a sniper (at any index) once totalTime reaches the sniper gate |
| Aiming.Shrink | BulletHell/js/main.js:357-366 | only an EXPLODED rocket changes, only in radius (by 2) and state, and it becomes DONE exactly when more than 3 seconds have passed since its timer and its radius was at most 2 |
| Aiming.Advance | BulletHell/js/main.js:343-370 | one iteration leaves the position and kind of the bullet alone and keeps the cursor, or moves it by one exactly at the cursor's own index with the bullet now NORMAL |
| Aiming.DrawPass | BulletHell/js/main.js:338-376 | the drawBullets pass keeps the number of bullets and, entered with the cursor within the array, never moves the cursor back nor past the end |
| Aiming.AdvanceFires | BulletHell/js/main.js:367-370 | one iteration moves the cursor by 0 or exactly 1, and by 1 iff the bullet is the one at the cursor, unfired, past the fire gate c·0.6 + 3 and (unless already WAITING or not a sniper) past the sniper gate; the fired bullet is shootBullet's result |
| Aiming.AdvancePromotes | BulletHell/js/main.js:345-354 | an AIMING bullet leaves AIMING iff it is a non-sniper at the cursor or a sniper once totalTime ≥ c·0.6 + 0.4 + 0.2 + 3 (at any index, as the code is written) |
| Aiming.AdvanceShrinks | BulletHell/js/main.js:357-366 | an EXPLODED rocket is unchanged until 3 seconds after its timer, then one iteration takes 2 off its radius and makes it DONE when the radius reaches 0 or less; the cursor does not move |
| Aiming.AdvanceKeepsRound | BulletHell/js/main.js:343-370 | one iteration moves the bullet's state forward only and keeps the firing-cursor invariant |
| Aiming.DrawPassPrefix | BulletHell/js/main.js:342 | the rest of a pass does not touch the bullets already visited |
| Aiming.DrawPassKeepsRound | BulletHell/js/main.js:338-376 | a drawBullets pass keeps the firing-cursor invariant, never moves the cursor back nor past the end of the array, and moves every state forward only |
| Aiming.DrawPassBeforeGate | BulletHell/js/main.js:367 | before the cursor's fire gate nothing fires: the cursor stays and every unfired bullet stays unfired |
| Aiming.DrawPassFiresInOrder | BulletHell/js/main.js:367-370 | the bullets between the old and the new cursor are exactly the ones fired in this pass, each one unfired before and now shootBullet's result aimed from its own position |
| Aiming.DrawPassStops | BulletHell/js/main.js:338-376 | a pass entered at or before the cursor ends with the cursor at the end of the array or at a bullet that cannot fire (unfired, past the fire gate and, for an aiming sniper, past the sniper gate), so every bullet able to fire in turn is fired |
| Aiming.DrawPassFiresOnlyAble | BulletHell/js/main.js:345-370 | every bullet the cursor runs over in a pass entered at or before the cursor was able to fire at its turn: unfired, past the fire gate and, for an aiming sniper, past the sniper gate |
| Aiming.DrawPassShrinks | BulletHell/js/main.js:357-366 | an EXPLODED rocket not yet visited ends the drawBullets pass as Shrink of itself, so it loses exactly 2 of radius per pass once 3 seconds have passed since its timer |
| Aiming.CascadeInOnePass | BulletHell/js/main.js:345-370 | incrementing the cursor at index 0 lets index 1 be promoted and fired in the same pass |
| Aiming.DrawPassLeavesQueue | BulletHell/js/main.js:338-376 | every bullet after the cursor a pass ends with is unchanged, in a pass entered with the cursor at or after the starting index or stopped before its sniper gate |
| Aiming.DrawPassOnlyAtCursor | BulletHell/js/main.js:338-376 | in a whole drawBullets pass under the round invariant, every bullet after the cursor the pass ends with is left unchanged |
| Collisions.Explode | BulletHell/js/main.js:480-485 | a set-off rocket becomes EXPLODED with radius 60, zero velocity and timer totalTime, in place, keeping its kind |
| Collisions.SetsOff | BulletHell/js/main.js:478-479 | a bullet that sets off another is a plain bullet and the other a rocket, so no bullet sets itself off even though the `c != b2` test never excludes anything; an EXPLODED rocket is never set off |
| Collisions.RocketPass | BulletHell/js/main.js:476-489 | the inner loop keeps the number of bullets |
| Collisions.HitPass | BulletHell/js/main.js:468-490 | the outer loop keeps the number of bullets |
| Collisions.Collide | BulletHell/js/main.js:464-508 | checkForCollisions keeps the number of bullets |
| Collisions.RocketPassEffect | BulletHell/js/main.js:476-489 | the inner loop only explodes live rockets or retires the outer non-rocket, leaves every other non-rocket and the unfired bullets alone, and never makes all bullets DONE |
| Collisions.HitPassEffect | BulletHell/js/main.js:468-490 | the outer loop leaves the phase or sets END, changes each bullet only as a collision may, leaves unfired bullets alone, and keeps a not-all-DONE array not all DONE |
| Collisions.HitPassEnds | BulletHell/js/main.js:470-474 | a fired bullet that is not DONE and meets the player (a live rocket included, when the intersection test is monotone in the radius and the rocket's radius is at most 60) sets END, and the array is then not all DONE |
| Collisions.RocketPassHits | BulletHell/js/main.js:476-486 | in the inner loop of a plain outer bullet, a live rocket it meets ends the loop as Explode of itself and the outer bullet ends it DONE |
| Collisions.RocketPassMisses | BulletHell/js/main.js:476-486 | in the inner loop, a bullet the outer bullet does not set off is left as it was |
| Collisions.HitPassExplodes | BulletHell/js/main.js:468-490 | a fired plain bullet that is not DONE and meets a fired rocket leaves that rocket EXPLODED at the end of the outer loop |
| Collisions.HitPassFirstHit | BulletHell/js/main.js:468-490 | when no earlier fired plain bullet sets the live rocket off, the plain bullet that meets it leaves it as Explode of itself and is itself DONE |
| Collisions.HitPassEndWitness | BulletHell/js/main.js:470-474 | END is set only when some fired bullet could have met the player |
| Collisions.CollidePhase | BulletHell/js/main.js:464-508 | nothing changes outside DEFAULT; in DEFAULT the phase is ROUND_OVER iff every bullet is DONE afterwards (vacuously for none) and is otherwise DEFAULT or END |
| Collisions.CollideEnds | BulletHell/js/main.js:464-505 | in DEFAULT, a fired non-DONE bullet meeting the player yields END (a live rocket under the monotone-test and radius-60 conditions), and END only comes from a fired bullet that could have met the player |
| Collisions.CollideExplodes | BulletHell/js/main.js:464-490 | in DEFAULT, a fired non-DONE plain bullet meeting a fired rocket leaves it EXPLODED, as Explode(rocket, totalTime) when it was live, and when no earlier fired plain bullet set it off, the plain bullet ends DONE |
| Collisions.CollideKeepsExploded | BulletHell/js/main.js:478 | an EXPLODED rocket is never set off again |
| Collisions.CollideKeepsRound | BulletHell/js/main.js:464-508 | checkForCollisions keeps the firing-cursor invariant |
| Collisions.DoneRocketRevived | BulletHell/js/main.js:478-485 | a DONE rocket met by a plain bullet becomes EXPLODED again |
| Steering.Stepped | BulletHell/js/main.js:178-190 | each held W/A/S/D key moves the player by ∓2.5 / ±2.5 on its axis before clamping |
| Steering.ClampCurrent | BulletHell/js/main.js:192-203 | the else-if clamp puts the coordinate in [10 + r, size - 10 - r] whenever that range is not empty, and keeps a coordinate already inside it |
| Steering.ClampEarly | BulletHell/js/js/main.js:189-200 | the independent-if clamp does the same |
| Steering.ClampVariantsAgree | BulletHell/js/js/main.js:189-200 | the two clamp shapes agree whenever the circle fits between the margins |
| Steering.ClampVariantsDiffer | BulletHell/js/js/main.js:189-200 | for a circle too wide to fit they differ (410 against 390) |
| Steering.PlayerMove | BulletHell/js/main.js:177-204 | after playerMove the player lies in [35, 765] × [35, 565] in either copy |
| Steering.PlayerMoveBounds | BulletHell/js/main.js:177-204 | a stepped position already inside [35, 765] × [35, 565] is kept by playerMove, and both copies give the same result |
| Rounds.Frame | BulletHell/js/main.js:100-153 | one update() keeps the cursor within the array, the number of bullets, numBullets and the pause and debug flags |
| Rounds.Reset | BulletHell/js/main.js:456-462 | reset sets the clock and cursor to 0 and adds 5 to numBullets, making exactly that many bullets under the firing-cursor invariant, and leaves the phase and flags alone |
| Rounds.ResetFresh | BulletHell/js/main.js:456-462 | reset sets the clock and cursor to 0, adds 5 to numBullets, makes exactly numBullets fresh AIMING bullets at rest (timer 0, speed 140, radius 10 or 20, never sniper and rocket), and puts the player at (400, 300) |
| Rounds.FrameKeepsRound | BulletHell/js/main.js:100-153 | a frame keeps the firing-cursor invariant, never moves the cursor back nor past the array, keeps the bullet count, and advances the clock by dt unless paused |
| Rounds.FrameLeavesQueue | BulletHell/js/main.js:100-153 | a frame leaves every bullet after its final cursor unchanged |
| Rounds.FramePhase | BulletHell/js/main.js:464-505 | a frame changes the phase only from DEFAULT, and only to END or ROUND_OVER |
| Rounds.FirstFrameAfterReset | BulletHell/js/main.js:456-462 | the first frame of a new round fires nothing, keeps the cursor at 0 and the phase at DEFAULT, and sets the clock to dt |
| Rounds.ClickCurrent | BulletHell/js/main.js:420-453 | after a click the game is not paused, the debug flag is kept, the cursor lies within the array, and unpausing keeps the bullet count |
| Rounds.ClickEarly | BulletHell/js/js/main.js:411-443 | after a click the game is not paused, the debug flag is kept and the cursor lies within the array; a click in BEGIN changes nothing, and no click made while running advances the clock |
| Rounds.ClickDuringPlay | BulletHell/js/main.js:420-453 | in either copy a click in DEFAULT (or the unused WAITING phase) changes nothing |
| Rounds.ClickWhilePaused | BulletHell/js/main.js:423-427 | in either copy a click while paused only clears the flag and runs one frame, which changes the phase only from DEFAULT to END or ROUND_OVER |
| Rounds.ClickCurrentRestarts | BulletHell/js/main.js:433-450 | after ROUND_OVER a click starts a fresh round of numBullets + 5 bullets, after END one of 15 (numBullets back to 10, then reset), each one frame old |
| Rounds.ClickCurrentStarts | BulletHell/js/main.js:428-443 | a click in BEGIN or REPEAT_LEVEL goes to DEFAULT and runs a frame without a reset; a round that frame ends is restarted by the same click from BEGIN always, from REPEAT_LEVEL only for END |
| Rounds.ClickEarlyTransitions | BulletHell/js/js/main.js:411-443 | a click in BEGIN does nothing, REPEAT_LEVEL goes to DEFAULT, ROUND_OVER starts a fresh round of numBullets + 5 and END one of 15, without a frame |
| Rounds.ToggleDebug | BulletHell/js/js/main.js:564-566 | toggleDebug flips the debug flag and changes nothing else |
| Rounds.ToggleDebugInvolution | BulletHell/js/js/main.js:564-566 | toggleDebug negates debug, and twice is the identity |
| Rounds.Init | BulletHell/js/main.js:72-98 | after init there are 15 bullets (numBullets 15), the cursor lies within the array and neither pause nor debug is set |
| Rounds.InitState | BulletHell/js/main.js:72-98 | after init the round has 15 bullets under the firing-cursor invariant with the cursor at 0, in BEGIN for js/main.js and DEFAULT for js/js/main.js |
| Controller.Player.constructor | BulletHell/js/main.js:212-216 | makePlayer places the player at (WIDTH/2, HEIGHT/2) with radius 25 |
| Controller.Player.Move | BulletHell/js/main.js:177-204 | playerMove, step by step, leaves the position PlayerMove describes, inside the 10-pixel margin |
| Controller.Player.Step | BulletHell/js/main.js:178-190 | the four key tests leave the stepped position |
| Controller.Player.ClampElseIf | BulletHell/js/main.js:192-203 | the else-if tests leave each coordinate clamped as ClampCurrent says |
| Controller.Player.ClampIndependent | BulletHell/js/js/main.js:189-200 | the four independent tests leave each coordinate clamped as ClampEarly says |
| Controller.MakeBullets | BulletHell/js/main.js:278-336 | makeBullets returns a new array holding exactly the batch built from the draws |
| Controller.Game.constructor | BulletHell/js/main.js:72-98 | init leaves the state Init describes, under the firing-cursor invariant |
| Controller.Game.Reset | BulletHell/js/main.js:456-462 | reset leaves the state the Reset function describes, with a new bullet array and player, under the invariant |
| Controller.Game.MoveBullets | BulletHell/js/main.js:378-396 | the loop leaves the array MoveAll describes |
| Controller.Game.MoveAndRetire | BulletHell/js/main.js:384-394 | bulletMove and the two boundary tests give the bullet MoveOne describes |
| Controller.Game.DrawBullets | BulletHell/js/main.js:338-376 | the loop leaves the array and cursor the drawBullets pass describes |
| Controller.Game.PromoteAndShrink | BulletHell/js/main.js:345-366 | the promotion tests and the shrink give the bullet Promote then Shrink describe |
| Controller.Game.ShootBullet | BulletHell/js/main.js:231-250 | the velocity and state shootBullet sets are those of Shoot |
| Controller.Game.CheckForCollisions | BulletHell/js/main.js:464-508 | the nested loops and the round-over scan leave the array and phase Collide describes |
| Controller.Game.SetOffRockets | BulletHell/js/main.js:476-489 | the rocket loop for one fired bullet leaves the array RocketPass describes |
| Controller.Game.IsOver | BulletHell/js/main.js:493-500 | the round-over scan answers true iff every bullet is DONE |
| Controller.Game.Update | BulletHell/js/main.js:100-153 | one update() leaves the state Frame describes, keeping the firing-cursor invariant |
| Controller.Game.Mousedown | BulletHell/js/main.js:420-453 | doMousedown leaves the state Click describes for its copy, keeping the firing-cursor invariant |
| Controller.Game.MousedownCurrent | BulletHell/js/main.js:420-453 | the click of js/main.js leaves the state ClickCurrent describes |
| Controller.Game.RepeatOrEnd | BulletHell/js/main.js:440-450 | the REPEAT_LEVEL and END branches run a frame from DEFAULT, and after END a reset to 15 bullets and a frame |
| Controller.Game.MousedownEarly | BulletHell/js/js/main.js:411-443 | the click of js/js/main.js leaves the state ClickEarly describes |
| Controller.Game.ToggleDebug | BulletHell/js/js/main.js:564-566 | toggleDebug, which only the early copy has, negates the debug flag and changes nothing else |

## Left out

- Rendering is not modelled: `fillText`, `drawHUD`, `drawPauseScreen`, the draw functions of
  bullets and player, the sniper tracking line, `globalAlpha` and the drawing calls in
  `drawBullets`. They change no simulation state.
- Audio is not modelled: `sound.js`, the `sound.*` calls and `stopBGAudio`. Playback has no
  effect on the state.
- Frame scheduling is not modelled: `requestAnimationFrame`/`cancelAnimationFrame`, the
  `counter < 3` webfont frames, `pauseGame`/`resumeGame` and the page wiring in `loader.js`.
  These concern when `update()` runs, not what it does. A frame is modelled as one call.
- `calculateDeltaTime` is not modelled, because it reads the wall clock. `dt` is a
  parameter.
- Collisions.CollideEnds: a live rocket meeting the player is shown to set END only when the intersection test is monotone in the radius and the rocket's radius is at most 60. The test is an input here, and a test without that property can miss the rocket once it is exploded before its turn.
- Rounds.ClickCurrent: every nested `update()` inside one click uses the same `dt` and
  keys, where the source reads the clock again for each.
- `keys.js` is not modelled, because it is browser event glue. The held keys are four
  booleans.
- The utilities file is not part of this model (`getRandom`, `Math.random`,
  `getVectorToPlayer`, `getLineVectorToPlayer`, `bulletsIntersect`, `clamp`, `getMouse`).
  Its functions are arbitrary inputs, so the probability bands of the spawn draws and any
  geometry of intersection are not verified.
- `bulletsIntersect` is modelled as depending only on the two circles (position and radius).
- Floating-point rounding is not modelled. Reals stand in for doubles, so, for example, the
  sniper gate c·0.6 + 0.4 + 0.2 + 3 is exact.
- The `console.log` calls and the unused `attackVector` computed at the top of each
  `drawBullets` iteration are not modelled, because they have no effect on state.
- The initial batch of ten bullets made in `init` is built from the same draws as the one
  `reset` makes right after. It is discarded immediately, so only its count is observable.
