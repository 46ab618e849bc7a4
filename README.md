# Flugzeug Spiel: the game rules in Dafny

Flugzeug Spiel is a browser game. The player flies a plane around a canvas and
shoots down waves of enemy planes, level by level. This project models the
game-state rules of `js/main.js` and proves properties of them:

- planes, with their lives, cooldowns, spawn immunity, shooting, edge bounce,
  collision pass and AI steering;
- projectiles, with their movement and death at the margin;
- levels, and how `Level.begin()` overrides the stats of the enemies it spawns;
- the bookkeeping of the running game loop: inputs, every object's update,
  pruning with `filter`, level advance, and the win and lose conditions.

Three modules:

- `Geometry` (`geometry.dfy`): the canvas and the `Math` functions.
  - `Host` carries the canvas size and the trigonometric and square-root
    functions as uninterpreted parameters.
  - Only the arithmetic the game itself does around them is written out:
    `canvasScaleFactor`, `updatePosition`, the hitbox square and the strict
    `hitTest`.
- `Rules` (`rules.dfy`): every operation on values.
  - `PlaneState` and `ProjectileState` are the fields of one object.
  - Each method of the source is a function from the old fields to the new
    ones, and the lemmas state what the game promises about them.
  - The level table and the `filter` used for pruning are here too.
- `World` (`world.dfy`): the objects.
  - `Projectile` and `Plane` are classes whose methods update their fields in
    place.
  - `Game` holds the globals `playerPlane`, `projectiles`, `enemies`,
    `gameStarted` and `levelIndex`.
  - Each method that models one method or one loop of the source is proved to
    leave the fields exactly as the matching `Rules` function says. For example, `Plane.Shoot` ensures
    `(State(), Snap(projectiles)) == Rules.Shoot(old(State()), h, old(Snap(projectiles)))`.
    It also ensures that the one new entry of `projectiles` is a fresh object.
  - The methods that chain several steps of `loop()` (`Game.PlayerTurn`,
    `Game.Play`, `Game.OthersTurn`, `Game.Tidy`, `Game.NextWave`, `Game.Frame`)
    compose those contracts. Where one of them leaves something unstated,
    "Left out" says what.
  - `Game.Valid()` is kept by every operation on the game:
    - the level index stays in `[-1, levels.length]`;
    - no projectile or enemy is listed twice;
    - the player is not an enemy;
    - no plane is dead with lives left.

`Math.random()` results are parameters:
- the shoot roll of each enemy's turn;
- the four draws of `spawnEnemy()`;
- the start rotation of `startGame()`.

The keys held down are a `set<string>` parameter. `location.reload()` is a
returned `reload` flag.

## Model

| member | source | states |
|---|---|---|
| Geometry.ScaleFactor | js/main.js:72-74 | the factor times 200 is the smaller canvas side |
| Geometry.ZeroSpeedStaysPut | js/main.js:76-80 | a step at speed zero leaves the position unchanged, whatever the heading |
| Geometry.CentredSquare | js/main.js:286-293 | the hitbox is a square of side `sizePx` whose corner lies half a side before the centre on both axes |
| Geometry.CentredSquareInside | js/main.js:248-256 | a point is strictly inside the centred square iff it is less than half a side from the centre on both axes |
| Rules.Kill | js/main.js:360-362 | `die()` leaves the projectile dead and changes no other field |
| Rules.KillIdempotent | js/main.js:360-362 | killing a projectile twice is the same as killing it once |
| Rules.ProjectileUpdate | js/main.js:364-374 | one step by `updatePosition`; alive afterwards iff it was alive and is not outside the canvas by more than its own size; heading, speed and side unchanged |
| Rules.ProjectileStepsKeep | js/main.js:364-374 | over any number of frames a projectile keeps its heading, speed and side, and is alive only if it was alive at the start |
| Rules.DeadProjectileStaysDead | js/main.js:364-374 | once a projectile is dead after some frame it is dead after every later frame |
| Rules.HitTestIsOpenSquare | js/main.js:248-293 | `hitTest` accepts exactly the points less than `sizePx / 2` from the plane's centre on both axes, so the border is outside |
| Rules.Hit | js/main.js:120-131 | with more than one life, one life less and still alive; otherwise zero lives and dead; never revives; keeps "dead means no lives"; no other field changes |
| Rules.HitNCounts | js/main.js:120-131 | for `n > 0`, `n` hits leave `max(lives - n, 0)` lives and leave the plane alive iff it was alive with more than `n` lives; zero hits change nothing; no other field changes |
| Rules.SteerByKeys | js/main.js:319-327 | on a live plane the left arrow turns it left by `turnSpeed`, winning over the right arrow, which turns it right; a dead plane, or no arrow held, leaves it unchanged |
| Rules.ControlsKeepInvariant | js/main.js:491-505 | the in-game keys never move the plane, change its lives or kill or revive it; they add at most one own-side projectile at the end; on a dead plane they change nothing |
| Rules.StartingPlayer | js/main.js:510-518 | the new player is centred and alive, with ten lives, no spawn immunity and no cooldown, so it can shoot at once |
| Rules.Fired | js/main.js:270-278 | the new projectile is alive, on the shooter's side, with the shooter's heading, at speed `speed + projectileSpeed` |
| Rules.ShootSpec | js/main.js:266-284 | dead or cooling down: nothing changes; otherwise exactly one projectile is appended, the existing entries stay, the cooldown becomes 10, `shootCount` grows by one, and no other plane field changes |
| Rules.Heading | js/main.js:198-213 | on the canvas the heading is kept; off it the player turns by `PI` |
| Rules.Advance | js/main.js:194-221 | before the collision pass only the position, the heading and the two counters change; the step uses the corrected heading |
| Rules.HitKeepsStruck | js/main.js:223-232 | earlier hits in the same pass do not change which later projectiles strike, because `hit()` neither moves the plane nor changes its immunity |
| Rules.CollideSpec | js/main.js:223-232 | the pass keeps the list's length, kills exactly the live opposing projectiles inside the hitbox of a plane that is not immune, leaves the others as they were, and hits the plane once per kill |
| Rules.ImmuneIgnoresAll | js/main.js:223-232 | while the plane is spawn-immune the pass changes neither the plane nor any projectile |
| Rules.UpdateKeepsInvariant | js/main.js:189-233 | `update()` keeps "dead means no lives", never gives a life back or goes below zero lives, never revives, keeps the side, never raises immunity and keeps the list length |
| Rules.UpdateSpec | js/main.js:189-233 | on a dead plane `update()` changes nothing; on a live one each counter drops by one if positive and otherwise stays at zero, and the collision pass changes only `lives` and `alive` |
| Rules.Scores | js/main.js:144-172 | three scores, the `i`-th being the distance to the player after a step with the `i`-th candidate bias |
| Rules.FirstMin | js/main.js:150-172 | the scan with strict `<` ends on the first index of a minimal score |
| Rules.FirstMinUnique | js/main.js:150-172 | only one index is the first minimum |
| Rules.Steer | js/main.js:138-174 | every call turns the plane by the held bias and counts the call; besides that only the bias may change |
| Rules.SteerDecision | js/main.js:138-174 | the bias is kept unless the counted call is a multiple of `aiMoveInterval`; on such a call it becomes the first candidate of least score |
| Rules.BiasHeldBetweenDecisions | js/main.js:138-142 | between two decision calls the bias is held and the counter grows by one per call |
| Rules.HeadingTurnsByBias | js/main.js:138-142 | between two decision calls the heading turns by the same bias each call |
| Rules.MoveAIKeepsInvariant | js/main.js:133-175 | `moveAI()` keeps lives, liveness and side, and appends at most the one projectile the shooter fires |
| Rules.EnemyStepKeepsInvariant | js/main.js:580-583 | one enemy's turn keeps "dead means no lives", never gives a life back or revives, keeps the side, and adds at most one projectile |
| Rules.MoveEnemies | js/main.js:580-583 | the enemy loop gives one new state per enemy |
| Rules.MoveEnemiesStep | js/main.js:580-583 | the loop over the first `i + 1` enemies is the loop over `i` of them followed by one more turn on the projectiles left so far |
| Rules.MoveEnemiesKeepsInvariant | js/main.js:580-583 | after the loop every enemy's state can follow its state before, and there is at most one new projectile per enemy |
| Rules.EventsKeepInvariant | js/main.js:82-345 | after any sequence of hits, turns, shots, updates and steering: "dead means no lives" holds, lives never grow nor go below zero, a dead plane stays dead, the side is kept and immunity never grows |
| Rules.DeadPlaneFrozen | js/main.js:82-345 | after any such sequence a dead plane is still dead with zero lives and has not moved |
| Rules.LevelsSetLives | js/main.js:421-432 | the table has ten levels, each giving its enemies at least one life and a speed, shoot chance and turn speed |
| Rules.LevelEnemiesStartAlive | js/main.js:408-432 | every enemy a table level spawns starts alive, keeps the plane invariant, and carries the level's own lives (at least one), speed, shoot chance and turn speed |
| Rules.Override | js/main.js:408-417 | each of the five stats is the level's value where it is set and the spawned value where it is `null`; nothing else changes |
| Rules.Spawned | js/main.js:451-483 | a live enemy with ten lives and full immunity and cooldown; for rolls in `[0, 1)`, speed in `[0.4, 0.8)`, turn speed in `[0.015, 0.04)` and a position off the canvas |
| Rules.NextLevelIndex | js/main.js:594-595 | the index moves up by exactly one iff no enemies are left and levels remain; otherwise it stays |
| Rules.LevelIndexInRange | js/main.js:594-595 | from any index in `[-1, levels.length]`, over any frames, the index never goes down and never passes `levels.length`, and once won it stays won |
| Rules.ClearedFramesAdvance | js/main.js:594-595 | every frame that finds no enemies moves the index up by one, until the table runs out |
| Rules.Select | js/main.js:591-592 | a filter result is no longer than the list and holds only its members |
| Rules.SelectMembers | js/main.js:591-592 | an entry survives the filter iff some occurrence of it has its callback true |
| Rules.SelectDistinct | js/main.js:591-592 | filtering a list without repeats gives a list without repeats |
| Rules.SelectPrefix | js/main.js:591-592 | filtering keeps the order: the survivors of the first `i` entries are a prefix of all the survivors |
| Rules.SelectAll | js/main.js:591-592 | filtering a list whose entries all pass gives the list back |
| World.FilterProjectiles | js/main.js:591 | `projectiles.filter(p => p.alive)` holds exactly the live projectiles, without repeats |
| World.FilterPlanes | js/main.js:592 | `enemies.filter(e => e.alive)` holds exactly the live enemies, without repeats, all satisfying the plane invariant; it is empty exactly when no enemy is alive |
| World.Projectile.constructor | js/main.js:349-358 | a live projectile with the given position, heading, side and speed |
| World.Projectile.Die | js/main.js:360-362 | the fields become `Rules.Kill` of the old ones |
| World.Projectile.Update | js/main.js:364-374 | the fields become `Rules.ProjectileUpdate` of the old ones |
| World.Plane.constructor | js/main.js:84-107 | the constructor's defaults |
| World.Plane.SetPosition | js/main.js:109-112 | only `x` and `y` change |
| World.Plane.Die | js/main.js:239-246 | only `alive` changes, to false |
| World.Plane.Hit | js/main.js:120-131 | the fields become `Rules.Hit` of the old ones |
| World.Plane.TurnLeft | js/main.js:319-322 | the heading drops by `turnSpeed` on a live plane; nothing changes on a dead one |
| World.Plane.TurnRight | js/main.js:324-327 | the heading grows by `turnSpeed` on a live plane; nothing changes on a dead one |
| World.Plane.SteerByKeys | js/main.js:492-496 | the fields become `Rules.SteerByKeys` of the old ones |
| World.Plane.Controls | js/main.js:491-505 | plane and projectiles become `Rules.Controls` of the old ones; a reload is asked for iff the space bar is down and the plane was dead; at most one fresh projectile is pushed |
| World.Plane.Shoot | js/main.js:266-284 | plane and projectiles become `Rules.Shoot` of the old ones; nothing is pushed when the plane cannot shoot, and exactly one fresh projectile is pushed when it can |
| World.Plane.Update | js/main.js:189-233 | plane and projectiles become `Rules.PlaneUpdate` of the old ones |
| World.Plane.Move | js/main.js:194-221 | the fields become `Rules.Advance` of the old ones |
| World.Plane.CollidePass | js/main.js:223-232 | plane and projectiles become `Rules.Collide` of the old ones |
| World.Plane.CollideWith | js/main.js:224-231 | plane and projectile become `Rules.CollideOne` of the old ones |
| World.Plane.CollideAt | js/main.js:224-231 | turn `i` of the collision loop: the plane and `ps[i]` become `Rules.CollideOne` of the old ones; the other projectiles are untouched |
| World.Plane.BestMove | js/main.js:144-172 | the loop returns the first index of a minimal score and the candidate at that index |
| World.Plane.TakeLevelStats | js/main.js:411-415 | the fields become `Rules.Override` of the old ones |
| World.Plane.Steer | js/main.js:138-174 | the fields become `Rules.Steer` of the old ones |
| World.Plane.Decide | js/main.js:144-174 | on a decision call only the bias changes, to the first candidate of least score (`Rules.FirstMin` of `Rules.Scores`) |
| World.Plane.MoveAI | js/main.js:133-175 | plane and projectiles become `Rules.MoveAI` of the old ones; at most one fresh projectile is pushed |
| World.Game.constructor | js/main.js:434-438 | a default player, no projectiles or enemies, not started, level index -1 |
| World.Game.Status | js/main.js:564-573 | the game is lost iff it has started and the player is dead; won iff it has started, the player is alive and the level index equals the table's length |
| World.Game.StartGame | js/main.js:510-524 | a fresh starting player, no enemies or projectiles, level index -1, started |
| World.Game.NewStartingPlayer | js/main.js:513-518 | a fresh player plane whose state is `Rules.StartingPlayer` |
| World.Game.SpawnEnemy | js/main.js:451-483 | one fresh enemy, `Rules.Spawned` for the current player position, is appended to `enemies` |
| World.Game.BeginLevel | js/main.js:408-417 | exactly `numEnemies` fresh enemies are appended, the `i`-th being `Rules.Override` of the enemy spawned with the `i`-th roll |
| World.Game.PlayerControls | js/main.js:491-505 | the player and projectiles become `Rules.Controls` of the old ones, and the game stays valid |
| World.Game.HandleInputs | js/main.js:485-508 | the space bar is consumed; before the game it starts the game iff it is down; during the game the player takes `Rules.Controls` with the three keys, and a reload is asked for iff space is down with the player dead |
| World.Game.PlayerUpdate | js/main.js:576 | the player and projectiles become `Rules.PlaneUpdate` of the old ones, and the game stays valid |
| World.Game.PlayerTurn | js/main.js:575-576 | inputs then the player's update: the player and the projectiles become `Rules.PlaneUpdate` of `Rules.Controls` of the old ones; the enemy list and the level index are not reassigned, only fresh projectiles are added, lives never grow, a dead player is left as it was |
| World.Game.UpdateProjectiles | js/main.js:586-589 | every projectile becomes `Rules.ProjectileUpdate` of its old fields; the enemies' fields are untouched and the game stays valid |
| World.Game.EnemyTurn | js/main.js:580-583 | enemy `i` and the projectiles become `Rules.EnemyStep` of the old ones; the other planes and the player are untouched |
| World.Game.EnemyLoop | js/main.js:580-584 | the planes and projectiles become `Rules.MoveEnemies` of the old ones; the player is untouched |
| World.Game.MoveEnemies | js/main.js:580-584 | the enemies and projectiles become `Rules.MoveEnemies` of the old ones, the player is untouched, and the game stays valid |
| World.Game.Play | js/main.js:575-589 | the first half of a frame: the player becomes `Rules.PlaneUpdate` of `Rules.Controls` of the old one, the enemies then become `Rules.MoveEnemies` of their old fields, and every projectile of the resulting list takes one `Rules.ProjectileUpdate`; the enemy list and the level index are not reassigned, the game stays valid, lives never grow and a dead player is left as it was |
| World.Game.OthersTurn | js/main.js:580-589 | the enemies become `Rules.MoveEnemies` of their old fields, then every projectile of the resulting list takes one `Rules.ProjectileUpdate`; the player is untouched and the game stays valid |
| World.Game.PruneProjectiles | js/main.js:591 | `projectiles` becomes the filter of the old list by liveness: exactly its live entries, in order |
| World.Game.PruneEnemies | js/main.js:592 | `enemies` becomes the filter of the old list by liveness: exactly its live entries, in order; the list is empty exactly when no old enemy was alive |
| World.Game.AdvanceLevel | js/main.js:594-598 | the index becomes `Rules.NextLevelIndex`; it moves on only from an empty enemy list, and a new level in the table spawns its `numEnemies` fresh enemies with its overrides; otherwise `enemies` is unchanged |
| World.Game.NextWave | js/main.js:592-598 | the level moves on by one iff no enemy is alive and levels remain; otherwise the enemies left are exactly the live ones; unless a new table level began, `enemies` is the filter of the old list, in order |
| World.Game.Tidy | js/main.js:591-598 | `projectiles` is the filter of the old list, exactly its live entries in order, and the level and enemy rules of `NextWave` hold |
| World.Game.Frame | js/main.js:564-601 | one frame of the running game keeps it valid, consumes space, asks for a reload iff space is down with the player dead, never gives the player a life, and leaves a dead player as it was; the player becomes `Rules.PlaneUpdate` of `Rules.Controls` of the old one; every projectile left is alive; the level moves on by one iff no enemy is alive at the end and levels remain, and otherwise the enemies left are exactly the live ones |

## Left out

- Images, audio and all drawing (`Assets`, `draw`, `drawLives`, `drawStatus`, `drawTextMiddle`, `syncCanvasSize`): they do not affect the game state. `hit()`, `die()`, `shoot()`, `startGame()` and the level advance play sounds; the model leaves those calls out.
- The `keydown`, `keyup` and `click` listeners, `requestAnimationFrame` and `main`: host plumbing. The held keys are a parameter, and `Game.Frame` is one call of `loop()`.
- `location.reload()`: browser navigation. It is the returned `reload` flag.
- `Math.cos`, `Math.sin`, `Math.sqrt` and `Math.atan2` are uninterpreted functions in `Host`. Nothing is claimed about their values, so the edge-bounce heading of an enemy, the projectile offset and the AI's distances are exact in form only.
- Floating point: numbers are Dafny `real`, so there is no rounding, no `NaN` and no overflow. `Math.PI` is the decimal literal JavaScript prints for it.
- `Math.random()`: each result is a parameter, chosen by the caller without any distribution.
- The pre-game ambient wave of `loop()` (js/main.js:536-563): it is visual only and `startGame()` discards it. `Game.Frame` requires a started game. `Game.HandleInputs` still models how the space bar starts one.
- `Level`'s constructor defaults (js/main.js:399-406): every entry of the table passes its shoot chance, speed, turn speed and lives. Two also pass a projectile speed; the others get the `null` default. The table is written out with those values, so the defaults themselves are not modelled.
- `lowestScore = Infinity` is modelled as "no score yet". The `bestMoveIndex` that `moveAI()` computes is returned by `Plane.BestMove` although the source never reads it.
- `Game.Valid()` requires that no projectile or enemy is listed twice. The source never states this; it holds because every push is of a newly created object, and the model proves it is kept.
- World.Game.Frame: it states the player's new fields, but the two lists only by membership: every projectile left is alive, and unless the level moved on the enemies left are exactly the live ones. It does not state that every live projectile stays (`Tidy` states it), the order of either list, the new fields of the enemies and projectiles, or the enemies a new level spawns; `Play`, `Tidy` and `AdvanceLevel` state those one step at a time.
- World.Game.Play: it states the new fields of every projectile by position in the list, not which entries are the old objects and which were fired this frame; `PlayerTurn` and `Plane.Shoot` state that each shot is a fresh object appended at the end.
- World.Game.Tidy: it does not restate the enemies a new table level spawns; `AdvanceLevel` states them.
- World.Game.NextWave: it does not restate the enemies a new table level spawns; `AdvanceLevel` states them.
- Rules.Heading: the enemy's corrected heading off the canvas is `atan2(...) + PI` of the uninterpreted `atan2`, so there is no property to state about it beyond its definition.
