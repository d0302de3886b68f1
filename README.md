# The Legend of Gazi Pir — a Dafny model of the per-frame game logic

The game is a top-down pygame shooter. The player walks a map, shoots enemies
that chase them, picks up five narrated scrolls and frees five caged tigers.
This project models the discrete logic that runs once per frame in the `Game`
class (code/main.py) and in the entity classes of code/sprites.py, and proves
what that logic guarantees:

- **Mission tracker.** There are two counters: scrolls read and tigers freed.
  The `mission_complete` flag is raised once, when both counters reach 5, and
  is never cleared. The banner it raises hides itself 20000 ms after completion.
- **Gun cooldown gate.** The gun is ready or cooling. Firing needs a ready gun
  and starts 100 ms of cooling.
- **Enemy spawn controller.** On every enemy timer event an unused spawn point
  is chosen. It is used at most once.
- **Bullet-versus-enemy resolution.** A bullet destroys every enemy it overlaps
  and disappears.
- **Entity state machines.** A bullet lives for 1000 ms. An enemy goes alive,
  then dying (for 400 ms after `destroy`), then removed. A tiger is freed from its
  cage once and for all, then changes heading every 2000 ms.
- **Collision against the map.** A moving hitbox is resolved axis by axis
  against the static obstacles. The enemy only clamps; the tiger clamps and
  bounces.

Layout:

- `geometry.dfy` (module `Geometry`): integer vectors and pygame-style
  rectangles with `colliderect` overlap.
- `collision.dfy` (module `Collision`): the per-axis obstacle passes stated as
  functions (`ClampAll` for the enemy, `BounceAll` for the tiger), with lemmas
  about what a pass guarantees.
- `sprites.dfy` (module `Sprites`): classes `Gun`, `Bullet`, `Enemy` and
  `Tiger`. Their methods update fields in place and are proved against the
  functions of `Collision`.
- `game.dfy` (module `Game`): class `Game` with the mission, gun, spawn, scroll,
  tiger and bullet state, and the invariant `Valid()` that every operation
  keeps.

Conventions of the model:

- Time `now` is the millisecond clock (`pygame.time.get_ticks()`), passed as a
  parameter. `dt` is the frame's length in milliseconds.
- Units. A heading (a unit vector in the game) is stored scaled by 1000
  (`HeadingScale`). Positions count 1000000 units per pixel (`PixelUnits`). So
  a displacement `direction * speed * dt` is a whole number of units: speed is
  in pixels per second and dt in milliseconds. Frame sizes, hitbox insets, the
  gun's 70-pixel distance and the 50-pixel muzzle offset are pixel figures,
  converted with `Px` and `Ahead`. Obstacles, spawn points and the player's
  rectangle are given in position units. The lemmas `Sprites.EnemyPace` and
  `Sprites.TigerPace` show the two scales agree: in open ground, one second of
  motion carries an enemy or a tiger exactly its speed in pixels along its
  heading.
- `kill()` clears a sprite's `alive` flag. The `Game` keeps every bullet and
  enemy it has created. A pygame group is the set of its live members.
- Random and external inputs become parameters. The spawn point, the enemy
  animation set and the mouse buttons are constrained to the set the source
  draws from. The headings are constrained more loosely, as "## Left out"
  says: a tiger's initial and periodic headings only have to be non-zero, and
  the aim and chase directions only have to match the signs of the vector
  they normalize.
- An enemy's or tiger's drawn rectangle is its hitbox grown back by the inset
  the constructor removed. It keeps the hitbox's centre, as `rect.center =
  hitbox_rect.center` does after every move.

## Model

| member | source | states |
|---|---|---|
| Collision.ClampAllKeepsShape | code/sprites.py:119-127 | An enemy pass never changes the hitbox's size or the coordinate of the other axis. |
| Collision.ClampAllStill | code/sprites.py:122-127 | With no motion on the processed axis the pass leaves the hitbox where it is, even when it overlaps obstacles. |
| Collision.ClampAllPushesBack | code/sprites.py:119-127 | Resolution only pushes the hitbox back against its motion, never further along it. |
| Collision.ClampAllNoContact | code/sprites.py:120-121 | A hitbox that overlaps no obstacle is not moved. |
| Collision.ClampMeetsEdge | code/sprites.py:121-127 | Against one overlapping obstacle, the leading edge lands exactly on the obstacle's facing edge (right on left, left on right, top on bottom, bottom on top). No overlap is left. A zero component moves nothing. |
| Collision.BounceAllFlips | code/sprites.py:200-212 | The tiger's heading component on the axis is negated once per contact, including a zero component. It is reversed after an odd number of contacts and restored after an even number; the other component is untouched. |
| Collision.BounceAllMatchesClamp | code/sprites.py:200-212 | With at most one contact the tiger's pass moves its hitbox exactly as the enemy's pass would. |
| Collision.BounceAllNoContact | code/sprites.py:201-202 | A tiger overlapping no obstacle keeps both its place and its heading. |
| Collision.BounceOffWall | code/sprites.py:202-212 | One obstacle met: the tiger clamps like the enemy and its heading component on that axis changes sign. |
| Sprites.Gun.constructor | code/sprites.py:19-29 | The gun starts aiming straight down, 70 pixels below the player's centre. |
| Sprites.Gun.Update | code/sprites.py:53-57 | The aim is the supplied normalization of the cursor offset, and zero exactly when the cursor is at the screen centre. The aim points the way the offset does, sign by sign on each axis. The gun sits 70 pixels along the aim from the player's centre, so it rests on the player exactly when the offset is zero. |
| Sprites.Bullet.constructor | code/sprites.py:61-69 | A new bullet's box is its image's pixel size, centred on its spawn point. It is live and stamped with the current time. |
| Sprites.Bullet.Update | code/sprites.py:71-75 | The bullet moves by `direction * 1200 * dt`. It is removed exactly when 1000 ms have passed since it spawned, whether or not it moved. |
| Sprites.EnemyStepShape | code/sprites.py:102-117 | A frame of enemy motion keeps the hitbox's size. An enemy with a zero heading does not move. |
| Sprites.Enemy.constructor | code/sprites.py:78-96 | A new enemy's drawn box is its frame's pixel size centred on its spawn point. The hitbox is that box inset by 20 x 40 pixels, with the same centre. It is live, not dying, and shows frame 0. |
| Sprites.Enemy.Animate | code/sprites.py:98-100 | The frame index advances by 6 frames per second, and the frame shown is the index's integer part modulo the frame count, always a valid frame. |
| Sprites.Enemy.Collision | code/sprites.py:119-127 | The loop over the obstacles computes exactly the enemy pass `ClampAll` along the axis. |
| Sprites.Enemy.Move | code/sprites.py:102-117 | The enemy takes the chase heading, which points from its centre towards the player's, sign by sign on each axis, and is zero when the centres coincide. It then moves along x with the horizontal pass and along y with the vertical pass (`EnemyStep`). |
| Sprites.Enemy.Destroy | code/sprites.py:129-135 | The death timer is (re)started at `now` and the silhouette is shown, also for an enemy already dying. |
| Sprites.Enemy.DeathTimer | code/sprites.py:137-139 | The enemy is removed exactly when 400 ms have passed since its death time. |
| Sprites.Enemy.Update | code/sprites.py:141-146 | A live enemy moves and animates. A dying one keeps its place, heading, frame and image, and is removed once its 400 ms are up. |
| Sprites.EnemyPace | code/sprites.py:113-116 | With no obstacles, one second (1000 ms) of enemy motion moves the hitbox exactly 200 pixels' worth along its heading: `heading * speed * dt` in position units equals the pixel distance. |
| Sprites.TigerPace | code/sprites.py:194-198 | With no obstacles, one second of tiger motion keeps the heading and moves the hitbox exactly 100 pixels' worth along it. |
| Sprites.TigerStepKeepsSpeed | code/sprites.py:194-212 | A frame of tiger motion only changes the signs of the heading's components, never their size. |
| Sprites.Tiger.constructor | code/sprites.py:149-169 | A new tiger is caged and still, with its direction timer at 0. Its drawn box is its image's pixel size centred on its position, and its hitbox is that box inset by 20 x 20 pixels, with the same centre. |
| Sprites.Tiger.Uncage | code/sprites.py:171-179 | Afterwards the tiger is free. Only a caged tiger takes the new heading; a free one keeps its own. The growl plays on every call when the tiger has one. |
| Sprites.Tiger.Collision | code/sprites.py:200-212 | The loop over the obstacles computes exactly the tiger pass `BounceAll` along the axis, hitbox and heading together. |
| Sprites.Tiger.Move | code/sprites.py:185-198 | A caged tiger changes nothing. A free one takes a new heading and restamps its timer exactly when 2000 ms have passed since the last change, then moves and bounces (`TigerStep`). |
| Game.PickPartition | code/main.py:258 | Picking with `dokill` splits the scrolls into touched and remaining ones. If nothing is touched, the group is unchanged. |
| Game.PickMembers | code/main.py:258 | The picked scrolls are exactly those the player overlaps; the remaining ones exactly those it does not. |
| Game.ScrollAccounting | code/main.py:258-265 | One pickup counts one scroll however many it removes. Scrolls read plus scrolls left never grow, and they shrink exactly when two or more scrolls are touched in the same frame. |
| Game.AvailableMembers | code/main.py:475 | The available points are exactly the spawn points not yet used. |
| Game.Game.ShotByWitness | code/main.py:434-441 | An enemy counts as shot exactly when some bullet that was live when resolution began overlaps it. |
| Game.Game.constructor | code/main.py:22-28 | The game starts with both counters at 0 and no mission, banner, bullets or enemies. The gun is ready, no spawn point is used, every tiger is caged, and `Valid()` holds. |
| Game.Game.CheckMissionComplete | code/main.py:313-321 | The flag is raised exactly when it was down and both counters have reached 5. Only then is the time stamped and the banner shown; on every other call nothing changes. |
| Game.Game.HideBanner | code/main.py:359-360 | The banner goes down exactly when more than 20000 ms have passed since completion. The mission flag stays set. |
| Game.Game.GunTimer | code/main.py:370-374 | A cooling gun becomes ready exactly when 100 ms have passed since the last shot; otherwise nothing changes. |
| Game.Game.Input | code/main.py:362-368 | A shot happens exactly when the button is held and the gun is ready. It appends one fresh bullet centred 50 pixels ahead of the gun along its aim, and the gun starts cooling at `now`. Otherwise nothing changes. |
| Game.Game.SpawnEnemy | code/main.py:474-479 | With an unused point left, the chosen one is added to the used set and a new live enemy appears centred on it. With none left, nothing changes. `Valid()` is kept. |
| Game.Game.SpawnedWithinPoints | code/main.py:475-479 | No more enemies were spawned than there are distinct spawn points, and none are available exactly when every point is used. |
| Game.Game.FreedWithinTigers | code/main.py:306-311 | The tiger counter never exceeds the number of tigers, so the mission can only complete on a map with at least 5 of them. |
| Game.Game.DestroyEnemiesAt | code/main.py:436-440 | `destroy` is called on exactly the live enemies the bullet box overlaps, dying ones included. The result says whether there was one. |
| Game.Game.BulletCollision | code/main.py:433-441 | A live bullet is removed exactly when it overlaps a live enemy, whatever its remaining lifetime. An enemy is destroyed exactly when a bullet that was live overlaps it. Everything else is left as it was. |
| Game.Game.ScrollCollision | code/main.py:257-298 | Every touched scroll is removed. If there was one, the first opens for reading and the counter grows by exactly one, followed by the mission check. With none, nothing changes. `Valid()` is kept. |
| Game.Game.FreeTiger | code/main.py:308-311 | A caged tiger is counted once and the mission is checked. The tiger is then uncaged either way, and a free tiger is not counted again. |
| Game.Game.HandleTigers | code/main.py:300-311 | With the secondary button, every tiger the player touches is uncaged. Exactly the newly freed tigers are counted, so `uncaged_tigers` equals the number of free tigers (`Valid()`). A completed mission stays complete. |

## Left out

- Rendering, the intro narration, text wrapping, the mission status text and
  the scroll overlay (code/main.py:52-90, 215-255, 323-357, 524-574). They are
  presentation only.
- Audio: loading, fallback paths and playback. Two sounds appear as results:
  `Input` returns whether the shoot sound plays and `Tiger.Uncage` whether the
  growl plays. The impact sound and the scroll narration are not modelled.
- Map and asset loading (`setup`, `load_images`). Obstacles, spawn points,
  scrolls, tigers and frame sizes are constructor parameters.
- Vector normalization, the gun's rotation and the tiger's random angle. The
  normalized aim, the chase heading and the tiger headings are parameters. The
  aim and the chase heading must point the way the vector they normalize does,
  sign by sign on each axis, so they are zero exactly when that vector is. A
  tiger heading must be non-zero. The model does not check that any of them
  has length 1000 (`HeadingScale`); the rounding of a normalized vector to
  whole units is not modelled.
- Game.Game.BulletCollision: the pixel-mask test (`collide_mask`) is replaced by
  an overlap of the bullet's rectangle with the enemy's drawn rectangle, which
  is coarser than the mask.
- Randomness (`choice`, `randint`). The spawn point and the enemy animation
  set are parameters constrained to the set `choice` draws from. The tiger's
  random angle is covered by the line on normalization above.
- The pygame clock and event timer, the order of the calls inside `run` and
  `AllSprites.update`. The player and the sprite groups (player.py, groups.py)
  are outside this model, so the player enters as its rectangle.
- `player_collision` (code/main.py:443-445), which the loop never calls.
- Floating point: pygame's `FRect` coordinates are floats. The model uses
  integers in position units. Pixel sizes become even numbers of units, so
  centring a box on a point is exact.
- Sprites.Enemy.constructor: frames must be at least 20 x 40 (tigers: 20 x 20)
  because rectangle sizes are natural numbers. pygame would accept a
  negative-sized hitbox.
- Sprites.Enemy.Update: an enemy destroyed at time 0 would stay not-dying
  (`death_time == 0`), exactly as in the source. The model does not rule this
  out.
- Game.Game.constructor: the map must provide at least one enemy animation set.
  With none, the source's `choice` at code/main.py:479 raises IndexError at the
  first enemy spawn; the model does not model that crash.
- Game.Game.HideBanner: the comment in the source speaks of 5 seconds. The code
  uses 20000 ms and a strict `>`, and the model follows the code.
- Game.Game.HandleTigers: the source collects the touched tigers before its
  loop. The model tests each tiger inside the loop. The two agree because
  uncaging never moves a tiger.
