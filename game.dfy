/** The per-frame game logic of the `Game` class in code/main.py: the mission
    tracker, the gun's cooldown gate, the enemy spawn controller, bullet-versus-enemy
    resolution, scroll pickup and tiger release. The player is given to each
    operation as its rectangle, and every random choice as a parameter drawn from
    the set the source draws it from. */
module Game {
  import opened Geometry
  import opened Sprites

  const TotalScrolls := 5
  const TotalTigers := 5
  const GunCooldown := 100
  /** How long the "mission complete" banner stays up, in milliseconds. */
  const BannerDuration := 20000
  /** Bullets appear this many pixels ahead of the gun's centre, along its direction. */
  const MuzzleOffset := 50

  /** A scroll pickup: where it lies and which narration it carries (1 to 5). */
  datatype Scroll = Scroll(rect: Rect, id: nat)

  /** One of the enemy animation sets: how many frames it has and the size of a frame. */
  datatype FrameSet = FrameSet(count: FrameCount, w: nat, h: nat)

  /** The objectives are reached: enough scrolls read and enough tigers freed. */
  predicate MissionMet(scrolls: nat, tigers: nat) {
    scrolls >= TotalScrolls && tigers >= TotalTigers
  }

  predicate Distinct<T(==)>(s: seq<T>) {
    forall i, j :: 0 <= i < j < |s| ==> s[i] != s[j]
  }

  /** `spritecollide(player, scroll_sprites, True)`: the scrolls the player
      touches, in group order. */
  function Picked(scrolls: seq<Scroll>, player: Rect): seq<Scroll> {
    if scrolls == [] then []
    else (if player.Overlaps(scrolls[0].rect) then [scrolls[0]] else []) + Picked(scrolls[1..], player)
  }

  /** The scrolls left in the group once the touched ones are removed. */
  function Remaining(scrolls: seq<Scroll>, player: Rect): seq<Scroll> {
    if scrolls == [] then []
    else (if player.Overlaps(scrolls[0].rect) then [] else [scrolls[0]]) + Remaining(scrolls[1..], player)
  }

  /** Every scroll is either picked or left, and a pickup that touches nothing
      leaves the group as it was. */
  lemma {:induction false} PickPartition(scrolls: seq<Scroll>, player: Rect)
    ensures |Picked(scrolls, player)| + |Remaining(scrolls, player)| == |scrolls|
    ensures Picked(scrolls, player) == [] <==> Remaining(scrolls, player) == scrolls
  {
    if scrolls != [] {
      PickPartition(scrolls[1..], player);
      assert scrolls == [scrolls[0]] + scrolls[1..];
    }
  }

  /** The picked scrolls are exactly those the player touches, the remaining ones
      exactly those it does not. */
  lemma {:induction false} PickMembers(scrolls: seq<Scroll>, player: Rect)
    ensures forall s :: s in Picked(scrolls, player) <==> s in scrolls && player.Overlaps(s.rect)
    ensures forall s :: s in Remaining(scrolls, player) <==> s in scrolls && !player.Overlaps(s.rect)
  {
    if scrolls != [] {
      PickMembers(scrolls[1..], player);
      assert scrolls == [scrolls[0]] + scrolls[1..];
    }
  }

  /** A pickup counts one scroll however many it removes: read scrolls plus scrolls
      still lying about never grow, and they shrink exactly when two or more
      scrolls are touched in the same frame. */
  lemma ScrollAccounting(scrolls: seq<Scroll>, player: Rect)
    ensures |Remaining(scrolls, player)| + (if Picked(scrolls, player) != [] then 1 else 0) <= |scrolls|
    ensures |Remaining(scrolls, player)| + (if Picked(scrolls, player) != [] then 1 else 0) == |scrolls|
        <==> |Picked(scrolls, player)| <= 1
  {
    PickPartition(scrolls, player);
  }

  /** `[pos for pos in spawn_positions if pos not in used_spawn_positions]`. */
  function Available(spawns: seq<Vec>, used: set<Vec>): seq<Vec> {
    if spawns == [] then []
    else (if spawns[0] in used then [] else [spawns[0]]) + Available(spawns[1..], used)
  }

  /** The available points are exactly the spawn points not yet used. */
  lemma {:induction false} AvailableMembers(spawns: seq<Vec>, used: set<Vec>)
    ensures forall p :: p in Available(spawns, used) <==> p in spawns && p !in used
  {
    if spawns != [] {
      AvailableMembers(spawns[1..], used);
      assert spawns == [spawns[0]] + spawns[1..];
    }
  }

  /** A sequence holds no more distinct elements than it has entries. */
  lemma {:induction false} ElementsWithinLength<T>(s: seq<T>)
    ensures |set x | x in s| <= |s|
  {
    if s != [] {
      var init := s[..|s| - 1];
      ElementsWithinLength(init);
      assert (set x | x in s) == (set x | x in init) + {s[|s| - 1]} by {
        assert s == init + [s[|s| - 1]];
      }
    }
  }

  class Game {
    var collectedScrolls: nat
    var uncagedTigers: nat
    var missionComplete: bool
    var missionCompleteTime: nat
    var showMissionComplete: bool

    var canShoot: bool
    var shootTime: nat

    const spawnPositions: seq<Vec>
    var usedSpawnPositions: set<Vec>
    const enemyFrames: seq<FrameSet>

    var readingScroll: bool
    var currentScrollId: nat
    var scrollStartTime: nat

    /** Every bullet and enemy ever created; the groups are their live members. */
    var bullets: seq<Bullet>
    var enemies: seq<Enemy>
    var scrolls: seq<Scroll>
    const tigers: seq<Tiger>
    ghost var freed: set<Tiger>
    const gun: Gun
    const walls: seq<Rect>
    const bulletW: nat
    const bulletH: nat

    function SpawnSet(): set<Vec> {
      set p | p in spawnPositions
    }

    /** The flag is set exactly when both objectives are met, and the banner only
        shows for a completed mission. */
    ghost predicate MissionValid()
      reads this`missionComplete, this`showMissionComplete, this`collectedScrolls, this`uncagedTigers
    {
      && (missionComplete <==> MissionMet(collectedScrolls, uncagedTigers))
      && (showMissionComplete ==> missionComplete)
    }

    /** Every freed tiger was counted exactly once: `freed` holds the tigers of
        the map that are out of their cages, and the counter is its size. */
    ghost predicate TigersCounted()
      reads this`uncagedTigers, this`freed, tigers`isCaged
    {
      && uncagedTigers == |freed|
      && (forall t :: t in freed ==> t in tigers)
      && (forall k :: 0 <= k < |tigers| ==> (tigers[k] in freed <==> !tigers[k].isCaged))
    }

    /** One enemy per used spawn point, each a spawn point of the map. */
    ghost predicate SpawnValid()
      reads this`usedSpawnPositions, this`enemies
    {
      usedSpawnPositions <= SpawnSet() && |enemies| == |usedSpawnPositions|
    }

    /** A sprite is in a group at most once. */
    ghost predicate GroupsDistinct()
      reads this`bullets, this`enemies
    {
      Distinct(bullets) && Distinct(enemies) && Distinct(tigers)
    }

    /** There is at least one enemy animation set, and every frame leaves room for
        the hitbox's inset. */
    predicate FramesFit() {
      && |enemyFrames| > 0
      && forall k :: 0 <= k < |enemyFrames| ==> enemyFrames[k].w >= 20 && enemyFrames[k].h >= 40
    }

    ghost predicate Valid()
      reads this`missionComplete, this`showMissionComplete, this`collectedScrolls, this`uncagedTigers
      reads this`freed, tigers`isCaged, this`usedSpawnPositions, this`enemies, this`bullets
    {
      MissionValid() && TigersCounted() && SpawnValid() && GroupsDistinct() && FramesFit()
    }

    /** The map as loaded by `setup`: obstacles, spawn points, scrolls, caged
        tigers and the gun beside the player. */
    constructor (walls: seq<Rect>, spawnPositions: seq<Vec>, scrolls: seq<Scroll>, tigers: seq<Tiger>,
                 enemyFrames: seq<FrameSet>, bulletW: nat, bulletH: nat, playerCenter: Vec)
      requires Distinct(tigers)
      requires forall k :: 0 <= k < |tigers| ==> tigers[k].isCaged
      requires |enemyFrames| > 0
      requires forall k :: 0 <= k < |enemyFrames| ==> enemyFrames[k].w >= 20 && enemyFrames[k].h >= 40
      ensures Valid() && fresh(gun)
      ensures collectedScrolls == 0 && uncagedTigers == 0
      ensures !missionComplete && missionCompleteTime == 0 && !showMissionComplete
      ensures canShoot && shootTime == 0
      ensures usedSpawnPositions == {} && bullets == [] && enemies == []
      ensures this.scrolls == scrolls && this.tigers == tigers && this.spawnPositions == spawnPositions
    {
      collectedScrolls, uncagedTigers := 0, 0;
      missionComplete, missionCompleteTime, showMissionComplete := false, 0, false;
      canShoot, shootTime := true, 0;
      this.spawnPositions := spawnPositions;
      usedSpawnPositions := {};
      this.enemyFrames := enemyFrames;
      readingScroll, currentScrollId, scrollStartTime := false, 0, 0;
      bullets, enemies := [], [];
      this.scrolls := scrolls;
      this.tigers := tigers;
      gun := new Gun(playerCenter);
      this.walls := walls;
      this.bulletW, this.bulletH := bulletW, bulletH;
      freed := {};
    }

    /** `check_mission_complete`: the first call that finds both objectives met
        sets the flag, stamps the time and raises the banner; every other call
        changes nothing. */
    method CheckMissionComplete(now: nat)
      modifies this`missionComplete, this`missionCompleteTime, this`showMissionComplete
      ensures missionComplete == (old(missionComplete) || MissionMet(collectedScrolls, uncagedTigers))
      ensures !old(missionComplete) && missionComplete ==> missionCompleteTime == now && showMissionComplete
      ensures old(missionComplete) || !missionComplete ==>
        missionCompleteTime == old(missionCompleteTime) && showMissionComplete == old(showMissionComplete)
    {
      if collectedScrolls >= TotalScrolls && uncagedTigers >= TotalTigers && !missionComplete {
        missionComplete := true;
        missionCompleteTime := now;
        showMissionComplete := true;
      }
    }

    /** The auto-hide in `draw_mission_status`: the banner goes once more than
        20000 ms have passed since completion; the mission flag stays set. */
    method HideBanner(now: nat)
      requires Valid()
      modifies this`showMissionComplete
      ensures Valid()
      ensures showMissionComplete == (old(showMissionComplete) && now - missionCompleteTime <= BannerDuration)
      ensures missionComplete == old(missionComplete)
    {
      if showMissionComplete {
        if now - missionCompleteTime > BannerDuration {
          showMissionComplete := false;
        }
      }
    }

    /** `gun_timer`: a cooling gun is ready again once the cooldown has elapsed
        since the last shot; otherwise nothing changes. */
    method GunTimer(now: nat)
      modifies this`canShoot
      ensures canShoot == (old(canShoot) || now - shootTime >= GunCooldown)
    {
      if !canShoot {
        if now - shootTime >= GunCooldown {
          canShoot := true;
        }
      }
    }

    /** A bullet fired at time `now` from the gun as it stands. */
    predicate Launched(b: Bullet, now: nat)
      reads this, gun, b
    {
      && b.rect == CenteredAt(gun.center.Plus(Ahead(gun.direction, MuzzleOffset)), Px(bulletW), Px(bulletH))
      && b.direction == gun.direction
      && b.spawnTime == now
      && b.alive
    }

    /** `input`: with the primary button held and the gun ready, one bullet is
        fired from just ahead of the gun and the gun starts cooling; otherwise
        nothing happens. `fired` is the shoot sound. */
    method Input(now: nat, pressed: bool) returns (fired: bool)
      requires Valid()
      modifies this`bullets, this`canShoot, this`shootTime
      ensures Valid()
      ensures fired == (pressed && old(canShoot))
      ensures fired ==>
        && |bullets| == |old(bullets)| + 1
        && bullets[..|old(bullets)|] == old(bullets)
        && fresh(bullets[|old(bullets)|])
        && Launched(bullets[|old(bullets)|], now)
        && !canShoot && shootTime == now
      ensures !fired ==> bullets == old(bullets) && canShoot == old(canShoot) && shootTime == old(shootTime)
    {
      fired := false;
      if pressed && canShoot {
        var pos := gun.center.Plus(Ahead(gun.direction, MuzzleOffset));
        var b := new Bullet(bulletW, bulletH, pos, gun.direction, now);
        bullets := bullets + [b];
        canShoot := false;
        shootTime := now;
        fired := true;
      }
    }

    /** The spawn branch of `run`, on each enemy timer event. `pick` stands for
        `choice(available_positions)` and `kind` for the random animation set.
        With a point left, it is used up and an enemy appears there; with none
        left, nothing happens. */
    method SpawnEnemy(pick: Vec, kind: nat)
      requires Valid()
      requires Available(spawnPositions, usedSpawnPositions) != [] ==>
        pick in Available(spawnPositions, usedSpawnPositions) && kind < |enemyFrames|
      modifies this`usedSpawnPositions, this`enemies
      ensures Valid()
      ensures old(Available(spawnPositions, usedSpawnPositions)) == [] ==>
        usedSpawnPositions == old(usedSpawnPositions) && enemies == old(enemies)
      ensures old(Available(spawnPositions, usedSpawnPositions)) != [] ==>
        && pick in spawnPositions && pick !in old(usedSpawnPositions)
        && usedSpawnPositions == old(usedSpawnPositions) + {pick}
        && |enemies| == |old(enemies)| + 1
        && enemies[..|old(enemies)|] == old(enemies)
        && fresh(enemies[|old(enemies)|])
        && enemies[|old(enemies)|].VisualRect() == CenteredAt(pick, Px(enemyFrames[kind].w), Px(enemyFrames[kind].h))
        && enemies[|old(enemies)|].frameCount == enemyFrames[kind].count
        && enemies[|old(enemies)|].alive && !enemies[|old(enemies)|].Dying()
    {
      var available := Available(spawnPositions, usedSpawnPositions);
      AvailableMembers(spawnPositions, usedSpawnPositions);
      if available != [] {
        var frames := enemyFrames[kind];
        usedSpawnPositions := usedSpawnPositions + {pick};
        var e := new Enemy(pick, frames.count, frames.w, frames.h, walls);
        enemies := enemies + [e];
      }
    }

    /** No more enemies were spawned than there are distinct spawn points, and
        spawning stops exactly when every point has been used. */
    lemma SpawnedWithinPoints()
      requires Valid()
      ensures |enemies| <= |SpawnSet()|
      ensures Available(spawnPositions, usedSpawnPositions) == [] <==> usedSpawnPositions == SpawnSet()
    {
      var avail := Available(spawnPositions, usedSpawnPositions);
      AvailableMembers(spawnPositions, usedSpawnPositions);
      assert SpawnSet() == usedSpawnPositions + (SpawnSet() - usedSpawnPositions);
      if avail != [] {
        assert avail[0] in SpawnSet() - usedSpawnPositions;
      } else {
        assert forall p :: p in SpawnSet() ==> p in usedSpawnPositions;
      }
    }

    /** Freed tigers are tigers of the map, each counted once, so the counter
        never exceeds the number of tigers, and the mission can only be complete
        on a map with at least `TotalTigers` of them. */
    lemma FreedWithinTigers()
      requires Valid()
      ensures uncagedTigers <= |tigers|
      ensures missionComplete ==> |tigers| >= TotalTigers
    {
      var all := set t | t in tigers;
      ElementsWithinLength(tigers);
      assert freed <= all;
      assert all == freed + (all - freed);
    }

    /** The bullet box `r` overlaps a live enemy (dying ones included). */
    predicate HitsEnemy(r: Rect)
      reads this`enemies, enemies`alive, enemies`hitbox
    {
      exists j :: 0 <= j < |enemies| && enemies[j].alive && r.Overlaps(enemies[j].VisualRect())
    }

    /** An enemy's death timer and image after a resolution step: restarted at
        `now` with the silhouette shown if it was `hit`, as before otherwise. */
    static predicate Marked(deathTime: nat, image: Image, hit: bool, oldDeathTime: nat, oldImage: Image, now: nat) {
      if hit then deathTime == now && image == Silhouette
      else deathTime == oldDeathTime && image == oldImage
    }

    /** The inner step of `bullet_collision` for one bullet box: every live enemy
        it overlaps is destroyed, and no other enemy is touched. */
    method DestroyEnemiesAt(r: Rect, now: nat) returns (hit: bool)
      requires Distinct(enemies)
      modifies enemies`deathTime, enemies`image
      ensures hit == HitsEnemy(r)
      ensures forall j :: 0 <= j < |enemies| ==>
        Marked(enemies[j].deathTime, enemies[j].image, enemies[j].alive && r.Overlaps(enemies[j].VisualRect()),
               old(enemies[j].deathTime), old(enemies[j].image), now)
    {
      hit := false;
      var i := 0;
      while i < |enemies|
        invariant 0 <= i <= |enemies|
        invariant hit == exists j :: 0 <= j < i && enemies[j].alive && r.Overlaps(enemies[j].VisualRect())
        invariant forall j :: 0 <= j < |enemies| ==>
          Marked(enemies[j].deathTime, enemies[j].image, j < i && enemies[j].alive && r.Overlaps(enemies[j].VisualRect()),
                 old(enemies[j].deathTime), old(enemies[j].image), now)
      {
        var e := enemies[i];
        if e.alive && r.Overlaps(e.VisualRect()) {
          e.Destroy(now);
          hit := true;
        }
        i := i + 1;
      }
    }

    /** Which bullets are in the bullet group. */
    function LiveBullets(bs: seq<Bullet>): (r: seq<bool>)
      reads bs
    {
      seq(|bs|, k requires 0 <= k < |bs| reads bs => bs[k].alive)
    }

    /** Where the bullets are. */
    function BulletBoxes(bs: seq<Bullet>): (r: seq<Rect>)
      reads bs
    {
      seq(|bs|, k requires 0 <= k < |bs| reads bs => bs[k].rect)
    }

    /** One of the first `n` bullet boxes whose bullet was live (`live`) overlaps
        the enemy box `target`. */
    predicate ShotBy(target: Rect, boxes: seq<Rect>, live: seq<bool>, n: nat)
      requires n <= |boxes| && n <= |live|
    {
      n > 0 && (ShotBy(target, boxes, live, n - 1) || (live[n - 1] && boxes[n - 1].Overlaps(target)))
    }

    /** `ShotBy` is the existential it abbreviates: some originally live bullet
        among the first `n` overlaps `target`. */
    lemma {:induction false} ShotByWitness(target: Rect, boxes: seq<Rect>, live: seq<bool>, n: nat)
      requires n <= |boxes| && n <= |live|
      ensures ShotBy(target, boxes, live, n) <==> exists k :: 0 <= k < n && live[k] && boxes[k].Overlaps(target)
    {
      if n > 0 {
        ShotByWitness(target, boxes, live, n - 1);
      }
    }

    /** `bullet_collision`: every live bullet that overlaps a live enemy destroys
        every enemy it overlaps and is removed at once, whatever its remaining
        lifetime; bullets that overlap nothing are left as they were. */
    method BulletCollision(now: nat)
      requires Valid()
      modifies bullets`alive, enemies`deathTime, enemies`image
      ensures Valid()
      ensures forall k :: 0 <= k < |bullets| ==>
        bullets[k].alive == (old(bullets[k].alive) && !HitsEnemy(bullets[k].rect))
      ensures forall j :: 0 <= j < |enemies| ==>
        Marked(enemies[j].deathTime, enemies[j].image,
               enemies[j].alive && ShotBy(enemies[j].VisualRect(), old(BulletBoxes(bullets)), old(LiveBullets(bullets)), |bullets|),
               old(enemies[j].deathTime), old(enemies[j].image), now)
    {
      ghost var live := LiveBullets(bullets);
      ghost var boxes := BulletBoxes(bullets);
      var i := 0;
      while i < |bullets|
        invariant 0 <= i <= |bullets|
        invariant Distinct(bullets)
        invariant forall k :: 0 <= k < |bullets| ==>
          bullets[k].alive == (old(bullets[k].alive) && !(k < i && old(HitsEnemy(bullets[k].rect))))
        invariant forall j :: 0 <= j < |enemies| ==>
          Marked(enemies[j].deathTime, enemies[j].image, old(enemies[j].alive) && ShotBy(old(enemies[j].VisualRect()), boxes, live, i),
                 old(enemies[j].deathTime), old(enemies[j].image), now)
      {
        var b := bullets[i];
        if b.alive {
          var hit := DestroyEnemiesAt(b.rect, now);
          assert hit == old(HitsEnemy(b.rect));
          if hit {
            b.alive := false;
          }
        }
        i := i + 1;
      }
    }

    /** `scroll_collision`: every scroll the player touches is removed; if there
        was at least one, the first opens for reading and the collected count grows
        by exactly one, followed by the mission check. */
    method ScrollCollision(player: Rect, now: nat)
      requires Valid()
      modifies this`scrolls, this`collectedScrolls, this`readingScroll, this`currentScrollId,
               this`scrollStartTime, this`missionComplete, this`missionCompleteTime, this`showMissionComplete
      ensures Valid()
      ensures scrolls == Remaining(old(scrolls), player)
      ensures collectedScrolls == old(collectedScrolls) + (if Picked(old(scrolls), player) != [] then 1 else 0)
      ensures Picked(old(scrolls), player) != [] ==>
        readingScroll && currentScrollId == Picked(old(scrolls), player)[0].id && scrollStartTime == now
      ensures Picked(old(scrolls), player) == [] ==>
        readingScroll == old(readingScroll) && currentScrollId == old(currentScrollId) && scrollStartTime == old(scrollStartTime)
      ensures old(missionComplete) || !missionComplete ==>
        missionCompleteTime == old(missionCompleteTime) && showMissionComplete == old(showMissionComplete)
      ensures !old(missionComplete) && missionComplete ==> missionCompleteTime == now && showMissionComplete
    {
      var hits := Picked(scrolls, player);
      PickPartition(scrolls, player);
      if hits != [] {
        scrolls := Remaining(scrolls, player);
        var scroll := hits[0];
        readingScroll := true;
        currentScrollId := scroll.id;
        scrollStartTime := now;
        collectedScrolls := collectedScrolls + 1;
        CheckMissionComplete(now);
      }
    }

    /** The player's box overlaps tiger `t`'s box. */
    predicate Touches(player: Rect, t: Tiger)
      reads t`hitbox
    {
      player.Overlaps(t.VisualRect())
    }

    /** The body of `handle_tigers`'s loop for tiger `i`, which the player touches:
        a caged tiger is counted and the mission checked, then the tiger is
        uncaged. */
    method FreeTiger(t: Tiger, i: nat, heading: Vec, now: nat)
      requires Valid() && i < |tigers| && t == tigers[i] && heading != Zero
      modifies this`uncagedTigers, this`freed, this`missionComplete, this`missionCompleteTime, this`showMissionComplete
      modifies t`isCaged, t`direction
      ensures Valid()
      ensures !t.isCaged
      ensures t.direction == if old(t.isCaged) then heading else old(t.direction)
      ensures uncagedTigers == old(uncagedTigers) + (if old(t.isCaged) then 1 else 0)
      ensures old(missionComplete) ==> missionComplete
      ensures freed == if old(t.isCaged) then old(freed) + {t} else old(freed)
      ensures old(missionComplete) || !missionComplete ==>
        missionCompleteTime == old(missionCompleteTime) && showMissionComplete == old(showMissionComplete)
      ensures !old(missionComplete) && missionComplete ==> missionCompleteTime == now && showMissionComplete
    {
      if t.isCaged {
        uncagedTigers := uncagedTigers + 1;
        freed := freed + {t};
        CheckMissionComplete(now);
      }
      var growl := t.Uncage(heading);
    }

    /** Tiger `t`'s state after `handle_tigers`, from its state before and whether
        it was uncaged (`touched`): it is caged only if it was and was left alone,
        and it takes `heading` only when it leaves its cage. */
    predicate Handled(t: Tiger, touched: bool, wasCaged: bool, oldDirection: Vec, heading: Vec)
      reads t`isCaged, t`direction
    {
      && t.isCaged == (wasCaged && !touched)
      && t.direction == if touched && wasCaged then heading else oldDirection
    }

    /** `handle_tigers`: with the secondary button pressed, every tiger the player
        touches is uncaged, in group order; each one that was still caged is
        counted (once: `freed` grows by exactly the newly released tigers) and
        followed by the mission check. `headings[k]` is tiger k's random initial
        heading. */
    method HandleTigers(player: Rect, pressed: bool, headings: seq<Vec>, now: nat)
      requires Valid()
      requires |headings| == |tigers| && forall k :: 0 <= k < |headings| ==> headings[k] != Zero
      modifies this`uncagedTigers, this`freed, this`missionComplete, this`missionCompleteTime, this`showMissionComplete
      modifies tigers`isCaged, tigers`direction
      ensures Valid()
      ensures forall k :: 0 <= k < |tigers| ==>
        Handled(tigers[k], pressed && Touches(player, tigers[k]), old(tigers[k].isCaged), old(tigers[k].direction), headings[k])
      ensures old(freed) <= freed
      ensures old(missionComplete) ==> missionComplete
      ensures old(missionComplete) || !missionComplete ==>
        missionCompleteTime == old(missionCompleteTime) && showMissionComplete == old(showMissionComplete)
      ensures !old(missionComplete) && missionComplete ==> missionCompleteTime == now && showMissionComplete
    {
      if pressed {
        var i := 0;
        while i < |tigers|
          invariant 0 <= i <= |tigers|
          invariant Valid()
          invariant old(missionComplete) ==> missionComplete
          invariant old(freed) <= freed
          invariant forall k :: 0 <= k < |tigers| ==>
            Handled(tigers[k], k < i && Touches(player, tigers[k]), old(tigers[k].isCaged), old(tigers[k].direction), headings[k])
          invariant old(missionComplete) || !missionComplete ==>
            missionCompleteTime == old(missionCompleteTime) && showMissionComplete == old(showMissionComplete)
          invariant !old(missionComplete) && missionComplete ==> missionCompleteTime == now && showMissionComplete
        {
          if player.Overlaps(tigers[i].VisualRect()) {
            FreeTiger(tigers[i], i, headings[i], now);
          }
          i := i + 1;
        }
      }
    }
  }
}
