/** The moving entities of code/sprites.py: the gun, bullets, enemies and tigers.
    Each is a class whose methods update its fields in place, as the sprites do.
    Time `now` is the millisecond clock (`pygame.time.get_ticks()`), `dt` the
    milliseconds of the current frame; positions and headings are in the units of
    module Geometry, and sizes and distances are given in pixels. pygame's `kill()` removes a sprite from every
    group; here it clears the sprite's `alive` flag, and a group is the set of its
    live members. */
module Sprites {
  import opened Geometry
  import opened Collision

  /** Pixels between the player's centre and the gun's. */
  const GunDistance := 70
  /** Speeds in pixels per second. */
  const BulletSpeed := 1200
  const BulletLifetime := 1000
  const EnemySpeed := 200
  /** Frames per second; the frame index is kept in thousandths of a frame. */
  const AnimationSpeed := 6
  const DeathDuration := 400
  const TigerSpeed := 100
  const DirectionChangeCooldown := 2000

  /** The number of frames in an animation: never zero, since frame 0 is shown first. */
  type FrameCount = n: nat | n > 0 witness 1

  /** What an enemy shows: one frame of its animation, or the silhouette of a dying enemy. */
  datatype Image = Frame(index: nat) | Silhouette

  /** The gun orbits the player at a fixed distance along the aim direction. */
  class Gun {
    var center: Vec
    var direction: Vec

    constructor (playerCenter: Vec)
      ensures direction == Vec(0, HeadingScale)
      ensures center == playerCenter.Plus(Vec(0, Px(GunDistance)))
    {
      direction := Vec(0, HeadingScale);
      center := playerCenter.Plus(Ahead(Vec(0, HeadingScale), GunDistance));
    }

    /** `Gun.update`: `offset` is the cursor's position relative to the screen centre
        and `unit` its normalization (supplied by the caller, pointing the way
        `offset` does); a cursor exactly at the centre gives the zero direction,
        which parks the gun on the player. */
    method Update(playerCenter: Vec, offset: Vec, unit: Vec)
      requires offset != Zero ==> PointsAlong(unit, offset)
      modifies this
      ensures direction == if offset == Zero then Zero else unit
      ensures direction == Zero <==> offset == Zero
      ensures PointsAlong(direction, offset)
      ensures center == playerCenter.Plus(Ahead(direction, GunDistance))
      ensures center == playerCenter <==> offset == Zero
    {
      if offset != Zero {
        direction := unit;
      } else {
        direction := Zero;
      }
      center := playerCenter.Plus(Ahead(direction, GunDistance));
    }
  }

  class Bullet {
    var rect: Rect
    const direction: Vec
    const spawnTime: nat
    var alive: bool

    /** A bullet whose image is w x h pixels, centred on `pos`, fired at time `now`. */
    constructor (w: nat, h: nat, pos: Vec, direction: Vec, now: nat)
      ensures rect == CenteredAt(pos, Px(w), Px(h))
      ensures this.direction == direction && spawnTime == now && alive
    {
      rect := CenteredAt(pos, Px(w), Px(h));
      this.direction := direction;
      spawnTime := now;
      alive := true;
    }

    /** The lifetime has run out: at or after `spawnTime + BulletLifetime`. */
    predicate Expired(now: nat) {
      now - spawnTime >= BulletLifetime
    }

    /** `Bullet.update`: moves in a straight line, and removes itself once its
        lifetime is over, whether or not it moved. */
    method Update(now: nat, dt: nat)
      modifies this`rect, this`alive
      ensures rect == old(rect).Shift(direction.Scale(BulletSpeed * dt))
      ensures alive == (old(alive) && !Expired(now))
    {
      rect := rect.Shift(direction.Scale(BulletSpeed * dt));
      if now - spawnTime >= BulletLifetime {
        alive := false;
      }
    }
  }

  /** Where one frame of enemy motion takes the hitbox: first along x with the
      horizontal pass, then along y with the vertical pass. */
  function EnemyStep(box: Rect, heading: Vec, dt: nat, walls: seq<Rect>): Rect {
    var moved := ClampAll(box.Shift(Vec(heading.x * EnemySpeed * dt, 0)), heading, walls, Horizontal);
    ClampAll(moved.Shift(Vec(0, heading.y * EnemySpeed * dt)), heading, walls, Vertical)
  }

  /** A frame of enemy motion keeps the hitbox's size, and an enemy with a zero
      heading (standing on the player's centre) does not move at all. */
  lemma EnemyStepShape(box: Rect, heading: Vec, dt: nat, walls: seq<Rect>)
    ensures EnemyStep(box, heading, dt, walls).w == box.w
    ensures EnemyStep(box, heading, dt, walls).h == box.h
    ensures heading == Zero ==> EnemyStep(box, heading, dt, walls) == box
  {
    var moved := ClampAll(box.Shift(Vec(heading.x * EnemySpeed * dt, 0)), heading, walls, Horizontal);
    ClampAllKeepsShape(box.Shift(Vec(heading.x * EnemySpeed * dt, 0)), heading, walls, Horizontal);
    ClampAllKeepsShape(moved.Shift(Vec(0, heading.y * EnemySpeed * dt)), heading, walls, Vertical);
    if heading == Zero {
      ClampAllStill(box.Shift(Vec(heading.x * EnemySpeed * dt, 0)), heading, walls, Horizontal);
      ClampAllStill(moved.Shift(Vec(0, heading.y * EnemySpeed * dt)), heading, walls, Vertical);
    }
  }

  /** The two units agree: in open ground, one second (1000 ms) of enemy motion
      carries the hitbox exactly `EnemySpeed` pixels along its heading. */
  lemma EnemyPace(box: Rect, heading: Vec)
    ensures EnemyStep(box, heading, 1000, []) == box.Shift(Ahead(heading, EnemySpeed))
  {
  }

  class Enemy {
    var hitbox: Rect
    var direction: Vec
    /** The animation position, in thousandths of a frame. */
    var frameIndex: nat
    var image: Image
    /** 0 while alive; the time `destroy` was last called once dying. */
    var deathTime: nat
    var alive: bool
    const frameCount: FrameCount
    const walls: seq<Rect>

    /** An enemy whose frames are w x h pixels, centred on `pos`; its hitbox is the
        frame's box shrunk by 20 pixels in width and 40 in height. */
    constructor (pos: Vec, frameCount: FrameCount, w: nat, h: nat, walls: seq<Rect>)
      requires w >= 20 && h >= 40
      ensures hitbox == Rect(CenteredAt(pos, Px(w), Px(h)).x + Px(10), CenteredAt(pos, Px(w), Px(h)).y + Px(20), Px(w - 20), Px(h - 40))
      ensures VisualRect() == CenteredAt(pos, Px(w), Px(h))
      ensures hitbox.Center() == pos
      ensures direction == Zero && frameIndex == 0 && image == Frame(0)
      ensures deathTime == 0 && alive
      ensures this.frameCount == frameCount && this.walls == walls
    {
      var r := CenteredAt(pos, Px(w), Px(h));
      hitbox := Rect(r.x + Px(10), r.y + Px(20), Px(w - 20), Px(h - 40));
      direction := Zero;
      frameIndex := 0;
      image := Frame(0);
      deathTime := 0;
      alive := true;
      this.frameCount := frameCount;
      this.walls := walls;
    }

    /** The drawn box: its centre is the hitbox's, its size the frame's. */
    function VisualRect(): Rect
      reads this`hitbox
    {
      hitbox.Inflate(Px(20), Px(40))
    }

    predicate Dying()
      reads this`deathTime
    {
      deathTime != 0
    }

    /** `Enemy.animate`: advances the animation and shows the frame it has reached,
        wrapping around the frame list. */
    method Animate(dt: nat)
      modifies this`frameIndex, this`image
      ensures frameIndex == old(frameIndex) + AnimationSpeed * dt
      ensures image == Frame((frameIndex / 1000) % frameCount)
      ensures image.Frame? && image.index < frameCount
    {
      frameIndex := frameIndex + AnimationSpeed * dt;
      image := Frame((frameIndex / 1000) % frameCount);
    }

    /** `Enemy.collision`: one pass over the obstacles along `axis`, clamping only. */
    method Collision(axis: Axis)
      modifies this`hitbox
      ensures hitbox == ClampAll(old(hitbox), direction, walls, axis)
    {
      var i := 0;
      while i < |walls|
        invariant 0 <= i <= |walls|
        invariant hitbox == ClampAll(old(hitbox), direction, walls[..i], axis)
      {
        var wall := walls[i];
        if wall.Overlaps(hitbox) {
          match axis
          case Horizontal =>
            if direction.x > 0 { hitbox := hitbox.WithRight(wall.Left()); }
            if direction.x < 0 { hitbox := hitbox.WithLeft(wall.Right()); }
          case Vertical =>
            if direction.y < 0 { hitbox := hitbox.WithTop(wall.Bottom()); }
            if direction.y > 0 { hitbox := hitbox.WithBottom(wall.Top()); }
        }
        assert walls[..i + 1][..i] == walls[..i];
        i := i + 1;
      }
      assert walls[..|walls|] == walls;
    }

    /** `Enemy.move`: `heading` is the normalization, supplied by the caller, of the
        vector from the enemy's centre to `target`, the player's centre; it is zero
        exactly when the centres coincide. */
    method Move(target: Vec, heading: Vec, dt: nat)
      requires PointsAlong(heading, target.Minus(VisualRect().Center()))
      modifies this`hitbox, this`direction
      ensures direction == heading
      ensures hitbox == EnemyStep(old(hitbox), heading, dt, walls)
    {
      direction := heading;
      hitbox := hitbox.Shift(Vec(direction.x * EnemySpeed * dt, 0));
      Collision(Horizontal);
      hitbox := hitbox.Shift(Vec(0, direction.y * EnemySpeed * dt));
      Collision(Vertical);
    }

    /** `Enemy.destroy`: (re)starts the death timer and shows the silhouette. A hit
        on an enemy that is already dying restarts its timer. */
    method Destroy(now: nat)
      modifies this`deathTime, this`image
      ensures deathTime == now && image == Silhouette
    {
      deathTime := now;
      image := Silhouette;
    }

    /** `Enemy.death_timer`: removes the enemy once the death duration has passed. */
    method DeathTimer(now: nat)
      modifies this`alive
      ensures alive == (old(alive) && now - deathTime < DeathDuration)
    {
      if now - deathTime >= DeathDuration {
        alive := false;
      }
    }

    /** `Enemy.update`: a live enemy moves and animates; a dying one stays frozen
        (place, heading, frame and image) and is removed when its time is up. */
    method Update(now: nat, target: Vec, heading: Vec, dt: nat)
      requires !Dying() ==> PointsAlong(heading, target.Minus(VisualRect().Center()))
      modifies this`hitbox, this`direction, this`frameIndex, this`image, this`alive
      ensures !Dying() ==> direction == heading && hitbox == EnemyStep(old(hitbox), heading, dt, walls)
      ensures !Dying() ==> frameIndex == old(frameIndex) + AnimationSpeed * dt && image == Frame((frameIndex / 1000) % frameCount)
      ensures !Dying() ==> alive == old(alive)
      ensures Dying() ==> hitbox == old(hitbox) && direction == old(direction)
      ensures Dying() ==> frameIndex == old(frameIndex) && image == old(image)
      ensures Dying() ==> alive == (old(alive) && now - deathTime < DeathDuration)
    {
      if deathTime == 0 {
        Move(target, heading, dt);
        Animate(dt);
      } else {
        DeathTimer(now);
      }
    }
  }

  /** Where one frame of tiger motion takes the hitbox and the heading: the
      horizontal pass may reverse the x component, and the y displacement uses
      the heading as that pass left it. */
  function TigerStep(box: Rect, dir: Vec, dt: nat, walls: seq<Rect>): (Rect, Vec) {
    var (moved, turned) := BounceAll(box.Shift(Vec(dir.x * TigerSpeed * dt, 0)), dir, walls, Horizontal);
    BounceAll(moved.Shift(Vec(0, turned.y * TigerSpeed * dt)), turned, walls, Vertical)
  }

  /** Bouncing only ever changes the signs of the heading's components, never
      their size: a tiger keeps its speed for as long as it keeps its heading. */
  /** In open ground a free tiger keeps its heading, and one second of motion
      carries it exactly `TigerSpeed` pixels along it. */
  lemma TigerPace(box: Rect, dir: Vec)
    ensures TigerStep(box, dir, 1000, []) == (box.Shift(Ahead(dir, TigerSpeed)), dir)
  {
  }

  lemma TigerStepKeepsSpeed(box: Rect, dir: Vec, dt: nat, walls: seq<Rect>)
    ensures TigerStep(box, dir, dt, walls).1.x == dir.x || TigerStep(box, dir, dt, walls).1.x == -dir.x
    ensures TigerStep(box, dir, dt, walls).1.y == dir.y || TigerStep(box, dir, dt, walls).1.y == -dir.y
  {
    var first := box.Shift(Vec(dir.x * TigerSpeed * dt, 0));
    BounceAllFlips(first, dir, walls, Horizontal);
    var (moved, turned) := BounceAll(first, dir, walls, Horizontal);
    BounceAllFlips(moved.Shift(Vec(0, turned.y * TigerSpeed * dt)), turned, walls, Vertical);
  }

  class Tiger {
    var hitbox: Rect
    var direction: Vec
    var isCaged: bool
    var directionChangeTime: nat
    const walls: seq<Rect>
    const hasGrowl: bool

    /** A caged, still tiger whose image is w x h pixels, centred on `pos`; its hitbox
        is the image's box shrunk by 20 pixels each way. */
    constructor (pos: Vec, w: nat, h: nat, walls: seq<Rect>, hasGrowl: bool)
      requires w >= 20 && h >= 20
      ensures hitbox == Rect(CenteredAt(pos, Px(w), Px(h)).x + Px(10), CenteredAt(pos, Px(w), Px(h)).y + Px(10), Px(w - 20), Px(h - 20))
      ensures VisualRect() == CenteredAt(pos, Px(w), Px(h))
      ensures hitbox.Center() == pos
      ensures isCaged && direction == Zero && directionChangeTime == 0
      ensures this.walls == walls && this.hasGrowl == hasGrowl
    {
      var r := CenteredAt(pos, Px(w), Px(h));
      hitbox := Rect(r.x + Px(10), r.y + Px(10), Px(w - 20), Px(h - 20));
      direction := Zero;
      isCaged := true;
      directionChangeTime := 0;
      this.walls := walls;
      this.hasGrowl := hasGrowl;
    }

    /** The drawn box, whose centre is the hitbox's. */
    function VisualRect(): Rect
      reads this`hitbox
    {
      hitbox.Inflate(Px(20), Px(20))
    }

    /** `Tiger.uncage`: a caged tiger is freed and takes the random initial heading
        `heading` (a unit vector, so never zero); a free tiger keeps its heading.
        Either way the growl is played when the tiger has one. */
    method Uncage(heading: Vec) returns (growl: bool)
      requires heading != Zero
      modifies this`isCaged, this`direction
      ensures !isCaged
      ensures direction == if old(isCaged) then heading else old(direction)
      ensures growl == hasGrowl
    {
      if isCaged {
        isCaged := false;
        direction := heading;
      }
      growl := hasGrowl;
    }

    /** `Tiger.collision`: one pass over the obstacles along `axis`, clamping and
        reversing the heading's component on that axis at every contact. */
    method Collision(axis: Axis)
      modifies this`hitbox, this`direction
      ensures (hitbox, direction) == BounceAll(old(hitbox), old(direction), walls, axis)
    {
      var i := 0;
      while i < |walls|
        invariant 0 <= i <= |walls|
        invariant (hitbox, direction) == BounceAll(old(hitbox), old(direction), walls[..i], axis)
      {
        var wall := walls[i];
        if wall.Overlaps(hitbox) {
          match axis
          case Horizontal =>
            if direction.x > 0 { hitbox := hitbox.WithRight(wall.Left()); }
            if direction.x < 0 { hitbox := hitbox.WithLeft(wall.Right()); }
            direction := direction.(x := -direction.x);
          case Vertical =>
            if direction.y < 0 { hitbox := hitbox.WithTop(wall.Bottom()); }
            if direction.y > 0 { hitbox := hitbox.WithBottom(wall.Top()); }
            direction := direction.(y := -direction.y);
        }
        assert walls[..i + 1][..i] == walls[..i];
        i := i + 1;
      }
      assert walls[..|walls|] == walls;
    }

    /** `Tiger.move` (all of `Tiger.update`): a caged tiger does nothing. A free one
        takes the new random heading `heading` when 2000 ms have passed since the
        last change, then moves axis by axis, bouncing off obstacles. */
    method Move(now: nat, heading: Vec, dt: nat)
      requires heading != Zero
      modifies this`hitbox, this`direction, this`directionChangeTime
      ensures old(isCaged) ==> hitbox == old(hitbox) && direction == old(direction)
      ensures old(isCaged) ==> directionChangeTime == old(directionChangeTime)
      ensures !old(isCaged) ==>
        var turn := now - old(directionChangeTime) >= DirectionChangeCooldown;
        && directionChangeTime == (if turn then now else old(directionChangeTime))
        && (hitbox, direction) == TigerStep(old(hitbox), if turn then heading else old(direction), dt, walls)
    {
      if !isCaged {
        if now - directionChangeTime >= DirectionChangeCooldown {
          direction := heading;
          directionChangeTime := now;
        }
        hitbox := hitbox.Shift(Vec(direction.x * TigerSpeed * dt, 0));
        Collision(Horizontal);
        hitbox := hitbox.Shift(Vec(0, direction.y * TigerSpeed * dt));
        Collision(Vertical);
      }
    }
  }
}
