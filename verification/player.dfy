/** The input-driven sprite: `Player.update` reads four direction keys and an
    edge-triggered fire key, and `Player.laser_timer` re-arms the weapon after
    a cooldown. Time ("now", in milliseconds) and the key states are inputs. */
module Players {
  import opened Wrappers
  import opened Geometry
  import opened Physics
  import opened Weapons
  import opened Entities

  /** The keys `Player.update` reads: held arrow keys and a space that went
      down since the previous frame (`get_just_pressed`). */
  datatype Keys = Keys(left: bool, right: bool, up: bool, down: bool, spaceJustPressed: bool)

  // ---------------------------------------------------------------------
  // Direction from the keys

  /** `int(keys[pos]) - int(keys[neg])` */
  function KeyAxis(neg: bool, pos: bool): (r: int)
    ensures -1 <= r <= 1
    ensures r == 1 <==> pos && !neg
    ensures r == -1 <==> neg && !pos
    ensures r == 0 <==> pos == neg
  {
    (if pos then 1 else 0) - (if neg then 1 else 0)
  }

  /** Each component of a key vector is -1, 0 or 1. */
  predicate IsKeyVec(v: Vec) {
    (v.x == -1.0 || v.x == 0.0 || v.x == 1.0) && (v.y == -1.0 || v.y == 0.0 || v.y == 1.0)
  }

  /** The direction before normalising: right minus left, down minus up. */
  function RawDirection(k: Keys): (v: Vec)
    ensures IsKeyVec(v)
    ensures v.x == KeyAxis(k.left, k.right) as real
    ensures v.y == KeyAxis(k.up, k.down) as real
  {
    Vec(KeyAxis(k.left, k.right) as real, KeyAxis(k.up, k.down) as real)
  }

  /** 1/sqrt(2) as the double that `Vector2.normalize` yields for a diagonal. */
  const InvSqrt2: real := 0.7071067811865475

  /** `v.normalize() if v else v` for a key vector: the zero vector stays
      zero, an axis-aligned vector is already of length one, a diagonal is
      scaled by 1/sqrt(2). */
  function Normalize(v: Vec): (r: Vec)
    requires IsKeyVec(v)
    ensures v == Zero ==> r == Zero
    ensures (r.x < 0.0 <==> v.x < 0.0) && (r.x > 0.0 <==> v.x > 0.0)
    ensures (r.y < 0.0 <==> v.y < 0.0) && (r.y > 0.0 <==> v.y > 0.0)
    ensures v != Zero ==> 0.9999999999999999 <= r.x * r.x + r.y * r.y <= 1.0
  {
    if v == Zero then v
    else if v.x != 0.0 && v.y != 0.0 then v.Scale(InvSqrt2)
    else v
  }

  /** The direction a player takes from its keys; it replaces the old one. */
  function Steer(k: Keys): (r: Vec)
    ensures r == Zero <==> k.left == k.right && k.up == k.down
    ensures r.x > 0.0 <==> k.right && !k.left
    ensures r.x < 0.0 <==> k.left && !k.right
    ensures r.y > 0.0 <==> k.down && !k.up
    ensures r.y < 0.0 <==> k.up && !k.down
  {
    Normalize(RawDirection(k))
  }

  // ---------------------------------------------------------------------
  // Firing and cooldown

  /** The player's `can_shoot` flag and `laser_shoot_time`. */
  datatype Gun = Gun(canShoot: bool, shootTime: int)

  /** `Player.laser_timer`: re-arm once the cooldown has passed since the last shot. */
  function Rearm(g: Gun, now: int, cooldown: int): (r: Gun)
    ensures r.shootTime == g.shootTime
    ensures g.canShoot ==> r.canShoot
    ensures !g.canShoot ==> (r.canShoot <==> now - g.shootTime >= cooldown)
  {
    if !g.canShoot && now - g.shootTime >= cooldown then g.(canShoot := true) else g
  }

  /** The fire check of `Player.update` followed by `laser_timer`; the second
      component says whether a projectile was spawned. */
  function Trigger(g: Gun, pressed: bool, now: int, cooldown: int): (r: (Gun, bool))
    ensures r.1 <==> pressed && g.canShoot
    ensures r.1 ==> r.0.shootTime == now && (r.0.canShoot <==> cooldown <= 0)
    ensures !r.1 ==> r.0.shootTime == g.shootTime
    ensures !r.1 ==> (r.0.canShoot <==> g.canShoot || now - g.shootTime >= cooldown)
  {
    var fired := pressed && g.canShoot;
    var armed := if fired then Gun(false, now) else g;
    (Rearm(armed, now, cooldown), fired)
  }

  /** Which of a sequence of updates, each given (space just pressed, now), fire. */
  function Shots(g: Gun, inputs: seq<(bool, int)>, cooldown: int): (r: seq<bool>)
    ensures |r| == |inputs|
    decreases |inputs|
  {
    if inputs == [] then []
    else
      var (g1, fired) := Trigger(g, inputs[0].0, inputs[0].1, cooldown);
      [fired] + Shots(g1, inputs[1..], cooldown)
  }

  /** The clock does not run backwards between updates. */
  predicate Monotone(inputs: seq<(bool, int)>) {
    forall i, j :: 0 <= i <= j < |inputs| ==> inputs[i].1 <= inputs[j].1
  }

  /** If the gun is armed only when the cooldown had already passed at time
      `last`, every later shot comes a full cooldown after `g.shootTime`. */
  lemma {:induction false} NextShotWaits(g: Gun, inputs: seq<(bool, int)>, cooldown: int, last: int)
    requires g.canShoot ==> last - g.shootTime >= cooldown
    requires Monotone(inputs) && (inputs != [] ==> last <= inputs[0].1)
    ensures forall j :: 0 <= j < |inputs| && Shots(g, inputs, cooldown)[j] ==> inputs[j].1 - g.shootTime >= cooldown
    decreases |inputs|
  {
    if inputs != [] {
      var t0 := inputs[0].1;
      var (g1, fired) := Trigger(g, inputs[0].0, t0, cooldown);
      var rest := inputs[1..];
      assert Monotone(rest) by {
        forall i, j | 0 <= i <= j < |rest| ensures rest[i].1 <= rest[j].1 {
          assert rest[i] == inputs[i + 1] && rest[j] == inputs[j + 1];
        }
      }
      assert rest != [] ==> t0 <= rest[0].1 by {
        if rest != [] { assert rest[0] == inputs[1]; }
      }
      NextShotWaits(g1, rest, cooldown, t0);
      forall j | 0 <= j < |inputs| && Shots(g, inputs, cooldown)[j]
        ensures inputs[j].1 - g.shootTime >= cooldown
      {
        if j > 0 {
          assert Shots(g, inputs, cooldown)[j] == Shots(g1, rest, cooldown)[j - 1];
          assert rest[j - 1] == inputs[j];
          if fired {
            assert t0 <= inputs[j].1;
          }
        }
      }
    }
  }

  /** Any two shots of one player are at least a cooldown apart: the fire
      check runs before `laser_timer`, so a shot needs the weapon to have been
      re-armed by an earlier update. */
  lemma {:induction false} ShotsSpaced(g: Gun, inputs: seq<(bool, int)>, cooldown: int, i: nat, j: nat)
    requires Monotone(inputs)
    requires i < j < |inputs|
    requires Shots(g, inputs, cooldown)[i] && Shots(g, inputs, cooldown)[j]
    ensures inputs[j].1 - inputs[i].1 >= cooldown
    decreases i
  {
    var (g1, fired) := Trigger(g, inputs[0].0, inputs[0].1, cooldown);
    var rest := inputs[1..];
    assert Shots(g, inputs, cooldown) == [fired] + Shots(g1, rest, cooldown);
    assert Monotone(rest) by {
      forall a, b | 0 <= a <= b < |rest| ensures rest[a].1 <= rest[b].1 {
        assert rest[a] == inputs[a + 1] && rest[b] == inputs[b + 1];
      }
    }
    assert rest[j - 1] == inputs[j];
    if i == 0 {
      assert rest[0] == inputs[1];
      NextShotWaits(g1, rest, cooldown, inputs[0].1);
    } else {
      assert rest[i - 1] == inputs[i];
      ShotsSpaced(g1, rest, cooldown, i - 1, j - 1);
    }
  }

  /** With a 100 ms cooldown: a shot at 0 ms, a refused one at 50 ms, and at
      101 ms a refusal too unless some update in between re-armed the gun. */
  lemma CooldownScenario()
    ensures Shots(Gun(true, 0), [(true, 0), (true, 50), (true, 101)], 100) == [true, false, false]
    ensures Shots(Gun(true, 0), [(true, 0), (true, 50), (false, 100), (true, 101)], 100) == [true, false, false, true]
  {
  }

  // ---------------------------------------------------------------------
  // Player.update

  /** What a player holds: its sprite and its gun. */
  datatype PlayerState = PlayerState(body: Body, gun: Gun)

  /** The projectile a shot spawns: at the player's mid-top, with the weapon
      spec's own direction and speed. */
  function Projectile(player: Rect, weapon: WeaponSpec): (b: Body)
    ensures b.rect.CenterX() == player.CenterX() && b.rect.CenterY() == player.top
    ensures b.dir == weapon.dir && b.speed == weapon.speed && b.alive
  {
    Spawned(player.CenterX(), player.top, weapon.w, weapon.h, weapon.dir, weapon.speed)
  }

  /** `Player.update`: the keys replace the direction, the fire check may spawn
      one projectile (placed before the player moves), the timer may re-arm
      the gun, and then the player moves and bounces as any entity does. */
  function PlayerStep(p: PlayerState, k: Keys, now: int, dt: real, weapon: WeaponSpec, cooldown: int): (r: (PlayerState, Option<Body>))
    ensures r.1.Some? <==> k.spaceJustPressed && p.gun.canShoot
    ensures r.1.Some? ==> r.1.value == Projectile(p.body.rect, weapon)
    ensures r.0.gun == Trigger(p.gun, k.spaceJustPressed, now, cooldown).0
    ensures r.0.body == Step(PlayerKind, p.body.(dir := Steer(k)), dt)
    ensures r.0.body.speed == p.body.speed && r.0.body.alive == p.body.alive
    ensures p.body.rect.width < Width && p.body.rect.height < Height ==> r.0.body.rect.InsideViewport()
  {
    var (gun, fired) := Trigger(p.gun, k.spaceJustPressed, now, cooldown);
    var shot := if fired then Some(Projectile(p.body.rect, weapon)) else None;
    (PlayerState(Step(PlayerKind, p.body.(dir := Steer(k)), dt), gun), shot)
  }

  class Player {
    /** The sprite part of the player (the Entity base class). */
    const body: Entity
    const weapon: WeaponSpec
    const cooldownDuration: int
    var canShoot: bool
    var laserShootTime: int

    /** The sprite part is a player sprite. */
    ghost predicate Valid() {
      body.kind == PlayerKind
    }

    function State(): PlayerState
      reads this, body
    {
      PlayerState(body.Snapshot(), Gun(canShoot, laserShootTime))
    }

    /** `Player.__init__`: armed, last shot at time 0, the configured cooldown. */
    constructor (x: real, y: real, w: real, h: real, direction: Vec, speed: real, weapon: WeaponSpec)
      ensures Valid() && fresh(body)
      ensures State() == PlayerState(Spawned(x, y, w, h, direction, speed), Gun(true, 0))
      ensures this.weapon == weapon && cooldownDuration == LaserCooldownDuration
    {
      body := new Entity(PlayerKind, x, y, w, h, direction, speed);
      this.weapon := weapon;
      canShoot := true;
      laserShootTime := 0;
      cooldownDuration := LaserCooldownDuration;
    }

    /** `Player.laser_timer` */
    method LaserTimer(now: int)
      modifies this
      ensures State() == old(State()).(gun := Rearm(old(State()).gun, now, cooldownDuration))
    {
      if !canShoot {
        if now - laserShootTime >= cooldownDuration {
          canShoot := true;
        }
      }
    }

    /** `Player.update`; the spawned projectile, if any, is returned for the
        caller to add to the weapon group. */
    method Update(dt: real, keys: Keys, now: int) returns (shot: Entity?)
      requires Valid()
      modifies this, body
      ensures State() == PlayerStep(old(State()), keys, now, dt, weapon, cooldownDuration).0
      ensures shot == null <==> PlayerStep(old(State()), keys, now, dt, weapon, cooldownDuration).1.None?
      ensures shot != null ==> fresh(shot) && shot.kind == WeaponKind
      ensures shot != null ==> shot.Snapshot() == PlayerStep(old(State()), keys, now, dt, weapon, cooldownDuration).1.value
    {
      body.dir := Vec(KeyAxis(keys.left, keys.right) as real, KeyAxis(keys.up, keys.down) as real);
      if body.dir != Zero {
        body.dir := Normalize(body.dir);
      }
      assert body.dir == Steer(keys);
      shot := null;
      if keys.spaceJustPressed && canShoot {
        canShoot := false;
        laserShootTime := now;
        shot := new Entity(WeaponKind, body.rect.CenterX(), body.rect.top, weapon.w, weapon.h, weapon.dir, weapon.speed);
      }
      LaserTimer(now);
      body.Update(dt);
    }
  }
}
