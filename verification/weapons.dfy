/** Projectiles: the weapon spec rows the logic reads, and the timed
    "meatball" spawn of `event_meatball`. */
module Weapons {
  import opened Geometry
  import opened Physics

  /** The part of a WeaponSpec row that spawning reads: the size of the cached
      (resized) surface, the direction and the speed. */
  datatype WeaponSpec = WeaponSpec(name: string, imgFilename: string, w: real, h: real, dir: Vec, speed: real)

  /** weapon_specs[0], the player's main weapon (PLAYER_MAIN_WEAPON_INDEX = 0). */
  const Orb: WeaponSpec := WeaponSpec("orb", "green-ball-140x140.png", 70.0, 70.0, Vec(0.0, -1.0), 334.0)

  /** weapon_specs[1], the meatball. */
  const Meatball: WeaponSpec := WeaponSpec("meatball", "meatball-204x220.png", 102.0, 110.0, Vec(0.0, -1.0), 734.0)

  /** `random.randint(a, b)`: both ends included. */
  predicate InIntRange(v: int, a: int, b: int) {
    a <= v <= b
  }

  /** `event_meatball` with the two `randint` draws passed in: a meatball
      weapon centred in a band above the screen, falling straight down. */
  function MeatballSpawn(spawnX: int, spawnY: int): (b: Body)
    requires InIntRange(spawnX, 0 - MeatballSpawnMargin, ScreenWidth + MeatballSpawnMargin)
    requires InIntRange(spawnY, 0 - 2 * MeatballSpawnMargin, 0 - MeatballSpawnMargin)
    ensures b.dir == Vec(0.0, 1.0) && b.speed == Meatball.speed && b.alive
    ensures b.rect.CenterX() == spawnX as real && b.rect.CenterY() == spawnY as real
    ensures b.rect.width == Meatball.w && b.rect.height == Meatball.h
    // the whole rectangle starts above the screen, and within the spawn margin sideways
    ensures b.rect.Bottom() < 0.0
    ensures -(MeatballSpawnMargin as real) <= b.rect.CenterX() <= Width + MeatballSpawnMargin as real
  {
    Spawned(spawnX as real, spawnY as real, Meatball.w, Meatball.h, Vec(0.0, 1.0), Meatball.speed)
  }

  /** A meatball spawned at the top of the band is finalised by its very first
      update when the frame is shorter than 20 ms (50 frames per second or
      more): its top edge is still a margin above the screen after moving. */
  lemma MeatballTopOfBandFinalisedAtOnce(spawnX: int, dt: real)
    requires InIntRange(spawnX, 0 - MeatballSpawnMargin, ScreenWidth + MeatballSpawnMargin)
    requires 0.0 <= dt <= 0.02
    ensures !Step(WeaponKind, MeatballSpawn(spawnX, -120), dt).alive
  {
    var b := MeatballSpawn(spawnX, -120);
    var r := Step(WeaponKind, b, dt).rect;
    assert r.top == -175.0 + 734.0 * dt;
  }

  /** A meatball spawned at -104 or lower survives its first update for any
      frame of up to one second. */
  lemma MeatballLowInBandSurvives(spawnX: int, spawnY: int, dt: real)
    requires InIntRange(spawnX, 0 - MeatballSpawnMargin, ScreenWidth + MeatballSpawnMargin)
    requires InIntRange(spawnY, -104, 0 - MeatballSpawnMargin)
    requires 0.0 <= dt <= 1.0
    ensures Step(WeaponKind, MeatballSpawn(spawnX, spawnY), dt).alive
  {
    var b := MeatballSpawn(spawnX, spawnY);
    var r := Step(WeaponKind, b, dt).rect;
    assert r.top == spawnY as real - 55.0 + 734.0 * dt;
    assert r.left == spawnX as real - 51.0;
  }
}
