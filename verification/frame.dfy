/** One pass of the main loop, on values: meatball events, the rotator step,
    then the group updates in the order props, NPCs, players, weapons, and
    finally the removal of killed weapons from their group. */
module Game {
  import opened Wrappers
  import opened Geometry
  import opened Physics
  import opened Weapons
  import opened Players
  import opened Phases

  /** The sprite groups and the rotator. */
  datatype World = World(rotation: Rotation, props: seq<Body>, npcs: seq<Body>, players: seq<PlayerState>, weapons: seq<Body>)

  /** What one frame reads from outside: the elapsed seconds, the clock in
      milliseconds, the keyboard, and the (x, y) draws of each meatball event
      queued since the previous frame. */
  datatype FrameInput = FrameInput(dt: real, now: int, keys: Keys, meatballs: seq<(int, int)>)

  predicate MeatballDrawsOk(ms: seq<(int, int)>) {
    forall i :: 0 <= i < |ms| ==>
      InIntRange(ms[i].0, 0 - MeatballSpawnMargin, ScreenWidth + MeatballSpawnMargin)
      && InIntRange(ms[i].1, 0 - 2 * MeatballSpawnMargin, 0 - MeatballSpawnMargin)
  }

  /** `Group.update(dt, name)` on a group of sprites of one kind. */
  function UpdateGroup(k: Kind, bs: seq<Body>, dt: real): (r: seq<Body>)
    ensures |r| == |bs|
    ensures forall i :: 0 <= i < |bs| ==> r[i] == Step(k, bs[i], dt)
    ensures forall b :: b in bs ==> Step(k, b, dt) in r
    ensures forall b :: b in r ==> exists c :: c in bs && b == Step(k, c, dt)
  {
    var r := seq(|bs|, i requires 0 <= i < |bs| => Step(k, bs[i], dt));
    assert forall b :: b in bs ==> Step(k, b, dt) in r by {
      forall b | b in bs ensures Step(k, b, dt) in r {
        var j :| 0 <= j < |bs| && bs[j] == b;
        assert r[j] == Step(k, b, dt);
      }
    }
    assert forall b :: b in r ==> exists c :: c in bs && b == Step(k, c, dt) by {
      forall b | b in r ensures exists c :: c in bs && b == Step(k, c, dt) {
        var j :| 0 <= j < |r| && r[j] == b;
        assert bs[j] in bs;
      }
    }
    r
  }

  /** How many of the players fire this frame: those that see space just
      pressed while their gun is armed. */
  function Firing(ps: seq<PlayerState>, k: Keys): (n: nat)
    ensures n <= |ps|
    ensures !k.spaceJustPressed ==> n == 0
    decreases |ps|
  {
    if ps == [] then 0 else (if k.spaceJustPressed && ps[0].gun.canShoot then 1 else 0) + Firing(ps[1..], k)
  }

  /** What each player's update fires, player by player. */
  function FiredBy(ps: seq<PlayerState>, k: Keys, now: int, dt: real): (r: seq<Option<Body>>)
    ensures |r| == |ps|
    ensures forall i :: 0 <= i < |ps| ==> r[i] == PlayerStep(ps[i], k, now, dt, Orb, LaserCooldownDuration).1
  {
    seq(|ps|, i requires 0 <= i < |ps| => PlayerStep(ps[i], k, now, dt, Orb, LaserCooldownDuration).1)
  }

  /** The values present in a sequence of options, in order, each as often
      as it occurs. */
  function Somes(os: seq<Option<Body>>): (r: seq<Body>)
    ensures forall b :: b in r <==> Some(b) in os
    ensures forall b :: multiset(r)[b] == multiset(os)[Some(b)]
    decreases |os|
  {
    if os == [] then []
    else
      assert os == [os[0]] + os[1..];
      (if os[0].Some? then [os[0].value] else []) + Somes(os[1..])
  }

  /** The players that fire are exactly the ones `Firing` counts. */
  lemma {:induction false} FiringCounted(ps: seq<PlayerState>, k: Keys, now: int, dt: real)
    ensures |Somes(FiredBy(ps, k, now, dt))| == Firing(ps, k)
    decreases |ps|
  {
    if ps != [] {
      FiringCounted(ps[1..], k, now, dt);
      assert FiredBy(ps, k, now, dt)[1..] == FiredBy(ps[1..], k, now, dt);
    }
  }

  /** Every player after its own update, in group order. */
  function Moved(ps: seq<PlayerState>, k: Keys, now: int, dt: real): (r: seq<PlayerState>)
    ensures |r| == |ps|
    ensures forall i :: 0 <= i < |ps| ==> r[i] == PlayerStep(ps[i], k, now, dt, Orb, LaserCooldownDuration).0
  {
    seq(|ps|, i requires 0 <= i < |ps| => PlayerStep(ps[i], k, now, dt, Orb, LaserCooldownDuration).0)
  }

  /** The players' updates in group order, with the projectiles they spawn
      in the same order. Every player fires the main weapon. */
  function UpdatePlayers(ps: seq<PlayerState>, k: Keys, now: int, dt: real): (r: (seq<PlayerState>, seq<Body>))
    ensures |r.0| == |ps| && |r.1| == Firing(ps, k)
    ensures forall i :: 0 <= i < |ps| ==> r.0[i] == PlayerStep(ps[i], k, now, dt, Orb, LaserCooldownDuration).0
    ensures forall i :: 0 <= i < |ps| && PlayerStep(ps[i], k, now, dt, Orb, LaserCooldownDuration).1.Some? ==>
              PlayerStep(ps[i], k, now, dt, Orb, LaserCooldownDuration).1.value in r.1
    ensures forall b :: b in r.1 ==> b.alive && b.dir == Orb.dir && b.speed == Orb.speed
    // each projectile as many times as players fire it: one per firing player
    ensures forall b :: multiset(r.1)[b] == multiset(FiredBy(ps, k, now, dt))[Some(b)]
  {
    var fired := FiredBy(ps, k, now, dt);
    FiringCounted(ps, k, now, dt);
    var shots := Somes(fired);
    assert forall i :: 0 <= i < |ps| && fired[i].Some? ==> fired[i].value in shots by {
      forall i | 0 <= i < |ps| && fired[i].Some? ensures fired[i].value in shots {
        assert fired[i] in fired;
      }
    }
    (Moved(ps, k, now, dt), shots)
  }

  /** The batch of new projectiles holds nothing but the players' own shots. */
  lemma OnlyFiredShots(ps: seq<PlayerState>, k: Keys, now: int, dt: real)
    ensures forall b :: b in UpdatePlayers(ps, k, now, dt).1 ==>
              exists i :: 0 <= i < |ps| && PlayerStep(ps[i], k, now, dt, Orb, LaserCooldownDuration).1 == Some(b)
  {
    var fired := FiredBy(ps, k, now, dt);
    assert UpdatePlayers(ps, k, now, dt).1 == Somes(fired);
    forall b | b in Somes(fired)
      ensures exists i :: 0 <= i < |ps| && PlayerStep(ps[i], k, now, dt, Orb, LaserCooldownDuration).1 == Some(b)
    {
      var i :| 0 <= i < |fired| && fired[i] == Some(b);
    }
  }

  /** What is left of a group after the killed sprites have left it. */
  function Live(bs: seq<Body>): (r: seq<Body>)
    ensures |r| <= |bs|
    ensures forall b :: b in r ==> b in bs && b.alive
    ensures forall b :: b in bs && b.alive ==> b in r
    // a live sprite keeps every one of its occurrences, a killed one keeps none
    ensures forall b :: multiset(r)[b] == (if b.alive then multiset(bs)[b] else 0)
    decreases |bs|
  {
    if bs == [] then []
    else
      assert bs == [bs[0]] + bs[1..];
      (if bs[0].alive then [bs[0]] else []) + Live(bs[1..])
  }

  /** The meatballs queued since the previous frame, each spawned from its draws. */
  function Spawns(ms: seq<(int, int)>): (r: seq<Body>)
    requires MeatballDrawsOk(ms)
    ensures |r| == |ms|
    ensures forall i :: 0 <= i < |ms| ==> r[i] == MeatballSpawn(ms[i].0, ms[i].1)
  {
    seq(|ms|, i requires 0 <= i < |ms| => MeatballSpawn(ms[i].0, ms[i].1))
  }

  /** The weapon group as the frame updates it: the weapons already in it,
      then this frame's meatballs, then the projectiles the players fire. */
  function WeaponBatch(w: World, input: FrameInput): seq<Body>
    requires MeatballDrawsOk(input.meatballs)
  {
    w.weapons + Spawns(input.meatballs) + UpdatePlayers(w.players, input.keys, input.now, input.dt).1
  }

  /** One frame of the main loop. `None` is the error the source raises when
      the phase deque is empty. */
  function Frame(w: World, input: FrameInput): (r: Option<World>)
    requires MeatballDrawsOk(input.meatballs)
    ensures r.None? <==> w.rotation.active.None? && w.rotation.queue == []
    ensures r.Some? ==> r.value.rotation == Next(w.rotation)
    ensures r.Some? ==> r.value.props == UpdateGroup(PropKind, w.props, input.dt)
    ensures r.Some? ==> r.value.npcs == UpdateGroup(NpcKind, w.npcs, input.dt)
    ensures r.Some? ==> r.value.players == UpdatePlayers(w.players, input.keys, input.now, input.dt).0
    // every weapon of the batch that survives its one update stays in the group ...
    ensures r.Some? ==> forall b :: b in WeaponBatch(w, input) && Step(WeaponKind, b, input.dt).alive ==>
              Step(WeaponKind, b, input.dt) in r.value.weapons
    // ... and the group holds nothing else: a finalised weapon is never updated again
    ensures r.Some? ==> forall b :: b in r.value.weapons ==>
              b.alive && exists c :: c in WeaponBatch(w, input) && b == Step(WeaponKind, c, input.dt)
    // ... with each surviving update kept as often as it occurs in the updated batch
    ensures r.Some? ==>
              forall b :: multiset(r.value.weapons)[b] ==
                (if b.alive then multiset(UpdateGroup(WeaponKind, WeaponBatch(w, input), input.dt))[b] else 0)
    ensures r.Some? ==> |r.value.weapons| <= |w.weapons| + |input.meatballs| + Firing(w.players, input.keys)
  {
    if w.rotation.active.None? && w.rotation.queue == [] then None
    else
      var rotation := Next(w.rotation);
      var props := UpdateGroup(PropKind, w.props, input.dt);
      var npcs := UpdateGroup(NpcKind, w.npcs, input.dt);
      var (players, shots) := UpdatePlayers(w.players, input.keys, input.now, input.dt);
      var batch := w.weapons + Spawns(input.meatballs) + shots;
      var stepped := UpdateGroup(WeaponKind, batch, input.dt);
      var weapons := Live(stepped);
      Some(World(rotation, props, npcs, players, weapons))
  }

  /** A projectile fired during the players' update gets its first update in
      the same frame, because the weapon group is updated after the players:
      if it survives that update it is in the new weapon group, moved once. */
  lemma ShotUpdatedInSameFrame(w: World, input: FrameInput, i: nat)
    requires MeatballDrawsOk(input.meatballs)
    requires w.rotation.active.Some? || w.rotation.queue != []
    requires i < |w.players|
    requires PlayerStep(w.players[i], input.keys, input.now, input.dt, Orb, LaserCooldownDuration).1.Some?
    ensures Frame(w, input).Some?
    ensures var shot := PlayerStep(w.players[i], input.keys, input.now, input.dt, Orb, LaserCooldownDuration).1.value;
            Step(WeaponKind, shot, input.dt).alive ==> Step(WeaponKind, shot, input.dt) in Frame(w, input).value.weapons
  {
    var shot := PlayerStep(w.players[i], input.keys, input.now, input.dt, Orb, LaserCooldownDuration).1.value;
    assert shot in UpdatePlayers(w.players, input.keys, input.now, input.dt).1;
    assert shot in WeaponBatch(w, input);
  }

  /** Props with no direction keep their place through a group update. */
  lemma PropsStayPut(ps: seq<Body>, dt: real)
    ensures forall i :: 0 <= i < |ps| && ps[i].dir == Zero ==> UpdateGroup(PropKind, ps, dt)[i].rect == ps[i].rect
  {
    forall i | 0 <= i < |ps| && ps[i].dir == Zero
      ensures UpdateGroup(PropKind, ps, dt)[i].rect == ps[i].rect
    {
      PropNeverMoves(ps[i], [dt]);
    }
  }

  /** Over a frame, props with no direction stay where they are, and players
      and NPCs that fit the viewport end it inside the viewport. */
  lemma FrameKeepsPlaces(w: World, input: FrameInput)
    requires MeatballDrawsOk(input.meatballs)
    requires w.rotation.active.Some? || w.rotation.queue != []
    ensures forall i :: 0 <= i < |w.props| && w.props[i].dir == Zero ==>
              Frame(w, input).value.props[i].rect == w.props[i].rect
    ensures forall i :: 0 <= i < |w.npcs| && w.npcs[i].rect.width < Width && w.npcs[i].rect.height < Height ==>
              Frame(w, input).value.npcs[i].rect.InsideViewport()
    ensures forall i :: 0 <= i < |w.players| && w.players[i].body.rect.width < Width && w.players[i].body.rect.height < Height ==>
              Frame(w, input).value.players[i].body.rect.InsideViewport()
  {
    assert Frame(w, input).Some?;
    var r := Frame(w, input).value;
    PropsStayPut(w.props, input.dt);
    assert r.props == UpdateGroup(PropKind, w.props, input.dt);
    assert r.npcs == UpdateGroup(NpcKind, w.npcs, input.dt);
    assert r.players == UpdatePlayers(w.players, input.keys, input.now, input.dt).0;
  }
}
