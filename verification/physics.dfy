/** The per-frame motion rules of the entity hierarchy, as functions on a
    value snapshot of one sprite. `Entities.Entity` performs them in place;
    these functions are what its methods are proved against.

    The Python class hierarchy (Entity with the subclasses Player, Weapon, Npc
    and Prop) becomes one kind tag: the only behaviour that differs between
    kinds here is `physics_outer_walls`. */
module Physics {
  import opened Geometry

  datatype Kind = PlayerKind | WeaponKind | NpcKind | PropKind

  /** The active image: blank until the first update (`pygame.Surface((0, 0))`),
      then the left- or right-facing surface. */
  datatype Facing = NoImage | FacingLeft | FacingRight

  /** What one sprite holds: its rectangle, direction, speed, active image and
      whether it is still in its groups (`kill()` clears `alive`). */
  datatype Body = Body(rect: Rect, dir: Vec, speed: real, facing: Facing, alive: bool)

  /** Kinds that use the inherited `Entity.physics_outer_walls` (bounce). */
  predicate Bounces(k: Kind) {
    k == PlayerKind || k == NpcKind
  }

  /** A body as `Entity.__init__` leaves it: centred on (x, y), blank image, alive. */
  function Spawned(x: real, y: real, w: real, h: real, dir: Vec, speed: real): (b: Body)
    ensures b.rect.CenterX() == x && b.rect.CenterY() == y
    ensures b.rect.width == w && b.rect.height == h
    ensures b.dir == dir && b.speed == speed && b.facing == NoImage && b.alive
  {
    Body(RectAtCenter(x, y, w, h), dir, speed, NoImage, true)
  }

  // ---------------------------------------------------------------------
  // Entity.physics_outer_walls: bounce

  /** The rectangle touches or crosses the left or the right wall. */
  predicate HitsSide(r: Rect) {
    r.left <= 0.0 || Width <= r.Right()
  }

  /** The rectangle touches or crosses the top or the bottom wall. */
  predicate HitsEnd(r: Rect) {
    r.top <= 0.0 || Height <= r.Bottom()
  }

  /** One axis of the bounce rule: first the low wall (left or top), then the
      high wall (right or bottom), each clamping the rectangle's near edge and
      negating the direction component. `lo` is the low edge, `size` the
      extent along the axis and `d` the direction component. */
  function BounceAxis(lo: real, size: real, limit: real, d: real): (r: (real, real))
    ensures r.1 == d || r.1 == -d
    ensures size < limit ==> 0.0 <= r.0 && r.0 + size <= limit
    ensures size < limit ==> r.1 == (if lo <= 0.0 || limit <= lo + size then -d else d)
    ensures size < limit && lo <= 0.0 ==> r.0 == 0.0
    ensures size < limit && limit <= lo + size ==> r.0 == limit - size
    ensures 0.0 < lo && lo + size < limit ==> r == (lo, d)
  {
    var (lo1, d1) := if lo <= 0.0 then (0.0, -d) else (lo, d);
    if limit <= lo1 + size then (limit - size, -d1) else (lo1, d1)
  }

  /** `Entity.physics_outer_walls` on a rectangle and a direction. */
  function Bounce(r: Rect, d: Vec): (res: (Rect, Vec))
    ensures res.0.width == r.width && res.0.height == r.height
    ensures r.width < Width && r.height < Height ==> res.0.InsideViewport()
    // A left or right contact negates exactly dir.x and moves only the rectangle's x.
    ensures r.width < Width ==> res.1.x == (if HitsSide(r) then -d.x else d.x)
    ensures !HitsSide(r) ==> res.0.left == r.left && res.1.x == d.x
    // A top or bottom contact negates exactly dir.y and moves only the rectangle's y.
    ensures r.height < Height ==> res.1.y == (if HitsEnd(r) then -d.y else d.y)
    ensures !HitsEnd(r) ==> res.0.top == r.top && res.1.y == d.y
    // A rectangle that fits and touches a wall is clamped to that wall.
    ensures r.width < Width && r.left <= 0.0 ==> res.0.left == 0.0
    ensures r.width < Width && Width <= r.Right() ==> res.0.left == Width - r.width
    ensures r.height < Height && r.top <= 0.0 ==> res.0.top == 0.0
    ensures r.height < Height && Height <= r.Bottom() ==> res.0.top == Height - r.height
    ensures r.StrictlyInsideViewport() ==> res == (r, d)
  {
    var (left, dx) := BounceAxis(r.left, r.width, Width, d.x);
    var (top, dy) := BounceAxis(r.top, r.height, Height, d.y);
    (Rect(left, top, r.width, r.height), Vec(dx, dy))
  }

  // ---------------------------------------------------------------------
  // Weapon.physics_outer_walls: despawn

  /** The rectangle is a margin or more beyond some wall. */
  predicate BeyondMargin(r: Rect) {
    r.left <= 0.0 - Margin || Width + Margin <= r.Right()
    || r.top <= 0.0 - Margin || Height + Margin <= r.Bottom()
  }

  /** The wall rule of each kind: bounce for players and NPCs, despawn for
      weapons, nothing for props. */
  function Walls(k: Kind, b: Body): (r: Body)
    ensures r.speed == b.speed && r.facing == b.facing
    ensures r.rect.width == b.rect.width && r.rect.height == b.rect.height
    ensures Bounces(k) ==> (r.rect, r.dir) == Bounce(b.rect, b.dir) && r.alive == b.alive
    ensures k == WeaponKind ==> r.rect == b.rect && r.dir == b.dir
    ensures k == WeaponKind ==> (r.alive <==> b.alive && !BeyondMargin(b.rect))
    ensures k == PropKind ==> r == b
  {
    match k
    case WeaponKind => b.(alive := b.alive && !BeyondMargin(b.rect))
    case PropKind => b
    case _ =>
      var (rect, dir) := Bounce(b.rect, b.dir);
      b.(rect := rect, dir := dir)
  }

  // ---------------------------------------------------------------------
  // Entity.update

  /** The displacement of one explicit-Euler step: `dir * speed * dt`. */
  function Displacement(b: Body, dt: real): Vec {
    b.dir.Scale(b.speed).Scale(dt)
  }

  /** `Entity.update(dt, phase)` for a sprite of kind `k`: move the centre by
      one Euler step, apply the kind's wall rule, then pick the image from the
      sign of `dir.x`. The phase influence is a no-op, so the speed is kept. */
  function Step(k: Kind, b: Body, dt: real): (r: Body)
    ensures r.speed == b.speed
    ensures r.rect.width == b.rect.width && r.rect.height == b.rect.height
    ensures r.facing == (if r.dir.x < 0.0 then FacingLeft else FacingRight)
    ensures Bounces(k) && b.rect.width < Width && b.rect.height < Height ==> r.rect.InsideViewport()
    ensures Bounces(k) ==> r.alive == b.alive
    // a player or NPC first moves by dir * speed * dt and then bounces off the walls it meets
    ensures Bounces(k) ==> (r.rect, r.dir) == Bounce(b.rect.Translate(Displacement(b, dt)), b.dir)
    ensures k == WeaponKind ==> r.rect == b.rect.Translate(Displacement(b, dt)) && r.dir == b.dir
    ensures k == WeaponKind ==> (r.alive <==> b.alive && !BeyondMargin(r.rect))
    ensures k == PropKind ==> r.rect == b.rect.Translate(Displacement(b, dt)) && r.dir == b.dir && r.alive == b.alive
  {
    var moved := Walls(k, b.(rect := b.rect.Translate(Displacement(b, dt))));
    moved.(facing := if moved.dir.x < 0.0 then FacingLeft else FacingRight)
  }

  /** A sequence of frames with the given time steps. */
  function Run(k: Kind, b: Body, dts: seq<real>): Body
    decreases |dts|
  {
    if dts == [] then b else Run(k, Step(k, b, dts[0]), dts[1..])
  }

  function Sum(s: seq<real>): real
    decreases |s|
  {
    if s == [] then 0.0 else s[0] + Sum(s[1..])
  }

  /** Where the rectangle would be after moving in a straight line for `t` seconds. */
  function StraightLine(b: Body, t: real): Rect {
    b.rect.Translate(Displacement(b, t))
  }

  // ---------------------------------------------------------------------
  // Properties over several calls

  /** Once a weapon is finalised, finalising again changes nothing. */
  lemma KillIdempotent(b: Body)
    ensures Walls(WeaponKind, Walls(WeaponKind, b)) == Walls(WeaponKind, b)
  {
  }

  /** However many frames are run, sizes never change, a finalised weapon
      stays finalised, and a bouncing sprite whose rectangle fits the
      viewport ends inside it. */
  lemma {:induction false} RunKeepsInvariants(k: Kind, b: Body, dts: seq<real>)
    ensures Bounces(k) && b.rect.width < Width && b.rect.height < Height && dts != [] ==>
              Run(k, b, dts).rect.InsideViewport()
    ensures k == WeaponKind && !b.alive ==> !Run(k, b, dts).alive
    ensures Run(k, b, dts).rect.width == b.rect.width
    ensures Run(k, b, dts).rect.height == b.rect.height
    decreases |dts|
  {
    if dts != [] {
      RunKeepsInvariants(k, Step(k, b, dts[0]), dts[1..]);
    }
  }

  /** A prop (zero direction) never moves, and after its first update it
      always shows the right-facing image. */
  lemma {:induction false} PropNeverMoves(b: Body, dts: seq<real>)
    requires b.dir == Zero
    ensures Run(PropKind, b, dts).rect == b.rect
    ensures Run(PropKind, b, dts).dir == Zero
    ensures dts != [] ==> Run(PropKind, b, dts).facing == FacingRight
    decreases |dts|
  {
    if dts != [] {
      var b1 := Step(PropKind, b, dts[0]);
      assert b1.rect == b.rect;
      PropNeverMoves(b1, dts[1..]);
    }
  }

  /** Explicit Euler integration: while no wall is touched, a bouncing sprite
      keeps its direction and its position after the run is the straight-line
      integral of `dir * speed` over the elapsed time. */
  lemma {:induction false} StraightLineWithoutWalls(k: Kind, b: Body, dts: seq<real>)
    requires Bounces(k)
    requires forall n :: 1 <= n <= |dts| ==> StraightLine(b, Sum(dts[..n])).StrictlyInsideViewport()
    ensures Run(k, b, dts).rect == StraightLine(b, Sum(dts))
    ensures Run(k, b, dts).dir == b.dir && Run(k, b, dts).speed == b.speed
    decreases |dts|
  {
    if dts == [] {
      assert Displacement(b, 0.0) == Zero;
    } else {
      var b1 := Step(k, b, dts[0]);
      assert dts[..1] == [dts[0]];
      assert Sum(dts[..1]) == dts[0];
      assert Bounce(StraightLine(b, dts[0]), b.dir) == (StraightLine(b, dts[0]), b.dir);
      assert b1.rect == StraightLine(b, dts[0]) && b1.dir == b.dir;
      forall n | 1 <= n <= |dts[1..]|
        ensures StraightLine(b1, Sum(dts[1..][..n])).StrictlyInsideViewport()
      {
        assert dts[..n + 1][1..] == dts[1..][..n];
        ShiftStraightLine(b, dts[0], Sum(dts[1..][..n]));
      }
      StraightLineWithoutWalls(k, b1, dts[1..]);
      ShiftStraightLine(b, dts[0], Sum(dts[1..]));
    }
  }

  /** Two straight-line moves add up. */
  lemma ShiftStraightLine(b: Body, s: real, t: real)
    ensures StraightLine(b.(rect := StraightLine(b, s)), t) == StraightLine(b, s + t)
  {
    var d := b.dir.Scale(b.speed);
    assert d.x * s + d.x * t == d.x * (s + t);
    assert d.y * s + d.y * t == d.y * (s + t);
  }
}
