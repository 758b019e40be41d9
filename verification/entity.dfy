/** The sprite object whose fields `Entity.update` and the `physics_outer_walls`
    overrides change in place. Each method is proved against the function of
    the same rule in `Physics`. */
module Entities {
  import opened Geometry
  import opened Physics

  class Entity {
    /** Which subclass this sprite is (Player, Weapon, Npc or Prop). */
    const kind: Kind
    var rect: Rect
    var dir: Vec
    var speed: real
    var facing: Facing
    /** Still a member of its sprite groups; `kill()` clears it. */
    var alive: bool

    function Snapshot(): Body
      reads this
    {
      Body(rect, dir, speed, facing, alive)
    }

    /** `Entity.__init__`: the rectangle of the cached surface (w x h) centred on (x, y). */
    constructor (kind: Kind, x: real, y: real, w: real, h: real, direction: Vec, speed: real)
      ensures this.kind == kind
      ensures Snapshot() == Spawned(x, y, w, h, direction, speed)
    {
      this.kind := kind;
      this.rect := RectAtCenter(x, y, w, h);
      this.dir := direction;
      this.speed := speed;
      this.facing := NoImage;
      this.alive := true;
    }

    /** `Sprite.kill()`: leave every group. Killing twice is the same as once. */
    method Kill()
      modifies this
      ensures Snapshot() == old(Snapshot()).(alive := false)
    {
      alive := false;
    }

    /** `Entity.physics_outer_walls`: each wall in turn clamps the rectangle
        and negates the direction component it meets. */
    method BounceOffWalls()
      modifies this
      ensures (rect, dir) == Bounce(old(rect), old(dir))
      ensures speed == old(speed) && facing == old(facing) && alive == old(alive)
    {
      ghost var r0, d0 := rect, dir;
      if rect.left <= 0.0 {
        rect := rect.(left := 0.0);
        dir := dir.(x := -dir.x);
      }
      if rect.Right() >= Width {
        rect := rect.(left := Width - rect.width);
        dir := dir.(x := -dir.x);
      }
      assert (rect.left, dir.x) == BounceAxis(r0.left, r0.width, Width, d0.x);
      if rect.top <= 0.0 {
        rect := rect.(top := 0.0);
        dir := dir.(y := -dir.y);
      }
      if rect.Bottom() >= Height {
        rect := rect.(top := Height - rect.height);
        dir := dir.(y := -dir.y);
      }
      assert (rect.top, dir.y) == BounceAxis(r0.top, r0.height, Height, d0.y);
    }

    /** `Weapon.physics_outer_walls`: killed once a margin beyond any wall. */
    method Despawn()
      modifies this
      ensures alive == (old(alive) && !BeyondMargin(old(rect)))
      ensures rect == old(rect) && dir == old(dir) && speed == old(speed) && facing == old(facing)
    {
      if rect.left <= 0.0 - Margin {
        Kill();
      }
      if rect.Right() >= Width + Margin {
        Kill();
      }
      if rect.top <= 0.0 - Margin {
        Kill();
      }
      if rect.Bottom() >= Height + Margin {
        Kill();
      }
    }

    /** The wall rule of this sprite's kind: the `Weapon` override, the `Prop`
        override that does nothing, or the base rule for players and NPCs. */
    method PhysicsOuterWalls()
      modifies this
      ensures Snapshot() == Walls(kind, old(Snapshot()))
    {
      match kind {
        case WeaponKind => Despawn();
        case PropKind =>
        case _ => BounceOffWalls();
      }
    }

    /** `Entity.update(dt, phase)`: Euler step, wall rule, facing image. */
    method Update(dt: real)
      modifies this
      ensures Snapshot() == Step(kind, old(Snapshot()), dt)
    {
      var delta := dir.Scale(speed).Scale(dt);
      rect := rect.Translate(delta);
      PhysicsOuterWalls();
      if dir.x < 0.0 {
        facing := FacingLeft;
      } else {
        facing := FacingRight;
      }
    }
  }
}
