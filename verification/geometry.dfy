/** Screen geometry shared by every entity: pygame's floating-point rectangle
    (FRect) and its two-component vectors, idealised over the reals, plus the
    configuration constants the core reads.

    The constants are defined in config.py, which is not part of this model;
    the values below are the defaults recorded next to their imports in
    game/main.py (lines 15-16, 36-37 and 46). */
module Geometry {

  /** Viewport size in pixels (SCREEN_WIDTH, SCREEN_HEIGHT). */
  const ScreenWidth: int := 1640
  const ScreenHeight: int := 860

  /** Milliseconds that must pass between two laser shots (LASER_COOLDOWN_DURATION). */
  const LaserCooldownDuration: int := 100

  /** Distance beyond a wall at which a projectile is finalised (PROJECTILE_MARGIN). */
  const ProjectileMargin: int := 160

  /** Meatballs spawn this far beyond the left, right and top walls (MEATBALL_SPAWN_MARGIN). */
  const MeatballSpawnMargin: int := 60

  /** The same viewport constants as reals, for the physics. */
  const Width: real := ScreenWidth as real
  const Height: real := ScreenHeight as real
  const Margin: real := ProjectileMargin as real

  /** A two-component vector (pygame.math.Vector2). */
  datatype Vec = Vec(x: real, y: real) {
    /** `v * k` */
    function Scale(k: real): Vec {
      Vec(x * k, y * k)
    }
  }

  const Zero: Vec := Vec(0.0, 0.0)

  /** An axis-aligned rectangle (pygame.FRect): top-left corner and size. */
  datatype Rect = Rect(left: real, top: real, width: real, height: real) {
    function Right(): real {
      left + width
    }

    function Bottom(): real {
      top + height
    }

    function CenterX(): real {
      left + width / 2.0
    }

    function CenterY(): real {
      top + height / 2.0
    }

    /** `rect.center += d`: the centre moves by `d` and the size is kept. */
    function Translate(d: Vec): (r: Rect)
      ensures r.CenterX() == CenterX() + d.x && r.CenterY() == CenterY() + d.y
      ensures r.width == width && r.height == height
    {
      Rect(left + d.x, top + d.y, width, height)
    }

    /** The rectangle lies within the viewport (touching an edge allowed). */
    predicate InsideViewport() {
      0.0 <= left && Right() <= Width && 0.0 <= top && Bottom() <= Height
    }

    /** The rectangle touches or crosses none of the four walls. */
    predicate StrictlyInsideViewport() {
      0.0 < left && Right() < Width && 0.0 < top && Bottom() < Height
    }
  }

  /** `surface.get_frect(center=(cx, cy))` for a surface of size w x h. */
  function RectAtCenter(cx: real, cy: real, w: real, h: real): (r: Rect)
    ensures r.CenterX() == cx && r.CenterY() == cy
    ensures r.width == w && r.height == h
  {
    Rect(cx - w / 2.0, cy - h / 2.0, w, h)
  }
}
