# Space Blasto: the per-frame game rules in Dafny

Space Blasto is a small pygame arcade game whose logic sits in one script,
`game/main.py`. This project models the rules that script applies every frame
and proves what they guarantee:

- **Entity physics** (`Physics`, `Entities`). A sprite moves its centre by one
  explicit-Euler step, `dir * speed * dt`. It then applies its kind's wall rule
  and picks a left- or right-facing image from the sign of `dir.x`. Players
  and NPCs bounce off the viewport: the crossed edge is clamped and the matching
  direction component negated. Weapons never bounce; they are killed once a
  margin beyond any wall. Props ignore walls. The sprite classes Weapon, Npc
  and Prop become one `Entity` class with a kind tag. The player is its own
  class, `Players.Player`: it holds an `Entity` of the player kind as its
  `body`, plus the gun's fields. The pure functions (`Bounce`, `Walls`, `Step`) are what the in-place
  methods are proved against.
- **Player input and fire cooldown** (`Players`). Four arrow keys give the
  direction, normalised when diagonal. An edge-triggered space bar fires one
  projectile at the player's mid-top, if the gun is armed. `laser_timer`
  re-arms the gun only once `now − shoot_time` has reached the cooldown, so
  any two shots are at least a cooldown apart (`ShotsSpaced`). Because the
  fire check runs before the timer, the re-arm has to happen in an earlier
  update than the next shot.
- **Meatball events** (`Weapons`). A meatball spawns in a band above the
  screen and falls straight down.
- **Prop spraying** (`Spray`). Each template expands into `spray_count` prop
  specs, named `name-index`, each within `spray_radius` of the template.
- **Environment-phase rotator** (`Phases`). This is a deque of (name,
  duration) pairs rotated in place. Each phase keeps its broadcast name for
  `max(d, 1) + 1` frames, so the schedule repeats with period
  `Σ (max(dᵢ, 1) + 1)` (`Periodic`).
- **One frame of the main loop** (`Game`). The rotator runs first. Then the
  groups update in the order props, NPCs, players, weapons. A projectile fired
  during the players' update therefore moves once in the same frame. Killed
  weapons leave their group.

The configuration constants live in `config.py`, which is not part of this
model. The model uses the defaults recorded beside their imports in
`game/main.py`:

- a 1640 × 860 viewport;
- a 100 ms laser cooldown;
- a 160 px projectile margin;
- a 60 px meatball spawn margin.

Positions and sizes are `real`. "Now", the frame time `dt`, the key states
and the random draws are parameters.

Three consequences of the code that are easy to miss:

- The phase schedule in `game/main.py` repeats every `Σ (max(dᵢ, 1) + 1)`
  frames, which is more than the sum of the durations. A phase takes one
  frame to activate, and the frame that finds its counter below 1 still
  broadcasts its name.
- With a 100 ms cooldown, a shot at 0 ms followed by attempts at 50 ms and
  101 ms is refused at 101 ms. The gun is re-armed only by `laser_timer`,
  which runs after the fire check, so the shot at 101 ms needs an update in
  between, at 100 ms or later (`CooldownScenario`).
- `enviro_influence` in `game/main.py` is `pass`, so the phase name has no
  effect on any sprite and every update keeps the speed.

The lemmas about meatballs show how the constants interact. With a 160 px
projectile margin and a meatball 110 px high, a meatball spawned at the top of
its band (y = -120) is killed by its first update whenever the frame lasts
20 ms or less. From y = -104 downwards it survives its first frame, for any frame of
up to one second.

## Model

| member | source | states |
|---|---|---|
| `Geometry.RectAtCenter` | game/main.py:391 | the rectangle built around (x, y) has that centre and the surface's size |
| `Physics.Spawned` | game/main.py:379-391 | a new sprite is centred on its spawn point, keeps the given direction and speed, shows no image yet and is alive |
| `Physics.BounceAxis` | game/main.py:412-430 | on one axis, a rectangle smaller than the viewport ends within [0, limit]; the direction component is negated exactly when the low or high wall is touched or crossed (`<=`/`>=`); the rectangle is clamped to 0 or limit − size; strictly inside, nothing changes |
| `Physics.Bounce` | game/main.py:411-430 | sizes are kept; a rectangle smaller than the viewport ends inside it; a left/right contact negates only `dir.x` and a top/bottom contact only `dir.y`; a fitting rectangle that touches a wall is clamped to it (left or top edge to 0, right edge to the width, bottom edge to the height); a rectangle strictly inside keeps its position and direction |
| `Physics.Walls` | game/main.py:506-515 | players and NPCs bounce (the base rule of lines 411-430); the prop override of lines 554-555 leaves a prop as it is; a weapon keeps its rectangle and direction and is killed iff it is alive and some edge is at least the margin beyond a wall |
| `Physics.Step` | game/main.py:393-409 | the speed never changes; the image faces left iff the final `dir.x < 0` (zero faces right); a player or NPC is the `Bounce` of its rectangle moved by `dir*speed*dt`, so a wall contact negates exactly that axis's component and a sprite that fits ends inside the viewport; a weapon or prop moves by exactly `dir*speed*dt`, keeps its direction, and a weapon dies iff its moved rectangle is beyond the margin |
| `Physics.KillIdempotent` | game/main.py:506-515 | applying the weapon wall rule twice is the same as once |
| `Physics.RunKeepsInvariants` | game/main.py:393-430 | over any number of frames, for every sprite, sizes never change and a dead weapon stays dead; a bouncing sprite that fits the viewport ends inside it |
| `Physics.PropNeverMoves` | game/main.py:546-555 | a prop with zero direction never moves over any number of frames and faces right after its first update |
| `Physics.StraightLineWithoutWalls` | game/main.py:396-400 | while no wall is touched, a bouncing sprite keeps its direction and ends at the start position plus `dir*speed*Σdt` |
| `Entities.Entity.constructor` | game/main.py:371-391 | a new sprite is the `Spawned` value for its kind |
| `Entities.Entity.Kill` | game/main.py:509 | killing clears `alive` and changes nothing else |
| `Entities.Entity.BounceOffWalls` | game/main.py:411-430 | the four in-place edge checks leave the rectangle and direction exactly as `Bounce` says and touch nothing else |
| `Entities.Entity.Despawn` | game/main.py:506-515 | the four in-place margin checks kill the sprite iff it is a margin beyond some wall, and change nothing else |
| `Entities.Entity.PhysicsOuterWalls` | game/main.py:554-555 | dispatching on the kind (the Weapon override, the Prop override that does nothing, the base rule otherwise) leaves the sprite exactly as `Walls` says |
| `Entities.Entity.Update` | game/main.py:393-409 | the in-place update leaves the sprite exactly as `Step` says |
| `Weapons.MeatballSpawn` | game/main.py:652-663 | a meatball is centred on the two draws, falls straight down at the meatball speed, lies wholly above the screen and within the spawn margin sideways |
| `Weapons.MeatballTopOfBandFinalisedAtOnce` | game/main.py:652-663 | a meatball spawned at y = -120 is killed by its first update whenever dt ≤ 0.02 s |
| `Weapons.MeatballLowInBandSurvives` | game/main.py:652-663 | a meatball spawned at y ≥ -104 survives its first update for dt ≤ 1 s |
| `Players.KeyAxis` | game/main.py:466-467 | the component is 1 iff only the positive key is held, -1 iff only the negative one, 0 iff both or neither |
| `Players.RawDirection` | game/main.py:466-467 | `dir.x` is right − left and `dir.y` is down − up, each in {-1, 0, 1} |
| `Players.Normalize` | game/main.py:469 | zero stays zero; each component keeps its sign; a non-zero result has length one up to the double rounding of 1/√2 |
| `Players.Steer` | game/main.py:466-469 | the player's direction is zero iff opposite keys cancel on both axes, and points right/left/down/up exactly when only that key of the pair is held |
| `Players.Rearm` | game/main.py:454-458 | an armed gun stays armed; a disarmed one is re-armed iff `now − shoot_time ≥ cooldown`; the shoot time is kept |
| `Players.Trigger` | game/main.py:471-483 | a shot fires iff space was just pressed and the gun was armed; a shot records `now` and leaves the gun disarmed unless the cooldown is ≤ 0; otherwise the timer alone decides |
| `Players.NextShotWaits` | game/main.py:454-483 | if the gun can be armed only after the cooldown, every later shot is at least a cooldown after the last shoot time |
| `Players.ShotsSpaced` | game/main.py:454-483 | with a clock that never runs backwards, any two shots of one player are at least a cooldown apart |
| `Players.CooldownScenario` | game/main.py:454-483 | with a 100 ms cooldown, attempts at 0, 50 and 101 ms fire only at 0; adding an update at 100 ms lets 101 ms fire too |
| `Players.Projectile` | game/main.py:474-482 | a shot spawns at the player's mid-top with the weapon spec's direction and speed, alive |
| `Players.PlayerStep` | game/main.py:460-485 | one projectile is spawned iff space was just pressed while armed, placed at the player's mid-top before the player moves; the keys replace the direction before the entity update; the speed and life are kept; a player that fits ends inside the viewport |
| `Players.Player.constructor` | game/main.py:435-452 | a new player is armed, last shot at time 0, with the configured cooldown |
| `Players.Player.LaserTimer` | game/main.py:454-458 | the in-place timer does what `Rearm` says and touches nothing else |
| `Players.Player.Update` | game/main.py:460-485 | the in-place update leaves the player as `PlayerStep` says and returns a fresh weapon sprite exactly when it fires |
| `Phases.Next` | game/main.py:851-860 | when idle, the front entry becomes active with its duration as counter and its name broadcast, and the deque rotates left by one (old front last); when active, the counter drops by one, the name and deque are kept, and the phase clears iff the counter is below 1 |
| `Phases.NextPermutes` | game/main.py:855-856 | a frame keeps the deque's length and its multiset of phases: popleft followed by append loses and adds nothing |
| `Phases.Drain` | game/main.py:857-860 | an active phase with counter c stays active with the same name and deque for max(c, 1) frames and is cleared by the last of them |
| `Phases.OnePhase` | game/main.py:851-860 | a phase taken from an idle rotator broadcasts its name for exactly max(d, 1) + 1 frames, after which the rotator is idle with that phase moved to the back |
| `Phases.PartialCycle` | game/main.py:851-856 | after the first j phases have run, the rotator is idle with the deque rotated left by j |
| `Phases.Periodic` | game/main.py:851-860 | from an idle rotator, every frame after the first recurs exactly Σ (max(dᵢ, 1) + 1) frames later |
| `Phases.PhaseRotator.constructor` | game/main.py:803-806 | the rotator starts with no active phase, counter 0 and no name |
| `Phases.PhaseRotator.Advance` | game/main.py:851-860 | the in-place step does what `Next` says; reading the front of an empty deque is the error case, reported with the state unchanged |
| `Spray.DecimalString` | game/main.py:702 | `str(index)` is a non-empty string of decimal digits without a leading zero |
| `Spray.DecimalRoundTrip` | game/main.py:702 | reading back the decimal string gives the index again |
| `Spray.DecimalInjective` | game/main.py:702 | different indices have different decimal strings |
| `Spray.Sprayed` | game/main.py:688-706 | a generated spec is named `name-index`, copies image, size and colour, has flip and resize off and instance id −1, and lies within the spray radius of the template on both axes |
| `Spray.SprayedNamesDistinct` | game/main.py:702 | two props of one template never share a name |
| `Spray.SprayOne` | game/main.py:687-706 | a template yields exactly `spray_count` specs (none for a negative count), the i-th built from index i |
| `Spray.SprayAllLength` | game/main.py:685-708 | the templates together yield the sum of their spray counts |
| `Spray.SprayAllAt` | game/main.py:685-708 | the specs come template after template in order: the i-th of template k sits right after all the specs of the earlier templates |
| `Spray.SprayProps` | game/main.py:685-708 | the nested loop appends exactly the specs `SprayAll` describes, as many as the total spray count |
| `Game.UpdateGroup` | game/main.py:867-870 | a group update applies one `Step` to each member, in order, keeping the group's size; every member's update is in the result and nothing else is |
| `Game.UpdatePlayers` | game/main.py:869 | every player is updated once; every shot a player fires is in the batch of new projectiles, which holds each projectile exactly as many times as players fire it (one per firing player, as many as `Firing` counts), each alive with the main weapon's direction and speed |
| `Game.FiringCounted` | game/main.py:471-483 | the players whose update fires are exactly those that see space just pressed while armed |
| `Game.OnlyFiredShots` | game/main.py:869 | the batch of new projectiles holds nothing but shots the players actually fired |
| `Game.Live` | game/main.py:870 | after a frame the weapon group holds exactly the live weapons, each as many times as it occurred, and no killed one |
| `Game.Frame` | game/main.py:851-870 | a frame fails only on an empty deque with no active phase; otherwise the rotator takes exactly one step, props, NPCs and players get one update each, and the new weapon group is exactly the surviving one-step updates of the old weapons, this frame's meatballs and the fired projectiles, each update kept as often as it occurs |
| `Game.ShotUpdatedInSameFrame` | game/main.py:867-870 | a projectile fired during the players' update is moved once in the same frame and, if it survives, is in the new weapon group |
| `Game.PropsStayPut` | game/main.py:867 | a group update leaves every prop with zero direction where it was |
| `Game.FrameKeepsPlaces` | game/main.py:867-870 | over a frame, props with zero direction stay put, and players and NPCs that fit the viewport end inside it |

## Left out

- Image loading is not modelled. This covers `load_image`, `resizer.alphonic_resize`, the temporary PNG file and the `SCACHE` surface cache. These are file I/O and opaque pygame surfaces. An entity is built from the size of its cached surface, passed in directly.
- Display plumbing is not modelled: window set-up, background blit, `draw`, `display.flip`, `clock.tick` and `set_timer`. Console output is not modelled either: the `print` of the spawn point in `event_meatball` and the three `print`s in `load_image`. The frame time and "now" are inputs.
- Event polling is not modelled. The only events kept are the queued meatball events, passed to `Game.Frame` as their random draws. The quit event only ends the loop.
- `Players.Normalize`: a diagonal is scaled by the double 0.7071067811865475, not by an exact 1/√2. Dafny's reals have no square root, so the length is one only up to that rounding. All other floating-point arithmetic is idealised as real arithmetic.
- `Players.Player.Update`: `pygame.time.get_ticks()` is read twice in one update (shot time and timer). The model uses one `now` for both.
- `enviro_influence` is `pass` in the code, and the model treats it as a no-op. The commented-out per-phase speed lookup, and its fatal error on an unknown phase name, are dead code. The broadcast phase name is therefore computed but never read by a sprite.
- `Vector2` aliasing is not modelled. In the code, a spec's direction object can be shared with the sprite built from it. Directions here are values.
- Sprite-group membership is not modelled as objects. `kill()` is an `alive` flag, and `Game.Live` removes dead sprites from the weapon group. `Game.Frame` models the main loop on values (`World`), not on the `Entity` objects.
- The static spec tables are data, not logic, and are left out. The exceptions are the two weapon rows (`Weapons.Orb`, `Weapons.Meatball`), whose speeds and sizes the spawn rules read.
- Instance counters and `instance_id` numbering are left out. The instantiation loops that copy spec tables into sprites, and the player-name suffix, are left out too. None of them affects movement, firing or phases.
- `Spray.Sprayed`: the first name the loop assigns, `name + str(index)`, is overwritten before use. Only the final `name-index` is modelled.
