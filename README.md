# Two pygame platformers, modelled in Dafny

This project models the game logic of two small pygame platformers.

- `smb31.010.4.25.py` is the richer game. It has an overworld map, level entry, a timer, coins with a 100-coin extra life, power-ups and a clamped camera.
- `r1smb4k.py` is an earlier variant. It has the same entities but different rules: two-pass collision resolution, no left clamp, goombas that turn at span edges, and a game that stops at zero lives.

One call of each source method is modelled as one call of a Dafny method on a class with the same fields. The shapes follow the source:

- Mario, Goomba, Coin, OverworldMap and Game are classes.
- The per-platform, per-coin and per-goomba loops are `for` loops.
- Each method is proved against a pure specification function of the state before the call: `Step`, `PatrolStep`, `PaceStep`, `PickUps`, `Contacts`, `Gains`, `CameraFor` and `CameraFollow`.
- Lemmas state what the source promises about those functions.

Numbers:

- Positions and velocities are `real`, so gravity 0.8 is exact.
- Score, lives, the coin tally and the power-up level are `int`.
- `pygame.Rect.colliderect` is a strict overlap of open rectangles (`Geometry.Collide`).
- The level timer counts ticks: 300 seconds at 60 ticks per second is 18000 ticks.
- Keyboard state is a `Keys` record passed to `Update`. The event queue is a sequence of `Event`s passed to `HandleEvents`.

Modules:

- Shared: `Geometry` (screen and rectangles), `Level` (the platform layout, the `Coin` class and the coin row both games lay out) and `Kinematics` (the input and gravity phase both games share).
- `smb31.010.4.25.py`: `Smb3Overworld`, `Smb3Mario`, `Smb3Goomba`, `Smb3Rules` and `Smb3Game`.
- `r1smb4k.py`: `Smb4kMario`, `Smb4kGoomba`, `Smb4kRules` and `Smb4kGame`.

## Behaviours the model makes explicit

Each of these follows from the code as written and is stated as a lemma or a contract.

- The first game's Mario loop tests every platform against the rectangle computed before the loop. The first matching direction wins (`Smb3Mario.Classify`).
- The second game snaps horizontally, recomputes the rectangle, then snaps vertically. The two policies resolve the same corner contact differently (`Smb4kMario.CornerPolicies`).
- In the first game a goomba reverses once per platform it overlaps, so two overlapped walls leave its direction unchanged (`Smb3Goomba.BouncesParity`).
- `handle_collisions` uses one Mario rectangle for all coins and all goombas, computed before either loop.
  - Stomping one goomba leaves Mario rising, so a second goomba touching the same rectangle hurts him (`Smb3Rules.StompThenHurt`).
  - A hit sends Mario back to the start, and a later goomba touching the old rectangle can then be stomped from there (`Smb3Rules.HurtThenStomp`).
- In the second game the goomba loop keeps running after the last life: lives can reach -1 within one frame (`Smb4kRules.LivesGoNegative`).
- In the second game a goomba turns when any platform's span does not contain it. No position lies within both the span 200..400 and the span 500..650 of the level it builds, so every step turns the goomba and it only jitters in place (`Smb4kGoomba.AlwaysTurnsOnLevel`, `Smb4kGoomba.Jitters`).
- The second game's `setup_level` appends to the lists without clearing them, and places goombas at y = 368 rather than on the ground strip.
- Level completion moves the overworld position one cell right without `can_move_to`. For the generated map this is safe: every level entrance lies in columns 3..16 and rows 7..8, so the cell to its right is walkable. `Smb3Game.Game.Valid` keeps "the player stands on a walkable cell of the grid" as an invariant. That invariant is also why the confirm key's unchecked `map_data[y][x]` lookup is always in range.
- Neither `setup_level` nor the confirm key moves Mario, so after a level is completed (x past 2000) he stays there. Entering any level then completes it again on the first tick whose Mario update leaves him right of 2000. Holding the left key on that tick moves him back 5 and can delay it. `Smb3Game.Game.HandleKey` ensures Mario is unchanged, `Smb3Game.Game.SetupLevel` does not touch him, and `Smb3Game.Game.CheckCompletion` fires whenever x is past 2000 after the update.
- A game over on the timer costs no score. A game over from a goomba costs up to 1000 points. The completion check still runs after a game over in the same tick.

## Model

| member | source | states |
|---|---|---|
| Kinematics.Integrate | smb31.010.4.25.py:124-143 | after input, gravity and movement the body is airborne, its fall speed is at most 15, its horizontal speed is -5, 0 or 5, and it moved by exactly its new velocities |
| Kinematics.JumpNeedsGround | smb31.010.4.25.py:132-134 | the jump key changes the update only when the body is grounded; from rest it gives vertical velocity 0.8 - 15 instead of 0.8 |
| Level.Coin.constructor | smb31.010.4.25.py:223-229 | a new coin is at the given position and not collected |
| Level.PlaceCoins | smb31.010.4.25.py:346-347 | ten distinct new coins, the j-th at (300 + 50 j, 350), none collected |
| Smb3Mario.ResolveKeeps | smb31.010.4.25.py:149-168 | the platform loop never changes the horizontal velocity, only zeroes the vertical one, and grounds the body only while zeroing it |
| Smb3Mario.ResolveAppend | smb31.010.4.25.py:149-168 | resolving over two platform lists in sequence equals resolving over their concatenation |
| Smb3Mario.ResolveMisses | smb31.010.4.25.py:149-153 | platforms the rectangle does not overlap leave the body unchanged |
| Smb3Mario.StepBounds | smb31.010.4.25.py:121-178 | after an update: horizontal speed is the keys' choice (left wins), fall speed at most 15, x >= 0, y <= 568, and grounded implies zero vertical velocity |
| Smb3Mario.JumpIgnoredInAir | smb31.010.4.25.py:132-134 | while airborne the jump key has no effect on the update |
| Smb3Mario.StandingIsStable | smb31.010.4.25.py:136-158 | a body at rest on top of a platform, with no key held and no other platform in reach, stays in place and becomes grounded |
| Smb3Mario.RestsOnGround | smb31.010.4.25.py:146-158 | Mario at rest on the level's ground strip stays there, grounded |
| Smb3Mario.Mario.constructor | smb31.010.4.25.py:108-119 | a new Mario is at the given position, at rest, airborne and small |
| Smb3Mario.Mario.Move | smb31.010.4.25.py:124-143 | the input, gravity and movement phase yields `Integrate` of the old body |
| Smb3Mario.Mario.CollidePlatforms | smb31.010.4.25.py:146-168 | the platform loop yields `Resolve` of the old body over the platforms, in order |
| Smb3Mario.Mario.Update | smb31.010.4.25.py:121-178 | the new body is `Step` of the old one, with the speed, fall-speed, screen-edge and grounding bounds |
| Smb3Goomba.HitsNone | smb31.010.4.25.py:275-281 | with no overlapped platform the wall-hit count is zero |
| Smb3Goomba.BouncesParity | smb31.010.4.25.py:274-281 | the velocity is negated once per overlapped platform, so its magnitude never changes and an even number of hits keeps the direction |
| Smb3Goomba.BouncesSnap | smb31.010.4.25.py:274-281 | with no overlap the walk is unchanged; otherwise a moving goomba ends with x at the left edge minus its width, or at the right edge, of some platform it overlaps |
| Smb3Goomba.WalksAlongGround | smb31.010.4.25.py:257-285 | a goomba on the ground strip, clear of its ends, is supported, hits no wall and moves by its velocity |
| Smb3Goomba.Goomba.constructor | smb31.010.4.25.py:249-255 | a new goomba is at the given position, walking left at speed 1, alive |
| Smb3Goomba.Goomba.Update | smb31.010.4.25.py:257-285 | a dead goomba is unchanged; a live one becomes `PatrolStep` of its old state, its velocity keeps its magnitude, and y grows by exactly 5 iff it is unsupported and above 568 |
| Smb3Overworld.EmptyRowLayout | smb31.010.4.25.py:46-51 | an empty row has no walkable cell and no entrance |
| Smb3Overworld.PathRowLayout | smb31.010.4.25.py:52-55 | a path row is walkable exactly in columns 2..17 and has no entrance |
| Smb3Overworld.GrassRowLayout | smb31.010.4.25.py:53-65 | a grass row, with or without the castle and pipes, is walkable exactly in columns 2..17 and has entrances only in columns 3..16 |
| Smb3Overworld.WorldMapLayout | smb31.010.4.25.py:42-65 | the generated grid is 20 x 15; it is walkable exactly on columns 2..17 of rows 6..9, and its entrances lie in columns 3..16 of rows 7..8 |
| Smb3Overworld.OverworldMap.constructor | smb31.010.4.25.py:34-40 | the map holds the generated grid, the player starts at (2, 7), and the layout invariant holds |
| Smb3Overworld.OverworldMap.CanMoveTo | smb31.010.4.25.py:68-72 | a cell outside the 20 x 15 grid is never enterable |
| Smb3Overworld.CanMoveToLayout | smb31.010.4.25.py:68-72 | on the generated layout a cell is enterable iff it lies in columns 2..17 and rows 6..9 |
| Smb3Rules.PickUpsTally | smb31.010.4.25.py:425-434 | n collected coins add 100 n points; the tally becomes (tally + n) mod 100, and lives rise by one per wrap |
| Smb3Rules.PickUpsSane | smb31.010.4.25.py:425-434 | the coin loop keeps the tally in [0, 99] and never lowers score or lives |
| Smb3Rules.ContactsSane | smb31.010.4.25.py:437-458 | the goomba loop keeps score >= 0, lives >= 1, power >= 0 and the camera in [0, 1600]; it never changes the coin tally and can only switch the mode to the overworld |
| Smb3Rules.StompThenHurt | smb31.010.4.25.py:437-457 | after stomping one goomba, a second goomba touching the same rectangle costs a life |
| Smb3Rules.HurtThenStomp | smb31.010.4.25.py:437-457 | after a hit resets Mario, a second goomba touching the old rectangle is stomped |
| Smb3Rules.CameraFor | smb31.010.4.25.py:460-470 | the camera is min(max(x - 400, 0), 1600), and so lies in [0, 1600] |
| Smb3Game.Game.constructor | smb31.010.4.25.py:298-325 | a new game is running in the overworld with score 0, 3 lives, no coins, camera 0, Mario at rest at (100, 300) with power 0, the generated map grid with the player at (2, 7), a freshly built level, and the invariant holding |
| Smb3Game.Game.SetupLevel | smb31.010.4.25.py:327-351 | whatever the lists held before, afterwards there are exactly the 5 level platforms, 10 uncollected coins in a row and 2 live goombas on the ground, and a full timer, so the result does not depend on the state before the call |
| Smb3Game.Game.HandleKey | smb31.010.4.25.py:357-382 | in the overworld an arrow moves one cell iff `can_move_to` accepts it; the confirm key enters a level and rebuilds it iff the tile is grass, a castle or a pipe, and on any other tile changes nothing; in a level keys change nothing; Mario is never moved; the mode and grid position become `KeyEffect` of the old ones |
| Smb3Game.Game.HandleEvent | smb31.010.4.25.py:354-382 | a quit event clears `running`; the mode and grid position become `KeyEffect` of the key pressed (other events leave them); entering a level rebuilds it, and while the mode stays the same the platforms, coins, goombas and timer are kept; the invariant is kept |
| Smb3Game.ArrowMovesOneCell | smb31.010.4.25.py:358-375 | in the overworld an arrow key keeps the mode and moves the player iff the target cell is enterable, and then by exactly one cell along one axis |
| Smb3Game.EventsKeepNav | smb31.010.4.25.py:353-382 | any sequence of key presses keeps the player on a walkable cell, in a level only on an entrance, and once in a level no key changes the mode or position |
| Smb3Game.Game.HandleEvents | smb31.010.4.25.py:353-382 | after a frame's events, `running` is cleared iff one of them was a quit event; the mode and grid position are the fold `EventsEffect` of the key presses; a level entered during the frame starts fresh, and one never entered or left keeps its platforms, coins, goombas and timer |
| Smb3Game.Game.UpdateCamera | smb31.010.4.25.py:460-470 | the camera becomes `CameraFor` Mario's x |
| Smb3Game.Game.UpdateGoombas | smb31.010.4.25.py:392-393 | every live goomba takes one `PatrolStep`; dead ones are unchanged |
| Smb3Game.Game.TakeCoin | smb31.010.4.25.py:426-434 | one coin: the session becomes `PickUp` of the old one, and the coin becomes collected once overlapped and never uncollected |
| Smb3Game.Game.CollectCoins | smb31.010.4.25.py:425-434 | the coin loop yields `PickUps` over the coins in order; a coin is collected afterwards iff it was before or is overlapped |
| Smb3Game.Game.MeetGoomba | smb31.010.4.25.py:438-458 | one goomba: the session becomes `Contact` of the old one; the goomba dies iff it is alive, touched and stomped |
| Smb3Game.Game.FightGoombas | smb31.010.4.25.py:437-458 | the goomba loop yields `Contacts` over the goombas in order; each goomba ends alive iff `AliveAfter` holds |
| Smb3Game.Game.HandleCollisions | smb31.010.4.25.py:421-458 | the session becomes the goomba rules applied after the coin rules, both with Mario's rectangle on entry; each coin is collected iff it was already or it overlaps that rectangle; each goomba is alive iff the goomba rules leave it alive; the invariant is kept |
| Smb3Game.Game.TickTimer | smb31.010.4.25.py:398-412 | with time left the timer drops by one tick and nothing else changes; on expiry a life is lost, then either the game returns to the overworld with 3 lives and the timer at 0, or the level is rebuilt with Mario at (100, 300) and the camera at 0; on game over Mario's position, the camera, the platforms, coins and goombas are left as they were |
| Smb3Game.Game.RestartLevel | smb31.010.4.25.py:407-412 | the level is rebuilt as `setup_level` builds it, Mario is at (100, 300) and the camera at 0 |
| Smb3Game.Game.CheckCompletion | smb31.010.4.25.py:414-419 | right of x = 2000 the mode becomes the overworld, the map position moves one column right and the score rises by 1000; otherwise nothing changes; the player still stands on a walkable cell |
| Smb3Game.Game.Update | smb31.010.4.25.py:384-419 | the invariant is kept (score >= 0, tally in [0, 99], lives >= 1, camera in [0, 1600], timer in [0, 18000], player on a walkable cell, on an entrance while in a level); in the overworld nothing changes, neither the game nor its coin and goomba objects |
| Smb4kMario.SweepKeeps | r1smb4k.py:66-85 | the two-pass loop never changes the horizontal velocity, only zeroes the vertical one, and grounds the body only while zeroing it |
| Smb4kMario.StepBounds | r1smb4k.py:38-91 | after an update: horizontal speed is the keys' choice (left wins), fall speed at most 15, y <= 568, and grounded implies zero vertical velocity |
| Smb4kMario.SeparateLeavesNoOverlap | r1smb4k.py:76-85 | a body still moving vertically ends the vertical pass clear of that platform |
| Smb4kMario.NoLeftClamp | r1smb4k.py:87-91 | walking left from x = 0 reaches x = -5, where the first game clamps to 0 |
| Smb4kMario.CornerPolicies | r1smb4k.py:66-85 | for the same corner contact the first game lands Mario on the platform, while this one pushes him out sideways and he keeps falling |
| Smb4kMario.Mario.constructor | r1smb4k.py:26-36 | a new Mario is at the given position, at rest and airborne |
| Smb4kMario.Mario.Move | r1smb4k.py:41-60 | the input, gravity and movement phase yields `Integrate` of the old body |
| Smb4kMario.Mario.CollidePlatforms | r1smb4k.py:63-85 | the platform loop yields `Sweep` of the old body, starting from its rectangle |
| Smb4kMario.Mario.Update | r1smb4k.py:38-91 | the new body is `Step` of the old one, with the speed, fall-speed, floor and grounding bounds |
| Smb4kGoomba.AlwaysTurnsOnLevel | r1smb4k.py:150-154 | on the level's platforms every position lies outside some platform's span |
| Smb4kGoomba.Jitters | r1smb4k.py:145-154 | on the level's platforms two updates return a goomba to its position and direction |
| Smb4kGoomba.Goomba.constructor | r1smb4k.py:137-143 | a new goomba is at the given position, walking left at speed 1, alive |
| Smb4kGoomba.Goomba.Update | r1smb4k.py:145-154 | a dead goomba is unchanged; a live one moves by its velocity, which is negated (once) iff the new position is outside some platform's span |
| Smb4kRules.GainsCount | r1smb4k.py:221-226 | the coin loop adds 100 points per collected coin |
| Smb4kRules.ContactsBounds | r1smb4k.py:229-243 | the goomba loop never lowers the score, costs between 0 and one life per goomba, stops the game when lives run out, and never restarts it |
| Smb4kRules.LivesGoNegative | r1smb4k.py:237-243 | two hits in one frame with one life left give -1 lives and a stopped game |
| Smb4kRules.CameraFollow | r1smb4k.py:245-249 | the camera is never negative and equals x - min(x, 400), i.e. max(x - 400, 0), with no upper limit |
| Smb4kGame.Game.constructor | r1smb4k.py:164-198 | a new game is running with score 0, 3 lives, camera 0, Mario at rest at (100, 300), the 5 platforms, 10 uncollected coins at x = 300 + 50 j and y = 350, and 2 living goombas at x = 400 and 800, y = 368, walking left at speed 1 |
| Smb4kGame.Game.SetupLevel | r1smb4k.py:182-198 | the 5 platforms, 10 coins and 2 goombas are appended after the existing entries, which are kept; the new goombas stand at (400, 368) and (800, 368) |
| Smb4kGame.Game.HandleEvents | r1smb4k.py:200-203 | `running` is cleared iff one of the frame's events was a quit event |
| Smb4kGame.Game.UpdateGoombas | r1smb4k.py:211-212 | every live goomba takes one `PaceStep`; dead ones are unchanged |
| Smb4kGame.Game.TakeCoin | r1smb4k.py:222-226 | one coin: 100 points iff it is uncollected and overlapped; it stays collected |
| Smb4kGame.Game.CollectCoins | r1smb4k.py:221-226 | the coin loop adds `Gains` over the coins; a coin is collected afterwards iff it was before or is overlapped |
| Smb4kGame.Game.MeetGoomba | r1smb4k.py:230-243 | one goomba: the session becomes `Contact` of the old one; the goomba dies iff it is alive, touched and stomped |
| Smb4kGame.Game.FightGoombas | r1smb4k.py:229-243 | the goomba loop yields `Contacts` over the goombas in order; each goomba ends alive iff `AliveAfter` holds |
| Smb4kGame.Game.HandleCollisions | r1smb4k.py:217-243 | the session becomes the goomba rules applied after the coin points, both with Mario's rectangle on entry; each coin is collected iff it was already or it overlaps that rectangle; each goomba is alive iff the goomba rules leave it alive; the invariant is kept |
| Smb4kGame.Game.UpdateCamera | r1smb4k.py:245-249 | the camera becomes `CameraFollow` Mario's x |
| Smb4kGame.Game.Update | r1smb4k.py:205-215 | the invariant is kept: score >= 0, lives never above 3, the game stopped once lives are used up, camera >= 0, goombas at speed 1 |

## Left out

- Drawing, the HUD, fonts and the window (`draw`, `draw_snes_hud`, `OverworldMap.draw`): rendering only.
- The frame loop (`run`), `pygame.init` and the clock: one call of `Update` is one tick.
- `pygame.key.get_pressed` and `pygame.event.get`: replaced by the `Keys` and `Event` parameters.
- `Coin.update` and `rotation`: cosmetic animation. The coin loop in `Game.update` is therefore not modelled.
- Platform colour and `breakable`, `facing_right`, the `world` and `level` counters, and `tile_size`: cosmetic or display-only.
- The `camera_x` arguments of `Mario.update` and `Goomba.update`: both methods ignore them.
- Floating point: positions are exact reals. pygame truncates `Rect` coordinates to integers and the source uses floats; neither rounding is modelled.
- The timer: the source subtracts `1/FPS` seconds from a float each tick. The model counts whole ticks from 18000, so it does not capture float drift in when the timer expires.
- Smb3Game.Game.Update: its contract states the kept invariant and the overworld case only; what one level tick does is stated by the phase methods it calls in order.
- Smb4kGame.Game.Update: its contract states the kept invariant only; what one tick does is stated by the phase methods it calls in order.
- Smb3Mario.StandingIsStable: holds on exact reals only. pygame truncates `Rect` coordinates (smb31.010.4.25.py:147): Mario at rest at y = 528 falls to 528.8, whose truncated rectangle (bottom 560) does not overlap the ground top at 560, so `on_ground` alternates between ticks and the jump at line 132 works only every other tick. The model does not capture this.
- Smb3Mario.RestsOnGround: holds on exact reals only, for the same reason: with truncated rectangles Mario on the ground sinks by 0.8 and is snapped back on alternate ticks, ungrounded in between.
- Smb3Game.Game.UpdateGoombas: the bound |vel_x| = 1 is stated per goomba by `Smb3Goomba.Goomba.Update` (the velocity keeps its magnitude), not as part of the game invariant.
