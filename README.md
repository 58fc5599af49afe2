# DinoRun game-state model

This project models the game logic of DinoRun (`dino.py`), a side-scrolling
endless runner. The player's dino jumps over towers and ducks under birds
("planes"). Obstacles enter at the right edge of an 800-pixel-wide screen and
move left 5 pixels per tick. Each one that leaves on the left scores a point.
A collision ends the game, and releasing R starts a new one.

The model has six modules, one per part of the program:

- `Screen` (screen.dfy): the screen width and the ground line at y = 300.
- `Geometry` (geometry.dfy): the parts of pygame's integer `Rect` the game uses
  (`bottom`, `right`, assigning `bottom`, and `colliderect`).
- `DinoPhysics` (dino.dfy): the dino.
  - The pure specification is a `DinoState` value with `AfterJump`,
    `AfterCrouch`, `AfterRelease` and `AfterUpdate`.
  - The class `Dino` has the source's mutable fields. Each of its methods is
    proved to match one of those functions.
  - Velocity is counted in half-pixels per tick. Gravity 0.5 becomes 1, and
    jump strength -15 becomes -30.
- `Obstacles` (obstacles.dfy): towers and birds as records.
  - Their spawn boxes.
  - The per-tick sweep that moves every obstacle and retires those off
    screen (`Survivors`, `Retired`).
  - The spawn test against the last list element.
  - The bird's move to y = 175 when it is drawn.
- `Game` (game.dfy): the session.
  - The pure specification is a `World` value with `Tick` (one
    `DinoGame.update`).
  - The class `DinoGame` holds the dino object, the obstacle list as a `seq`
    field, `score`, `gameOver` and `groundPosX`. Its `Update` runs the same
    steps as the source, and the sweep is an in-place loop over a copy of the
    list.
- `MainLoop` (main_loop.dfy): the body of `main`.
  - Key events are applied in order.
  - Restart replaces the session object.
  - Each frame then updates and draws.
  - `Run` plays frames until one of them contains a quit event or the given frames run out.

Two things outside the source are passed in as parameters:

- `random.randint(300, 2000)`: parameters `r1` (tower check) and `r2` (bird
  check), each in [300, 2000].
- How pygame stores the float `rect.y + velocity` into its integer field: a
  function parameter `toPixels`, which receives the new position in
  half-pixels. Nothing is assumed about it, except in the lemmas that say
  `IsRounding(toPixels)`. These require that it lands within half a pixel of
  the exact value.

Invariants proved across any run:

- The dino keeps x = 50 and width 100. Its height is 50 exactly when it is
  crouching, else 100. Its velocity never drops below a jump's.
- The ground offset is a multiple of 5 in [-795, 0].
- Every obstacle keeps its spawn shape.
- The obstacles stand left to right in list order, more than 300 pixels
  apart.

Three facts about the code that are easy to miss:

- **No double spawn.** A tower and a bird never spawn in the same tick. The
  bird test compares against the last list element, which is then the new
  tower at x = 800. Since 800 < 800 - r is false for every r >= 300, the bird
  is never added. `Game.TickSpawnsAtMostOne` proves this.
- **Both flags can be set.** "Crouching" and "jumping" can both be true: a
  crouch in mid-air sets the crouch flag without clearing the jump flag. The
  crouch box sits at y = 350, below the ground line, so the next update lands
  the dino at once (`DinoPhysics.CrouchInAirLands`).
- **Obstacle lifetime.** A tower is retired on its 166th move, when its right
  edge 825 - 5n first drops below 0. A bird is retired on its 186th move
  (`Obstacles.Lifetimes`).

## Model

| member | source | states |
|---|---|---|
| Geometry.CollidesIffSharedPixel | dino.py:140-143 | two non-empty boxes collide exactly when some pixel lies in both (both directions) |
| Geometry.TouchingDoesNotCollide | dino.py:142 | boxes that only share an edge, on any of the four sides, do not collide, whichever box asks |
| Geometry.CollidesSymmetric | dino.py:142 | the collision test does not depend on which box asks |
| DinoPhysics.Start | dino.py:38-48 | a new dino has the 100x100 box at x = 50 with bottom 300, velocity 0, neither flag set, run image |
| DinoPhysics.StartValid | dino.py:41-48 | the new dino satisfies the shape invariant and stands at rest |
| DinoPhysics.Dino.constructor | dino.py:27-48 | the constructed object's fields are the new dino |
| DinoPhysics.Dino.Jump | dino.py:50-53 | jump sets velocity to the jump strength and the jump flag, only when not already jumping |
| DinoPhysics.JumpIdempotent | dino.py:50-53 | a second jump before landing changes nothing |
| DinoPhysics.Dino.Crouch | dino.py:55-60 | crouch sets the 100x50 box at y = 350, the crouch sprite and flag, in the air too |
| DinoPhysics.Dino.ReleaseCrouch | dino.py:210-215 | releasing DOWN sets the 100x100 box at y = 200 and clears the crouch flag, leaving velocity, jump flag and sprite alone |
| DinoPhysics.CrouchReleaseKeepMotion | dino.py:55-60 | crouch and release leave velocity and the jump flag unchanged for every dino, in the air as on the ground |
| DinoPhysics.CrouchReleaseRoundTrip | dino.py:210-215 | for a dino standing on the ground, releasing after a crouch gives back the standing box |
| DinoPhysics.AfterUpdate | dino.py:62-82 | after an update the bottom is at most 300; on landing it is exactly 300 with zero velocity and no jump flag; otherwise velocity grows by gravity; the sprite is the jump sprite while jumping, else the pose chosen from the flags before the tick |
| DinoPhysics.Dino.Update | dino.py:62-82 | the object's update does what AfterUpdate specifies |
| DinoPhysics.ValidUnderKeys | dino.py:50-60 | jump, crouch and release keep x, width, height-follows-crouch and the velocity bound |
| DinoPhysics.ValidUnderUpdate | dino.py:70-78 | an update keeps the shape invariant under any rounding |
| DinoPhysics.RestingUnderKeys | dino.py:50-60 | the key handlers keep "not jumping implies zero velocity on or below the ground" |
| DinoPhysics.RestingUnderUpdate | dino.py:70-78 | with a true rounding an update keeps that property, and a dino that is not jumping lands on that tick |
| DinoPhysics.JumpLeavesGround | dino.py:50-78 | with a true rounding, a jump from the ground is still in the air after the next update, moving up |
| DinoPhysics.CrouchInAirLands | dino.py:55-82 | with a true rounding, the update after a crouch lands the dino in the 100x50 box at y = 250; on a jump-landing tick the jump sprite is still shown |
| DinoPhysics.JumpEnds | dino.py:70-78 | with a true rounding, every jump ends after finitely many updates |
| Obstacles.Spawned | dino.py:89-112 | a new obstacle is at x = 800 with bottom 300; a tower is 25x125, a bird 125x50 |
| Obstacles.SweepCounts | dino.py:155-159 | survivors plus removals account for every obstacle once |
| Obstacles.SweepPositions | dino.py:155-158 | each survivor is an input obstacle moved left by exactly 5 |
| Obstacles.SweepOrder | dino.py:155-158 | survivors keep their relative order |
| Obstacles.SweepMembership | dino.py:157-158 | an obstacle survives exactly when its right edge is at least 0 after moving |
| Obstacles.SweepCharacterized | dino.py:155-159 | the four sweep properties together |
| Obstacles.SweepSnoc | dino.py:155-159 | sweeping one more obstacle extends the survivors and the removal count by that obstacle alone |
| Obstacles.SweepStep | dino.py:155-159 | one step of the in-place loop: the handled obstacle sits right after the survivors so far, and removing it or storing it moved gives the live list and removal count after that step |
| Obstacles.MoveWellFormed | dino.py:98-99 | a move keeps an obstacle's spawn shape and takes it left of the spawn column |
| Obstacles.SweepSpaced | dino.py:155-159 | the sweep keeps obstacles well formed, in left-to-right order and spaced |
| Obstacles.SpawnSpaced | dino.py:132-138 | an appended obstacle is right of all others and more than 300 past the last |
| Obstacles.SettleAllEffect | dino.py:118-120 | drawing moves every bird to y = 175 and changes nothing else; drawing twice is drawing once |
| Obstacles.SettleAllSpaced | dino.py:181-182 | drawing keeps obstacles well formed and spaced |
| Obstacles.MoveNShift | dino.py:98-99 | n updates move an obstacle left by exactly 5n |
| Obstacles.Lifetimes | dino.py:157 | a spawned tower survives 165 moves and a bird 185 |
| Game.Fresh | dino.py:123-129 | a new session has a new dino, no obstacles, score 0, no game over, ground offset 0 |
| Game.FreshValid | dino.py:123-129 | a new session satisfies the session invariant |
| Game.Scroll | dino.py:148-151 | the ground step keeps the offset a multiple of 5 in [-795, 0] |
| Game.ScrollFromZero | dino.py:148-151 | after n ticks from 0 the offset is -5 times n mod 160 |
| Game.Tick | dino.py:145-163 | a finished game is unchanged. Otherwise: the dino updates, the ground scrolls, the list becomes the survivors plus at most one new entry, the score grows by the removals, and game over holds iff the new dino box overlaps some obstacle |
| Game.TickSpawnsAtMostOne | dino.py:161-162 | a tower is added iff there is room for it; a bird only when there is room for a bird but not a tower; an empty list always gets a tower |
| Game.TickScore | dino.py:155-159 | the score grows by exactly the number of obstacles removed |
| Game.TickValid | dino.py:145-163 | a tick keeps the session invariant |
| Game.SettleValid | dino.py:181-182 | drawing keeps the session invariant |
| Game.CrouchClearsSettledBirds | dino.py:120 | a dino crouching on the ground never collides with a drawn bird |
| Game.DinoGame.constructor | dino.py:123-129 | the constructed session is the new session |
| Game.DinoGame.SpawnObstacle | dino.py:132-134 | appends a tower exactly when the list is empty or the last x is below 800 - r |
| Game.DinoGame.SpawnBird | dino.py:136-138 | appends a bird under the same test |
| Game.DinoGame.CheckCollision | dino.py:140-143 | sets game over when the dino overlaps some obstacle and never clears it |
| Game.DinoGame.MoveAndRetire | dino.py:154-159 | the in-place loop leaves the survivors in the list and adds the removals to the score |
| Game.DinoGame.Update | dino.py:145-163 | the object's update does what Tick specifies |
| Game.DinoGame.Advance | dino.py:147-163 | while the game runs, the dino updates, the ground scrolls, the list becomes the survivors with the tower and bird tests applied in that order, the score grows by the removals, and game over is set exactly when the new dino box overlaps some obstacle |
| Game.DinoGame.Draw | dino.py:181-182 | drawing settles every bird in the list in place |
| MainLoop.OnEvent | dino.py:203-220 | pressing Space jumps, pressing Down crouches, releasing Down stands the dino up, and releasing R while the game is over gives a new session. Every other event leaves the session unchanged. Only the restart touches the obstacles, score, game over or ground offset |
| MainLoop.HandleEvent | dino.py:203-220 | handling one event on the session objects gives the session OnEvent specifies, on the same session or a freshly made one |
| MainLoop.HandleEvents | dino.py:199-220 | handling a frame's events in order gives the session OnEvents specifies, and reports whether a quit was among them |
| MainLoop.OnEventsValid | dino.py:199-220 | the events of a frame keep the session invariant |
| MainLoop.OnEventsResting | dino.py:199-220 | the events of a frame keep the dino resting when not jumping |
| MainLoop.GameOverLatches | dino.py:218-220 | while the game is over, events other than releasing R keep game over, obstacles, score and ground offset |
| MainLoop.FrameOverStaysOver | dino.py:146 | a frame of a finished game without releasing R keeps it over with its score; only drawing touches the obstacles |
| MainLoop.RestartIsFresh | dino.py:218-220 | releasing R in a finished game gives the new session whatever came before |
| MainLoop.FrameValid | dino.py:197-223 | a frame keeps the session invariant |
| MainLoop.PlayValid | dino.py:193-226 | every run from a valid session ends valid |
| MainLoop.PlayResting | dino.py:193-226 | with a true rounding, throughout a run a dino that is not jumping has zero velocity and stands on or below the ground |
| MainLoop.Frame | dino.py:199-223 | one loop body on the session objects gives the specified frame result, reports whether a quit arrived, and keeps or freshly replaces the session |
| MainLoop.Run | dino.py:193-226 | main's loop ends in the session the frames specify, and that session is valid |

## Left out

- Pygame set-up and timing: `pygame.init`, the window and caption, the clock, `display.flip`, `clock.tick(60)` and `pygame.quit`. These are I/O and pacing with no game logic.
- Assets and drawing: image loading and scaling, the sky and sand textures, fonts, score and banner text, and all blits. The one exception is the bird's move to y = 175 in `Bird.draw`, kept as `Game.DinoGame.Draw`. `current_image` is a three-valued tag, not an image.
- Event polling: `pygame.event.get()` is replaced by each frame's event sequence. A quit event is only reported (`running`). The frame it arrives in still completes, as in the source.
- The random number generator: replaced by the bounded parameters `r1` and `r2`. The source draws no number when the list is empty. The model then ignores the parameter.
- DinoPhysics.AfterUpdate: the mid-air height is given only through the `toPixels` parameter, since pygame's conversion of a float `y` is not part of this model. The ground clamp, velocity and flags are stated exactly.
- `gravity`, `jump_strength` and `speed` are instance attributes that are never changed. They are modelled as module constants.
- `colliderect`: pygame also refuses zero-sized boxes and normalises negative sizes. Neither can happen here, because every box in the game has a positive size. The model uses the plain strict-overlap test.
- Obstacles are values in a sequence, not objects. `list.remove` in the source removes by object identity. Each object is in the list once, so removing by position is the same.
