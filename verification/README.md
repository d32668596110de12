# Hand-tracked dodging game: a Dafny model of the game logic

The game moves a 50 x 50 player block along the bottom of a 1280 x 640 screen
following the user's index fingertip. Square enemies fall from the top, and each
enemy that leaves the bottom of the screen scores one point. A collision costs a
life. The life that brings the count to zero ends the game, and 'r' then restarts
it. This project models the logic of `game8.py` that runs once the camera frame,
the hand detector, the random draws and the key are known. It proves what that
logic promises.

Modules, one per component of the program:

- `Settings` (settings.dfy): the screen, player and enemy constants, the `Enemy`
  record `[x, y, size, speed]` and the player position.
- `Wrappers` (wrappers.dfy): the optional value used for the spawn decision and
  for a `list.remove` that may fail.
- `Spawner` (spawner.dfy): `create_enemy`. The three `random.randint` draws are
  inputs constrained to their ranges.
- `Motion` (motion.dfy): `move_enemies`. It is modelled twice:
  - as a map followed by an order-preserving filter (`MoveEnemies`), which the
    game uses;
  - as the loop the source runs (`MoveEnemiesInPlace`). That loop iterates over
    a snapshot, moves each enemy in place and removes it with the value-equality
    `list.remove`.

  The two are proved equal. `remove` never fails and always deletes the enemy
  being processed. The reason: every enemy kept before it has y <= 640, and the
  enemy being processed has y > 640.
- `Collision` (collision.dfy): `check_collision`. It is proved equal to "some
  enemy overlaps the player". The strict test is proved equal to "the two
  half-open boxes share a pixel".
- `Player` (player.dfy): the clamp of line 84 and the loop over detected hands.
  With several hands, the last one wins.
- `Game` (game.dfy): the state record, `reset_game`, a playing frame, and one
  loop iteration including the 'q' and 'r' keys. It also holds the invariant
  every frame keeps and two worked cases.

Inputs from the outside world are parameters of `Game.Frame`:
- the fingertip columns of the detected hands, in detection order;
- the spawn decision together with its draws;
- the key pressed.

Notes on the code's behaviour:

- With several hands, the last hand detected sets the player's x.
- Keys are read after the frame's update. So 'r' pressed in the same frame that
  loses the last life already restarts the game (`Game.RestartInLosingFrame`).
- Collisions can never happen in two consecutive frames while the game runs. A
  non-fatal hit clears the enemies, and an enemy spawned in the next frame is
  still near the top of the screen (`Game.NoHitRightAfterClear`). So three
  collisions never come in consecutive frames; they are separated by quieter
  frames (`Game.HitsCostLives`).
- The comment at line 100 says "reset position", but a non-fatal collision
  leaves the player where it is. Only the enemies are cleared.

## Model

| member | source | states |
|---|---|---|
| Spawner.CreateEnemy | game8.py:27-31 | a new enemy starts at y = 0 with x in [0, 1160], size in [30, 120] and speed in [10, 25], so its box lies inside the screen width (x + size <= 1280) |
| Spawner.CreateEnemyOnto | game8.py:27-31 | every enemy at the top edge with x in [0, 1160] and in-range size and speed comes from some in-range draw |
| Motion.Survivors | game8.py:36-39 | the enemies left after one step are never more than before, and every one of them is on screen (y <= 640) |
| Motion.MoveEnemies | game8.py:34-40 | the score grows by exactly the number of enemies removed, so it never decreases, and every remaining enemy is on screen (y <= 640) |
| Motion.DroppedPlusSurvivors | game8.py:36-40 | every enemy is either removed (and counted once) or kept |
| Motion.SurvivorsSingle | game8.py:37-39 | an enemy is removed if and only if y + speed > 640; at exactly 640 it is kept with only y changed |
| Motion.SurvivorsAppend | game8.py:36-39 | enemies are processed independently and survivors keep their relative order (the step distributes over concatenation) |
| Motion.SurvivorsMembership | game8.py:36-39 | a value is a survivor if and only if it is some input enemy moved down by its speed and still on screen (x, size and speed unchanged) |
| Motion.ListRemove | game8.py:39 | `list.remove` succeeds exactly when the value is present and then shortens the list by one |
| Motion.ListRemoveAfterPrefix | game8.py:39 | when no earlier element equals the value, `remove` deletes the element right after that prefix |
| Motion.InPlaceStep | game8.py:36-40 | one iteration of the snapshot loop turns the survivors of a prefix into the survivors of the prefix extended by one enemy, and counts the drop |
| Motion.MoveEnemiesInPlace | game8.py:34-40 | the snapshot loop with in-place moves and value-equality `remove` gives the same list and score as the map-and-filter step |
| Collision.CheckCollision | game8.py:43-51 | false on no enemies; true if and only if some enemy passes the strict overlap test |
| Collision.OverlapsIffSharePixel | game8.py:48-49 | for enemies of positive size, the strict test holds exactly when the two half-open boxes share a pixel |
| Collision.TouchingIsNoCollision | game8.py:48-49 | boxes that only touch along an edge do not collide |
| Collision.GapAndSamePlace | game8.py:48-49 | a gap on either axis rules out a collision, and an enemy placed on the player's corner always collides |
| Player.PlayerXFromHand | game8.py:84 | the player's x lies in [0, 1230]; it is hand_x - 25 when that is in range, and otherwise the nearer bound |
| Player.ApplyHands | game8.py:77-84 | with no hand the player is unchanged; otherwise the last hand sets x; y is never changed |
| Game.ResetGame | game8.py:54-60 | a reset gives score 0, 3 lives, no enemies, a running game and the player at (615, 580), and this state satisfies the invariant |
| Game.Advanced | game8.py:72-92 | following the hands, spawning and moving keep lives, the game-over flag and the player's y, and do not lower the score |
| Game.PlayingFrame | game8.py:72-101 | a hit costs exactly one life; reaching 0 sets game over and keeps the enemies, otherwise the enemies are cleared and the score kept; without a hit only steps one to three apply |
| Game.Frame | game8.py:72-135 | 'q' and only 'q' leaves the loop; while the game runs a frame without a key is a playing frame, and with 'r' it is a playing frame followed by a reset only if that frame ended the game; while game over, a frame without a key changes nothing and 'r' yields the reset state |
| Game.SurvivorsWellPlaced | game8.py:34-40 | moving enemies that lie inside the screen with drawn shapes yields enemies that still do |
| Game.PlayingFrameKeepsInv | game8.py:72-101 | a playing frame keeps lives in [0, 3], lives == 0 exactly when game over, the score non-negative, the player in range on its row and every enemy inside the screen |
| Game.FrameKeepsInv | game8.py:67-135 | every loop iteration that continues keeps that invariant |
| Game.RestartOnlyWhenOver | game8.py:134-135 | 'r' has no effect while the game keeps running |
| Game.RestartInLosingFrame | game8.py:95-135 | 'r' in the frame that loses the last life restarts the game at once |
| Game.ScoreCountsDrops | game8.py:87-101 | during play the score grows by exactly the number of enemies that left the screen this frame, so it never decreases |
| Game.HitsCostLives | game8.py:67-135 | over any run of loop iterations without keys, each detected collision costs exactly one life, at most the starting lives are lost, and the game is over exactly when the collisions used them all up (from 3 lives, the third collision ends the game) |
| Game.NoHitRightAfterClear | game8.py:94-101 | the frame right after a collision that cleared the enemies cannot collide, since a new enemy's bottom edge stays above y = 145 |
| Game.CollisionScenario | game8.py:92-101 | an enemy at (600, 560), size 40, speed 10 moves to y = 570 and hits the player at (615, 580), costing a life and clearing the enemies |
| Game.DropScenario | game8.py:36-40 | an enemy at y = 635 with speed 10 leaves the screen and scores a point; one at y = 630 stops at 640 and stays |

## Left out

- Camera capture, frame mirroring and colour conversion, the `cv2` drawing and
  display calls, `waitKey` and the final `release`/`destroyAllWindows`: these are
  I/O and rendering in an external library.
- The hand detector (`hands.process` and the landmark lookup) is an external
  vision library working on floating-point coordinates. Each detected hand
  enters the model as an integer column `hand_x`. The conversion
  `int(x * width)` is not modelled. `hand_y` is computed but never used.
- `random.random() < 0.02` and `random.randint`: spawning is a yes/no input, and
  the draws are inputs that lie in their ranges. No probability distribution is
  modelled.
- `np.clip` returns a numpy integer; the model uses a plain integer clamp.
- The key code's `& 0xFF` masking: keys enter as quit, restart or no key, and any
  other code counts as no key. The outer `while True` is modelled one iteration
  at a time (`Game.Frame`). A quit ends the loop, and the state after it is not
  modelled.
- `enemy_speed = 10` (line 19) is never read by the program and has no
  counterpart.
- A failed camera read (`ret` false) is not handled by the source and is not
  modelled.
