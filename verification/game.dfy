/** The per-frame state machine: a playing frame (hand, spawn, motion, collision),
    the frozen game-over state, and the quit / restart keys. */
module Game {
  import opened Wrappers
  import opened Settings
  import opened Spawner
  import opened Motion
  import opened Collision
  import opened Player

  /** Everything the main loop keeps between frames. */
  datatype GameState = GameState(score: int, lives: int, enemies: seq<Enemy>, gameOver: bool, player: Pos)

  /** The key read at the end of a frame: 'q', 'r', or anything else (including none). */
  datatype Key = QuitKey | RestartKey | NoKey

  /** What the outside world supplies for one frame: the fingertip columns of the
      detected hands in detection order, the spawn decision with its random draws,
      and the key pressed. */
  datatype FrameInput = FrameInput(hands: seq<int>, spawn: Option<SpawnDraw>, key: Key)

  /** The random draws, when there are any, lie in the ranges `randint` is asked for. */
  predicate ValidInput(input: FrameInput) {
    input.spawn.Some? ==> ValidDraw(input.spawn.value)
  }

  /** The outcome of one loop iteration: keep running with a new state, or leave the loop. */
  datatype Tick = Continue(state: GameState) | Exit

  /** An enemy that lies inside the screen, with a shape the spawner can draw. */
  predicate WellPlaced(e: Enemy) {
    InsideWidth(e) && DrawnShape(e) && 0 <= e.y <= Height
  }

  /** What holds of every reachable state. */
  predicate Inv(s: GameState) {
    && 0 <= s.lives <= StartLives
    && (s.lives == 0 <==> s.gameOver)
    && s.score >= 0
    && 0 <= s.player.x <= Width - PlayerWidth
    && s.player.y == StartY
    && forall i :: 0 <= i < |s.enemies| ==> WellPlaced(s.enemies[i])
  }

  /** `reset_game`, which also gives the values the globals start with: whatever the
      state before, a reset yields no score, three lives, no enemies, a running game
      and the player at (615, 580). */
  function ResetGame(): (r: GameState)
    ensures r.score == 0 && r.lives == 3 && r.enemies == [] && !r.gameOver
    ensures r.player == Pos(615, 580)
    ensures Inv(r)
  {
    GameState(0, StartLives, [], false, Pos(StartX, StartY))
  }

  /** Steps one to three of a playing frame: follow the hands, maybe append a spawned
      enemy, then move the enemies and count those that left the screen. */
  function Advanced(s: GameState, input: FrameInput): (a: GameState)
    requires ValidInput(input)
    ensures a.lives == s.lives && a.gameOver == s.gameOver
    ensures a.player.y == s.player.y
    ensures a.score >= s.score
  {
    var player := ApplyHands(s.player, input.hands);
    var spawned := match input.spawn
      case None => s.enemies
      case Some(d) => s.enemies + [CreateEnemy(d)];
    var moved := MoveEnemies(spawned, s.score);
    s.(player := player, enemies := moved.enemies, score := moved.score)
  }

  /** The collision test of step four, on the moved enemies and the new player position. */
  predicate Hit(s: GameState, input: FrameInput)
    requires ValidInput(input)
  {
    var a := Advanced(s, input);
    CheckCollision(a.player, a.enemies)
  }

  /** The body of `if not game_over:`. A hit costs exactly one life; the life that
      brings the count to zero ends the game and freezes the enemies where they are,
      any other lost life clears the enemies and keeps the score. */
  function PlayingFrame(s: GameState, input: FrameInput): (r: GameState)
    requires ValidInput(input)
    ensures r.score == Advanced(s, input).score >= s.score
    ensures r.player == Advanced(s, input).player
    ensures Hit(s, input) ==> r.lives == s.lives - 1
    ensures Hit(s, input) && r.lives == 0 ==> r.gameOver && r.enemies == Advanced(s, input).enemies
    ensures Hit(s, input) && r.lives != 0 ==> r.enemies == [] && r.gameOver == s.gameOver
    ensures !Hit(s, input) ==> r == Advanced(s, input)
  {
    var a := Advanced(s, input);
    if CheckCollision(a.player, a.enemies) then
      var lives := a.lives - 1;
      if lives == 0 then a.(lives := lives, gameOver := true)
      else a.(lives := lives, enemies := [])
    else a
  }

  /** One iteration of the main loop. 'q' always leaves the loop. While the game runs
      the frame is a playing frame, and 'r' resets only when that frame ended the game.
      While the game is over nothing changes unless 'r' is pressed, which resets it. */
  function Frame(s: GameState, input: FrameInput): (t: Tick)
    requires ValidInput(input)
    ensures t.Exit? <==> input.key == QuitKey
    ensures s.gameOver && input.key == NoKey ==> t == Continue(s)
    ensures s.gameOver && input.key == RestartKey ==> t == Continue(ResetGame())
    ensures !s.gameOver && input.key == NoKey ==> t == Continue(PlayingFrame(s, input))
    ensures !s.gameOver && input.key == RestartKey ==>
      t == Continue(if PlayingFrame(s, input).gameOver then ResetGame() else PlayingFrame(s, input))
  {
    var s1 := if s.gameOver then s else PlayingFrame(s, input);
    match input.key
    case QuitKey => Exit
    case RestartKey => Continue(if s1.gameOver then ResetGame() else s1)
    case NoKey => Continue(s1)
  }

  /** Enemies that survive a motion step from well-placed enemies are well placed. */
  lemma SurvivorsWellPlaced(s: seq<Enemy>)
    requires forall i :: 0 <= i < |s| ==> WellPlaced(s[i])
    ensures forall i :: 0 <= i < |Survivors(s)| ==> WellPlaced(Survivors(s)[i])
  {
  }

  /** A playing frame keeps the invariant. */
  lemma PlayingFrameKeepsInv(s: GameState, input: FrameInput)
    requires Inv(s) && !s.gameOver && ValidInput(input)
    ensures Inv(PlayingFrame(s, input))
  {
    var spawned := match input.spawn
      case None => s.enemies
      case Some(d) => s.enemies + [CreateEnemy(d)];
    assert forall i :: 0 <= i < |spawned| ==> WellPlaced(spawned[i]);
    SurvivorsWellPlaced(spawned);
    assert Advanced(s, input).enemies == Survivors(spawned);
  }

  /** Every loop iteration keeps the invariant: in particular lives stay in [0, 3],
      lives are zero exactly when the game is over, enemies stay inside the screen
      and the player stays on its row inside the screen. */
  lemma FrameKeepsInv(s: GameState, input: FrameInput)
    requires Inv(s) && ValidInput(input)
    ensures Frame(s, input).Continue? ==> Inv(Frame(s, input).state)
  {
    if !s.gameOver {
      PlayingFrameKeepsInv(s, input);
    }
  }

  /** 'r' does nothing while the game is running: with the game still running after
      this frame's update, a frame with 'r' is the same as a frame without a key. */
  lemma RestartOnlyWhenOver(s: GameState, input: FrameInput)
    requires ValidInput(input) && !s.gameOver && input.key == RestartKey
    requires !PlayingFrame(s, input).gameOver
    ensures Frame(s, input) == Frame(s, input.(key := NoKey))
  {
  }

  /** Keys are read after the frame's update, so 'r' pressed in the very frame that
      loses the last life already restarts the game. */
  lemma RestartInLosingFrame(s: GameState, input: FrameInput)
    requires ValidInput(input) && !s.gameOver && input.key == RestartKey
    requires PlayingFrame(s, input).gameOver
    ensures Frame(s, input) == Continue(ResetGame())
  {
  }

  /** While the game runs and no reset happens, the score never decreases: it grows by
      exactly the number of enemies that left the screen in this frame. */
  lemma ScoreCountsDrops(s: GameState, input: FrameInput)
    requires ValidInput(input) && !s.gameOver && input.key == NoKey
    ensures Frame(s, input).state.score - s.score
         == |s.enemies| + (if input.spawn.Some? then 1 else 0) - |Advanced(s, input).enemies|
    ensures Frame(s, input).state.score >= s.score
  {
  }

  /** A run of loop iterations in which no key is pressed. */
  predicate KeylessRun(inputs: seq<FrameInput>) {
    forall k :: 0 <= k < |inputs| ==> ValidInput(inputs[k]) && inputs[k].key == NoKey
  }

  /** The state after iterating `Frame` over a key-less run. */
  function Play(s: GameState, inputs: seq<FrameInput>): GameState
    requires KeylessRun(inputs)
    decreases |inputs|
  {
    if |inputs| == 0 then s
    else Play(Frame(s, inputs[0]).state, inputs[1..])
  }

  /** The number of iterations of such a run that detect a collision while the game runs. */
  function Hits(s: GameState, inputs: seq<FrameInput>): nat
    requires KeylessRun(inputs)
    decreases |inputs|
  {
    if |inputs| == 0 then 0
    else (if !s.gameOver && Hit(s, inputs[0]) then 1 else 0) + Hits(Frame(s, inputs[0]).state, inputs[1..])
  }

  /** Each detected collision costs exactly one life, whatever happens in between, and
      the game is over exactly when the collisions used up the lives. Starting from
      three lives, the third collision ends the game. */
  lemma {:induction false} HitsCostLives(s: GameState, inputs: seq<FrameInput>)
    requires Inv(s)
    requires KeylessRun(inputs)
    ensures Hits(s, inputs) <= s.lives
    ensures Play(s, inputs).lives == s.lives - Hits(s, inputs)
    ensures Play(s, inputs).gameOver <==> Hits(s, inputs) == s.lives
    decreases |inputs|
  {
    if |inputs| > 0 {
      FrameKeepsInv(s, inputs[0]);
      HitsCostLives(Frame(s, inputs[0]).state, inputs[1..]);
    }
  }

  /** A frame after a collision that cleared the enemies cannot collide: a new enemy
      falls at most 25 pixels in its first frame, so its bottom edge stays at or above
      y = 145, far above the player's top at y = 580. */
  lemma NoHitRightAfterClear(s: GameState, i1: FrameInput, i2: FrameInput)
    requires Inv(s) && !s.gameOver && ValidInput(i1) && ValidInput(i2)
    requires Hit(s, i1) && !PlayingFrame(s, i1).gameOver
    ensures !Hit(PlayingFrame(s, i1), i2)
  {
  }

  /** Worked case: an enemy at (600, 560) of size 40 and speed 10 falls to y = 570 and
      then overlaps the player at (615, 580), costing a life and clearing the enemies. */
  lemma CollisionScenario()
    ensures var s := GameState(0, 3, [Enemy(600, 560, 40, 10)], false, Pos(615, 580));
      var input := FrameInput([], None, NoKey);
      && Advanced(s, input).enemies == [Enemy(600, 570, 40, 10)]
      && Hit(s, input)
      && Frame(s, input) == Continue(GameState(0, 2, [], false, Pos(615, 580)))
  {
  }

  /** Worked case: an enemy at y = 635 with speed 10 reaches 645 > 640, leaves the
      screen and scores a point; one at 630 reaches exactly 640 and stays. */
  lemma DropScenario()
    ensures var s := GameState(7, 3, [Enemy(100, 635, 40, 10)], false, Pos(615, 580));
      Frame(s, FrameInput([], None, NoKey)) == Continue(s.(score := 8, enemies := []))
    ensures var s := GameState(7, 3, [Enemy(100, 630, 40, 10)], false, Pos(615, 580));
      Frame(s, FrameInput([], None, NoKey)) == Continue(s.(enemies := [Enemy(100, 640, 40, 10)]))
  {
  }
}
