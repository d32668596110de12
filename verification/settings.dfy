/** Fixed game constants and the small records shared by every component. */
module Settings {

  /** Screen size in pixels (the camera frame is requested at this size). */
  const Width: int := 1280
  const Height: int := 640

  /** The player is a fixed 50 x 50 box. */
  const PlayerWidth: int := 50
  const PlayerHeight: int := 50

  /** Inclusive ranges of the random draws for a new enemy. */
  const MinEnemySize: int := 30
  const MaxEnemySize: int := 120
  const MinSpeed: int := 10
  const MaxSpeed: int := 25

  /** Lives at the start of a game and after a restart. */
  const StartLives: int := 3

  /** Where the player starts: horizontally centred, 10 pixels above the bottom edge.
      Python's `//` on these non-negative operands agrees with Dafny's `/`. */
  const StartX: int := Width / 2 - PlayerWidth / 2
  const StartY: int := Height - PlayerHeight - 10

  /** A falling square: top-left corner (x, y), side length and vertical pixels per frame.
      The source stores it as the list [x, y, size, speed]; list equality is value equality,
      which is what datatype equality gives. */
  datatype Enemy = Enemy(x: int, y: int, size: int, speed: int)

  /** Top-left corner of the player's box. */
  datatype Pos = Pos(x: int, y: int)
}
