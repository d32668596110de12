/** Creation of new enemies from the three random draws of `create_enemy`. */
module Spawner {
  import opened Settings

  /** The three integers `random.randint` draws for one enemy. The draws are
      inputs of the model rather than a probability distribution. */
  datatype SpawnDraw = SpawnDraw(x: int, size: int, speed: int)

  /** `randint(a, b)` returns a value in the closed range [a, b]; these are the
      ranges `create_enemy` asks for. */
  predicate ValidDraw(d: SpawnDraw) {
    && 0 <= d.x <= Width - MaxEnemySize
    && MinEnemySize <= d.size <= MaxEnemySize
    && MinSpeed <= d.speed <= MaxSpeed
  }

  /** The enemy's box lies horizontally inside the screen. */
  predicate InsideWidth(e: Enemy) {
    0 <= e.x && e.x + e.size <= Width
  }

  /** The size and speed lie in the ranges the spawner draws from. */
  predicate DrawnShape(e: Enemy) {
    MinEnemySize <= e.size <= MaxEnemySize && MinSpeed <= e.speed <= MaxSpeed
  }

  /** A new enemy enters at the top edge, and because x is drawn with the largest
      possible size subtracted, its right edge never passes the screen's right edge. */
  function CreateEnemy(d: SpawnDraw): (e: Enemy)
    requires ValidDraw(d)
    ensures e.y == 0
    ensures InsideWidth(e)
    ensures e.x <= Width - MaxEnemySize
    ensures DrawnShape(e)
    ensures e.size > 0 && e.speed > 0
  {
    Enemy(d.x, 0, d.size, d.speed)
  }

  /** Every in-range draw is realised: the spawner's image is exactly the set of
      enemies at the top edge with in-range position, size and speed. */
  lemma CreateEnemyOnto(e: Enemy)
    requires e.y == 0 && 0 <= e.x <= Width - MaxEnemySize && DrawnShape(e)
    ensures var d := SpawnDraw(e.x, e.size, e.speed); ValidDraw(d) && CreateEnemy(d) == e
  {
  }
}
