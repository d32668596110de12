/** The collision test `check_collision`: strict axis-aligned bounding-box overlap
    between the 50 x 50 player box and each square enemy box. */
module Collision {
  import opened Settings

  /** The overlap test of one enemy, as the source writes it with strict comparisons. */
  predicate Overlaps(p: Pos, e: Enemy) {
    && p.x < e.x + e.size
    && p.x + PlayerWidth > e.x
    && p.y < e.y + e.size
    && p.y + PlayerHeight > e.y
  }

  /** Pixel (px, py) lies in the half-open box [x, x + w) x [y, y + h). */
  predicate InBox(px: int, py: int, x: int, y: int, w: int, h: int) {
    x <= px < x + w && y <= py < y + h
  }

  /** Reference meaning of a collision: some pixel lies in both boxes. */
  ghost predicate SharePixel(p: Pos, e: Enemy) {
    exists px: int, py: int ::
      InBox(px, py, p.x, p.y, PlayerWidth, PlayerHeight) && InBox(px, py, e.x, e.y, e.size, e.size)
  }

  /** The strict-inequality test is exactly "the two half-open boxes share a pixel",
      for any enemy of positive size. */
  lemma OverlapsIffSharePixel(p: Pos, e: Enemy)
    requires e.size > 0
    ensures Overlaps(p, e) <==> SharePixel(p, e)
  {
    if Overlaps(p, e) {
      var px := if p.x < e.x then e.x else p.x;
      var py := if p.y < e.y then e.y else p.y;
      assert InBox(px, py, p.x, p.y, PlayerWidth, PlayerHeight);
      assert InBox(px, py, e.x, e.y, e.size, e.size);
    }
    if SharePixel(p, e) {
      var px: int, py: int :|
        InBox(px, py, p.x, p.y, PlayerWidth, PlayerHeight) && InBox(px, py, e.x, e.y, e.size, e.size);
    }
  }

  /** `check_collision`: scan the enemies in order and report the first overlap.
      It is false on the empty list, and true exactly when some enemy overlaps. */
  function CheckCollision(p: Pos, enemies: seq<Enemy>): (hit: bool)
    ensures hit <==> exists i :: 0 <= i < |enemies| && Overlaps(p, enemies[i])
    ensures |enemies| == 0 ==> !hit
  {
    if |enemies| == 0 then false
    else if Overlaps(p, enemies[0]) then true
    else
      var rest := CheckCollision(p, enemies[1..]);
      assert forall i :: 1 <= i < |enemies| ==> enemies[i] == enemies[1..][i - 1];
      rest
  }

  /** Boxes that only touch along an edge do not collide. */
  lemma TouchingIsNoCollision(p: Pos, e: Enemy)
    requires e.x + e.size == p.x || p.x + PlayerWidth == e.x
          || e.y + e.size == p.y || p.y + PlayerHeight == e.y
    ensures !Overlaps(p, e)
  {
  }

  /** A gap on either axis means no collision; an enemy box placed exactly on the
      player's corner always collides. */
  lemma GapAndSamePlace(p: Pos, e: Enemy)
    ensures (e.x + e.size < p.x || p.x + PlayerWidth < e.x
          || e.y + e.size < p.y || p.y + PlayerHeight < e.y) ==> !Overlaps(p, e)
    ensures (e.x == p.x && e.y == p.y && e.size > 0) ==> Overlaps(p, e)
  {
  }
}
