/** The motion and scoring step `move_enemies`: every enemy falls by its speed and
    enemies that leave the bottom of the screen are dropped, one point each. */
module Motion {
  import opened Wrappers
  import opened Settings

  /** One enemy after one frame of falling; only y changes. */
  function Advance(e: Enemy): Enemy {
    e.(y := e.y + e.speed)
  }

  /** Off screen means strictly below the bottom edge; y == Height is still on screen. */
  predicate OffScreen(e: Enemy) {
    e.y > Height
  }

  /** The enemies that remain after one step, in their original order: advance each
      enemy, then keep those still on screen. */
  function Survivors(s: seq<Enemy>): (r: seq<Enemy>)
    ensures |r| <= |s|
    ensures forall i :: 0 <= i < |r| ==> !OffScreen(r[i])
  {
    if |s| == 0 then []
    else
      var e := Advance(s[0]);
      (if OffScreen(e) then [] else [e]) + Survivors(s[1..])
  }

  /** The number of enemies that leave the screen in one step. */
  function Dropped(s: seq<Enemy>): nat {
    if |s| == 0 then 0
    else (if OffScreen(Advance(s[0])) then 1 else 0) + Dropped(s[1..])
  }

  /** Result of a motion step: the new enemy list and the new score. */
  datatype Moved = Moved(enemies: seq<Enemy>, score: int)

  /** `move_enemies` as a map followed by an order-preserving filter. The score grows
      by exactly the number of enemies that were removed, so it never decreases. */
  function MoveEnemies(enemies: seq<Enemy>, score: int): (r: Moved)
    ensures r.score - score == |enemies| - |r.enemies|
    ensures r.score >= score
    ensures forall i :: 0 <= i < |r.enemies| ==> r.enemies[i].y <= Height
  {
    DroppedPlusSurvivors(enemies);
    Moved(Survivors(enemies), score + Dropped(enemies))
  }

  /** Every enemy is either dropped or survives. */
  lemma {:induction false} DroppedPlusSurvivors(s: seq<Enemy>)
    ensures Dropped(s) + |Survivors(s)| == |s|
  {
    if |s| > 0 {
      DroppedPlusSurvivors(s[1..]);
    }
  }

  /** A single enemy is removed if and only if its moved y is strictly greater than
      the screen height; otherwise it survives with only y changed. */
  lemma SurvivorsSingle(e: Enemy)
    ensures Survivors([e]) == [] <==> e.y + e.speed > Height
    ensures e.y + e.speed <= Height ==> Survivors([e]) == [Enemy(e.x, e.y + e.speed, e.size, e.speed)]
    ensures Dropped([e]) == (if e.y + e.speed > Height then 1 else 0)
  {
  }

  /** The step treats enemies independently and keeps their relative order: the
      survivors of a concatenation are the survivors of each part, concatenated. */
  lemma {:induction false} SurvivorsAppend(a: seq<Enemy>, b: seq<Enemy>)
    ensures Survivors(a + b) == Survivors(a) + Survivors(b)
    ensures Dropped(a + b) == Dropped(a) + Dropped(b)
  {
    if |a| == 0 {
      assert a + b == b;
    } else {
      assert (a + b)[1..] == a[1..] + b;
      SurvivorsAppend(a[1..], b);
    }
  }

  /** A value is a survivor exactly when it is the advanced form of some input enemy
      that is still on screen: survivors keep x, size and speed, and gain speed in y. */
  lemma {:induction false} SurvivorsMembership(s: seq<Enemy>, r: Enemy)
    ensures r in Survivors(s) <==>
      exists j :: 0 <= j < |s| && r == Advance(s[j]) && r.y <= Height
  {
    if |s| > 0 {
      SurvivorsMembership(s[1..], r);
      if r in Survivors(s[1..]) {
        var j :| 0 <= j < |s[1..]| && r == Advance(s[1..][j]) && r.y <= Height;
        assert r == Advance(s[j + 1]);
      }
      if exists j :: 0 <= j < |s| && r == Advance(s[j]) && r.y <= Height {
        var j :| 0 <= j < |s| && r == Advance(s[j]) && r.y <= Height;
        if j > 0 {
          assert r == Advance(s[1..][j - 1]);
        }
      }
    }
  }

  /** Python's `list.remove(v)`: delete the first element equal to v, or fail
      (ValueError) when there is none. */
  function ListRemove(s: seq<Enemy>, v: Enemy): (r: Option<seq<Enemy>>)
    ensures r.Some? <==> v in s
    ensures r.Some? ==> |r.value| == |s| - 1
  {
    if |s| == 0 then None
    else if s[0] == v then Some(s[1..])
    else
      match ListRemove(s[1..], v)
      case None => None
      case Some(t) => Some([s[0]] + t)
  }

  /** Removing v from a list whose prefix holds no copy of v deletes the first
      element after that prefix. */
  lemma {:induction false} ListRemoveAfterPrefix(a: seq<Enemy>, v: Enemy, b: seq<Enemy>)
    requires v !in a
    ensures ListRemove(a + [v] + b, v) == Some(a + b)
  {
    var s := a + [v] + b;
    if |a| > 0 {
      assert s[0] == a[0] != v;
      assert s[1..] == a[1..] + [v] + b;
      ListRemoveAfterPrefix(a[1..], v, b);
      assert ListRemove(s[1..], v) == Some(a[1..] + b);
      assert ListRemove(s, v) == Some([a[0]] + (a[1..] + b));
      assert [a[0]] + (a[1..] + b) == a + b;
    } else {
      assert s[0] == v;
      assert s[1..] == b;
      assert a + b == b;
    }
  }

  /** Overwriting the element right after a prefix replaces just that element. */
  lemma UpdateAfterPrefix(a: seq<Enemy>, x: Enemy, m: Enemy, b: seq<Enemy>)
    ensures (a + [x] + b)[|a| := m] == a + [m] + b
  {
  }

  /** One iteration of the in-place loop: with the survivors of the processed prefix
      followed by the moved enemy and the unprocessed rest, removing the moved enemy
      when it is off screen (or keeping it) leaves the survivors of the longer prefix
      followed by the rest. */
  lemma {:induction false} InPlaceStep(pre: seq<Enemy>, x: Enemy, rest: seq<Enemy>)
    ensures var moved := Advance(x);
      && (OffScreen(moved) ==>
            ListRemove(Survivors(pre) + [moved] + rest, moved) == Some(Survivors(pre + [x]) + rest))
      && (!OffScreen(moved) ==> Survivors(pre) + [moved] + rest == Survivors(pre + [x]) + rest)
      && Dropped(pre + [x]) == Dropped(pre) + (if OffScreen(moved) then 1 else 0)
  {
    var moved := Advance(x);
    SurvivorsAppend(pre, [x]);
    SurvivorsSingle(x);
    if OffScreen(moved) {
      assert moved !in Survivors(pre);
      ListRemoveAfterPrefix(Survivors(pre), moved, rest);
      assert Survivors(pre + [x]) == Survivors(pre);
    }
  }

  /** `move_enemies` as written: iterate over a snapshot of the list, move each enemy
      in place (the snapshot and the live list share the enemy objects, so the live
      element at `kept` is the one being moved), and on leaving the screen call the
      value-equality `remove` and add one to the score. The result is the same as the
      map-and-filter `MoveEnemies`, and `remove` never fails. */
  method MoveEnemiesInPlace(enemies: seq<Enemy>, score: int) returns (live: seq<Enemy>, newScore: int)
    ensures live == MoveEnemies(enemies, score).enemies
    ensures newScore == MoveEnemies(enemies, score).score
  {
    var snapshot := enemies;
    live := enemies;
    newScore := score;
    var kept := 0;
    var i := 0;
    while i < |snapshot|
      invariant 0 <= i <= |snapshot|
      invariant kept == |Survivors(snapshot[..i])|
      invariant live == Survivors(snapshot[..i]) + snapshot[i..]
      invariant newScore == score + Dropped(snapshot[..i])
    {
      var before := snapshot[..i];
      var rest := snapshot[i + 1..];
      assert snapshot[..i + 1] == before + [snapshot[i]];
      assert snapshot[i..] == [snapshot[i]] + rest;
      InPlaceStep(before, snapshot[i], rest);
      var moved := Advance(snapshot[i]);
      ghost var done := Survivors(before);
      assert live == done + [snapshot[i]] + rest;
      UpdateAfterPrefix(done, snapshot[i], moved, rest);
      live := live[kept := moved];
      assert live == done + [moved] + rest;
      if moved.y > Height {
        live := ListRemove(live, moved).value;
        newScore := newScore + 1;
      } else {
        kept := kept + 1;
      }
      i := i + 1;
    }
    assert snapshot[..i] == enemies;
    assert snapshot[i..] == [];
    DroppedPlusSurvivors(enemies);
  }
}
