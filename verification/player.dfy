/** The player's horizontal movement from the tracked fingertip (the clamp of line 84). */
module Player {
  import opened Settings

  /** `np.clip(v, lo, hi)`, i.e. `min(max(v, lo), hi)`, on plain integers. */
  function Clip(v: int, lo: int, hi: int): int {
    if v < lo then (if lo < hi then lo else hi)
    else if v > hi then hi
    else v
  }

  /** The player's x for a fingertip at screen column `handX`: the box is centred on
      the fingertip, then pushed back inside [0, Width - PlayerWidth]. */
  function PlayerXFromHand(handX: int): (x: int)
    ensures 0 <= x <= Width - PlayerWidth
    ensures 0 <= handX - PlayerWidth / 2 <= Width - PlayerWidth ==> x == handX - PlayerWidth / 2
    ensures handX - PlayerWidth / 2 < 0 ==> x == 0
    ensures handX - PlayerWidth / 2 > Width - PlayerWidth ==> x == Width - PlayerWidth
  {
    Clip(handX - PlayerWidth / 2, 0, Width - PlayerWidth)
  }

  /** The loop over all detected hands: each hand overwrites the player's x in turn,
      so with no hand the position is unchanged and otherwise the last hand wins.
      The y coordinate is never touched. */
  function ApplyHands(player: Pos, hands: seq<int>): (r: Pos)
    ensures r.y == player.y
    ensures |hands| == 0 ==> r == player
    ensures |hands| > 0 ==> r.x == PlayerXFromHand(hands[|hands| - 1])
    decreases |hands|
  {
    if |hands| == 0 then player
    else ApplyHands(player.(x := PlayerXFromHand(hands[0])), hands[1..])
  }
}
