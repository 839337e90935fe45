/**
  The values Math.random() supplies.  Every call to it in
  rooms/02-state-handler.ts becomes an explicit draw r with 0 <= r < 1, passed
  in by the caller, so the simulation is a deterministic function of its
  draws.
*/
module Random {

  /** A value Math.random() can return. */
  predicate IsDraw(r: real)
  {
    0.0 <= r < 1.0
  }

  /** Math.floor(Math.random() * n): an integer index below n. */
  function RandomInt(r: real, n: nat): (i: int)
    requires IsDraw(r) && n > 0
    ensures 0 <= i < n
    ensures i as real <= r * n as real < i as real + 1.0
  {
    assert r * n as real < n as real by {
      assert (1.0 - r) * n as real > 0.0;
    }
    (r * n as real).Floor
  }

  /**
    The draws consumed when a player, an alpaca or a decoration is
    constructed: one to pick its colour or type from a palette, then one
    per coordinate of its spawn position, in that order.
  */
  datatype SpawnDraw = SpawnDraw(pick: real, x: real, y: real)
  {
    predicate Valid()
    {
      IsDraw(pick) && IsDraw(x) && IsDraw(y)
    }
  }

  /**
    The draws an alpaca consumes when it re-plans its wandering: the new
    timer, the coin that decides whether it moves, and the two offsets of
    its new destination (used only when the coin says move).
  */
  datatype WanderDraw = WanderDraw(timer: real, move: real, dx: real, dy: real)
  {
    predicate Valid()
    {
      IsDraw(timer) && IsDraw(move) && IsDraw(dx) && IsDraw(dy)
    }
  }
}
