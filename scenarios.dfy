/**
  Whole-run consequences of the model: an alpaca alone in the world keeps to
  its speed over any number of ticks and sets off when a re-plan sends it
  somewhere; an alpaca next to a player runs straight away from it; a player
  who has left cannot be steered back into the world.
*/
module Scenarios {
  import opened Vectors
  import opened Random
  import opened Entities
  import opened AlpacaAI
  import opened World

  /** A product of a non-zero number and a positive one is non-zero. */
  lemma NonZeroProduct(a: real, b: real)
    requires a != 0.0 && b > 0.0
    ensures a * b != 0.0
  {
    if a > 0.0 {
      assert a * b > 0.0;
    } else {
      assert (-a) * b > 0.0;
    }
  }

  /** The alpaca after one tick per draw in ws, in a world without players. */
  ghost function QuietRun(a: AlpacaState, dt: real, ws: seq<WanderDraw>, norm: Vector -> Vector): AlpacaState
    requires forall i :: 0 <= i < |ws| ==> ws[i].Valid()
    decreases |ws|
  {
    if ws == [] then a else QuietRun(TickAlpaca(a, map[], dt, ws[0], norm), dt, ws[1..], norm)
  }

  /** How far n steps of at most k each can reach: n * k, counted step by step. */
  function Reach(n: nat, k: real): (r: real)
    ensures r == n as real * k
  {
    if n == 0 then 0.0 else Reach(n - 1, k) + k
  }

  /**
    Over n ticks of length dt with nobody around, the alpaca drifts at most
    n * AlpacaSpeed * dt along each axis: it never jumps.
  */
  lemma {:induction false} QuietRunDrift(a: AlpacaState, dt: real, ws: seq<WanderDraw>, norm: Vector -> Vector)
    requires dt >= 0.0 && IsNormalizer(norm)
    requires forall i :: 0 <= i < |ws| ==> ws[i].Valid()
    ensures var far := Reach(|ws|, AlpacaSpeed * dt);
      var drift := Sub(QuietRun(a, dt, ws, norm).motion.pos, a.motion.pos);
      -far <= drift.x <= far && -far <= drift.y <= far
    decreases |ws|
  {
    if ws != [] {
      var k := AlpacaSpeed * dt;
      var rest := ws[1..];
      var b := TickAlpaca(a, map[], dt, ws[0], norm);
      assert QuietRun(a, dt, ws, norm) == QuietRun(b, dt, rest, norm);
      TickAxisBounded(a, map[], dt, ws[0], norm);
      QuietRunDrift(b, dt, rest, norm);
      assert Reach(|ws|, k) == Reach(|rest|, k) + k;
    }
  }

  /**
    An alpaca whose timer runs out while nobody is near, and whose re-plan
    picks a destination more than 5 units off, has left its spot by the end
    of the tick.
  */
  lemma {:induction false} WanderSetsOff(a: AlpacaState, dt: real, w: WanderDraw, norm: Vector -> Vector)
    requires w.Valid() && IsNormalizer(norm) && dt > 0.0 && a.timer - dt <= 0.0
    requires LongerThan(Sub(WanderDestination(a.motion.pos, w), a.motion.pos), ArrivalRadius)
    ensures TickAlpaca(a, map[], dt, w, norm).motion.pos != a.motion.pos
  {
    var pos := a.motion.pos;
    NoNeighbourNoRepulsion(pos, map[]);
    var d := Decide(a, map[], dt, w, norm);
    assert d == React(a, Zero, dt, w, norm);
    SteerArrival(pos, WanderDestination(pos, w), norm);
    var m := d.motion.movement;
    assert MagSquared(m) == 1.0;
    MovedDisplacement(d.motion, AlpacaSpeed, dt);
    var k := AlpacaSpeed * dt;
    assert k > 0.0;
    if m.x != 0.0 {
      NonZeroProduct(m.x, k);
      assert m.x * AlpacaSpeed * dt == m.x * k;
    } else {
      assert m.y != 0.0;
      NonZeroProduct(m.y, k);
      assert m.y * AlpacaSpeed * dt == m.y * k;
    }
  }

  /**
    An alpaca 10 units to the right of the only player runs straight to the
    right, whatever its timer and destination.
  */
  lemma {:induction false} FleeAlongX(a: AlpacaState, dt: real, w: WanderDraw, norm: Vector -> Vector)
    requires w.Valid() && IsNormalizer(norm)
    requires a.motion.pos == Vector(310.0, 300.0)
    ensures Decide(a, map["s1" := Vector(300.0, 300.0)], dt, w, norm).motion.movement == Vector(1.0, 0.0)
  {
    var ps := map["s1" := Vector(300.0, 300.0)];
    var away := Sub(a.motion.pos, ps["s1"]);
    assert away == Vector(10.0, 0.0);
    FleeFromLoneNeighbour(a, ps, "s1", dt, w, norm);
    UnitAlongX(Decide(a, ps, dt, w, norm).motion.movement, away);
  }

  /**
    A session that joined and left cannot be steered afterwards: the movement
    message fails and the player stays gone.
  */
  method LeftPlayerStaysGone(s: State, id: string, d: SpawnDraw, m: Vector) returns (ok: bool)
    requires s.Valid() && d.Valid()
    modifies s
    ensures !ok && id !in s.players
    ensures s.Valid()
  {
    s.CreatePlayer(id, d);
    s.RemovePlayer(id);
    ok := s.SetPlayerMovement(id, m);
  }
}
