/**
  The entity model of rooms/02-state-handler.ts: the moving-entity part that
  players and alpacas share (position, movement intent, velocity and a speed
  fixed per kind), its integration step MovingEntity.move, the Player class
  and the static Decoration.
*/
module Entities {
  import opened Vectors
  import opened Random

  /** Player.getSpeed, in units per millisecond. */
  const PlayerSpeed: real := 0.4
  /** Alpaca.getSpeed, in units per millisecond. */
  const AlpacaSpeed: real := 0.05

  const PlayerColors: seq<string> := ["red", "green", "yellow", "blue", "cyan", "magenta"]
  const DecorationTypes: seq<string> := ["grass"]

  /** The fields of a MovingEntity that move() reads or writes. */
  datatype Motion = Motion(pos: Vector, movement: Vector, velocity: Vector)

  /**
    MovingEntity.move(deltaTime): each coordinate of the position advances by
    movement * speed * deltaTime, but only when that movement component is
    non-zero; the velocity is recomputed from the movement alone; the
    movement intent itself is kept.
  */
  function Moved(m: Motion, speed: real, dt: real): Motion
  {
    Motion(
      Vector(
        if m.movement.x != 0.0 then m.pos.x + m.movement.x * speed * dt else m.pos.x,
        if m.movement.y != 0.0 then m.pos.y + m.movement.y * speed * dt else m.pos.y),
      m.movement,
      Vector(m.movement.x * speed, m.movement.y * speed))
  }

  /**
    The per-axis guard of move() makes no difference: whatever the movement,
    each coordinate changes by exactly movement * speed * deltaTime, and the
    velocity is movement * speed whatever deltaTime is.
  */
  lemma MovedDisplacement(m: Motion, speed: real, dt: real)
    ensures Moved(m, speed, dt).pos.x - m.pos.x == m.movement.x * speed * dt
    ensures Moved(m, speed, dt).pos.y - m.pos.y == m.movement.y * speed * dt
    ensures Moved(m, speed, dt).velocity == Vector(m.movement.x * speed, m.movement.y * speed)
    ensures Moved(m, speed, dt).movement == m.movement
  {
    if m.movement.x == 0.0 {
      assert m.movement.x * speed == 0.0;
      assert m.movement.x * speed * dt == 0.0;
    }
    if m.movement.y == 0.0 {
      assert m.movement.y * speed == 0.0;
      assert m.movement.y * speed * dt == 0.0;
    }
  }

  /** With no movement intent, move() leaves the position alone and zeroes the velocity, for any deltaTime. */
  lemma MovedWithoutIntent(m: Motion, speed: real, dt: real)
    requires m.movement == Zero
    ensures Moved(m, speed, dt).pos == m.pos
    ensures Moved(m, speed, dt).velocity == Zero
  {
  }

  /** move(0) never changes the position. */
  lemma MovedNoTime(m: Motion, speed: real)
    ensures Moved(m, speed, 0.0).pos == m.pos
  {
    MovedDisplacement(m, speed, 0.0);
  }

  /**
    One move() step covers at most speed * deltaTime when the movement
    intent is at most of unit length, as it always is for an alpaca.
  */
  lemma {:induction false} MovedStepBounded(m: Motion, speed: real, dt: real)
    requires MagSquared(m.movement) <= 1.0
    ensures MagSquared(Sub(Moved(m, speed, dt).pos, m.pos)) <= (speed * dt) * (speed * dt)
  {
    var k := speed * dt;
    var d := Sub(Moved(m, speed, dt).pos, m.pos);
    MovedDisplacement(m, speed, dt);
    assert d.x == m.movement.x * k;
    assert d.y == m.movement.y * k;
    ShortStep(m.movement, k);
  }

  /**
    The same step, axis by axis: with an intent of at most unit length and
    a non-negative speed * deltaTime, no coordinate moves by more than
    speed * deltaTime.
  */
  lemma {:induction false} MovedAxisBounded(m: Motion, speed: real, dt: real)
    requires MagSquared(m.movement) <= 1.0 && speed * dt >= 0.0
    ensures -(speed * dt) <= Moved(m, speed, dt).pos.x - m.pos.x <= speed * dt
    ensures -(speed * dt) <= Moved(m, speed, dt).pos.y - m.pos.y <= speed * dt
  {
    var k := speed * dt;
    MovedDisplacement(m, speed, dt);
    var v := m.movement;
    assert v.x * speed * dt == v.x * k && v.y * speed * dt == v.y * k;
    AxisWithin(v, 1.0);
    NonNegativeProduct(1.0 - v.x, k);
    NonNegativeProduct(1.0 + v.x, k);
    NonNegativeProduct(1.0 - v.y, k);
    NonNegativeProduct(1.0 + v.y, k);
  }

  /** A vector of at most unit length scaled by k has squared length at most k * k. */
  lemma ShortStep(v: Vector, k: real)
    requires MagSquared(v) <= 1.0
    ensures MagSquared(Vector(v.x * k, v.y * k)) <= k * k
  {
    ScaledMagSquared(v, k);
    NonNegativeSquare(k);
    assert k * k * (1.0 - MagSquared(v)) >= 0.0;
  }

  /**
    A spawn coordinate Math.floor(Math.random() * width) + shift: a whole
    number in [shift, shift + width).
  */
  function SpawnCoordinate(r: real, width: nat, shift: int): (c: real)
    requires IsDraw(r) && width > 0
    ensures shift as real <= c < (shift + width) as real
    ensures c == c.Floor as real
  {
    (RandomInt(r, width) + shift) as real
  }

  /** Spawn position of a Player or an Alpaca: whole coordinates in [0, 600) x [0, 600). */
  function SpawnPosition(d: SpawnDraw): (p: Vector)
    requires d.Valid()
    ensures 0.0 <= p.x < 600.0 && 0.0 <= p.y < 600.0
  {
    Vector(SpawnCoordinate(d.x, 600, 0), SpawnCoordinate(d.y, 600, 0))
  }

  /** The map of player ids to positions that an alpaca observes. */
  function Positions(players: map<string, Player>): map<string, Vector>
    reads players.Values
  {
    map id | id in players :: players[id].pos
  }

  /** class Player: a MovingEntity steered by its client, with a colour drawn from the palette. */
  class Player {
    const speed: real := PlayerSpeed
    const color: string
    var pos: Vector
    var movement: Vector
    var velocity: Vector

    function CurrentMotion(): Motion
      reads this
    {
      Motion(pos, movement, velocity)
    }

    /** new Player(): colour first, then a spawn position in [0, 600) x [0, 600), no movement intent. */
    constructor (d: SpawnDraw)
      requires d.Valid()
      ensures speed == PlayerSpeed
      ensures color in PlayerColors && color == PlayerColors[RandomInt(d.pick, |PlayerColors|)]
      ensures pos == SpawnPosition(d) && movement == Zero && velocity == Zero
    {
      color := PlayerColors[RandomInt(d.pick, |PlayerColors|)];
      pos := Vector(RandomInt(d.x, 600) as real, RandomInt(d.y, 600) as real);
      movement := Zero;
      velocity := Zero;
    }

    /** MovingEntity.setMovement: the intent is stored as given, without normalising it. */
    method SetMovement(m: Vector)
      modifies this
      ensures CurrentMotion() == old(CurrentMotion()).(movement := m)
    {
      movement := m;
    }

    /** MovingEntity.move for a player. */
    method Move(dt: real)
      modifies this
      ensures CurrentMotion() == Moved(old(CurrentMotion()), speed, dt)
    {
      if movement.x != 0.0 {
        pos := pos.(x := pos.x + movement.x * speed * dt);
      }
      if movement.y != 0.0 {
        pos := pos.(y := pos.y + movement.y * speed * dt);
      }
      velocity := Vector(movement.x * speed, movement.y * speed);
    }
  }

  /** class Decoration: a static Entity with a type drawn from DecorationTypes. */
  datatype Decoration = Decoration(pos: Vector, kind: string)

  /** new Decoration(): type first, then a position in [-2000, 2000) x [-2000, 2000). */
  function NewDecoration(d: SpawnDraw): (dec: Decoration)
    requires d.Valid()
    ensures dec.kind == "grass"
    ensures -2000.0 <= dec.pos.x < 2000.0 && -2000.0 <= dec.pos.y < 2000.0
  {
    Decoration(
      Vector(SpawnCoordinate(d.x, 4000, -2000), SpawnCoordinate(d.y, 4000, -2000)),
      DecorationTypes[RandomInt(d.pick, |DecorationTypes|)])
  }
}
