/**
  class Alpaca of rooms/02-state-handler.ts: a MovingEntity that decides its
  own movement every tick.  It flees from players that come within 100 units
  and otherwise wanders: on a timer it re-plans a destination (or decides to
  stay), and it steers toward that destination until within 5 units of it.
*/
module AlpacaAI {
  import opened Vectors
  import opened Random
  import opened Entities

  /** Players strictly closer than this repel an alpaca. */
  const FleeRadius: real := 100.0
  /** An alpaca within this distance of its destination stops. */
  const ArrivalRadius: real := 5.0
  const AlpacaColors: seq<string> := ["grey"]

  /** The state of an alpaca: its moving-entity part, its destination and its wander timer. */
  datatype AlpacaState = AlpacaState(motion: Motion, destination: Vector, timer: real)

  /** What one player at q adds to the repulsion of an alpaca at pos. */
  function RepulsionFrom(pos: Vector, q: Vector): Vector
  {
    var direction := Sub(pos, q);
    if ShorterThan(direction, FleeRadius) then direction else Zero
  }

  /** Each player's contribution to the repulsion of an alpaca at pos. */
  function Contributions(pos: Vector, ps: map<string, Vector>): map<string, Vector>
  {
    map id | id in ps :: RepulsionFrom(pos, ps[id])
  }

  /** The sum of the vectors terms[id] over the ids in keys, in no particular order. */
  ghost function SumOver(terms: map<string, Vector>, keys: set<string>): Vector
    requires keys <= terms.Keys
    decreases keys
  {
    if keys == {} then Zero
    else
      var id :| id in keys;
      Add(SumOver(terms, keys - {id}), terms[id])
  }

  /** The repulsion an alpaca at pos feels from all players, summed in the forEach loop of Alpaca.update. */
  ghost function Repulsion(pos: Vector, ps: map<string, Vector>): Vector
  {
    SumOver(Contributions(pos, ps), ps.Keys)
  }

  /**
    The sum does not depend on the order in which the players are visited:
    any one of them can be taken out last.
  */
  lemma {:induction false} SumRemove(terms: map<string, Vector>, keys: set<string>, id: string)
    requires keys <= terms.Keys && id in keys
    ensures SumOver(terms, keys) == Add(SumOver(terms, keys - {id}), terms[id])
    decreases keys
  {
    var first :| first in keys && SumOver(terms, keys) == Add(SumOver(terms, keys - {first}), terms[first]);
    if first != id {
      SumRemove(terms, keys - {first}, id);
      SumRemove(terms, keys - {id}, first);
      assert keys - {first} - {id} == keys - {id} - {first};
      var rest := SumOver(terms, keys - {first} - {id});
      assert SumOver(terms, keys) == Add(Add(rest, terms[id]), terms[first]);
      assert SumOver(terms, keys - {id}) == Add(rest, terms[first]);
    }
  }

  /** Terms that are all zero sum to zero. */
  lemma {:induction false} SumOfZeros(terms: map<string, Vector>, keys: set<string>)
    requires keys <= terms.Keys
    requires forall id :: id in keys ==> terms[id] == Zero
    ensures SumOver(terms, keys) == Zero
    decreases keys
  {
    if keys != {} {
      var id :| id in keys;
      SumRemove(terms, keys, id);
      SumOfZeros(terms, keys - {id});
    }
  }

  /** With no player strictly within 100 units there is no repulsion. */
  lemma NoNeighbourNoRepulsion(pos: Vector, ps: map<string, Vector>)
    requires forall id :: id in ps ==> !ShorterThan(Sub(pos, ps[id]), FleeRadius)
    ensures Repulsion(pos, ps) == Zero
  {
    SumOfZeros(Contributions(pos, ps), ps.Keys);
  }

  /** With exactly one player within 100 units, the repulsion points straight from that player to the alpaca. */
  lemma {:induction false} LoneNeighbour(pos: Vector, ps: map<string, Vector>, near: string)
    requires near in ps && ShorterThan(Sub(pos, ps[near]), FleeRadius)
    requires forall id :: id in ps && id != near ==> !ShorterThan(Sub(pos, ps[id]), FleeRadius)
    ensures Repulsion(pos, ps) == Sub(pos, ps[near])
  {
    var terms := Contributions(pos, ps);
    SumRemove(terms, ps.Keys, near);
    SumOfZeros(terms, ps.Keys - {near});
  }

  /** The timer a re-plan sets, (Math.random() * 5 + 5) * 1000: between 5 and 10 seconds. */
  function WanderTimer(r: real): (t: real)
    requires IsDraw(r)
    ensures 5000.0 <= t < 10000.0
  {
    (r * 5.0 + 5.0) * 1000.0
  }

  /**
    The destination a re-plan picks: on heads, the current position moved by
    a whole number in [-100, 100) along each axis; on tails, the current
    position itself.
  */
  function WanderDestination(pos: Vector, w: WanderDraw): (dest: Vector)
    requires w.Valid()
    ensures -100.0 <= dest.x - pos.x < 100.0 && -100.0 <= dest.y - pos.y < 100.0
    ensures IsWhole(dest.x - pos.x) && IsWhole(dest.y - pos.y)
    ensures RandomInt(w.move, 2) != 0 ==> dest == pos
  {
    if RandomInt(w.move, 2) == 0 then
      var dx, dy := RandomInt(w.dx, 200), RandomInt(w.dy, 200);
      var dest := Vector(pos.x + dx as real - 100.0, pos.y + dy as real - 100.0);
      assert dest.x - pos.x == (dx - 100) as real;
      assert dest.y - pos.y == (dy - 100) as real;
      dest
    else
      assert pos.x - pos.x == 0 as real;
      pos
  }

  /** r is a whole number. */
  predicate IsWhole(r: real)
  {
    r == r.Floor as real
  }

  /** Steering toward dest: the normalised direction while farther than 5 units, otherwise stop. */
  function Steer(pos: Vector, dest: Vector, norm: Vector -> Vector): Vector
  {
    var direction := Sub(dest, pos);
    if LongerThan(direction, ArrivalRadius) then norm(direction) else Zero
  }

  /**
    Alpaca.update given the repulsion it collected: the timer always counts
    down by deltaTime; a non-zero repulsion makes the alpaca flee and drops
    its destination; otherwise an expired timer triggers a re-plan, and the
    alpaca steers toward its destination.  The position is never touched.
  */
  function React(a: AlpacaState, repulse: Vector, dt: real, w: WanderDraw, norm: Vector -> Vector): AlpacaState
    requires w.Valid()
  {
    var timer := a.timer - dt;
    var pos := a.motion.pos;
    if repulse.x != 0.0 || repulse.y != 0.0 then
      AlpacaState(a.motion.(movement := norm(repulse)), pos, timer)
    else if timer <= 0.0 then
      var dest := WanderDestination(pos, w);
      AlpacaState(a.motion.(movement := Steer(pos, dest, norm)), dest, WanderTimer(w.timer))
    else
      AlpacaState(a.motion.(movement := Steer(pos, a.destination, norm)), a.destination, timer)
  }

  /** Alpaca.update on the alpaca's state a, with the players at the positions ps. */
  ghost function Decide(a: AlpacaState, ps: map<string, Vector>, dt: real, w: WanderDraw, norm: Vector -> Vector): AlpacaState
    requires w.Valid()
  {
    React(a, Repulsion(a.motion.pos, ps), dt, w, norm)
  }

  /** Alpaca.move on the alpaca's state a. */
  function MovedAlpaca(a: AlpacaState, dt: real): AlpacaState
  {
    a.(motion := Moved(a.motion, AlpacaSpeed, dt))
  }

  /** One simulation tick for an alpaca: decide on the players' positions ps, then move. */
  ghost function TickAlpaca(a: AlpacaState, ps: map<string, Vector>, dt: real, w: WanderDraw, norm: Vector -> Vector): AlpacaState
    requires w.Valid()
  {
    MovedAlpaca(Decide(a, ps, dt, w, norm), dt)
  }

  /** Alpaca.update never changes the alpaca's position or velocity. */
  lemma ReactKeepsPosition(a: AlpacaState, repulse: Vector, dt: real, w: WanderDraw, norm: Vector -> Vector)
    requires w.Valid()
    ensures React(a, repulse, dt, w, norm).motion.pos == a.motion.pos
    ensures React(a, repulse, dt, w, norm).motion.velocity == a.motion.velocity
  {
  }

  /**
    Fleeing wins whatever the timer says: with a non-zero repulsion the
    alpaca heads the way the repulsion points, forgets its destination, and
    its timer only counts down.
  */
  lemma FleeWins(a: AlpacaState, repulse: Vector, dt: real, w: WanderDraw, norm: Vector -> Vector)
    requires w.Valid() && IsNormalizer(norm) && repulse != Zero
    ensures React(a, repulse, dt, w, norm).motion.movement == norm(repulse)
    ensures SameDirection(React(a, repulse, dt, w, norm).motion.movement, repulse)
    ensures MagSquared(React(a, repulse, dt, w, norm).motion.movement) == 1.0
    ensures React(a, repulse, dt, w, norm).destination == a.motion.pos
    ensures React(a, repulse, dt, w, norm).timer == a.timer - dt
  {
  }

  /**
    With no repulsion and time left on the timer, the destination is kept,
    the timer counts down, and the movement follows the arrival rule toward
    the kept destination.
  */
  lemma WanderKeepsDestination(a: AlpacaState, dt: real, w: WanderDraw, norm: Vector -> Vector)
    requires w.Valid() && a.timer - dt > 0.0
    ensures React(a, Zero, dt, w, norm).destination == a.destination
    ensures React(a, Zero, dt, w, norm).timer == a.timer - dt
    ensures React(a, Zero, dt, w, norm).motion.movement == Steer(a.motion.pos, a.destination, norm)
  {
  }

  /**
    With no repulsion and the timer run out, the alpaca re-plans: the timer
    is reset into [5000, 10000), the destination is its position moved by a
    whole number in [-100, 100) on each axis (zero when it stays put), and the
    movement follows the arrival rule toward the new destination.
  */
  lemma ReplanBounds(a: AlpacaState, dt: real, w: WanderDraw, norm: Vector -> Vector)
    requires w.Valid() && a.timer - dt <= 0.0
    ensures 5000.0 <= React(a, Zero, dt, w, norm).timer < 10000.0
    ensures var off := Sub(React(a, Zero, dt, w, norm).destination, a.motion.pos);
      -100.0 <= off.x < 100.0 && -100.0 <= off.y < 100.0 && IsWhole(off.x) && IsWhole(off.y)
    ensures RandomInt(w.move, 2) != 0 ==> React(a, Zero, dt, w, norm).destination == a.motion.pos
    ensures var r := React(a, Zero, dt, w, norm);
      r.motion.movement == Steer(a.motion.pos, r.destination, norm)
  {
  }

  /**
    The arrival rule: farther than 5 units from the destination the alpaca
    heads straight for it at unit intent; within 5 units it stops.
  */
  lemma SteerArrival(pos: Vector, dest: Vector, norm: Vector -> Vector)
    requires IsNormalizer(norm)
    ensures LongerThan(Sub(dest, pos), ArrivalRadius) ==>
      SameDirection(Steer(pos, dest, norm), Sub(dest, pos)) && MagSquared(Steer(pos, dest, norm)) == 1.0
    ensures !LongerThan(Sub(dest, pos), ArrivalRadius) ==> Steer(pos, dest, norm) == Zero
  {
    if LongerThan(Sub(dest, pos), ArrivalRadius) {
      assert Sub(dest, pos) != Zero;
    }
  }

  /** A re-plan that decides to stay puts the destination at the alpaca itself, so the alpaca stops. */
  lemma StayingPutStops(a: AlpacaState, dt: real, w: WanderDraw, norm: Vector -> Vector)
    requires w.Valid() && a.timer - dt <= 0.0 && RandomInt(w.move, 2) != 0
    ensures React(a, Zero, dt, w, norm).motion.movement == Zero
  {
    var r := React(a, Zero, dt, w, norm);
    assert r.destination == a.motion.pos;
    SteerAtDestination(a.motion.pos, norm);
  }

  /** An alpaca standing on its destination does not move. */
  lemma SteerAtDestination(pos: Vector, norm: Vector -> Vector)
    ensures Steer(pos, pos, norm) == Zero
  {
    assert Sub(pos, pos) == Zero;
  }

  /** Whatever happens, an alpaca's movement intent is a unit vector or zero. */
  lemma {:induction false} MovementUnitOrZero(a: AlpacaState, repulse: Vector, dt: real, w: WanderDraw, norm: Vector -> Vector)
    requires w.Valid() && IsNormalizer(norm)
    ensures var m := React(a, repulse, dt, w, norm).motion.movement;
      m == Zero || MagSquared(m) == 1.0
    ensures MagSquared(React(a, repulse, dt, w, norm).motion.movement) <= 1.0
  {
    var r := React(a, repulse, dt, w, norm);
    if repulse == Zero {
      SteerArrival(a.motion.pos, r.destination, norm);
    }
    if r.motion.movement == Zero {
      assert MagSquared(Zero) == 0.0;
    }
  }

  /** A move with a unit or zero intent carries an alpaca at most its speed times the elapsed time. */
  lemma MovedAlpacaBounded(d: AlpacaState, dt: real)
    requires MagSquared(d.motion.movement) <= 1.0
    ensures MagSquared(Sub(MovedAlpaca(d, dt).motion.pos, d.motion.pos)) <= (AlpacaSpeed * dt) * (AlpacaSpeed * dt)
  {
    MovedStepBounded(d.motion, AlpacaSpeed, dt);
  }

  /**
    One tick never carries an alpaca farther than its speed times the
    elapsed time.
  */
  lemma {:induction false} TickStepBounded(a: AlpacaState, ps: map<string, Vector>, dt: real, w: WanderDraw, norm: Vector -> Vector)
    requires w.Valid() && IsNormalizer(norm)
    ensures MagSquared(Sub(TickAlpaca(a, ps, dt, w, norm).motion.pos, a.motion.pos)) <= (AlpacaSpeed * dt) * (AlpacaSpeed * dt)
  {
    var d := Decide(a, ps, dt, w, norm);
    MovementUnitOrZero(a, Repulsion(a.motion.pos, ps), dt, w, norm);
    ReactKeepsPosition(a, Repulsion(a.motion.pos, ps), dt, w, norm);
    MovedAlpacaBounded(d, dt);
  }

  /** The same bound axis by axis, for a non-negative deltaTime. */
  lemma {:induction false} TickAxisBounded(a: AlpacaState, ps: map<string, Vector>, dt: real, w: WanderDraw, norm: Vector -> Vector)
    requires w.Valid() && IsNormalizer(norm) && dt >= 0.0
    ensures -(AlpacaSpeed * dt) <= TickAlpaca(a, ps, dt, w, norm).motion.pos.x - a.motion.pos.x <= AlpacaSpeed * dt
    ensures -(AlpacaSpeed * dt) <= TickAlpaca(a, ps, dt, w, norm).motion.pos.y - a.motion.pos.y <= AlpacaSpeed * dt
  {
    var d := Decide(a, ps, dt, w, norm);
    assert MagSquared(d.motion.movement) <= 1.0 by {
      MovementUnitOrZero(a, Repulsion(a.motion.pos, ps), dt, w, norm);
    }
    assert d.motion.pos == a.motion.pos by {
      ReactKeepsPosition(a, Repulsion(a.motion.pos, ps), dt, w, norm);
    }
    assert AlpacaSpeed * dt >= 0.0 by {
      NonNegativeProduct(AlpacaSpeed, dt);
    }
    assert TickAlpaca(a, ps, dt, w, norm).motion.pos == Moved(d.motion, AlpacaSpeed, dt).pos;
    assert -(AlpacaSpeed * dt) <= Moved(d.motion, AlpacaSpeed, dt).pos.x - d.motion.pos.x <= AlpacaSpeed * dt by {
      MovedAxisBounded(d.motion, AlpacaSpeed, dt);
    }
    assert -(AlpacaSpeed * dt) <= Moved(d.motion, AlpacaSpeed, dt).pos.y - d.motion.pos.y <= AlpacaSpeed * dt by {
      MovedAxisBounded(d.motion, AlpacaSpeed, dt);
    }
  }

  /**
    Once the timer has run out, the destination the alpaca had does not
    matter: both fleeing and re-planning overwrite it before it is used.
    Hence the (0, 0) destination a new alpaca starts with is never observed
    on a first update with a non-negative deltaTime.
  */
  lemma DestinationForgotten(a: AlpacaState, other: Vector, repulse: Vector, dt: real, w: WanderDraw, norm: Vector -> Vector)
    requires w.Valid() && a.timer - dt <= 0.0
    ensures React(a, repulse, dt, w, norm) == React(a.(destination := other), repulse, dt, w, norm)
  {
  }

  /**
    A lone player strictly within 100 units, anywhere but on the alpaca
    itself, makes the alpaca run directly away from it at unit intent.
  */
  lemma {:induction false} FleeFromLoneNeighbour(a: AlpacaState, ps: map<string, Vector>, near: string, dt: real, w: WanderDraw, norm: Vector -> Vector)
    requires w.Valid() && IsNormalizer(norm)
    requires near in ps && ps[near] != a.motion.pos && ShorterThan(Sub(a.motion.pos, ps[near]), FleeRadius)
    requires forall id :: id in ps && id != near ==> !ShorterThan(Sub(a.motion.pos, ps[id]), FleeRadius)
    ensures SameDirection(Decide(a, ps, dt, w, norm).motion.movement, Sub(a.motion.pos, ps[near]))
    ensures MagSquared(Decide(a, ps, dt, w, norm).motion.movement) == 1.0
    ensures Decide(a, ps, dt, w, norm).destination == a.motion.pos
  {
    LoneNeighbour(a.motion.pos, ps, near);
    var away := Sub(a.motion.pos, ps[near]);
    assert away != Zero;
    FleeWins(a, away, dt, w, norm);
  }

  /**
    The state new Alpaca() leaves: spawn position, no movement, velocity
    (0, 0), destination (0, 0) and timer 0.
  */
  function NewAlpaca(d: SpawnDraw): (a: AlpacaState)
    requires d.Valid()
    ensures 0.0 <= a.motion.pos.x < 600.0 && 0.0 <= a.motion.pos.y < 600.0
    ensures a.motion.movement == Zero && a.timer == 0.0
  {
    AlpacaState(Motion(SpawnPosition(d), Zero, Zero), Zero, 0.0)
  }

  /**
    A new alpaca behaves on its first update, for any non-negative
    deltaTime, exactly as if its destination had been set to its spawn
    position.
  */
  lemma FirstUpdateIgnoresInitialDestination(d: SpawnDraw, ps: map<string, Vector>, dt: real, w: WanderDraw, norm: Vector -> Vector)
    requires d.Valid() && w.Valid() && dt >= 0.0
    ensures Decide(NewAlpaca(d), ps, dt, w, norm) == Decide(NewAlpaca(d).(destination := SpawnPosition(d)), ps, dt, w, norm)
  {
    var a := NewAlpaca(d);
    DestinationForgotten(a, SpawnPosition(d), Repulsion(a.motion.pos, ps), dt, w, norm);
  }

  class Alpaca {
    const speed: real := AlpacaSpeed
    const color: string
    var pos: Vector
    var movement: Vector
    var velocity: Vector
    var destination: Vector
    var timer: real

    function View(): AlpacaState
      reads this
    {
      AlpacaState(Motion(pos, movement, velocity), destination, timer)
    }

    /**
      new Alpaca(): the destination is copied from the position while that
      is still the Entity default (0, 0), before the constructor draws the
      spawn position; the timer starts at 0.
    */
    constructor (d: SpawnDraw)
      requires d.Valid()
      ensures speed == AlpacaSpeed && color == "grey"
      ensures View() == NewAlpaca(d)
    {
      destination := Zero;
      color := AlpacaColors[RandomInt(d.pick, |AlpacaColors|)];
      timer := 0.0;
      pos := Vector(RandomInt(d.x, 600) as real, RandomInt(d.y, 600) as real);
      movement := Zero;
      velocity := Zero;
    }

    /**
      The forEach loop of Alpaca.update: the sum of pos - player.pos over the
      players strictly within 100 units, in whatever order the ids come.
    */
    method CollectRepulsion(players: map<string, Player>) returns (repulse: Vector)
      ensures repulse == Repulsion(pos, Positions(players))
    {
      ghost var ps := Positions(players);
      ghost var terms := Contributions(pos, ps);
      assert terms.Keys == ps.Keys == players.Keys;
      repulse := Zero;
      var remaining := players.Keys;
      while remaining != {}
        invariant remaining <= players.Keys
        invariant repulse == SumOver(terms, players.Keys - remaining)
        decreases remaining
      {
        var id :| id in remaining;
        var direction := Sub(pos, players[id].pos);
        if ShorterThan(direction, FleeRadius) {
          repulse := Add(repulse, direction);
        }
        ghost var done := players.Keys - remaining;
        SumRemove(terms, done + {id}, id);
        assert done + {id} - {id} == done;
        remaining := remaining - {id};
        assert players.Keys - remaining == done + {id};
      }
      assert players.Keys - remaining == ps.Keys;
    }

    /** Alpaca.update: players are only read; the alpaca's position and velocity are kept. */
    method Update(dt: real, players: map<string, Player>, w: WanderDraw, norm: Vector -> Vector)
      requires w.Valid()
      modifies this
      ensures View() == Decide(old(View()), old(Positions(players)), dt, w, norm)
    {
      timer := timer - dt;
      var repulse := CollectRepulsion(players);
      if repulse.x != 0.0 || repulse.y != 0.0 {
        movement := norm(repulse);
        destination := pos;
      } else {
        if timer <= 0.0 {
          Replan(w);
        }
        SteerToDestination(norm);
      }
    }

    /** The re-plan of Alpaca.update once the timer has run out: a new timer and a new destination. */
    method Replan(w: WanderDraw)
      requires w.Valid()
      modifies this
      ensures View() == old(View()).(timer := WanderTimer(w.timer), destination := WanderDestination(pos, w))
    {
      timer := (w.timer * 5.0 + 5.0) * 1000.0;
      var move := RandomInt(w.move, 2) == 0;
      if move {
        destination := Vector(pos.x + RandomInt(w.dx, 200) as real - 100.0, pos.y + RandomInt(w.dy, 200) as real - 100.0);
      } else {
        destination := pos;
      }
    }

    /** The arrival rule of Alpaca.update: head for the destination until within 5 units of it. */
    method SteerToDestination(norm: Vector -> Vector)
      modifies this
      ensures View() == old(View()).(motion := old(View()).motion.(movement := Steer(pos, destination, norm)))
    {
      var direction := Sub(destination, pos);
      if LongerThan(direction, ArrivalRadius) {
        movement := norm(direction);
      } else {
        movement := Zero;
      }
    }

    /** MovingEntity.move for an alpaca: destination and timer are kept. */
    method Move(dt: real)
      modifies this
      ensures View() == MovedAlpaca(old(View()), dt)
    {
      if movement.x != 0.0 {
        pos := pos.(x := pos.x + movement.x * speed * dt);
      }
      if movement.y != 0.0 {
        pos := pos.(y := pos.y + movement.y * speed * dt);
      }
      velocity := Vector(movement.x * speed, movement.y * speed);
    }
  }
}
