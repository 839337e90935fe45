# State-handler room: a verified model

This project models the simulation core of the Colyseus example room
`rooms/02-state-handler.ts`. One `State` holds the world of a room:
- players keyed by session id;
- an ordered list of alpacas;
- an ordered list of static grass decorations.

Players are steered by their clients. A client message either sets the
player's movement intent or claims a position. The server accepts a claimed
position only when it lies within 10 units of its own.

Alpacas run a small AI:
- a countdown timer;
- flight from every player closer than 100 units;
- otherwise, wandering to a random destination near themselves, stopping
  within 5 units of it.

Every tick of the room does three passes in order:
1. every alpaca decides on the players' positions;
2. every alpaca moves;
3. every player moves.

Modules, one per part of the program:

- `Vectors`: the `Vector` value with its vector arithmetic.
  - `mag() < r` and `mag() > r` become comparisons of squared magnitudes, so
    no square root is needed.
  - `normalized()` is a function parameter `norm`. `IsNormalizer` states what
    it promises: unit length, same direction. `Normalized` is the source's
    division by the magnitude, and `MagNormalizes` proves that it keeps that
    promise whenever `mag` is a square root.
- `Random`: every `Math.random()` is an explicit draw in [0, 1).
  `RandomInt` is `Math.floor(draw * n)`. `SpawnDraw` and `WanderDraw` group
  the draws that one constructor or one re-plan consumes.
- `Entities`:
  - `MovingEntity.move` as the specification function `Moved` and its lemmas;
  - the `Player` class, whose fields are updated in place;
  - the `Decoration` value.
- `AlpacaAI`:
  - the alpaca's abstract state `AlpacaState`;
  - the decision rule `React`. `Decide` is `React` applied to the repulsion
    summed over the players, and `TickAlpaca` is decide-then-move;
  - the `Alpaca` class, whose `Update` is proved equal to `Decide`.
- `World`: the `State` class with its player map and entity sequences.
- `Room`: the `StateHandlerRoom` class: admission, message dispatch and the
  tick.
- `Scenarios`: whole-run consequences:
  - bounded drift over many quiet ticks;
  - a wander re-plan sets off;
  - flight straight away from a lone player;
  - a departed player cannot be steered back.

Where the source would throw (a message for a session without a player),
the model returns `ok == false` and changes nothing.

In these places the code does something a reader might not expect; the
model follows the code:

- A new alpaca's `destination` is initialised while `pos` is still the
  `Entity` default, so it starts at (0, 0), not at the spawn position.
  `FirstUpdateIgnoresInitialDestination` shows this is never observable on a
  first update with a non-negative `deltaTime`.
- With no repulsion and an unexpired timer, the movement intent is
  recomputed every tick by the arrival rule. So an alpaca with a pending
  destination re-steers; it does not keep its old intent.
- `createPlayer` on an id that already has a player replaces it.
- `setPlayerMovement` or `checkPlayerPosition` for an id without a player
  dereferences `undefined`, which raises an error. It does not do nothing.

## Model

| member | source | states |
|---|---|---|
| Vectors.MagSquared | rooms/02-state-handler.ts:18-20 | the square of `mag()`, `x·x + y·y`; `MagThreshold` proves that comparing it with a squared threshold decides what comparing `mag()` decides |
| Vectors.ShorterThan | rooms/02-state-handler.ts:18-20 | `mag(v) < r`, written as `MagSquared(v) < r·r`; `MagThreshold` proves the two agree for r ≥ 0 |
| Vectors.LongerThan | rooms/02-state-handler.ts:18-20 | `mag(v) > r`, written as `MagSquared(v) > r·r`; `MagThreshold` proves the two agree for r ≥ 0 |
| Vectors.MagThreshold | rooms/02-state-handler.ts:18-20 | for m the magnitude (m ≥ 0, m² = x²+y²) and a non-negative threshold r, `m < r` holds exactly when `ShorterThan(v, r)` and `m > r` exactly when `LongerThan(v, r)`, so the squared comparisons decide what `mag()` comparisons decide |
| Vectors.IsNormalizer | rooms/02-state-handler.ts:22-24 | what `normalized()` promises of a non-zero vector: a unit-length result pointing the same way; `MagNormalizes` proves the source's formula meets it |
| Vectors.Normalized | rooms/02-state-handler.ts:22-24 | `normalized()` given the magnitude m: each coordinate divided by m |
| Vectors.NormalizedIsUnit | rooms/02-state-handler.ts:22-24 | dividing a vector by its positive magnitude gives a vector of squared length 1 that points the same way |
| Vectors.MagPositive | rooms/02-state-handler.ts:18-19 | a non-zero vector has a strictly positive magnitude, so the division in `normalized()` is defined |
| Vectors.IsMag | rooms/02-state-handler.ts:18-20 | what `mag()` returns: a non-negative number whose square is `x·x + y·y` |
| Vectors.MagNormalizes | rooms/02-state-handler.ts:18-24 | for any `mag` meeting `IsMag`, the source's `v / mag(v)` (with (0, 0) sent to (0, 0)) meets `IsNormalizer`, so the lemmas that assume `IsNormalizer` apply to the source's `normalized()` |
| Vectors.UnitAlongX | rooms/02-state-handler.ts:22-24 | a unit vector pointing the same way as a vector on the positive x axis is (1, 0): what `normalized()` returns for such a vector is determined |
| Random.RandomInt | rooms/02-state-handler.ts:140 | `Math.floor(draw * n)` for a draw in [0, 1) is an index in [0, n), and it is the floor of draw * n |
| Entities.Moved | rooms/02-state-handler.ts:53-61 | `move(dt)` on a motion: each coordinate advances by `movement.c · speed · dt` only when that component is non-zero, velocity becomes `movement · speed`, movement is kept; its properties are the `Moved…` lemmas below |
| Entities.MovedDisplacement | rooms/02-state-handler.ts:53-61 | after `move(dt)` each coordinate has changed by exactly `movement.c * speed * dt`, even though move skips zero components; velocity is `movement * speed` whatever dt is; movement is kept |
| Entities.MovedWithoutIntent | rooms/02-state-handler.ts:53-61 | with movement (0, 0), `move(dt)` leaves the position unchanged and sets velocity to (0, 0) |
| Entities.MovedNoTime | rooms/02-state-handler.ts:53-61 | `move(0)` never changes the position |
| Entities.MovedStepBounded | rooms/02-state-handler.ts:53-61 | with an intent of at most unit length, one move covers a squared distance of at most (speed·dt)² |
| Entities.MovedAxisBounded | rooms/02-state-handler.ts:53-61 | with such an intent and speed·dt ≥ 0, no coordinate moves by more than speed·dt |
| Entities.SpawnCoordinate | rooms/02-state-handler.ts:91 | `Math.floor(draw * width) + shift` is a whole number in [shift, shift + width) |
| Entities.SpawnPosition | rooms/02-state-handler.ts:73 | a player's or an alpaca's spawn position has coordinates in [0, 600) |
| Entities.Player.constructor | rooms/02-state-handler.ts:64-79 | a new player has speed 0.4, a colour from the six-colour palette picked by the draw, the spawn position, and neither intent nor velocity |
| Entities.Player.SetMovement | rooms/02-state-handler.ts:47-49 | the intent becomes the argument exactly, and position and velocity are kept |
| Entities.Player.Move | rooms/02-state-handler.ts:53-61 | the player's new position, intent and velocity are `Moved(old motion, speed, dt)` |
| Entities.NewDecoration | rooms/02-state-handler.ts:82-92 | a decoration is grass at a position in [-2000, 2000) on both axes |
| AlpacaAI.RepulsionFrom | rooms/02-state-handler.ts:124-130 | one player's term of the repulsion: `pos - player.pos` when strictly within 100 units, else (0, 0) |
| AlpacaAI.SumOver | rooms/02-state-handler.ts:120-131 | the sum of the terms over a set of ids, taken in an unspecified order; `SumRemove` proves the order does not matter |
| AlpacaAI.Repulsion | rooms/02-state-handler.ts:120-131 | the repulsion the forEach collects: the sum of `RepulsionFrom` over all players; `NoNeighbourNoRepulsion` and `LoneNeighbour` state its value in the two cases the AI depends on |
| AlpacaAI.SumRemove | rooms/02-state-handler.ts:121-131 | the repulsion sum is independent of the order the players are visited in: it is the sum of the rest plus any one player's term |
| AlpacaAI.NoNeighbourNoRepulsion | rooms/02-state-handler.ts:120-131 | with no player strictly within 100 units the summed repulsion is (0, 0) |
| AlpacaAI.LoneNeighbour | rooms/02-state-handler.ts:120-131 | with exactly one player within 100 units the repulsion is `pos - player.pos` for that player |
| AlpacaAI.WanderTimer | rooms/02-state-handler.ts:139 | a re-plan's timer `(draw * 5 + 5) * 1000` lies in [5000, 10000) |
| AlpacaAI.WanderDestination | rooms/02-state-handler.ts:140-147 | a re-plan's destination is pos plus a whole offset in [-100, 100) on each axis, and pos itself when the coin says stay |
| AlpacaAI.Steer | rooms/02-state-handler.ts:150-155 | the arrival rule: `normalized(dest - pos)` while farther than 5 units, else (0, 0); `SteerArrival` and `SteerAtDestination` state what it yields |
| AlpacaAI.React | rooms/02-state-handler.ts:117-157 | `update` given the collected repulsion: the timer counts down; non-zero repulsion flees and drops the destination; otherwise an expired timer re-plans, and the alpaca steers to its destination; the lemmas beside it (`ReactKeepsPosition`, `FleeWins`, `WanderKeepsDestination`, `ReplanBounds`, `MovementUnitOrZero`) state its cases |
| AlpacaAI.Decide | rooms/02-state-handler.ts:117-157 | `update` on the alpaca's state and the player positions: `React` with the summed `Repulsion`; `Alpaca.Update` is proved to compute it |
| AlpacaAI.MovedAlpaca | rooms/02-state-handler.ts:53-61 | `move(dt)` on an alpaca's state: its motion becomes `Moved(motion, 0.05, dt)`, destination and timer are kept |
| AlpacaAI.TickAlpaca | rooms/02-state-handler.ts:117-157 | one tick for an alpaca: `Decide`, then `MovedAlpaca`; `TickStepBounded` and `TickAxisBounded` bound how far it goes, and `StateHandlerRoom.Update` is proved to yield it |
| AlpacaAI.ReactKeepsPosition | rooms/02-state-handler.ts:117-157 | `Alpaca.update` never changes the alpaca's position or velocity |
| AlpacaAI.FleeWins | rooms/02-state-handler.ts:132-136 | with non-zero repulsion, whatever the timer: the intent is `normalized(repulse)` (unit length, same direction); the destination becomes pos; the timer is only decremented, never reset |
| AlpacaAI.WanderKeepsDestination | rooms/02-state-handler.ts:137-156 | with zero repulsion and the timer still positive after the decrement, the destination is unchanged, the timer is the decremented one, and the intent follows the arrival rule toward that destination |
| AlpacaAI.ReplanBounds | rooms/02-state-handler.ts:138-155 | with zero repulsion and an expired timer: the timer is reset into [5000, 10000); the destination is pos or pos plus a whole offset in [-100, 100) per axis; the intent follows the arrival rule toward the new destination |
| AlpacaAI.SteerArrival | rooms/02-state-handler.ts:150-155 | farther than 5 units from the destination the intent points at it with unit length; within 5 units it is (0, 0) |
| AlpacaAI.StayingPutStops | rooms/02-state-handler.ts:144-155 | a re-plan that decides to stay leaves the alpaca with intent (0, 0) |
| AlpacaAI.SteerAtDestination | rooms/02-state-handler.ts:150-155 | steering toward one's own position yields (0, 0) |
| AlpacaAI.MovementUnitOrZero | rooms/02-state-handler.ts:132-155 | after any update the alpaca's intent is (0, 0) or of unit length |
| AlpacaAI.MovedAlpacaBounded | rooms/02-state-handler.ts:53-61 | an alpaca with an intent of at most unit length moves at most a squared distance of (0.05·dt)² |
| AlpacaAI.TickStepBounded | rooms/02-state-handler.ts:117-157 | one update-then-move never carries an alpaca a squared distance over (0.05·dt)²: it never teleports |
| AlpacaAI.TickAxisBounded | rooms/02-state-handler.ts:117-157 | for dt ≥ 0 one update-then-move changes each coordinate by at most 0.05·dt |
| AlpacaAI.DestinationForgotten | rooms/02-state-handler.ts:132-147 | once the timer has run out, the previous destination has no influence on the update's result |
| AlpacaAI.FleeFromLoneNeighbour | rooms/02-state-handler.ts:120-136 | with a single distinct player within 100 units, the alpaca's intent becomes a unit vector pointing straight away from it, and the destination becomes its own position |
| AlpacaAI.NewAlpaca | rooms/02-state-handler.ts:95-111 | a new alpaca spawns in [0, 600)², with no intent and timer 0 |
| AlpacaAI.FirstUpdateIgnoresInitialDestination | rooms/02-state-handler.ts:98-99 | for dt ≥ 0 the first update gives the same result whether the initial destination is (0, 0), as in the code, or the spawn position |
| AlpacaAI.Alpaca.constructor | rooms/02-state-handler.ts:95-115 | a new alpaca has speed 0.05, colour grey and state `NewAlpaca(draw)` |
| AlpacaAI.Alpaca.CollectRepulsion | rooms/02-state-handler.ts:120-131 | the forEach over the players returns the summed repulsion `Repulsion(pos, positions)`, whatever the iteration order |
| AlpacaAI.Alpaca.Update | rooms/02-state-handler.ts:117-157 | the alpaca's new state is `Decide(old state, old player positions, dt, draw, norm)`; players are only read |
| AlpacaAI.Alpaca.Replan | rooms/02-state-handler.ts:138-147 | the re-plan sets the timer to `WanderTimer` and the destination to `WanderDestination`, nothing else |
| AlpacaAI.Alpaca.SteerToDestination | rooms/02-state-handler.ts:150-155 | the intent becomes `Steer(pos, destination)` and nothing else changes |
| AlpacaAI.Alpaca.Move | rooms/02-state-handler.ts:53-61 | the alpaca's motion becomes `Moved(old motion, 0.05, dt)`; destination and timer are kept |
| World.Reconciled | rooms/02-state-handler.ts:182-191 | the position `checkPlayerPosition` leaves: the claim when strictly within 10 units of the server's position, else the server's; `ReconciledAccepts` states both directions |
| World.ReconciledAccepts | rooms/02-state-handler.ts:182-191 | the server position becomes the client's claim when they are strictly within 10 units, and stays the server's own otherwise |
| World.ReconcileBoundary | rooms/02-state-handler.ts:185 | a claim 9.99 units off is accepted, one 10.01 units off is not |
| World.Decorations | rooms/02-state-handler.ts:197-199 | the decorations built from the draws, one per draw and in order |
| World.State.constructor | rooms/02-state-handler.ts:160-168 | a new state has no players, alpacas or decorations |
| World.State.CreatePlayer | rooms/02-state-handler.ts:170-172 | id now maps to a fresh player at its spawn position, standing still, coloured `playersColors[floor(pick · 6)]`, replacing any previous one; every other player, the alpacas and the decorations are untouched |
| World.State.RemovePlayer | rooms/02-state-handler.ts:174-176 | id is absent afterwards, whether or not it was present, and every other player is kept |
| World.State.SetPlayerMovement | rooms/02-state-handler.ts:178-180 | the player's intent becomes the given vector and nothing else changes; with no player under id it fails (the source throws) and nothing changes |
| World.State.CheckPlayerPosition | rooms/02-state-handler.ts:182-191 | the player's position becomes the claim exactly when it is within 10 units, otherwise it is kept; its intent and velocity and every other player are untouched; an unknown id fails and nothing changes |
| World.State.Init | rooms/02-state-handler.ts:193-200 | one fresh alpaca per alpaca draw and then one hundred decorations are appended in order; the players are untouched |
| Room.RequestJoin | rooms/02-state-handler.ts:217-221 | a create request is admitted exactly when the room is new; any other request exactly when the room already has clients |
| Room.JoinAdmission | rooms/02-state-handler.ts:217-221 | no join enters a room it should not: a create request never enters a room that already existed, and a plain join never enters an empty room |
| Room.StateHandlerRoom.OnInit | rooms/02-state-handler.ts:204-215 | the room's fresh state has no players, one alpaca per draw as spawned, and the hundred decorations |
| Room.StateHandlerRoom.OnJoin | rooms/02-state-handler.ts:223-225 | the joining session gets a fresh player at its spawn position, standing still, coloured `playersColors[floor(pick · 6)]`, and the rest of the world is untouched |
| Room.StateHandlerRoom.OnLeave | rooms/02-state-handler.ts:227-229 | the leaving session's player is gone, and every other player is kept |
| Room.StateHandlerRoom.OnMessage | rooms/02-state-handler.ts:231-242 | a movement message sets the sender's intent; a position message reconciles the sender's position; any other kind changes nothing; a known kind from a session without a player fails; no other player ever changes |
| Room.StateHandlerRoom.Update | rooms/02-state-handler.ts:248-266 | every alpaca ends in `TickAlpaca` of its old state and of the player positions from before the tick, since all updates happen before any move; every player ends in `Moved(old motion, 0.4, dt)`; players, alpacas and decorations stay the same collections |
| Room.StateHandlerRoom.SteerAlpacas | rooms/02-state-handler.ts:249-253 | the alpaca pass: alpaca j ends in `Decide(old state, old positions, dt, draw j)`, and no player moves |
| Room.StateHandlerRoom.MoveAlpacas | rooms/02-state-handler.ts:255-259 | the alpaca move pass: every alpaca ends in `MovedAlpaca(old state, dt)`, and no player moves |
| Room.StateHandlerRoom.MovePlayers | rooms/02-state-handler.ts:260-265 | the player pass moves every player exactly once, in any key order, and leaves the alpacas alone |
| Scenarios.QuietRunDrift | rooms/02-state-handler.ts:248-266 | over n ticks with no players, an alpaca drifts at most n·0.05·dt along each axis |
| Scenarios.WanderSetsOff | rooms/02-state-handler.ts:138-155 | an alpaca with nobody near, whose timer runs out and whose re-plan picks a destination more than 5 units off, has left its spot by the end of a tick with dt > 0 |
| Scenarios.FleeAlongX | rooms/02-state-handler.ts:120-136 | an alpaca at (310, 300) with the only player at (300, 300) takes intent (1, 0), away from the player along x |
| Scenarios.LeftPlayerStaysGone | rooms/02-state-handler.ts:170-180 | after `createPlayer(id)` and `removePlayer(id)`, `setPlayerMovement(id, m)` fails and does not bring the player back |

## Left out

- `Math.sqrt`, `Math.pow` and IEEE floating point are not modelled. Coordinates are reals. Each `mag()` threshold test (lines 127, 151 and 185) is an exact squared comparison. Rounding, overflow to infinity and NaN are outside the model. For instance, in doubles the largest draw, 1 − 2⁻⁵³, makes `(r * 5 + 5) * 1000` round to exactly 10000.
- `normalized()` is not computed. Every operation takes it as a parameter `norm`. The lemmas assume only what `IsNormalizer` says: unit length and the same direction, for a non-zero argument. Its NaN result on (0, 0) is never reached, because of the guards on lines 132 and 151, so nothing is asked of `norm` there. `MagNormalizes` shows that the source's division by `mag()` meets `IsNormalizer`.
- WanderTimer: the strict upper bound `t < 10000` holds over the reals; in doubles the largest draw rounds to exactly 10000, so the source's bound is `t ≤ 10000`.
- IsMag: a `mag` that meets it is a square root, which Dafny's reals do not construct, so `MagNormalizes` is stated for any such function rather than a defined one.
- FleeWins: states the intent up to what `normalized()` promises (unit length, same direction), not its exact floating-point value, because the square root is not modelled.
- SteerArrival: the same, for the intent toward the destination.
- FleeFromLoneNeighbour: the same, for flight from one player.
- `Math.random()` is not called. Each draw in [0, 1) is an explicit parameter: the colour or grass pick, spawn coordinates, the re-plan timer, the stay-or-move coin and the two offsets.
- From the Colyseus framework, none of these are modelled: schema replication, `setState`, `setMetadata`, `setSimulationInterval` scheduling, the client list and `onDispose`.
  - `requestJoin` receives the client count as a number.
  - `options.create` is a boolean, not an arbitrary truthy value.
  - The tick is a method taking `deltaTime`.
- `console.log` diagnostics are left out, at lines 189, 205 and 245.
- The HTTP server bootstrap in `index.ts` is not part of this model.
- `velocity` is undefined until an entity's first `move`. The model starts it at (0, 0).
- From the `any` message payload, only the numeric `x` and `y` fields are modelled. Missing or non-numeric fields are not.
- `setMovement` stores the client's payload object itself, where the model stores its value. Aliasing between the payload and the player is not modelled.
- The repulsion sum is modelled over the set of player ids. In exact arithmetic the visiting order does not matter, as `SumRemove` shows. The floating-point dependence on the order of `Object.keys` is not captured.
- `MovingEntity.move` shares one body between players and alpacas. Without a shared base class, the model has one `Move` method in each class, and both are specified by the one function `Moved`.
- The guards `if(this.state.alpacas)` and `if(this.state.players)` in `update` always hold for a constructed state, so the model runs the passes unconditionally.
- `StateHandlerRoom.Update` takes one wander draw per alpaca, consumed only by a re-plan. It also takes one `deltaTime` per tick, as the scheduler supplies.
