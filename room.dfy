/**
  class StateHandlerRoom of rooms/02-state-handler.ts: the room that owns one
  State, admits clients, turns their messages into state changes and advances
  the simulation one tick at a time.  The framework around it (clients,
  scheduling, state synchronisation) is not modelled: the number of clients a
  join request sees, the tick's elapsed time and the random draws arrive as
  parameters.
*/
module Room {
  import opened Vectors
  import opened Random
  import opened Entities
  import opened AlpacaAI
  import opened World

  /** The message kinds a client may send; any other kind is ignored. */
  const SetMovementKind: string := "set_player_movement"
  const CheckPositionKind: string := "check_player_position"

  /** A client message: its type tag and the x/y pair it carries. */
  datatype Message = Message(kind: string, payload: Vector)

  /**
    requestJoin: a client asking to create a room is admitted only into a
    room that is new; any other client only into a room that already has
    clients.
  */
  function RequestJoin(create: bool, isNewRoom: bool, clientCount: nat): (admit: bool)
    ensures create ==> (admit <==> isNewRoom)
    ensures !create ==> (admit <==> clientCount > 0)
  {
    if create then create && isNewRoom else clientCount > 0
  }

  /**
    No join enters a room it should not: a create request never enters a room
    that already existed, and a plain join never enters an empty room.
  */
  lemma JoinAdmission(isNewRoom: bool, clientCount: nat)
    ensures !RequestJoin(true, false, clientCount)
    ensures !RequestJoin(false, isNewRoom, 0)
  {
  }

  class StateHandlerRoom {
    const state: State

    ghost predicate Valid()
      reads this, state
    {
      state.Valid()
    }

    /**
      onInit: a fresh State with no players, AlpacaCount alpacas and
      DecorationCount decorations, built from the given draws.
    */
    constructor OnInit(alpacaDraws: seq<SpawnDraw>, decorationDraws: seq<SpawnDraw>)
      requires |alpacaDraws| == AlpacaCount && |decorationDraws| == DecorationCount
      requires forall i :: 0 <= i < |alpacaDraws| ==> alpacaDraws[i].Valid()
      requires forall i :: 0 <= i < |decorationDraws| ==> decorationDraws[i].Valid()
      ensures Valid() && fresh(state)
      ensures state.players == map[]
      ensures |state.alpacas| == AlpacaCount
      ensures forall a :: a in state.alpacas ==> fresh(a)
      ensures forall i :: 0 <= i < AlpacaCount ==> state.alpacas[i].View() == NewAlpaca(alpacaDraws[i])
      ensures state.decorations == Decorations(decorationDraws)
    {
      var s := new State();
      s.Init(alpacaDraws, decorationDraws);
      assert s.alpacas[0..] == s.alpacas;
      state := s;
    }

    /** onJoin: the client's session gets a new player; nobody else changes. */
    method OnJoin(sessionId: string, d: SpawnDraw)
      requires Valid() && d.Valid()
      modifies state
      ensures Valid()
      ensures state.players.Keys == old(state.players).Keys + {sessionId}
      ensures fresh(state.players[sessionId])
      ensures state.players[sessionId].color == PlayerColors[RandomInt(d.pick, |PlayerColors|)]
      ensures state.players[sessionId].CurrentMotion() == Motion(SpawnPosition(d), Zero, Zero)
      ensures forall k :: k in old(state.players) && k != sessionId ==> state.players[k] == old(state.players)[k]
      ensures state.alpacas == old(state.alpacas) && state.decorations == old(state.decorations)
    {
      state.CreatePlayer(sessionId, d);
    }

    /** onLeave: the client's player is gone and every other player is kept. */
    method OnLeave(sessionId: string)
      requires Valid()
      modifies state
      ensures Valid()
      ensures state.players == old(state.players) - {sessionId}
      ensures state.alpacas == old(state.alpacas) && state.decorations == old(state.decorations)
    {
      state.RemovePlayer(sessionId);
    }

    /**
      onMessage: a movement message sets the sender's intent to the payload,
      a position message reconciles the sender's position with the payload,
      and a message of any other kind changes nothing.  ok is false exactly
      when a known kind names a session without a player, where the source
      throws.  No other player changes either way.
    */
    method OnMessage(sessionId: string, msg: Message) returns (ok: bool)
      requires Valid()
      modifies if sessionId in state.players then {state.players[sessionId]} else {}
      ensures ok <==> (sessionId in state.players || (msg.kind != SetMovementKind && msg.kind != CheckPositionKind))
      ensures ok && msg.kind == SetMovementKind ==>
        state.players[sessionId].CurrentMotion() == old(state.players[sessionId].CurrentMotion()).(movement := msg.payload)
      ensures ok && msg.kind == CheckPositionKind ==>
        state.players[sessionId].CurrentMotion()
          == old(state.players[sessionId].CurrentMotion()).(pos := Reconciled(old(state.players[sessionId].pos), msg.payload))
      ensures msg.kind != SetMovementKind && msg.kind != CheckPositionKind ==>
        forall k :: k in state.players ==> state.players[k].CurrentMotion() == old(state.players[k].CurrentMotion())
      ensures forall k :: k in state.players && k != sessionId ==>
        state.players[k].CurrentMotion() == old(state.players[k].CurrentMotion())
    {
      if msg.kind == SetMovementKind {
        ok := state.SetPlayerMovement(sessionId, msg.payload);
      } else if msg.kind == CheckPositionKind {
        var clientPosition := Vector(msg.payload.x, msg.payload.y);
        ok := state.CheckPlayerPosition(sessionId, clientPosition);
      } else {
        ok := true;
      }
    }

    /**
      update: one tick of the simulation.  Every alpaca first decides on the
      player positions as they were at the start of the tick, then every
      alpaca moves, then every player moves.  Alpaca j ends in
      TickAlpaca(its old state, the old player positions, dt, wander[j], norm);
      every player ends in Moved(its old motion, PlayerSpeed, dt); the set of
      players and the decorations are untouched.
    */
    method Update(dt: real, wander: seq<WanderDraw>, norm: Vector -> Vector)
      requires Valid()
      requires |wander| == |state.alpacas|
      requires forall j :: 0 <= j < |wander| ==> wander[j].Valid()
      modifies state.alpacas, state.players.Values
      ensures forall j :: 0 <= j < |state.alpacas| ==>
        state.alpacas[j].View() == TickAlpaca(old(state.alpacas[j].View()), old(state.PlayerPositions()), dt, wander[j], norm)
      ensures forall k :: k in state.players ==>
        state.players[k].CurrentMotion() == Moved(old(state.players[k].CurrentMotion()), PlayerSpeed, dt)
      ensures state.players == old(state.players) && state.alpacas == old(state.alpacas)
      ensures state.decorations == old(state.decorations)
    {
      SteerAlpacas(dt, wander, norm);
      label decided:
      MoveAlpacas(dt);
      label moved:
      MovePlayers(dt);
      assert forall j :: 0 <= j < |state.alpacas| ==> state.alpacas[j].View() == old@moved(state.alpacas[j].View());
    }

    /** The first pass of update: every alpaca runs its AI against the unchanged player positions. */
    method SteerAlpacas(dt: real, wander: seq<WanderDraw>, norm: Vector -> Vector)
      requires Valid()
      requires |wander| == |state.alpacas|
      requires forall j :: 0 <= j < |wander| ==> wander[j].Valid()
      modifies state.alpacas
      ensures forall j :: 0 <= j < |state.alpacas| ==>
        state.alpacas[j].View() == Decide(old(state.alpacas[j].View()), old(state.PlayerPositions()), dt, wander[j], norm)
      ensures state.PlayerPositions() == old(state.PlayerPositions())
      ensures forall k :: k in state.players ==> state.players[k].CurrentMotion() == old(state.players[k].CurrentMotion())
    {
      ghost var ps := state.PlayerPositions();
      var i := 0;
      while i < |state.alpacas|
        invariant 0 <= i <= |state.alpacas|
        invariant forall j :: 0 <= j < i ==>
          state.alpacas[j].View() == Decide(old(state.alpacas[j].View()), ps, dt, wander[j], norm)
        invariant forall j :: i <= j < |state.alpacas| ==> state.alpacas[j].View() == old(state.alpacas[j].View())
        invariant forall k :: k in state.players ==> state.players[k].CurrentMotion() == old(state.players[k].CurrentMotion())
        invariant state.PlayerPositions() == ps
      {
        state.alpacas[i].Update(dt, state.players, wander[i], norm);
        i := i + 1;
      }
    }

    /** The second pass of update: every alpaca moves along its chosen intent. */
    method MoveAlpacas(dt: real)
      requires Valid()
      modifies state.alpacas
      ensures forall j :: 0 <= j < |state.alpacas| ==>
        state.alpacas[j].View() == MovedAlpaca(old(state.alpacas[j].View()), dt)
      ensures forall k :: k in state.players ==> state.players[k].CurrentMotion() == old(state.players[k].CurrentMotion())
    {
      var i := 0;
      while i < |state.alpacas|
        invariant 0 <= i <= |state.alpacas|
        invariant forall j :: 0 <= j < i ==> state.alpacas[j].View() == MovedAlpaca(old(state.alpacas[j].View()), dt)
        invariant forall j :: i <= j < |state.alpacas| ==> state.alpacas[j].View() == old(state.alpacas[j].View())
        invariant forall k :: k in state.players ==> state.players[k].CurrentMotion() == old(state.players[k].CurrentMotion())
      {
        state.alpacas[i].Move(dt);
        i := i + 1;
      }
    }

    /** The third pass of update: every player moves, each exactly once, in whatever order the keys come. */
    method MovePlayers(dt: real)
      requires Valid()
      modifies state.players.Values
      ensures forall k :: k in state.players ==>
        state.players[k].CurrentMotion() == Moved(old(state.players[k].CurrentMotion()), PlayerSpeed, dt)
      ensures forall j :: 0 <= j < |state.alpacas| ==> state.alpacas[j].View() == old(state.alpacas[j].View())
    {
      var remaining := state.players.Keys;
      while remaining != {}
        invariant remaining <= state.players.Keys
        invariant forall k :: k in state.players && k !in remaining ==>
          state.players[k].CurrentMotion() == Moved(old(state.players[k].CurrentMotion()), PlayerSpeed, dt)
        invariant forall k :: k in remaining ==> state.players[k].CurrentMotion() == old(state.players[k].CurrentMotion())
        invariant forall j :: 0 <= j < |state.alpacas| ==> state.alpacas[j].View() == old(state.alpacas[j].View())
        decreases remaining
      {
        var id :| id in remaining;
        state.players[id].Move(dt);
        remaining := remaining - {id};
      }
    }
  }
}
